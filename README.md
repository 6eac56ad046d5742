# Bank account reducer, modelled in Dafny

A React component, `src/App.js`, keeps one bank account in a `useReducer`
slot. The record has seven fields: `balance`, `loan`, `isActive`, and four
amounts that the input fields stage before a button commits them
(`depositAmount`, `withdrawAmount`, `loanAmount`, `payLoanAmount`). The
`reducer` takes the record and an action `{ type, payload }` and returns the
next record. It switches over ten action types and throws on any other.

This project models that reducer as a pure Dafny function. It has two files:

- `bank_account.dfy`, module `BankAccount`:
  - the record (`Account`) and `InitialState`;
  - the raw action (`Action`, a `type` string and a payload);
  - the `switch` dispatch (`Decode`, from a tag string to the closed `Kind` enum);
  - one function per `case` branch, plus `Reduce`.
  - `Reduce` returns an `Outcome`:
    - `Ok` is a new record;
    - `Notice` is the returned record together with the alert the branch raised;
    - `Wrapped` is the malformed `{ state }` object from `closeAccount`;
    - `UnknownAction` is the `default` branch's throw.
- `sessions.dfy`, module `Sessions`: sequences of dispatches against the
  slot (`Step`, `Run`), and properties that hold across them. It also
  runs one concrete session through `Run`: open, deposit, loan, pay, close.

Amounts are unbounded integers of either sign. The input handlers accept
negative numbers, so no sign is assumed.

### Where the header comment and the code disagree

The comment at the top of `src/App.js` (lines 5-21) describes intended
behaviour. The model follows the code:

- The reducer never reads `isActive`. Inactive accounts are protected only
  by the buttons' `disabled` attributes, not by the reducer.
  `ReduceIgnoresIsActive` and `ClosedAccountTakesDeposit` state this.
- `requestLoan` always overwrites `loan` with the staged amount, even when a
  loan already exists. It credits the balance only when the previous loan was
  0 (`SecondLoanOverwrites`).
- `payLoan` debits the whole pre-payment loan from the balance, not the
  payment (`PartialPaymentDebitsWholeLoan`).
- `closeAccount` has three outcomes:
  - both balance and loan nonzero: it returns the wrapped `{ state }`;
  - both zero: it returns exactly the initial record;
  - exactly one nonzero: it clears the staged amounts and keeps (or sets)
    `isActive` true.

  So closing with a balance of 700 and no loan does not deactivate the
  account (`SessionFromInitialState`).
- The loan stays non-negative only as long as no negative loan request is
  staged: `requestLoan` copies the staged amount whatever its sign
  (`NegativeLoanRequestTakesEffect`, `RunKeepsLoanSound`).

## Model

| member | source | states |
|---|---|---|
| `BankAccount.InitialState` | src/App.js:23-31 | the starting record is the one record that is inactive with zero balance, zero loan and all four staged amounts zero |
| `BankAccount.Decode` | src/App.js:34-102 | the tag selects a case exactly when it is one of the ten case labels, and the selected case's label is that tag; every other tag selects none (the `default` throw) |
| `BankAccount.DecodeTagName` | src/App.js:34-102 | each of the ten kinds, dispatched under its own label, reaches its own case |
| `BankAccount.OpenAccountCase` | src/App.js:35-40 | whatever the prior state: balance becomes 500 and the account active; loan and staged amounts are unchanged |
| `BankAccount.DepositCase` | src/App.js:41-46 | balance grows by exactly the staged deposit; every other field, the staged deposit included, is unchanged |
| `BankAccount.DefineDepositAmountCase` | src/App.js:47-48 | the staged deposit becomes the payload and nothing else changes |
| `BankAccount.WithdrawCase` | src/App.js:49-60 | a notice ("Not enough money!") with the state unchanged exactly when the staged amount exceeds the balance; otherwise the balance falls by the staged amount, ends non-negative, and nothing else changes |
| `BankAccount.DefineWithdrawAmountCase` | src/App.js:61-62 | the staged withdrawal becomes the payload and nothing else changes |
| `BankAccount.RequestLoanCase` | src/App.js:63-69 | the loan always becomes the staged amount; the balance grows by it only when the prior loan was 0 and is unchanged otherwise; nothing else changes |
| `BankAccount.DefineLoanAmountCase` | src/App.js:70-71 | the staged loan request becomes the payload and nothing else changes |
| `BankAccount.PayLoanCase` | src/App.js:72-84 | a notice naming the current loan, with the state unchanged, exactly when the payment exceeds the loan; otherwise the loan falls by the payment and stays non-negative, the balance falls by the pre-payment loan, nothing else changes, and paying exactly the loan leaves it 0 |
| `BankAccount.DefinePayLoanAmountCase` | src/App.js:85-86 | the staged payment becomes the payload and nothing else changes |
| `BankAccount.CloseAccountCase` | src/App.js:87-100 | the wrapped state exactly when balance and loan are both nonzero; otherwise the staged amounts are all 0, balance and loan are unchanged, and the account is active exactly when one of them is nonzero; with both zero the result is the initial record |
| `BankAccount.Reduce` | src/App.js:33-104 | an unknown action exactly when the tag is none of the ten labels; the wrapped outcome only from `closeAccount`, carrying the input state; a notice always carries the input state unchanged; no action other than open and close changes `isActive` |
| `BankAccount.ReduceIgnoresIsActive` | src/App.js:33-104 | flipping `isActive` in the input changes the outcome only in `isActive`, and open and a non-wrapping close give the same outcome either way: no branch is guarded by `isActive` |
| `BankAccount.ActiveChangesOnlyOnOpenOrClose` | src/App.js:33-104 | `openAccount` always succeeds and sets `isActive` true; a non-wrapping `closeAccount` sets it to "balance or loan nonzero" (that no other action writes it is in `Reduce`'s contract) |
| `Sessions.Step` | src/App.js:33-104 | after one dispatch the slot holds the record an `Ok` or a `Notice` returns; a wrapped `{ state }` or an unknown action leaves no account record |
| `Sessions.Run` | src/App.js:33-104 | dispatching a sequence of actions one after another; a sequence of known actions with no `closeAccount` never stops early, since only a wrapping close or an unknown tag can stop it |
| `Sessions.RunAppend` | src/App.js:33-104 | dispatching two sequences one after the other is dispatching their concatenation (`Run` stands in for the `useReducer` slot, which is not modelled) |
| `Sessions.RunKeepsActivation` | src/App.js:33-104 | across any sequence of dispatches with no open and no close, `isActive` keeps its value |
| `Sessions.StepKeepsLoanSound` | src/App.js:63-84 | one dispatch keeps loan and staged loan request non-negative, provided any staged loan request is non-negative |
| `Sessions.RunKeepsLoanSound` | src/App.js:63-84 | the same across any sequence of dispatches |
| `Sessions.OpenThenCloseRestoresInitial` | src/App.js:23-100 | open, then any sequence that brings balance and loan back to 0, then close: the slot holds the initial record again |
| `Sessions.SessionOpenAndDeposit` | src/App.js:35-48 | from the initial record, opening and depositing a staged 200 gives balance 700, active |
| `Sessions.SessionLoanAndRepay` | src/App.js:63-86 | from balance 700, staging and taking a loan of 300 then staging and paying 300 gives balance 700 and loan 0 |
| `Sessions.SessionFromInitialState` | src/App.js:23-100 | the whole session open, deposit 200, loan 300, pay 300, close ends at balance 700, loan 0, nothing staged and still active: the initial record is not restored |
| `Sessions.OverdraftRefused` | src/App.js:49-53 | withdrawing 1000 from 700 returns the state unchanged with the "Not enough money!" notice |
| `Sessions.SecondLoanOverwrites` | src/App.js:63-69 | a new request of 50 while a loan of 300 is outstanding replaces the loan and leaves the balance alone |
| `Sessions.ClosedAccountTakesDeposit` | src/App.js:41-46 | an inactive account still takes a deposit |
| `Sessions.NegativeLoanRequestTakesEffect` | src/App.js:63-69 | a staged loan request of -10 with no loan outstanding becomes a loan of -10 and lowers the balance by 10 |
| `Sessions.PartialPaymentDebitsWholeLoan` | src/App.js:72-84 | paying 100 on a loan of 300 takes 300 from the balance and leaves a loan of 200 |

## Left out

- The `App` component is not modelled: JSX rendering, the `useReducer` wiring itself and the buttons' `disabled` attributes (src/App.js:106-240). It is presentation only. `Run` stands in for the slot that `useReducer` threads through successive dispatches.
- The `alert` calls are browser I/O. They become the `Advisory` carried by a `Notice`. The loan amount is kept as a number rather than formatted into the message text.
- The `throw` of the `default` branch becomes the `UnknownAction` outcome. Exception propagation through React is not modelled.
- The `{ state }` object that `closeAccount` returns when balance and loan are both nonzero becomes the `Wrapped` outcome. What later dispatches would compute on that object, whose fields are undefined, is not modelled: `Run` stops there, and also after an unknown action.
- JavaScript `Number` semantics are not modelled: floating point, `NaN`, and the `isNaN(Number(...))` input filter in the handlers. Amounts are mathematical integers.
- The `./styles.css` import is not modelled.
