/** The state-transition function of a single bank account, as a React
    reducer computes it: a record of seven fields and an action in, the next
    record (or one of the reducer's other outcomes) out. */
module BankAccount {

  datatype Option<+T> = None | Some(value: T)

  /** The record held in the reducer slot: the balance, the outstanding loan,
      whether the account is open, and four amounts staged by the input
      fields before the matching button commits them. All amounts are
      integers of either sign: the input handlers accept negative numbers. */
  datatype Account = Account(
    balance: int,
    loan: int,
    isActive: bool,
    depositAmount: int,
    withdrawAmount: int,
    loanAmount: int,
    payLoanAmount: int)

  /** True when the four staged amounts are all zero. */
  predicate NothingStaged(s: Account) {
    s.depositAmount == 0 && s.withdrawAmount == 0 && s.loanAmount == 0 && s.payLoanAmount == 0
  }

  /** The record the reducer slot starts from: the one closed account with
      no money, no loan and nothing staged. */
  function InitialState(): (r: Account)
    ensures forall t: Account :: t == r <==> !t.isActive && t.balance == 0 && t.loan == 0 && NothingStaged(t)
  {
    Account(0, 0, false, 0, 0, 0, 0)
  }

  /** The ten action tags the reducer's `switch` knows. */
  datatype Kind =
    | OpenAccount
    | Deposit
    | DefineDepositAmount
    | Withdraw
    | DefineWithdrawAmount
    | RequestLoan
    | DefineLoanAmount
    | PayLoan
    | DefinePayLoanAmount
    | CloseAccount

  /** A dispatched action: its `type` string and its `payload`, which only
      the four define actions read. */
  datatype Action = Action(tag: string, payload: int)

  /** The `type` string under which each kind is dispatched. */
  function TagName(k: Kind): string {
    match k
    case OpenAccount => "openAccount"
    case Deposit => "deposit"
    case DefineDepositAmount => "defineDepositAmount"
    case Withdraw => "withdraw"
    case DefineWithdrawAmount => "defineWithdrawAmount"
    case RequestLoan => "requestLoan"
    case DefineLoanAmount => "defineLoanAmount"
    case PayLoan => "payLoan"
    case DefinePayLoanAmount => "definePayLoanAmount"
    case CloseAccount => "closeAccount"
  }

  /** The `switch (action.type)` dispatch: which case label, if any, a tag
      selects. */
  function Decode(tag: string): (r: Option<Kind>)
    ensures r.Some? ==> TagName(r.value) == tag
    ensures r.None? <==> forall k: Kind :: TagName(k) != tag
  {
    if tag == "openAccount" then Some(OpenAccount)
    else if tag == "deposit" then Some(Deposit)
    else if tag == "defineDepositAmount" then Some(DefineDepositAmount)
    else if tag == "withdraw" then Some(Withdraw)
    else if tag == "defineWithdrawAmount" then Some(DefineWithdrawAmount)
    else if tag == "requestLoan" then Some(RequestLoan)
    else if tag == "defineLoanAmount" then Some(DefineLoanAmount)
    else if tag == "payLoan" then Some(PayLoan)
    else if tag == "definePayLoanAmount" then Some(DefinePayLoanAmount)
    else if tag == "closeAccount" then Some(CloseAccount)
    else None
  }

  /** Every kind, dispatched under its own tag, reaches its own case. */
  lemma DecodeTagName(k: Kind)
    ensures Decode(TagName(k)) == Some(k)
  {
  }

  /** What the two `alert` calls tell the user. */
  datatype Advisory =
    | NotEnoughMoney           // "Not enough money!"
    | CurrentLoanIs(loan: int) // "Current loan is <loan> $ !"

  /** What one reducer call produces. `Notice` is a returned state together
      with the alert shown before returning it; `Wrapped` is the malformed
      `{ state }` object that `closeAccount` returns when both balance and
      loan are nonzero; `UnknownAction` is the `default` branch's throw. */
  datatype Outcome =
    | Ok(next: Account)
    | Notice(next: Account, advisory: Advisory)
    | Wrapped(inner: Account)
    | UnknownAction

  /** `openAccount`: the balance becomes 500 and the account active, whatever
      the prior state; the loan and the staged amounts are kept. */
  function OpenAccountCase(s: Account): (r: Account)
    ensures r.balance == 500 && r.isActive
    ensures r.(balance := s.balance, isActive := s.isActive) == s
  {
    Account(500, s.loan, true, s.depositAmount, s.withdrawAmount, s.loanAmount, s.payLoanAmount)
  }

  /** `deposit`: the staged deposit is added to the balance; nothing else
      changes, the staged deposit included. */
  function DepositCase(s: Account): (r: Account)
    ensures r.balance - s.balance == s.depositAmount
    ensures r.(balance := s.balance) == s
  {
    s.(depositAmount := s.depositAmount, balance := s.balance + s.depositAmount)
  }

  /** `defineDepositAmount`: stages the payload as the deposit amount. */
  function DefineDepositAmountCase(s: Account, payload: int): (r: Account)
    ensures r.depositAmount == payload
    ensures r.(depositAmount := s.depositAmount) == s
  {
    s.(depositAmount := payload)
  }

  /** `withdraw`: refused with a notice, the state returned as it was, when
      the staged amount exceeds the balance; otherwise the staged amount is
      taken from the balance, which therefore never ends negative. */
  function WithdrawCase(s: Account): (r: Outcome)
    ensures r.Notice? <==> s.withdrawAmount > s.balance
    ensures r.Notice? ==> r.next == s && r.advisory == NotEnoughMoney
    ensures r.Ok? || r.Notice?
    ensures r.Ok? ==> r.next.balance >= 0
    ensures r.Ok? ==> s.balance - r.next.balance == s.withdrawAmount
    ensures r.Ok? ==> r.next.(balance := s.balance) == s
  {
    if s.withdrawAmount > s.balance then
      Notice(s, NotEnoughMoney)
    else
      Ok(s.(balance := if s.balance >= s.withdrawAmount then s.balance - s.withdrawAmount else s.balance))
  }

  /** `defineWithdrawAmount`: stages the payload as the withdrawal amount. */
  function DefineWithdrawAmountCase(s: Account, payload: int): (r: Account)
    ensures r.withdrawAmount == payload
    ensures r.(withdrawAmount := s.withdrawAmount) == s
  {
    s.(withdrawAmount := payload)
  }

  /** `requestLoan`: the loan always becomes the staged amount, even when a
      loan is already outstanding; the staged amount is credited to the
      balance only when there was no loan before. */
  function RequestLoanCase(s: Account): (r: Account)
    ensures r.loan == s.loanAmount
    ensures s.loan == 0 ==> r.balance - s.balance == s.loanAmount
    ensures s.loan != 0 ==> r.balance == s.balance
    ensures r.(loan := s.loan, balance := s.balance) == s
  {
    s.(loan := s.loanAmount,
       balance := if s.loan == 0 then s.balance + s.loanAmount else s.balance)
  }

  /** `defineLoanAmount`: stages the payload as the requested loan. */
  function DefineLoanAmountCase(s: Account, payload: int): (r: Account)
    ensures r.loanAmount == payload
    ensures r.(loanAmount := s.loanAmount) == s
  {
    s.(loanAmount := payload)
  }

  /** `payLoan`: refused with a notice naming the current loan when the
      staged payment exceeds it; otherwise the loan drops by the payment
      (never below zero) while the balance drops by the whole loan as it was
      before the payment. */
  function PayLoanCase(s: Account): (r: Outcome)
    ensures r.Notice? <==> s.loan < s.payLoanAmount
    ensures r.Notice? ==> r.next == s && r.advisory == CurrentLoanIs(s.loan)
    ensures r.Ok? || r.Notice?
    ensures r.Ok? ==> r.next.loan >= 0 && s.loan - r.next.loan == s.payLoanAmount
    ensures r.Ok? ==> s.balance - r.next.balance == s.loan
    ensures r.Ok? ==> r.next.(loan := s.loan, balance := s.balance) == s
    ensures s.payLoanAmount == s.loan ==> r.Ok? && r.next.loan == 0
  {
    if s.loan < s.payLoanAmount then
      Notice(s, CurrentLoanIs(s.loan))
    else
      Ok(s.(loan := if s.loan >= s.payLoanAmount then s.loan - s.payLoanAmount else s.loan,
            balance := s.balance - s.loan))
  }

  /** `definePayLoanAmount`: stages the payload as the loan payment. */
  function DefinePayLoanAmountCase(s: Account, payload: int): (r: Account)
    ensures r.payLoanAmount == payload
    ensures r.(payLoanAmount := s.payLoanAmount) == s
  {
    s.(payLoanAmount := payload)
  }

  /** `closeAccount`: with both balance and loan nonzero, the state comes
      back wrapped; otherwise the staged amounts are cleared, balance and loan
      are kept, and the account is active afterwards exactly when one of the
      two is nonzero. With both zero the result is the initial record. */
  function CloseAccountCase(s: Account): (r: Outcome)
    ensures r.Ok? || r.Wrapped?
    ensures r.Wrapped? <==> s.balance != 0 && s.loan != 0
    ensures r.Wrapped? ==> r.inner == s
    ensures r.Ok? ==> NothingStaged(r.next) && r.next.balance == s.balance && r.next.loan == s.loan
    ensures r.Ok? ==> (r.next.isActive <==> s.balance != 0 || s.loan != 0)
    ensures s.balance == 0 && s.loan == 0 ==> r == Ok(InitialState())
  {
    if s.balance != 0 && s.loan != 0 then
      Wrapped(s)
    else
      Ok(s.(depositAmount := 0, withdrawAmount := 0, loanAmount := 0, payLoanAmount := 0,
            isActive := !(s.balance == 0 && s.loan == 0)))
  }

  /** The reducer. It never looks at `isActive`: the only gating is done by
      the buttons outside it. */
  function Reduce(s: Account, a: Action): (r: Outcome)
    ensures r.UnknownAction? <==> Decode(a.tag).None?
    ensures r.Wrapped? ==> Decode(a.tag) == Some(CloseAccount) && r.inner == s
    ensures r.Notice? ==> r.next == s
    ensures (r.Ok? && Decode(a.tag) != Some(OpenAccount) && Decode(a.tag) != Some(CloseAccount))
            ==> r.next.isActive == s.isActive
  {
    match Decode(a.tag)
    case None => UnknownAction
    case Some(k) =>
      match k
      case OpenAccount => Ok(OpenAccountCase(s))
      case Deposit => Ok(DepositCase(s))
      case DefineDepositAmount => Ok(DefineDepositAmountCase(s, a.payload))
      case Withdraw => WithdrawCase(s)
      case DefineWithdrawAmount => Ok(DefineWithdrawAmountCase(s, a.payload))
      case RequestLoan => Ok(RequestLoanCase(s))
      case DefineLoanAmount => Ok(DefineLoanAmountCase(s, a.payload))
      case PayLoan => PayLoanCase(s)
      case DefinePayLoanAmount => Ok(DefinePayLoanAmountCase(s, a.payload))
      case CloseAccount => CloseAccountCase(s)
  }

  /** Sets `isActive` in whatever record an outcome carries. */
  function WithActive(o: Outcome, b: bool): Outcome {
    match o
    case Ok(t) => Ok(t.(isActive := b))
    case Notice(t, m) => Notice(t.(isActive := b), m)
    case Wrapped(t) => Wrapped(t.(isActive := b))
    case UnknownAction => UnknownAction
  }

  /** No branch reads `isActive`: flipping it in the input changes nothing
      but `isActive` in the outcome, and `openAccount` and a non-wrapping
      `closeAccount` overwrite it regardless. So an inactive account is not
      protected by the reducer itself. */
  lemma ReduceIgnoresIsActive(s: Account, a: Action, b: bool)
    ensures Decode(a.tag) == Some(OpenAccount) ==> Reduce(s.(isActive := b), a) == Reduce(s, a)
    ensures (Decode(a.tag) == Some(CloseAccount) && !Reduce(s, a).Wrapped?)
            ==> Reduce(s.(isActive := b), a) == Reduce(s, a)
    ensures (Decode(a.tag) != Some(OpenAccount) && (Decode(a.tag) != Some(CloseAccount) || Reduce(s, a).Wrapped?))
            ==> Reduce(s.(isActive := b), a) == WithActive(Reduce(s, a), b)
  {
  }

  /** The two actions that do write `isActive`: `openAccount` sets it true
      and a non-wrapping `closeAccount` sets it to whether balance or loan is
      nonzero. (That no other action writes it is part of `Reduce`'s
      contract.) */
  lemma ActiveChangesOnlyOnOpenOrClose(s: Account, a: Action)
    ensures Decode(a.tag) == Some(OpenAccount) ==> Reduce(s, a).Ok? && Reduce(s, a).next.isActive
    ensures (Decode(a.tag) == Some(CloseAccount) && Reduce(s, a).Ok?)
            ==> Reduce(s, a).next.isActive == !(s.balance == 0 && s.loan == 0)
  {
  }
}
