/** Sequences of dispatches against the reducer slot: what the account looks
    like after several actions, and the properties that hold along the way. */
module Sessions {
  import opened BankAccount

  /** The action a button dispatches. Buttons send no payload; the 0 here
      stands for JavaScript's `undefined` and no branch reads it. */
  function Dispatch(k: Kind): Action {
    Action(TagName(k), 0)
  }

  /** The action an input field dispatches: a `type` and a payload. */
  function DispatchWith(k: Kind, payload: int): Action {
    Action(TagName(k), payload)
  }

  /** The record the slot holds after one dispatch. An alert leaves the
      returned state in the slot; the wrapped `{ state }` object and the
      unknown-action throw leave no account record to continue from. */
  function Step(s: Account, a: Action): (r: Option<Account>)
    ensures r.None? <==> Reduce(s, a).Wrapped? || Reduce(s, a).UnknownAction?
    ensures (Reduce(s, a).Ok? || Reduce(s, a).Notice?) ==> r == Some(Reduce(s, a).next)
  {
    match Reduce(s, a)
    case Ok(t) => Some(t)
    case Notice(t, _) => Some(t)
    case Wrapped(_) => None
    case UnknownAction => None
  }

  /** The record after dispatching `acts` in order, or None once a dispatch
      leaves no account record. Only `closeAccount` and an unknown tag can
      stop a run. */
  function Run(s: Account, acts: seq<Action>): (r: Option<Account>)
    ensures (forall i | 0 <= i < |acts| :: Decode(acts[i].tag).Some? && Decode(acts[i].tag) != Some(CloseAccount))
            ==> r.Some?
    decreases |acts|
  {
    if acts == [] then Some(s)
    else
      match Step(s, acts[0])
      case None => None
      case Some(t) => Run(t, acts[1..])
  }

  /** Running two sequences one after the other is running their
      concatenation. */
  lemma {:induction false} RunAppend(s: Account, xs: seq<Action>, ys: seq<Action>)
    ensures Run(s, xs + ys) == match Run(s, xs) case None => None case Some(t) => Run(t, ys)
    decreases |xs|
  {
    if xs == [] {
      assert xs + ys == ys;
    } else {
      assert (xs + ys)[0] == xs[0];
      assert (xs + ys)[1..] == xs[1..] + ys;
      match Step(s, xs[0])
      case None =>
      case Some(t) => RunAppend(t, xs[1..], ys);
    }
  }

  /** A run whose first dispatch leads to `t` continues from `t`. */
  lemma RunThrough(s: Account, a: Action, rest: seq<Action>, t: Account)
    requires Step(s, a) == Some(t)
    ensures Run(s, [a] + rest) == Run(t, rest)
  {
    assert ([a] + rest)[0] == a;
    assert ([a] + rest)[1..] == rest;
  }

  /** An action that neither opens nor closes the account. */
  predicate KeepsActivation(a: Action) {
    Decode(a.tag) != Some(OpenAccount) && Decode(a.tag) != Some(CloseAccount)
  }

  /** Across any run of actions that neither open nor close, `isActive`
      keeps its value: no other action writes it. */
  lemma {:induction false} RunKeepsActivation(s: Account, acts: seq<Action>)
    requires forall i | 0 <= i < |acts| :: KeepsActivation(acts[i])
    ensures Run(s, acts).Some? ==> Run(s, acts).value.isActive == s.isActive
    decreases |acts|
  {
    if acts != [] {
      match Step(s, acts[0])
      case None =>
      case Some(t) =>
        assert KeepsActivation(acts[0]);
        assert t.isActive == s.isActive;
        RunKeepsActivation(t, acts[1..]);
    }
  }

  /** The loan and the staged loan request are both non-negative. */
  predicate LoanSound(s: Account) {
    s.loan >= 0 && s.loanAmount >= 0
  }

  /** An action that, if it stages a loan request, stages a non-negative
      one. The input handler lets negative numbers through, so this is an
      assumption about the user, not something the code enforces. */
  predicate StagesNonNegativeLoan(a: Action) {
    Decode(a.tag) == Some(DefineLoanAmount) ==> a.payload >= 0
  }

  /** One dispatch keeps the loan non-negative as long as no negative loan
      request is staged: `payLoan` refuses to overpay and `requestLoan`
      copies the staged request. */
  lemma StepKeepsLoanSound(s: Account, a: Action)
    requires LoanSound(s) && StagesNonNegativeLoan(a)
    ensures Step(s, a).Some? ==> LoanSound(Step(s, a).value)
  {
  }

  /** The same along a whole run. */
  lemma {:induction false} RunKeepsLoanSound(s: Account, acts: seq<Action>)
    requires LoanSound(s)
    requires forall i | 0 <= i < |acts| :: StagesNonNegativeLoan(acts[i])
    ensures Run(s, acts).Some? ==> LoanSound(Run(s, acts).value)
    decreases |acts|
  {
    if acts != [] {
      StepKeepsLoanSound(s, acts[0]);
      match Step(s, acts[0])
      case None =>
      case Some(t) => RunKeepsLoanSound(t, acts[1..]);
    }
  }

  /** Open, do anything that brings balance and loan back to zero, then
      close: the slot holds the initial record again. */
  lemma {:induction false} OpenThenCloseRestoresInitial(s: Account, acts: seq<Action>)
    requires Run(s, [Dispatch(OpenAccount)] + acts).Some?
    requires Run(s, [Dispatch(OpenAccount)] + acts).value.balance == 0
    requires Run(s, [Dispatch(OpenAccount)] + acts).value.loan == 0
    ensures Run(s, [Dispatch(OpenAccount)] + acts + [Dispatch(CloseAccount)]) == Some(InitialState())
  {
    var t := Run(s, [Dispatch(OpenAccount)] + acts).value;
    RunAppend(s, [Dispatch(OpenAccount)] + acts, [Dispatch(CloseAccount)]);
    DecodeTagName(CloseAccount);
    assert Step(t, Dispatch(CloseAccount)) == Some(InitialState());
    assert [Dispatch(CloseAccount)][1..] == [];
  }

  /** Opening the initial record and depositing 200: balance 700. */
  lemma SessionOpenAndDeposit()
    ensures Run(InitialState(),
                [Dispatch(OpenAccount), DispatchWith(DefineDepositAmount, 200), Dispatch(Deposit)])
            == Some(Account(700, 0, true, 200, 0, 0, 0))
  {
  }

  /** Then taking a loan of 300 and paying it back: balance 1000 and loan
      300 in between, balance 700 and loan 0 after (the payment debits the
      300 of the loan). */
  lemma SessionLoanAndRepay()
    ensures Run(Account(700, 0, true, 200, 0, 0, 0),
                [DispatchWith(DefineLoanAmount, 300), Dispatch(RequestLoan),
                 DispatchWith(DefinePayLoanAmount, 300), Dispatch(PayLoan)])
            == Some(Account(700, 0, true, 200, 0, 300, 300))
  {
    var s3 := Account(700, 0, true, 200, 0, 0, 0);
    var s4 := Account(700, 0, true, 200, 0, 300, 0);
    var s5 := Account(1000, 300, true, 200, 0, 300, 0);
    var s6 := Account(1000, 300, true, 200, 0, 300, 300);
    var s7 := Account(700, 0, true, 200, 0, 300, 300);
    RunThrough(s6, Dispatch(PayLoan), [], s7);
    RunThrough(s5, DispatchWith(DefinePayLoanAmount, 300), [Dispatch(PayLoan)], s6);
    RunThrough(s4, Dispatch(RequestLoan),
               [DispatchWith(DefinePayLoanAmount, 300), Dispatch(PayLoan)], s5);
    RunThrough(s3, DispatchWith(DefineLoanAmount, 300),
               [Dispatch(RequestLoan), DispatchWith(DefinePayLoanAmount, 300), Dispatch(PayLoan)], s4);
  }

  /** The whole session from the initial record: open (500), deposit 200
      (700), take a loan of 300 (1000, loan 300), pay it (700, loan 0),
      close. With a balance of 700 the close clears the staged amounts but
      leaves the account active: the initial record is not restored. */
  lemma SessionFromInitialState()
    ensures Run(InitialState(),
                [Dispatch(OpenAccount),
                 DispatchWith(DefineDepositAmount, 200), Dispatch(Deposit),
                 DispatchWith(DefineLoanAmount, 300), Dispatch(RequestLoan),
                 DispatchWith(DefinePayLoanAmount, 300), Dispatch(PayLoan),
                 Dispatch(CloseAccount)])
            == Some(Account(700, 0, true, 0, 0, 0, 0))
  {
    var opening := [Dispatch(OpenAccount), DispatchWith(DefineDepositAmount, 200), Dispatch(Deposit)];
    var borrowing := [DispatchWith(DefineLoanAmount, 300), Dispatch(RequestLoan),
                      DispatchWith(DefinePayLoanAmount, 300), Dispatch(PayLoan)];
    var closing := [Dispatch(CloseAccount)];
    var afterDeposit := Account(700, 0, true, 200, 0, 0, 0);
    var afterRepay := Account(700, 0, true, 200, 0, 300, 300);
    var closed := Account(700, 0, true, 0, 0, 0, 0);
    RunThrough(afterRepay, Dispatch(CloseAccount), [], closed);
    assert closing == [Dispatch(CloseAccount)] + [];
    assert Run(afterRepay, closing) == Some(closed);
    SessionLoanAndRepay();
    RunAppend(afterDeposit, borrowing, closing);
    assert Run(afterDeposit, borrowing + closing) == Some(closed);
    SessionOpenAndDeposit();
    RunAppend(InitialState(), opening, borrowing + closing);
    assert Run(InitialState(), opening + (borrowing + closing)) == Some(closed);
    assert opening + (borrowing + closing) == [Dispatch(OpenAccount),
                 DispatchWith(DefineDepositAmount, 200), Dispatch(Deposit),
                 DispatchWith(DefineLoanAmount, 300), Dispatch(RequestLoan),
                 DispatchWith(DefinePayLoanAmount, 300), Dispatch(PayLoan),
                 Dispatch(CloseAccount)];
  }

  /** The staged loan request is copied into the loan whatever its sign: a
      negative request gives a negative loan. */
  lemma NegativeLoanRequestTakesEffect()
    ensures Reduce(Account(500, 0, true, 0, 0, -10, 0), Dispatch(RequestLoan))
            == Ok(Account(490, -10, true, 0, 0, -10, 0))
  {
  }

  /** Withdrawing more than the balance leaves the state as it was and
      raises the "Not enough money!" alert. */
  lemma OverdraftRefused()
    ensures Reduce(Account(700, 0, true, 200, 1000, 0, 0), Dispatch(Withdraw))
            == Notice(Account(700, 0, true, 200, 1000, 0, 0), NotEnoughMoney)
  {
  }

  /** A second loan request while a loan is outstanding is not refused: the
      loan is overwritten by the new request and the balance is not
      credited. */
  lemma SecondLoanOverwrites()
    ensures Reduce(Account(1000, 300, true, 200, 0, 50, 0), Dispatch(RequestLoan))
            == Ok(Account(1000, 50, true, 200, 0, 50, 0))
  {
  }

  /** A closed account still takes deposits: the reducer has no guard on
      `isActive`. */
  lemma ClosedAccountTakesDeposit()
    ensures Reduce(Account(0, 0, false, 100, 0, 0, 0), Dispatch(Deposit))
            == Ok(Account(100, 0, false, 100, 0, 0, 0))
  {
  }

  /** A partial payment debits the whole prior loan from the balance while
      the loan falls only by the payment. */
  lemma PartialPaymentDebitsWholeLoan()
    ensures Reduce(Account(1000, 300, true, 0, 0, 0, 100), Dispatch(PayLoan))
            == Ok(Account(700, 200, true, 0, 0, 0, 100))
  {
  }
}
