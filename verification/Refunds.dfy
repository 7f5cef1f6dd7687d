/**
 * The refund workflow: read, compare-and-set pending to approved, credit the wallet, then an
 * unguarded write of the completed status. Any number of admins approve and reject concurrently.
 */
module Refunds {
  import opened Base
  import opened Sums
  import opened Ledger
  import opened Payout
  import Topup

  const REFUND := "refund"

  /** A credit references its refund. */
  const STYLE: Style<string> := Style(REFUND, REFUND, (no: string) => no, Note)

  function Note(no: string): string {
    "Refund approved: " + no
  }

  /** Seven days, in seconds. */
  const WINDOW := 7 * 24 * 3600

  datatype Status = Requested | Approved | Rejected | Completed

  datatype Refund = Refund(account: int, orderNo: string, amount: int, status: Status)

  datatype Verdict = Approve | Reject

  /** An admin call that has read the refund as pending and not yet tried its update. */
  datatype Review = Review(no: string, verdict: Verdict, claim: Claim, done: bool)

  datatype Desk = Desk(book: Book, orders: map<string, Topup.Order>, refunds: map<string, Refund>,
                       reviews: seq<Review>, payers: seq<Payer<string>>)

  datatype Step =
    | Request(no: string, account: int, orderNo: string, now: int)
    | Read(no: string, verdict: Verdict)
    | Decide(j: nat)                // the compare-and-set of review j
    | Pay(i: nat)                   // the approval that won credits the wallet
    | Drop(i: nat)                  // it dies before the credit
    | Complete(i: nat)              // MarkCompleted, which checks nothing
    | OrderChange(no: string, order: Topup.Order)
    | Other(op: Op)                 // any other wallet transaction

  const OPENING := Desk(EMPTY, map[], map[], [], [])

  predicate InProgress(r: Refund) {
    r.status == Requested || r.status == Approved
  }

  /** The checks of a refund request, in the order the service makes them. */
  ghost function Checked(d: Desk, no: string, account: int, orderNo: string, now: int): Result<Refund> {
    if orderNo !in d.orders || d.orders[orderNo].account != account then Err(NotFound)
    else
      var o := d.orders[orderNo];
      if o.status != Topup.PaidUp then Err(NotPaid)
      else if o.createdAt < now - WINDOW then Err(WindowClosed)
      else if exists k :: k in d.refunds && d.refunds[k].orderNo == orderNo && InProgress(d.refunds[k]) then Err(InFlight)
      else if no in d.refunds then Err(Duplicate)
      else Ok(Refund(account, orderNo, o.amount, Requested))
  }

  function Decided(d: Desk, j: nat): Desk {
    if j >= |d.reviews| || d.reviews[j].done then d
    else
      var v := d.reviews[j];
      var d1 := d.(reviews := d.reviews[j := v.(done := true)]);
      if v.no !in d.refunds || d.refunds[v.no].status != Requested then d1
      else
        match v.verdict
        case Approve => d1.(refunds := d.refunds[v.no := d.refunds[v.no].(status := Approved)],
                            payers := d.payers + [Payer(v.no, v.claim, Holding)])
        case Reject => d1.(refunds := d.refunds[v.no := d.refunds[v.no].(status := Rejected)])
  }

  function PayerAt(d: Desk, i: nat, stage: Stage): Desk
    requires i < |d.payers|
  {
    d.(payers := d.payers[i := d.payers[i].(stage := stage)])
  }

  function Settled(d: Desk, i: nat): Desk {
    if i >= |d.payers| || d.payers[i].stage != Holding then d
    else
      var p := d.payers[i];
      match Credited(d.book, p.claim.account, p.claim.amount, REFUND, Ref(REFUND, p.key), "", Note(p.key))
      case Ok(b) => PayerAt(d, i, Paid).(book := b)
      case Err(_) => PayerAt(d, i, Lost)
  }

  function Dropped(d: Desk, i: nat): Desk {
    if i < |d.payers| && d.payers[i].stage == Holding then PayerAt(d, i, Lost) else d
  }

  function Closed(d: Desk, i: nat): Desk {
    if i >= |d.payers| || d.payers[i].stage != Paid then d
    else
      var no := d.payers[i].key;
      var d1 := PayerAt(d, i, Finished);
      if no in d.refunds then d1.(refunds := d.refunds[no := d.refunds[no].(status := Completed)]) else d1
  }

  ghost function Next(d: Desk, e: Step): Desk {
    match e
    case Request(no, account, orderNo, now) =>
      var r := Checked(d, no, account, orderNo, now);
      if r.Ok? then d.(refunds := d.refunds[no := r.value]) else d
    case Read(no, verdict) =>
      if no in d.refunds && d.refunds[no].status == Requested then
        d.(reviews := d.reviews + [Review(no, verdict, Claim(d.refunds[no].account, d.refunds[no].amount), false)])
      else d
    case Decide(j) => Decided(d, j)
    case Pay(i) => Settled(d, i)
    case Drop(i) => Dropped(d, i)
    case Complete(i) => Closed(d, i)
    case OrderChange(no, order) => d.(orders := d.orders[no := order])
    case Other(op) => d.(book := Apply(d.book, op))
  }

  ghost function Run(d: Desk, steps: seq<Step>): Desk {
    if steps == [] then d else Next(Run(d, steps[..|steps| - 1]), steps[|steps| - 1])
  }

  /** No other caller writes ledger rows that reference a refund. */
  predicate Foreign(steps: seq<Step>) {
    forall i :: 0 <= i < |steps| && steps[i].Other? ==> KeepsRef(steps[i].op, REFUND)
  }

  ghost function Granted(refunds: map<string, Refund>): map<string, Claim> {
    map no | no in refunds && (refunds[no].status == Approved || refunds[no].status == Completed)
      :: Claim(refunds[no].account, refunds[no].amount)
  }

  /** Only the payer that finished has written the completed status. */
  ghost predicate FinishedWrote(refunds: map<string, Refund>, payers: seq<Payer<string>>) {
    forall i :: 0 <= i < |payers| ==>
      payers[i].key in refunds && (payers[i].stage == Finished <==> refunds[payers[i].key].status == Completed)
  }

  /** What a review has read cannot have changed since, except for the status. */
  ghost predicate ReviewsHold(refunds: map<string, Refund>, reviews: seq<Review>) {
    forall j :: 0 <= j < |reviews| ==>
      reviews[j].no in refunds && reviews[j].claim == Claim(refunds[reviews[j].no].account, refunds[reviews[j].no].amount)
  }

  ghost predicate OneInProgress(refunds: map<string, Refund>) {
    forall k, m | k in refunds && m in refunds && InProgress(refunds[k]) && InProgress(refunds[m]) ::
      refunds[k].orderNo == refunds[m].orderNo ==> k == m
  }

  ghost predicate Inv(d: Desk) {
    && OnePayerEach(Granted(d.refunds), d.payers)
    && Booked(d.book.rows, d.payers, STYLE)
    && FinishedWrote(d.refunds, d.payers)
    && ReviewsHold(d.refunds, d.reviews)
    && OneInProgress(d.refunds)
  }

  lemma StatusClaims(refunds: map<string, Refund>, no: string, status: Status)
    requires no in refunds
    ensures var r := refunds[no];
            Granted(refunds[no := r.(status := status)]) ==
              if status == Approved || status == Completed then Granted(refunds)[no := Claim(r.account, r.amount)]
              else Granted(refunds) - {no}
  {
  }

  /** A status change that does not bring a refund into progress, seen by the predicates about refunds alone. */
  lemma StatusHarmless(refunds: map<string, Refund>, reviews: seq<Review>, no: string, status: Status)
    requires ReviewsHold(refunds, reviews) && OneInProgress(refunds)
    requires no in refunds && (InProgress(refunds[no].(status := status)) ==> InProgress(refunds[no]))
    ensures ReviewsHold(refunds[no := refunds[no].(status := status)], reviews)
    ensures OneInProgress(refunds[no := refunds[no].(status := status)])
  {
  }

  lemma GrantUnfinished(refunds: map<string, Refund>, payers: seq<Payer<string>>, no: string, claim: Claim)
    requires FinishedWrote(refunds, payers) && no in refunds && refunds[no].status == Requested
    ensures FinishedWrote(refunds[no := refunds[no].(status := Approved)], payers + [Payer(no, claim, Holding)])
  {
  }

  lemma GrantKeeps(d: Desk, no: string)
    requires Inv(d) && no in d.refunds && d.refunds[no].status == Requested
    ensures var r := d.refunds[no];
            Inv(d.(refunds := d.refunds[no := r.(status := Approved)],
                   payers := d.payers + [Payer(no, Claim(r.account, r.amount), Holding)]))
  {
    var p := Payer(no, Claim(d.refunds[no].account, d.refunds[no].amount), Holding);
    StatusClaims(d.refunds, no, Approved);
    GrantUnfinished(d.refunds, d.payers, no, p.claim);
    StatusHarmless(d.refunds, d.reviews, no, Approved);
    ClaimKeeps(Granted(d.refunds), d.payers, p);
    ClaimKeepsBooked(d.book.rows, d.payers, p, STYLE);
  }

  lemma DenyKeeps(d: Desk, no: string)
    requires Inv(d) && no in d.refunds && d.refunds[no].status == Requested
    ensures Inv(d.(refunds := d.refunds[no := d.refunds[no].(status := Rejected)]))
  {
    StatusClaims(d.refunds, no, Rejected);
    StatusHarmless(d.refunds, d.reviews, no, Rejected);
    assert Granted(d.refunds) - {no} == Granted(d.refunds);
  }

  lemma DecideKeeps(d: Desk, j: nat)
    requires Inv(d)
    ensures Inv(Decided(d, j))
  {
    if j < |d.reviews| && !d.reviews[j].done {
      var v := d.reviews[j];
      var d1 := d.(reviews := d.reviews[j := v.(done := true)]);
      assert ReviewsHold(d1.refunds, d1.reviews);
      assert Inv(d1);
      if d.refunds[v.no].status == Requested {
        match v.verdict
        case Approve => GrantKeeps(d1, v.no);
        case Reject => DenyKeeps(d1, v.no);
      }
    }
  }

  lemma DropKeeps(d: Desk, i: nat)
    requires Inv(d) && i < |d.payers| && d.payers[i].stage == Holding
    ensures Inv(PayerAt(d, i, Lost))
  {
    StageKeeps(Granted(d.refunds), d.payers, i, Lost);
    StageKeepsBooked(d.book.rows, d.payers, i, Lost, STYLE);
  }

  lemma PaidKeeps(d: Desk, i: nat, b: Book, row: Row)
    requires Inv(d) && i < |d.payers| && d.payers[i].stage == Holding
    requires b.rows == d.book.rows + [row]
    requires SlipOf(row) == Receipt(STYLE, d.payers[i].key, d.payers[i].claim)
    ensures Inv(PayerAt(d, i, Paid).(book := b))
  {
    StageKeeps(Granted(d.refunds), d.payers, i, Paid);
    PayKeepsBooked(d.book.rows, row, d.payers, i, STYLE);
  }

  lemma PayKeeps(d: Desk, i: nat)
    requires Inv(d)
    ensures Inv(Settled(d, i))
  {
    if i < |d.payers| && d.payers[i].stage == Holding {
      var c := d.payers[i].claim;
      match Credited(d.book, c.account, c.amount, REFUND, Ref(REFUND, d.payers[i].key), "", Note(d.payers[i].key))
      case Err(_) => DropKeeps(d, i);
      case Ok(b) => PaidKeeps(d, i, b, b.rows[|d.book.rows|]);
    }
  }

  lemma CompleteKeeps(d: Desk, i: nat)
    requires Inv(d)
    ensures Inv(Closed(d, i))
  {
    if i < |d.payers| && d.payers[i].stage == Paid {
      var no := d.payers[i].key;
      StatusClaims(d.refunds, no, Completed);
      assert Granted(d.refunds)[no := d.payers[i].claim] == Granted(d.refunds);
      StageKeeps(Granted(d.refunds), d.payers, i, Finished);
      StageKeepsBooked(d.book.rows, d.payers, i, Finished, STYLE);
    }
  }

  lemma RequestKeeps(d: Desk, no: string, r: Refund)
    requires Inv(d) && no !in d.refunds && r.status == Requested
    requires forall k :: k in d.refunds && d.refunds[k].orderNo == r.orderNo ==> !InProgress(d.refunds[k])
    ensures Inv(d.(refunds := d.refunds[no := r]))
  {
    assert Granted(d.refunds[no := r]) == Granted(d.refunds);
  }

  lemma NextKeeps(d: Desk, e: Step)
    requires Inv(d) && Foreign([e])
    ensures Inv(Next(d, e))
  {
    match e
    case Request(no, account, orderNo, now) =>
      var r := Checked(d, no, account, orderNo, now);
      if r.Ok? { RequestKeeps(d, no, r.value); }
    case Read(_, _) =>
    case Decide(j) => DecideKeeps(d, j);
    case Pay(i) => PayKeeps(d, i);
    case Drop(i) =>
      if i < |d.payers| && d.payers[i].stage == Holding { DropKeeps(d, i); }
    case Complete(i) => CompleteKeeps(d, i);
    case OrderChange(_, _) =>
    case Other(op) =>
      assert [e][0].Other?;
      ForeignKeepsBooked(d.book, op, d.payers, STYLE);
  }

  lemma {:induction false} RunKeeps(d: Desk, steps: seq<Step>)
    requires Inv(d) && Foreign(steps)
    ensures Inv(Run(d, steps))
  {
    if steps != [] {
      RunKeeps(d, steps[..|steps| - 1]);
      NextKeeps(Run(d, steps[..|steps| - 1]), steps[|steps| - 1]);
    }
  }

  lemma InvOpening()
    ensures Inv(OPENING)
  {
    assert Granted(OPENING.refunds) == map[];
  }

  ghost function Refunded(d: Desk, no: string): int {
    Sum(d.book.rows, Mentions(Ref(REFUND, no)))
  }

  lemma CreditedByStatus(d: Desk, no: string)
    requires Inv(d) && no in d.refunds
    ensures match d.refunds[no].status
            case Requested => Refunded(d, no) == 0
            case Rejected => Refunded(d, no) == 0
            case Approved => 0 <= Refunded(d, no) <= 1
            case Completed => Refunded(d, no) == 1
  {
    if no in Granted(d.refunds) {
      var i :| 0 <= i < |d.payers| && d.payers[i].key == no;
      OneMention(d.book.rows, Granted(d.refunds), d.payers, STYLE, i);
    } else {
      NoMention(d.book.rows, Granted(d.refunds), d.payers, STYLE, no);
    }
  }

  /**
   * However approvals and rejections interleave and wherever they crash: a refund is credited at most
   * once, exactly once if it is completed, and never if it is pending or rejected.
   */
  lemma {:induction false} RefundCreditedOnce(steps: seq<Step>, no: string)
    requires Foreign(steps)
    requires no in Run(OPENING, steps).refunds
    ensures var d := Run(OPENING, steps);
            match d.refunds[no].status
            case Requested => Refunded(d, no) == 0
            case Rejected => Refunded(d, no) == 0
            case Approved => 0 <= Refunded(d, no) <= 1
            case Completed => Refunded(d, no) == 1
  {
    InvOpening();
    RunKeeps(OPENING, steps);
    CreditedByStatus(Run(OPENING, steps), no);
  }

  /** Refund rows pay the refund's account its amount; with what winners hold or lost they add up to all approvals. */
  lemma {:induction false} RefundMoneyConserved(steps: seq<Step>)
    requires Foreign(steps)
    ensures var d := Run(OPENING, steps);
            && Sum(d.book.rows, AmountUnder(REFUND)) + Sum(d.payers, AmountAt(Holding)) + Sum(d.payers, AmountAt(Lost))
                 == Total(Amounts(Granted(d.refunds)))
            && forall j :: 0 <= j < |d.book.rows| && d.book.rows[j].ref.kind == REFUND ==>
                 var row := d.book.rows[j];
                 row.ref.id in d.refunds && row.account == d.refunds[row.ref.id].account && row.amount == d.refunds[row.ref.id].amount
  {
    InvOpening();
    RunKeeps(OPENING, steps);
    var d := Run(OPENING, steps);
    BookedTotal(d.book.rows, d.payers, STYLE);
    ClaimsAddUp(Granted(d.refunds), d.payers);
    forall j | 0 <= j < |d.book.rows| && d.book.rows[j].ref.kind == REFUND
      ensures var row := d.book.rows[j];
              row.ref.id in d.refunds && row.account == d.refunds[row.ref.id].account && row.amount == d.refunds[row.ref.id].amount
    {
      var i := RowHasPayer(d.book.rows, d.payers, STYLE, j);
    }
  }

  lemma NextExplained(d: Desk, e: Step)
    requires Explained(d.book)
    ensures Explained(Next(d, e).book)
  {
    if e.Other? {
      ExplainedKept(d.book, e.op);
    } else if e.Pay? && e.i < |d.payers| {
      var p := d.payers[e.i];
      ExplainedKept(d.book, Credit(p.claim.account, p.claim.amount, REFUND, Ref(REFUND, p.key), "", Note(p.key)));
    }
  }

  /** Refunds and everything else keep the ledger explaining its balances. */
  lemma {:induction false} LedgerStaysExplained(steps: seq<Step>)
    ensures Explained(Run(OPENING, steps).book)
  {
    if steps == [] {
      LedgerExplainsBalances([]);
    } else {
      LedgerStaysExplained(steps[..|steps| - 1]);
      NextExplained(Run(OPENING, steps[..|steps| - 1]), steps[|steps| - 1]);
    }
  }

  predicate Moves(from: Status, to: Status) {
    from == to || (from == Requested && to != Completed) || (from == Approved && to == Completed)
  }

  /**
   * A status only moves pending to approved to completed, or pending to rejected. The unguarded
   * MarkCompleted obeys this because only the compare-and-set winner ever reaches it.
   */
  lemma StatusMoves(d: Desk, e: Step, no: string)
    requires OnePayerEach(Granted(d.refunds), d.payers) && FinishedWrote(d.refunds, d.payers) && no in d.refunds
    ensures no in Next(d, e).refunds
    ensures Moves(d.refunds[no].status, Next(d, e).refunds[no].status)
    ensures Next(d, e).refunds[no] == d.refunds[no].(status := Next(d, e).refunds[no].status)
  {
    if e.Complete? && e.i < |d.payers| && d.payers[e.i].stage == Paid {
      assert d.payers[e.i].key in Granted(d.refunds);
    }
  }

  /** Completed and rejected refunds never change again. */
  lemma {:induction false} RefundFinal(d: Desk, steps: seq<Step>, no: string)
    requires Inv(d) && Foreign(steps)
    requires no in d.refunds && d.refunds[no].status in {Completed, Rejected}
    ensures no in Run(d, steps).refunds && Run(d, steps).refunds[no] == d.refunds[no]
  {
    if steps != [] {
      var prefix := steps[..|steps| - 1];
      RefundFinal(d, prefix, no);
      RunKeeps(d, prefix);
      StatusMoves(Run(d, prefix), steps[|steps| - 1], no);
    }
  }

  /** At any moment an order has at most one refund pending or approved. */
  lemma {:induction false} OneRefundInProgress(steps: seq<Step>, k: string, m: string)
    requires Foreign(steps)
    requires var d := Run(OPENING, steps);
             && k in d.refunds && m in d.refunds && d.refunds[k].orderNo == d.refunds[m].orderNo
             && InProgress(d.refunds[k]) && InProgress(d.refunds[m])
    ensures k == m
  {
    InvOpening();
    RunKeeps(OPENING, steps);
  }

  /** The protocol steps of one uninterrupted approval; stored tells whether the final write succeeds. */
  ghost function ApprovalSteps(d: Desk, no: string, stored: bool): seq<Step> {
    var steps := [Read(no, Approve), Decide(|d.reviews|), Pay(|d.payers|)];
    if stored then steps + [Complete(|d.payers|)] else steps
  }

  lemma RunSnoc(d: Desk, steps: seq<Step>, e: Step)
    ensures Run(d, steps + [e]) == Next(Run(d, steps), e)
  {
    assert (steps + [e])[..|steps|] == steps;
  }

  /** Where those steps lead from a pending refund. */
  function ApprovalOutcome(d: Desk, no: string, stored: bool): Desk
    requires no in d.refunds && d.refunds[no].status == Requested
  {
    var r := d.refunds[no];
    var claim := Claim(r.account, r.amount);
    var read := d.(reviews := d.reviews + [Review(no, Approve, claim, true)]);
    match Credited(d.book, r.account, r.amount, REFUND, Ref(REFUND, no), "", Note(no))
    case Err(_) =>
      read.(refunds := d.refunds[no := r.(status := Approved)], payers := d.payers + [Payer(no, claim, Lost)])
    case Ok(b) =>
      read.(book := b,
            refunds := d.refunds[no := r.(status := if stored then Completed else Approved)],
            payers := d.payers + [Payer(no, claim, if stored then Finished else Paid)])
  }

  lemma {:induction false} ApprovalUnfolds(d: Desk, no: string, stored: bool)
    ensures var paid := Next(Next(Next(d, Read(no, Approve)), Decide(|d.reviews|)), Pay(|d.payers|));
            Run(d, ApprovalSteps(d, no, stored)) == if stored then Next(paid, Complete(|d.payers|)) else paid
  {
    var e1, e2, e3 := Read(no, Approve), Decide(|d.reviews|), Pay(|d.payers|);
    RunSnoc(d, [], e1);
    RunSnoc(d, [e1], e2);
    RunSnoc(d, [e1, e2], e3);
    assert [] + [e1] == [e1] && [e1] + [e2] == [e1, e2] && [e1, e2] + [e3] == [e1, e2, e3];
    RunSnoc(d, [e1, e2, e3], Complete(|d.payers|));
  }

  lemma ReadThenDecide(d: Desk, no: string)
    requires no in d.refunds && d.refunds[no].status == Requested
    ensures var r, claim := d.refunds[no], Claim(d.refunds[no].account, d.refunds[no].amount);
            Next(Next(d, Read(no, Approve)), Decide(|d.reviews|)) ==
              d.(reviews := d.reviews + [Review(no, Approve, claim, true)],
                 refunds := d.refunds[no := r.(status := Approved)],
                 payers := d.payers + [Payer(no, claim, Holding)])
  {
  }

  lemma {:induction false} ApprovalRuns(d: Desk, no: string, stored: bool)
    requires no in d.refunds && d.refunds[no].status == Requested
    ensures Run(d, ApprovalSteps(d, no, stored)) == ApprovalOutcome(d, no, stored)
  {
    ApprovalUnfolds(d, no, stored);
    ReadThenDecide(d, no);
    var won := Next(Next(d, Read(no, Approve)), Decide(|d.reviews|));
    assert Settled(won, |d.payers|) == ApprovalOutcome(d, no, false);
    if stored {
      var paid := ApprovalOutcome(d, no, false);
      assert Closed(paid, |d.payers|) == ApprovalOutcome(d, no, true);
    }
  }

  /** Left alone, the approval of a pending refund completes it and credits it exactly once. */
  lemma ApprovalCompletes(d: Desk, no: string)
    requires Inv(d) && no in d.refunds && d.refunds[no].status == Requested
    requires d.refunds[no].account in d.book.wallets
    ensures var r, d' := d.refunds[no], Run(d, ApprovalSteps(d, no, true));
            && d'.refunds == d.refunds[no := r.(status := Completed)]
            && Refunded(d, no) == 0 && Refunded(d', no) == 1
            && d'.book.rows == d.book.rows + [Row(r.account, "refund", r.amount, Balance(d.book, r.account) + r.amount, "",
                                                  Ref("refund", no), "Refund approved: " + no)]
            && forall a :: Balance(d'.book, a) == Balance(d.book, a) + if a == r.account then r.amount else 0
  {
    ApprovalRuns(d, no, true);
    RunKeeps(d, ApprovalSteps(d, no, true));
    CreditedByStatus(d, no);
    CreditedByStatus(Run(d, ApprovalSteps(d, no, true)), no);
  }

  lemma ApprovalBeside(d: Desk, no: string, again: string)
    requires Inv(d)
    requires no in d.refunds && d.refunds[no].status == Completed
    requires again in d.refunds && d.refunds[again].status == Requested && d.refunds[again].account in d.book.wallets
    ensures var d' := Run(d, ApprovalSteps(d, again, true));
            && d'.refunds == d.refunds[again := d.refunds[again].(status := Completed)]
            && Refunded(d', no) == 1 && Refunded(d', again) == 1
  {
    ApprovalCompletes(d, again);
    RunKeeps(d, ApprovalSteps(d, again, true));
    CreditedByStatus(Run(d, ApprovalSteps(d, again, true)), no);
  }

  /**
   * A request adds a refund exactly if the order belongs to the account that asks, is paid, is at most seven days old,
   * has no refund pending or approved, and the number is fresh. The refund is pending and over the order's amount.
   * In any other case, in particular for a stranger, the desk stays as it is.
   */
  lemma RequestIff(d: Desk, no: string, account: int, orderNo: string, now: int)
    ensures var d' := Next(d, Request(no, account, orderNo, now));
            if && orderNo in d.orders && d.orders[orderNo].account == account
               && d.orders[orderNo].status == Topup.PaidUp && now - d.orders[orderNo].createdAt <= 604800
               && (forall k :: k in d.refunds && d.refunds[k].orderNo == orderNo ==>
                     d.refunds[k].status == Rejected || d.refunds[k].status == Completed)
               && no !in d.refunds
            then d' == d.(refunds := d.refunds[no := Refund(account, orderNo, d.orders[orderNo].amount, Requested)])
            else d' == d
  {
  }

  /** A review starts exactly for a pending refund; on any other it changes nothing. */
  lemma ReadIff(d: Desk, no: string, verdict: Verdict)
    ensures Next(d, Read(no, verdict)) ==
            if no in d.refunds && d.refunds[no].status == Requested
            then d.(reviews := d.reviews + [Review(no, verdict, Claim(d.refunds[no].account, d.refunds[no].amount), false)])
            else d
  {
  }

  lemma {:induction false} LostPayerStays(d: Desk, steps: seq<Step>, i: nat)
    requires i < |d.payers| && d.payers[i].stage == Lost
    ensures i < |Run(d, steps).payers| && Run(d, steps).payers[i] == d.payers[i]
  {
    if steps != [] {
      LostPayerStays(d, steps[..|steps| - 1], i);
    }
  }

  /**
   * An approval that dies before its credit is not made good by anything in the service: in every later run the refund
   * stays approved and uncredited. The same goes for a credit that is refused because the account has no wallet.
   */
  lemma {:induction false} LostRefundStaysLost(d: Desk, i: nat, steps: seq<Step>)
    requires Inv(d) && Foreign(steps) && i < |d.payers| && d.payers[i].stage == Holding
    ensures var no, d' := d.payers[i].key, Run(Next(d, Drop(i)), steps);
            Refunded(d', no) == 0 && no in d'.refunds && d'.refunds[no].status == Approved
    ensures d.payers[i].claim.account !in d.book.wallets ==> Next(d, Pay(i)) == Next(d, Drop(i))
  {
    NextKeeps(d, Drop(i));
    var d1 := Next(d, Drop(i));
    RunKeeps(d1, steps);
    LostPayerStays(d1, steps, i);
    LostIsApproved(Run(d1, steps), i);
  }

  lemma LostIsApproved(d: Desk, i: nat)
    requires Inv(d) && i < |d.payers| && d.payers[i].stage == Lost
    ensures var no := d.payers[i].key; Refunded(d, no) == 0 && no in d.refunds && d.refunds[no].status == Approved
  {
    OneMention(d.book.rows, Granted(d.refunds), d.payers, STYLE, i);
    assert d.payers[i].key in Granted(d.refunds);
  }

  /** A rejection left alone turns a pending refund into a rejected one, and no later run credits it. */
  lemma {:induction false} RejectionRejects(d: Desk, no: string, steps: seq<Step>)
    requires Inv(d) && Foreign(steps) && no in d.refunds && d.refunds[no].status == Requested
    ensures var d1 := Next(Next(d, Read(no, Reject)), Decide(|d.reviews|));
            && d1.refunds == d.refunds[no := d.refunds[no].(status := Rejected)] && d1.book == d.book && d1.payers == d.payers
            && Refunded(Run(d1, steps), no) == 0
  {
    var e1, e2 := Read(no, Reject), Decide(|d.reviews|);
    NextKeeps(d, e1);
    NextKeeps(Next(d, e1), e2);
    var d1 := Next(Next(d, e1), e2);
    RunKeeps(d1, steps);
    RefundFinal(d1, steps, no);
    CreditedByStatus(Run(d1, steps), no);
  }

  /** A paid order of which no refund is in progress. */
  ghost predicate Refundable(d: Desk, orderNo: string) {
    && orderNo in d.orders && d.orders[orderNo].status == Topup.PaidUp
    && forall k :: k in d.refunds && d.refunds[k].orderNo == orderNo ==> !InProgress(d.refunds[k])
  }

  lemma RequestedIff(d: Desk, orderNo: string, again: string, now: int)
    requires Refundable(d, orderNo) && again !in d.refunds
    ensures var o := d.orders[orderNo];
            var d1 := Next(d, Request(again, o.account, orderNo, now));
            if now <= o.createdAt + WINDOW
            then d1 == d.(refunds := d.refunds[again := Refund(o.account, orderNo, o.amount, Requested)])
            else d1 == d
  {
  }

  /**
   * Only refunds in progress are bounded per order. After a completed refund, the same order can be requested and
   * refunded in full once more exactly as long as its window is open.
   */
  lemma RefundedAgainIff(d: Desk, no: string, again: string, now: int)
    requires Inv(d) && no in d.refunds && d.refunds[no].status == Completed && again !in d.refunds
    requires Refundable(d, d.refunds[no].orderNo) && d.orders[d.refunds[no].orderNo].account in d.book.wallets
    ensures var o := d.orders[d.refunds[no].orderNo];
            var d1 := Next(d, Request(again, o.account, d.refunds[no].orderNo, now));
            var d' := Run(d1, ApprovalSteps(d1, again, true));
            && no in d'.refunds && d'.refunds[no] == d.refunds[no] && Refunded(d', no) == 1
            && (Refunded(d', again) == 1 <==> now <= o.createdAt + WINDOW)
            && (again in d'.refunds <==> now <= o.createdAt + WINDOW)
            && (again in d'.refunds ==> d'.refunds[again] == Refund(o.account, d.refunds[no].orderNo, o.amount, Completed))
  {
    var orderNo := d.refunds[no].orderNo;
    var e := Request(again, d.orders[orderNo].account, orderNo, now);
    NextKeeps(d, e);
    RequestedIff(d, orderNo, again, now);
    if now <= d.orders[orderNo].createdAt + WINDOW {
      ApprovalBeside(Next(d, e), no, again);
    } else {
      UnknownApproval(d, again);
      CreditedByStatus(d, no);
      NoMention(d.book.rows, Granted(d.refunds), d.payers, STYLE, again);
    }
  }

  /** Approving a refund that does not exist changes nothing. */
  lemma UnknownApproval(d: Desk, no: string)
    requires Inv(d) && no !in d.refunds
    ensures Run(d, ApprovalSteps(d, no, true)) == d
  {
    ApprovalUnfolds(d, no, true);
    assert Next(d, Read(no, Approve)) == d;
  }

  /** Every request for the order comes after its window; the order may change, but not when it was created. */
  predicate TooLate(steps: seq<Step>, orderNo: string, createdAt: int) {
    forall i :: 0 <= i < |steps| ==>
      && (steps[i].Request? && steps[i].orderNo == orderNo ==> steps[i].now > createdAt + WINDOW)
      && (steps[i].OrderChange? && steps[i].no == orderNo ==> steps[i].order.createdAt == createdAt)
  }

  ghost function RefundsOf(d: Desk, orderNo: string): set<string> {
    set k | k in d.refunds && d.refunds[k].orderNo == orderNo
  }

  /** Once an order's window has closed, no further refund of it appears in any run. */
  lemma {:induction false} NoRefundAfterWindow(d: Desk, steps: seq<Step>, orderNo: string)
    requires orderNo in d.orders && TooLate(steps, orderNo, d.orders[orderNo].createdAt)
    ensures RefundsOf(Run(d, steps), orderNo) == RefundsOf(d, orderNo)
    ensures orderNo in Run(d, steps).orders && Run(d, steps).orders[orderNo].createdAt == d.orders[orderNo].createdAt
  {
    if steps != [] {
      NoRefundAfterWindow(d, steps[..|steps| - 1], orderNo);
      LateStep(Run(d, steps[..|steps| - 1]), steps[|steps| - 1], orderNo);
    }
  }

  lemma LateStep(d: Desk, e: Step, orderNo: string)
    requires orderNo in d.orders
    requires e.Request? && e.orderNo == orderNo ==> e.now > d.orders[orderNo].createdAt + WINDOW
    requires e.OrderChange? && e.no == orderNo ==> e.order.createdAt == d.orders[orderNo].createdAt
    ensures RefundsOf(Next(d, e), orderNo) == RefundsOf(d, orderNo)
    ensures orderNo in Next(d, e).orders && Next(d, e).orders[orderNo].createdAt == d.orders[orderNo].createdAt
  {
  }

  // ----- A run in which an order is refunded twice -----

  /** An account, its paid order, and a request for a refund. */
  function FirstSteps(account: int, amount: int, no: string): seq<Step> {
    [Other(OpenWallet(account)), OrderChange("order", Topup.Order(account, "topup", amount, Topup.PaidUp, 0)), Request(no, account, "order", 0)]
  }

  lemma FirstRequested(account: int, amount: int, no: string)
    ensures Run(OPENING, FirstSteps(account, amount, no)) ==
            Desk(Opened(EMPTY, account), map["order" := Topup.Order(account, "topup", amount, Topup.PaidUp, 0)],
                 map[no := Refund(account, "order", amount, Requested)], [], [])
  {
    var steps, order := FirstSteps(account, amount, no), Topup.Order(account, "topup", amount, Topup.PaidUp, 0);
    var d2 := Desk(Opened(EMPTY, account), map["order" := order], map[], [], []);
    RunSnoc(OPENING, [], steps[0]);
    RunSnoc(OPENING, [steps[0]], steps[1]);
    RunSnoc(OPENING, [steps[0], steps[1]], steps[2]);
    assert [] + [steps[0]] == [steps[0]] && [steps[0]] + [steps[1]] == [steps[0], steps[1]];
    assert [steps[0], steps[1]] + [steps[2]] == steps;
    assert Run(OPENING, [steps[0], steps[1]]) == d2;
    RequestedIff(d2, "order", no, 0);
  }

  /** From an empty desk: the order is refunded, requested again on its seventh day, and refunded again. */
  lemma OrderRefundedTwice(account: int, amount: int, no: string, again: string)
    requires no != again
    ensures var d0 := Run(OPENING, FirstSteps(account, amount, no));
            var d1 := Run(d0, ApprovalSteps(d0, no, true));
            var d2 := Next(d1, Request(again, account, "order", WINDOW));
            var d3 := Run(d2, ApprovalSteps(d2, again, true));
            && Refunded(d3, no) == 1 && Refunded(d3, again) == 1
            && RefundsOf(d3, "order") == {no, again}
            && d3.refunds[no].amount == d3.refunds[again].amount == amount
  {
    FirstRequested(account, amount, no);
    var d0 := Run(OPENING, FirstSteps(account, amount, no));
    InvOpening();
    RunKeeps(OPENING, FirstSteps(account, amount, no));
    ApprovalRuns(d0, no, true);
    var d1 := Run(d0, ApprovalSteps(d0, no, true));
    RunKeeps(d0, ApprovalSteps(d0, no, true));
    RefundedAgainIff(d1, no, again, WINDOW);
    var d2 := Next(d1, Request(again, account, "order", WINDOW));
    ApprovalRuns(d2, again, true);
  }

  // ----- The service -----

  class RefundService {
    const repo: WalletRepo
    var orders: map<string, Topup.Order>
    var refunds: map<string, Refund>
    ghost var reviews: seq<Review>
    ghost var payers: seq<Payer<string>>

    ghost function View(): Desk
      reads this, repo
    {
      Desk(repo.Contents(), orders, refunds, reviews, payers)
    }

    constructor (repo: WalletRepo)
      requires repo.Contents() == EMPTY
      ensures this.repo == repo && View() == OPENING
    {
      this.repo := repo;
      orders, refunds, reviews, payers := map[], map[], [], [];
    }

    method RequestRefund(no: string, account: int, orderNo: string, now: int) returns (r: Result<Refund>)
      modifies this
      ensures View() == Next(old(View()), Request(no, account, orderNo, now))
      ensures r == Checked(old(View()), no, account, orderNo, now)
      ensures orderNo !in orders || orders[orderNo].account != account ==> r == Err(NotFound)
      ensures orderNo in orders && orders[orderNo].account == account ==>
                var o := orders[orderNo];
                && (o.status != Topup.PaidUp ==> r == Err(NotPaid))
                && (o.status == Topup.PaidUp && now - o.createdAt > 604800 ==> r == Err(WindowClosed))
    {
      if orderNo !in orders || orders[orderNo].account != account {
        return Err(NotFound);
      }
      var order := orders[orderNo];
      if order.status != Topup.PaidUp {
        return Err(NotPaid);
      }
      if order.createdAt < now - WINDOW {
        return Err(WindowClosed);
      }
      if exists k :: k in refunds && refunds[k].orderNo == orderNo && InProgress(refunds[k]) {
        return Err(InFlight);
      }
      if no in refunds {
        return Err(Duplicate);
      }
      var row := Refund(account, orderNo, order.amount, Requested);
      refunds := refunds[no := row];
      r := Ok(row);
    }

    /** The compare-and-set: succeeds exactly if the refund is in the expected state. */
    method UpdateStatus(no: string, from: Status, to: Status) returns (ok: bool)
      modifies this`refunds
      ensures ok <==> no in old(refunds) && old(refunds)[no].status == from
      ensures refunds == if ok then old(refunds)[no := old(refunds)[no].(status := to)] else old(refunds)
    {
      ok := no in refunds && refunds[no].status == from;
      if ok {
        refunds := refunds[no := refunds[no].(status := to)];
      }
    }

    /** Sets the status whatever it was. */
    method MarkCompleted(no: string)
      modifies this`refunds
      ensures refunds == if no in old(refunds) then old(refunds)[no := old(refunds)[no].(status := Completed)] else old(refunds)
    {
      if no in refunds {
        refunds := refunds[no := refunds[no].(status := Completed)];
      }
    }

    /** An approval that runs without interference; stored tells whether the final write succeeds. */
    method ApproveRefund(no: string, stored: bool) returns (r: Result<()>)
      modifies this, repo
      ensures View() == if no in old(refunds) && old(refunds)[no].status == Requested
                        then ApprovalOutcome(old(View()), no, stored) else old(View())
      ensures no !in old(refunds) ==> r == Err(NotFound)
      ensures no in old(refunds) ==>
                (r.Ok? <==> old(refunds)[no].status == Requested && old(refunds)[no].account in old(repo.wallets) && stored)
      ensures no in old(refunds) && old(refunds)[no].status != Requested ==> r == Err(WrongState)
    {
      if no !in refunds {
        return Err(NotFound);
      }
      var row := refunds[no];
      if row.status != Requested {
        return Err(WrongState);
      }
      reviews := reviews + [Review(no, Approve, Claim(row.account, row.amount), false)];
      var won := UpdateStatus(no, Requested, Approved);
      reviews := reviews[|reviews| - 1 := reviews[|reviews| - 1].(done := true)];
      payers := payers + [Payer(no, Claim(row.account, row.amount), Holding)];
      ghost var i := |payers| - 1;
      var tx := repo.Credit(row.account, row.amount, REFUND, Ref(REFUND, no), "", Note(no));
      if tx.Err? {
        payers := payers[i := payers[i].(stage := Lost)];
        return Err(tx.error);
      }
      payers := payers[i := payers[i].(stage := Paid)];
      if !stored {
        return Err(Unavailable);
      }
      MarkCompleted(no);
      payers := payers[i := payers[i].(stage := Finished)];
      r := Ok(());
    }

    method RejectRefund(no: string) returns (r: Result<()>)
      modifies this
      ensures View() == Decided(Next(old(View()), Read(no, Reject)), |old(reviews)|)
      ensures r.Ok? <==> no in old(refunds) && old(refunds)[no].status == Requested
      ensures r.Err? ==> r == Err(if no in old(refunds) then WrongState else NotFound)
    {
      if no !in refunds {
        return Err(NotFound);
      }
      var row := refunds[no];
      if row.status != Requested {
        return Err(WrongState);
      }
      reviews := reviews + [Review(no, Reject, Claim(row.account, row.amount), false)];
      var won := UpdateStatus(no, Requested, Rejected);
      reviews := reviews[|reviews| - 1 := reviews[|reviews| - 1].(done := true)];
      r := Ok(());
    }
  }
}
