/**
 * Topups and refunds together: both work on the same orders and the same book. A refund request looks at
 * the order's status only, not at its type nor at what has been credited for it.
 */
module OrderMoney {
  import opened Base
  import opened Sums
  import opened Ledger
  import opened Payout
  import Topup
  import Refunds

  /** One table of orders and one book; the callers of the two services keep their own progress. */
  datatype Shop = Shop(book: Book, orders: map<string, Topup.Order>, topupPayers: seq<Payer<string>>,
                       refunds: map<string, Refunds.Refund>, reviews: seq<Refunds.Review>, refundPayers: seq<Payer<string>>)

  datatype Event =
    | Order(e: Topup.Event)      // a step of the payment orders
    | Refund(step: Refunds.Step) // a step of the refund workflow
    | Elsewhere(op: Op)          // any other wallet transaction

  const OPENED := Shop(EMPTY, map[], [], map[], [], [])

  function Till(s: Shop): Topup.State {
    Topup.State(s.book, s.orders, s.topupPayers)
  }

  function Desk(s: Shop): Refunds.Desk {
    Refunds.Desk(s.book, s.orders, s.refunds, s.reviews, s.refundPayers)
  }

  ghost function Next(s: Shop, e: Event): Shop {
    match e
    case Order(te) =>
      var t := Topup.Next(Till(s), te);
      s.(book := t.book, orders := t.orders, topupPayers := t.payers)
    case Refund(step) =>
      var d := Refunds.Next(Desk(s), step);
      s.(book := d.book, orders := d.orders, refunds := d.refunds, reviews := d.reviews, refundPayers := d.payers)
    case Elsewhere(op) => s.(book := Apply(s.book, op))
  }

  ghost function Run(events: seq<Event>): Shop {
    if events == [] then OPENED else Next(Run(events[..|events| - 1]), events[|events| - 1])
  }

  /** Each service keeps to its own steps, and other callers to other references. */
  predicate Proper(e: Event) {
    match e
    case Order(te) => !te.Elsewhere?
    case Refund(step) => !step.OrderChange? && !step.Other?
    case Elsewhere(op) => KeepsRef(op, Topup.ORDER_REF) && KeepsRef(op, Refunds.REFUND)
  }

  /** Refunds are of paid orders, to the order's account and over its amount. */
  ghost predicate RefundsMatch(orders: map<string, Topup.Order>, refunds: map<string, Refunds.Refund>) {
    forall k :: k in refunds ==>
      && refunds[k].orderNo in orders
      && var o := orders[refunds[k].orderNo];
         o.status == Topup.PaidUp && refunds[k].account == o.account && refunds[k].amount == o.amount
  }

  ghost predicate Inv(s: Shop) {
    Topup.Inv(Till(s)) && Refunds.Inv(Desk(s)) && RefundsMatch(s.orders, s.refunds)
  }

  lemma OrderStepBook(t: Topup.State, e: Topup.Event) returns (op: Op)
    requires !e.Elsewhere?
    ensures Topup.Next(t, e).book in {t.book, Apply(t.book, op)} && KeepsRef(op, Refunds.REFUND)
  {
    op := OpenWallet(0);
    if e.CreditOrder? && e.i < |t.payers| {
      var p := t.payers[e.i];
      op := Credit(p.claim.account, p.claim.amount, TOPUP, Ref(Topup.ORDER_REF, p.key), "", "");
    }
  }

  lemma RefundStepBook(d: Refunds.Desk, e: Refunds.Step) returns (op: Op)
    requires !e.Other?
    ensures Refunds.Next(d, e).book in {d.book, Apply(d.book, op)} && KeepsRef(op, Topup.ORDER_REF)
  {
    op := OpenWallet(0);
    if e.Pay? && e.i < |d.payers| {
      var p := d.payers[e.i];
      op := Credit(p.claim.account, p.claim.amount, Refunds.REFUND, Ref(Refunds.REFUND, p.key), "", Refunds.Note(p.key));
    }
  }

  lemma OrdersKept(t: Topup.State, e: Topup.Event, refunds: map<string, Refunds.Refund>)
    requires RefundsMatch(t.orders, refunds)
    ensures RefundsMatch(Topup.Next(t, e).orders, refunds)
  {
  }

  lemma RefundsKept(d: Refunds.Desk, e: Refunds.Step)
    requires RefundsMatch(d.orders, d.refunds) && !e.OrderChange?
    ensures RefundsMatch(Refunds.Next(d, e).orders, Refunds.Next(d, e).refunds)
  {
  }

  lemma OrderKeeps(s: Shop, e: Topup.Event)
    requires Inv(s) && !e.Elsewhere?
    ensures Inv(Next(s, Order(e)))
  {
    Topup.NextKeeps(Till(s), e);
    OrdersKept(Till(s), e, s.refunds);
    var op := OrderStepBook(Till(s), e);
    ForeignKeepsBooked(s.book, op, s.refundPayers, Refunds.STYLE);
  }

  lemma RefundKeeps(s: Shop, step: Refunds.Step)
    requires Inv(s) && !step.OrderChange? && !step.Other?
    ensures Inv(Next(s, Refund(step)))
  {
    Refunds.NextKeeps(Desk(s), step);
    RefundsKept(Desk(s), step);
    var op := RefundStepBook(Desk(s), step);
    ForeignKeepsBooked(s.book, op, s.topupPayers, Topup.STYLE);
  }

  lemma NextKeeps(s: Shop, e: Event)
    requires Inv(s) && Proper(e)
    ensures Inv(Next(s, e))
  {
    match e
    case Order(te) => OrderKeeps(s, te);
    case Refund(step) => RefundKeeps(s, step);
    case Elsewhere(op) =>
      ForeignKeepsBooked(s.book, op, s.topupPayers, Topup.STYLE);
      ForeignKeepsBooked(s.book, op, s.refundPayers, Refunds.STYLE);
  }

  lemma {:induction false} RunKeeps(events: seq<Event>)
    requires forall i :: 0 <= i < |events| ==> Proper(events[i])
    ensures Inv(Run(events))
  {
    if events == [] {
      Topup.InvStart();
      Refunds.InvOpening();
    } else {
      RunKeeps(events[..|events| - 1]);
      NextKeeps(Run(events[..|events| - 1]), events[|events| - 1]);
    }
  }

  // ----- What an order brings its account -----

  ghost function RefundsOf(s: Shop, no: string): set<string> {
    set k | k in s.refunds && s.refunds[k].orderNo == no
  }

  /** The refunds of an order that have been credited. */
  ghost function CreditedRefunds(s: Shop, no: string): set<string> {
    PaidKeys(s.refundPayers) * RefundsOf(s, no)
  }

  /** Whether the topup of an order has been credited. */
  ghost function CreditedTopups(s: Shop, no: string): int {
    Sum(s.book.rows, Mentions(Ref(Topup.ORDER_REF, no)))
  }

  /** What rows pay for an order, as its topup or as one of its refunds. */
  ghost function PaidFor(no: string, refunds: set<string>): Row -> int {
    (r: Row) => if r.ref == Ref(Topup.ORDER_REF, no) || (r.ref.kind == Refunds.REFUND && r.ref.id in refunds) then r.amount else 0
  }

  ghost function OrderTotal(s: Shop, no: string): int {
    Sum(s.book.rows, PaidFor(no, RefundsOf(s, no)))
  }

  ghost function AmountWith(ids: set<string>): Slip -> int {
    (s: Slip) => if s.ref.id in ids then s.amount else 0
  }

  lemma PaidForSplits(rows: seq<Row>, no: string, refunds: set<string>)
    ensures Sum(rows, PaidFor(no, refunds))
         == Sum(rows, RowWeight(Topup.ORDER_REF, AmountWith({no}))) + Sum(rows, RowWeight(Refunds.REFUND, AmountWith(refunds)))
  {
    forall i | 0 <= i < |rows|
      ensures PaidFor(no, refunds)(rows[i])
           == RowWeight(Topup.ORDER_REF, AmountWith({no}))(rows[i]) + RowWeight(Refunds.REFUND, AmountWith(refunds))(rows[i])
    {
      RowWeighs(rows[i], Topup.ORDER_REF, AmountWith({no}));
      RowWeighs(rows[i], Refunds.REFUND, AmountWith(refunds));
    }
    SumPlus(rows, RowWeight(Topup.ORDER_REF, AmountWith({no})), RowWeight(Refunds.REFUND, AmountWith(refunds)), PaidFor(no, refunds));
  }

  /** Paid payers whose keys are in a set, all over the same amount, are paid that amount each. */
  lemma {:induction false} SameAmounts(payers: seq<Payer<string>>, style: Style<string>, keys: set<string>, amount: int)
    requires forall k :: style.refOf(k) == k
    requires forall i :: 0 <= i < |payers| && payers[i].key in keys ==> payers[i].claim.amount == amount
    ensures Sum(payers, PaidWeight(style, AmountWith(keys))) == amount * Sum(payers, PaidIn(keys))
  {
    if payers != [] {
      var init, p := payers[..|payers| - 1], payers[|payers| - 1];
      SameAmounts(init, style, keys, amount);
      PayerWeighs(p, style, AmountWith(keys));
      assert amount * (Sum(init, PaidIn(keys)) + 1) == amount * Sum(init, PaidIn(keys)) + amount;
    }
  }

  lemma TopupPart(s: Shop, no: string)
    requires Inv(s) && no in s.orders
    ensures Sum(s.book.rows, RowWeight(Topup.ORDER_REF, AmountWith({no}))) == s.orders[no].amount * CreditedTopups(s, no)
    ensures CreditedTopups(s, no) == |PaidKeys(s.topupPayers) * {no}| <= 1
    ensures CreditedTopups(s, no) > 0 ==> s.orders[no].status == Topup.PaidUp
  {
    var claims := Topup.Claims(s.orders);
    SameAmounts(s.topupPayers, Topup.STYLE, {no}, s.orders[no].amount);
    PaidKeysCount(s.topupPayers, {no});
    if no in claims {
      var i :| 0 <= i < |s.topupPayers| && s.topupPayers[i].key == no;
      OneMention(s.book.rows, claims, s.topupPayers, Topup.STYLE, i);
      SumSingle(s.topupPayers, PaidIn({no}), i);
    } else {
      NoMention(s.book.rows, claims, s.topupPayers, Topup.STYLE, no);
      SumZero(s.topupPayers, PaidIn({no}));
    }
  }

  lemma RefundPart(s: Shop, no: string)
    requires Inv(s) && no in s.orders
    ensures Sum(s.book.rows, RowWeight(Refunds.REFUND, AmountWith(RefundsOf(s, no)))) == s.orders[no].amount * |CreditedRefunds(s, no)|
    ensures s.orders[no].status != Topup.PaidUp ==> RefundsOf(s, no) == {}
  {
    var keys, amount := RefundsOf(s, no), s.orders[no].amount;
    forall i | 0 <= i < |s.refundPayers| && s.refundPayers[i].key in keys
      ensures s.refundPayers[i].claim.amount == amount
    {
      assert Refunds.Granted(s.refunds)[s.refundPayers[i].key] == s.refundPayers[i].claim;
    }
    SameAmounts(s.refundPayers, Refunds.STYLE, keys, amount);
    PaidKeysCount(s.refundPayers, keys);
  }

  lemma Scaled(amount: int, n: int)
    requires amount > 0
    ensures amount * n > amount <==> n >= 2
  {
    if n >= 2 {
      assert amount * n == amount * 2 + amount * (n - 2);
    } else {
      assert amount * n == amount - amount * (1 - n);
    }
  }

  lemma TotalIsBothParts(s: Shop, no: string)
    requires Inv(s) && no in s.orders
    ensures OrderTotal(s, no) == s.orders[no].amount * CreditedTopups(s, no) + s.orders[no].amount * |CreditedRefunds(s, no)|
  {
    PaidForSplits(s.book.rows, no, RefundsOf(s, no));
    TopupPart(s, no);
    RefundPart(s, no);
  }

  lemma Distribute(amount: int, m: int, n: int)
    ensures amount * m + amount * n == amount * (m + n)
  {
  }

  lemma TotalIsAmountTimes(s: Shop, no: string)
    requires Inv(s) && no in s.orders
    ensures OrderTotal(s, no) == s.orders[no].amount * (CreditedTopups(s, no) + |CreditedRefunds(s, no)|)
  {
    TotalIsBothParts(s, no);
    Distribute(s.orders[no].amount, CreditedTopups(s, no), |CreditedRefunds(s, no)|);
  }

  lemma CreditCounts(s: Shop, no: string)
    requires Inv(s) && no in s.orders
    ensures CreditedTopups(s, no) == |PaidKeys(s.topupPayers) * {no}| <= 1
    ensures s.orders[no].status != Topup.PaidUp ==> CreditedTopups(s, no) == 0 && CreditedRefunds(s, no) == {}
  {
    TopupPart(s, no);
    RefundPart(s, no);
  }

  /** What the ledger pays for an order, by the number of its credits. */
  ghost predicate TotalCounts(s: Shop, no: string)
    requires no in s.orders
  {
    var o, credits := s.orders[no], CreditedTopups(s, no) + |CreditedRefunds(s, no)|;
    && CreditedTopups(s, no) <= 1
    && OrderTotal(s, no) == o.amount * credits
    && (o.status != Topup.PaidUp ==> credits == 0)
    && (o.amount > 0 ==> (OrderTotal(s, no) > o.amount <==> credits >= 2))
  }

  lemma TotalKept(s: Shop, no: string)
    requires Inv(s) && no in s.orders
    ensures TotalCounts(s, no)
  {
    TotalIsAmountTimes(s, no);
    CreditCounts(s, no);
    if s.orders[no].amount > 0 {
      Scaled(s.orders[no].amount, CreditedTopups(s, no) + |CreditedRefunds(s, no)|);
    }
  }

  /**
   * Over every run of both services, the ledger pays for an order its amount, once for its topup if that was
   * credited and once for each credited refund. So the account gets back more than it paid exactly if these are
   * at least two; nothing is paid for an order that is not paid.
   */
  lemma {:induction false} OrderTotalCounts(events: seq<Event>, no: string)
    requires forall i :: 0 <= i < |events| ==> Proper(events[i])
    requires no in Run(events).orders
    ensures TotalCounts(Run(events), no)
  {
    RunKeeps(events);
    TotalKept(Run(events), no);
  }

  // ----- A run that pays twice -----

  lemma RunSnoc(events: seq<Event>, e: Event)
    ensures Run(events + [e]) == Next(Run(events), e)
  {
    assert (events + [e])[..|events|] == events;
  }

  /** An account opens its wallet and tops it up, and is credited. */
  function TopupEvents(no: string, account: int, amount: int): seq<Event> {
    [Elsewhere(OpenWallet(account)), Order(Topup.CreateOrder(no, account, "topup", amount, 0)),
     Order(Topup.Deliver(no)), Order(Topup.CreditOrder(0))]
  }

  /** The order is refunded in full. */
  function RefundEvents(no: string, account: int, refundNo: string): seq<Event> {
    [Refund(Refunds.Request(refundNo, account, no, 0)), Refund(Refunds.Read(refundNo, Refunds.Approve)),
     Refund(Refunds.Decide(0)), Refund(Refunds.Pay(0))]
  }

  lemma AfterTopup(no: string, account: int, amount: int)
    requires amount > 0
    ensures var s := Run(TopupEvents(no, account, amount));
            && s.orders == map[no := Topup.Order(account, "topup", amount, Topup.PaidUp, 0)]
            && s.topupPayers == [Payer(no, Claim(account, amount), Paid)]
            && s.refunds == map[] && s.reviews == [] && s.refundPayers == [] && account in s.book.wallets
  {
    var run := TopupEvents(no, account, amount);
    var e1, e2, e3, e4 := run[0], run[1], run[2], run[3];
    RunSnoc([], e1);
    RunSnoc([e1], e2);
    RunSnoc([e1, e2], e3);
    RunSnoc([e1, e2, e3], e4);
    assert [] + [e1] == [e1] && [e1] + [e2] == [e1, e2];
    assert [e1, e2] + [e3] == [e1, e2, e3] && [e1, e2, e3] + [e4] == run;
  }

  lemma AfterRefund(events: seq<Event>, no: string, account: int, amount: int, refundNo: string)
    requires var s := Run(events);
             && s.orders == map[no := Topup.Order(account, "topup", amount, Topup.PaidUp, 0)]
             && s.refunds == map[] && s.reviews == [] && s.refundPayers == [] && account in s.book.wallets
    ensures var s, s' := Run(events), Run(events + RefundEvents(no, account, refundNo));
            && s'.orders == s.orders && s'.topupPayers == s.topupPayers
            && s'.refunds == map[refundNo := Refunds.Refund(account, no, amount, Refunds.Approved)]
            && s'.refundPayers == [Payer(refundNo, Claim(account, amount), Paid)]
  {
    var run := RefundEvents(no, account, refundNo);
    var e1, e2, e3, e4 := run[0], run[1], run[2], run[3];
    RunSnoc(events, e1);
    RunSnoc(events + [e1], e2);
    RunSnoc(events + [e1] + [e2], e3);
    RunSnoc(events + [e1] + [e2] + [e3], e4);
    assert events + [e1] + [e2] + [e3] + [e4] == events + run;
  }

  lemma TwoCredits(s: Shop, no: string, refundNo: string)
    requires Inv(s) && no in s.orders && s.refunds.Keys == {refundNo} && s.refunds[refundNo].orderNo == no
    requires |s.topupPayers| == 1 && s.topupPayers[0].key == no && s.topupPayers[0].HasPaid()
    requires |s.refundPayers| == 1 && s.refundPayers[0].key == refundNo && s.refundPayers[0].HasPaid()
    ensures CreditedTopups(s, no) == 1 && |CreditedRefunds(s, no)| == 1
  {
    CreditCounts(s, no);
    assert PaidKeys(s.topupPayers) * {no} == {no};
    assert CreditedRefunds(s, no) == {refundNo};
  }

  lemma TwiceProper(no: string, account: int, amount: int, refundNo: string)
    ensures forall e :: e in TopupEvents(no, account, amount) + RefundEvents(no, account, refundNo) ==> Proper(e)
  {
  }

  lemma AfterBoth(no: string, account: int, amount: int, refundNo: string)
    requires amount > 0
    ensures var s := Run(TopupEvents(no, account, amount) + RefundEvents(no, account, refundNo));
            && Inv(s) && no in s.orders && s.orders[no].amount == amount
            && CreditedTopups(s, no) == 1 && |CreditedRefunds(s, no)| == 1
  {
    AfterTopup(no, account, amount);
    AfterRefund(TopupEvents(no, account, amount), no, account, amount, refundNo);
    TwiceProper(no, account, amount, refundNo);
    RunKeeps(TopupEvents(no, account, amount) + RefundEvents(no, account, refundNo));
    TwoCredits(Run(TopupEvents(no, account, amount) + RefundEvents(no, account, refundNo)), no, refundNo);
  }

  lemma TwicePaid(s: Shop, no: string)
    requires Inv(s) && no in s.orders && CreditedTopups(s, no) == 1 && |CreditedRefunds(s, no)| == 1
    ensures OrderTotal(s, no) == 2 * s.orders[no].amount
  {
    TotalIsAmountTimes(s, no);
  }

  /** A credited topup can be refunded, and leaves its account with twice what it paid. */
  lemma RefundedTopupPaysTwice(no: string, account: int, amount: int, refundNo: string)
    requires amount > 0
    ensures var s := Run(TopupEvents(no, account, amount) + RefundEvents(no, account, refundNo));
            no in s.orders && s.orders[no].amount == amount && OrderTotal(s, no) == 2 * amount
  {
    AfterBoth(no, account, amount, refundNo);
    TwicePaid(Run(TopupEvents(no, account, amount) + RefundEvents(no, account, refundNo)), no);
  }
}
