/**
 * Payment orders and topup credits: flipping an order to paid and crediting the wallet are two
 * transactions, run by any number of webhook deliveries next to the stale-order sweep and every
 * other use of the wallets.
 */
module Topup {
  import opened Base
  import opened Sums
  import opened Ledger
  import opened Payout

  const ORDER_REF := "payment_order"

  /** A credit references its order. */
  const STYLE: Style<string> := Style(TOPUP, ORDER_REF, (no: string) => no, (no: string) => "")

  /** Pending orders older than this many seconds are expired. */
  const MAX_AGE := 24 * 3600

  datatype OrderStatus = Pending | PaidUp | Expired

  datatype Order = Order(account: int, orderType: string, amount: int, status: OrderStatus, createdAt: int)

  /** payers are the webhook deliveries that flipped a topup order and so own its credit. */
  datatype State = State(book: Book, orders: map<string, Order>, payers: seq<Payer<string>>)

  datatype Event =
    | CreateOrder(no: string, account: int, orderType: string, amount: int, now: int)
    | Deliver(no: string)        // the conditional update pending -> paid
    | CreditOrder(i: nat)        // delivery i credits the wallet
    | Crash(i: nat)              // delivery i dies, or its credit is refused
    | Sweep(now: int)            // expire stale pending orders
    | Elsewhere(op: Op)          // any other wallet transaction

  const START := State(EMPTY, map[], [])

  predicate IsTopup(o: Order) {
    o.orderType == "topup"
  }

  function Created(orders: map<string, Order>, no: string, account: int, orderType: string, amount: int, now: int)
    : Result<map<string, Order>>
  {
    if orderType == "topup" && amount <= 0 then Err(Malformed)
    else if no in orders then Err(Duplicate)
    else Ok(orders[no := Order(account, orderType, amount, Pending, now)])
  }

  function Swept(orders: map<string, Order>, now: int): map<string, Order> {
    map no | no in orders ::
      if orders[no].status == Pending && orders[no].createdAt < now - MAX_AGE then orders[no].(status := Expired)
      else orders[no]
  }

  function Delivered(s: State, no: string): State {
    if no !in s.orders || s.orders[no].status != Pending then s
    else
      var o := s.orders[no];
      s.(orders := s.orders[no := o.(status := PaidUp)],
         payers := if IsTopup(o) then s.payers + [Payer(no, Claim(o.account, o.amount), Holding)] else s.payers)
  }

  function At(s: State, i: nat, stage: Stage): State
    requires i < |s.payers|
  {
    s.(payers := s.payers[i := s.payers[i].(stage := stage)])
  }

  function CreditedOrder(s: State, i: nat): State {
    if i >= |s.payers| || s.payers[i].stage != Holding then s
    else
      var p := s.payers[i];
      match Credited(s.book, p.claim.account, p.claim.amount, TOPUP, Ref(ORDER_REF, p.key), "", "")
      case Ok(b) => At(s, i, Paid).(book := b)
      case Err(_) => At(s, i, Lost)
  }

  function Crashed(s: State, i: nat): State {
    if i < |s.payers| && s.payers[i].stage == Holding then At(s, i, Lost) else s
  }

  function Next(s: State, e: Event): State {
    match e
    case CreateOrder(no, account, orderType, amount, now) =>
      var r := Created(s.orders, no, account, orderType, amount, now);
      if r.Ok? then s.(orders := r.value) else s
    case Deliver(no) => Delivered(s, no)
    case CreditOrder(i) => CreditedOrder(s, i)
    case Crash(i) => Crashed(s, i)
    case Sweep(now) => s.(orders := Swept(s.orders, now))
    case Elsewhere(op) => s.(book := Apply(s.book, op))
  }

  function Run(s: State, events: seq<Event>): State {
    if events == [] then s else Next(Run(s, events[..|events| - 1]), events[|events| - 1])
  }

  /** No other caller writes ledger rows that reference a payment order. */
  predicate Foreign(e: Event) {
    e.Elsewhere? ==> KeepsRef(e.op, ORDER_REF)
  }

  predicate AllForeign(events: seq<Event>) {
    forall i :: 0 <= i < |events| ==> Foreign(events[i])
  }

  /** The paid topup orders, and what each entitles its account to. */
  ghost function Claims(orders: map<string, Order>): map<string, Claim> {
    map no | no in orders && orders[no].status == PaidUp && IsTopup(orders[no]) :: Claim(orders[no].account, orders[no].amount)
  }

  ghost predicate Inv(s: State) {
    && OnePayerEach(Claims(s.orders), s.payers)
    && Booked(s.book.rows, s.payers, STYLE)
  }

  lemma FlipClaims(orders: map<string, Order>, no: string)
    requires no in orders && orders[no].status == Pending
    ensures var o := orders[no];
            Claims(orders[no := o.(status := PaidUp)]) ==
              if IsTopup(o) then Claims(orders)[no := Claim(o.account, o.amount)] else Claims(orders)
  {
  }

  lemma DeliverKeeps(s: State, no: string)
    requires Inv(s)
    ensures Inv(Delivered(s, no))
  {
    if no in s.orders && s.orders[no].status == Pending {
      var o := s.orders[no];
      FlipClaims(s.orders, no);
      if IsTopup(o) {
        var p := Payer(no, Claim(o.account, o.amount), Holding);
        ClaimKeeps(Claims(s.orders), s.payers, p);
        ClaimKeepsBooked(s.book.rows, s.payers, p, STYLE);
      }
    }
  }

  lemma SettleKeeps(s: State, i: nat)
    requires Inv(s)
    ensures Inv(CreditedOrder(s, i)) && Inv(Crashed(s, i))
  {
    if i < |s.payers| && s.payers[i].stage == Holding {
      StageKeeps(Claims(s.orders), s.payers, i, Lost);
      StageKeepsBooked(s.book.rows, s.payers, i, Lost, STYLE);
      var s' := CreditedOrder(s, i);
      if s'.book != s.book {
        StageKeeps(Claims(s.orders), s.payers, i, Paid);
        PayKeepsBooked(s.book.rows, s'.book.rows[|s.book.rows|], s.payers, i, STYLE);
      }
    }
  }

  lemma NextKeeps(s: State, e: Event)
    requires Inv(s) && Foreign(e)
    ensures Inv(Next(s, e))
  {
    match e
    case CreateOrder(no, account, orderType, amount, now) =>
      assert Claims(Next(s, e).orders) == Claims(s.orders);
    case Deliver(no) => DeliverKeeps(s, no);
    case CreditOrder(i) => SettleKeeps(s, i);
    case Crash(i) => SettleKeeps(s, i);
    case Sweep(now) =>
      assert Claims(Swept(s.orders, now)) == Claims(s.orders);
    case Elsewhere(op) => ForeignKeepsBooked(s.book, op, s.payers, STYLE);
  }

  lemma {:induction false} RunKeeps(s: State, events: seq<Event>)
    requires Inv(s) && AllForeign(events)
    ensures Inv(Run(s, events))
  {
    if events != [] {
      RunKeeps(s, events[..|events| - 1]);
      NextKeeps(Run(s, events[..|events| - 1]), events[|events| - 1]);
    }
  }

  lemma InvStart()
    ensures Inv(START)
  {
    assert Claims(START.orders) == map[];
  }

  /** Ledger rows that reference an order. */
  ghost function Credits(s: State, no: string): int {
    Sum(s.book.rows, Mentions(Ref(ORDER_REF, no)))
  }

  /**
   * In every reachable state a topup order is credited at most once, only if it is paid,
   * and then exactly if its one payer got through; an expired order has no ledger row.
   */
  lemma {:induction false} CreditedAtMostOnce(events: seq<Event>, no: string)
    requires AllForeign(events)
    ensures var s := Run(START, events);
            if no in Claims(s.orders) then
              exists i :: 0 <= i < |s.payers| && s.payers[i].key == no
                && s.payers[i].claim == Claims(s.orders)[no]
                && (forall j :: 0 <= j < |s.payers| && s.payers[j].key == no ==> j == i)
                && Credits(s, no) == if s.payers[i].HasPaid() then 1 else 0
            else Credits(s, no) == 0
  {
    var s := Run(START, events);
    InvStart();
    RunKeeps(START, events);
    if no in Claims(s.orders) {
      var i :| 0 <= i < |s.payers| && s.payers[i].key == no;
      OneMention(s.book.rows, Claims(s.orders), s.payers, STYLE, i);
    } else {
      NoMention(s.book.rows, Claims(s.orders), s.payers, STYLE, no);
    }
  }

  /**
   * Which orders are credited: over every run, an order has a payer exactly if it is a paid topup, and one without has
   * no ledger row. So subscription orders, paid or not, are never credited.
   */
  lemma {:induction false} OnlyPaidTopups(events: seq<Event>, no: string)
    requires AllForeign(events)
    ensures var s := Run(START, events);
            var paidTopup := no in s.orders && s.orders[no].status == PaidUp && s.orders[no].orderType == "topup";
            && ((exists i :: 0 <= i < |s.payers| && s.payers[i].key == no) <==> paidTopup)
            && (!paidTopup ==> Credits(s, no) == 0)
            && (forall i :: 0 <= i < |s.payers| && s.payers[i].key == no ==>
                  no in s.orders && s.payers[i].claim == Claim(s.orders[no].account, s.orders[no].amount))
  {
    InvStart();
    RunKeeps(START, events);
    var s := Run(START, events);
    if no !in Claims(s.orders) {
      NoMention(s.book.rows, Claims(s.orders), s.payers, STYLE, no);
    }
  }

  /**
   * What an undisturbed delivery of a pending order does, in any state: the order is paid; if it is a topup and its
   * account has a wallet, the wallet gains the amount and the ledger one row; otherwise the book stays, and nobody
   * takes over a refused credit.
   */
  lemma {:induction false} DeliveryPays(s: State, no: string)
    requires no in s.orders && s.orders[no].status == Pending
    ensures var o, s' := s.orders[no], Run(s, [Deliver(no), CreditOrder(|s.payers|)]);
            && s'.orders == s.orders[no := o.(status := PaidUp)]
            && if o.orderType == "topup" && o.account in s.book.wallets then
                 && s'.book.rows == s.book.rows + [Row(o.account, "topup", o.amount, Balance(s.book, o.account) + o.amount, "",
                                                       Ref("payment_order", no), "")]
                 && forall a :: Balance(s'.book, a) == Balance(s.book, a) + if a == o.account then o.amount else 0
               else
                 s'.book == s.book && s'.payers == s.payers + if o.orderType == "topup" then [Payer(no, Claim(o.account, o.amount), Lost)] else []
  {
    RunSnoc(s, [], Deliver(no));
    RunSnoc(s, [Deliver(no)], CreditOrder(|s.payers|));
    assert [] + [Deliver(no)] == [Deliver(no)] && [Deliver(no)] + [CreditOrder(|s.payers|)] == [Deliver(no), CreditOrder(|s.payers|)];
  }

  /** A delivery changes a state exactly if the order is pending. */
  lemma DeliverIff(s: State, no: string)
    ensures Next(s, Deliver(no)) != s <==> no in s.orders && s.orders[no].status == Pending
    ensures no in s.orders && s.orders[no].status == Pending ==>
              Next(s, Deliver(no)).orders == s.orders[no := s.orders[no].(status := PaidUp)]
  {
  }

  /** An order is created exactly for a fresh number and, if it is a topup, a positive amount; it is pending, as asked for. */
  lemma CreateIff(s: State, no: string, account: int, orderType: string, amount: int, now: int)
    ensures Next(s, CreateOrder(no, account, orderType, amount, now)) ==
            if no !in s.orders && (orderType == "topup" ==> amount > 0)
            then s.(orders := s.orders[no := Order(account, orderType, amount, Pending, now)]) else s
  {
  }

  /** A sweep expires exactly the pending orders created more than a day ago, and changes nothing else. */
  lemma SweepIff(s: State, now: int, no: string)
    requires no in s.orders
    ensures var s' := Next(s, Sweep(now));
            && s' == s.(orders := s'.orders) && s'.orders.Keys == s.orders.Keys
            && s'.orders[no] == if s.orders[no].status == Pending && now - s.orders[no].createdAt > 86400
                                then s.orders[no].(status := Expired) else s.orders[no]
  {
  }

  /** Every row that references an order pays that order's account its amount, as a topup. */
  lemma {:induction false} RowsMatchOrders(events: seq<Event>, j: nat)
    requires AllForeign(events)
    requires j < |Run(START, events).book.rows| && Run(START, events).book.rows[j].ref.kind == ORDER_REF
    ensures var s := Run(START, events);
            var row := s.book.rows[j];
            row.ref.id in Claims(s.orders) && row.kind == TOPUP
            && Claim(row.account, row.amount) == Claims(s.orders)[row.ref.id]
  {
    InvStart();
    RunKeeps(START, events);
    var s := Run(START, events);
    var i := RowHasPayer(s.book.rows, s.payers, STYLE, j);
  }

  /** Credited topups plus amounts held or lost past the flip are the total of paid topup orders. */
  lemma {:induction false} TopupMoneyConserved(events: seq<Event>)
    requires AllForeign(events)
    ensures var s := Run(START, events);
            Sum(s.book.rows, AmountUnder(ORDER_REF)) + Sum(s.payers, AmountAt(Holding)) + Sum(s.payers, AmountAt(Lost))
              == Total(Amounts(Claims(s.orders)))
  {
    InvStart();
    RunKeeps(START, events);
    var s := Run(START, events);
    BookedTotal(s.book.rows, s.payers, STYLE);
    ClaimsAddUp(Claims(s.orders), s.payers);
  }

  lemma NextExplained(s: State, e: Event)
    requires Explained(s.book)
    ensures Explained(Next(s, e).book)
  {
    if e.Elsewhere? {
      ExplainedKept(s.book, e.op);
    } else if e.CreditOrder? && e.i < |s.payers| {
      var p := s.payers[e.i];
      ExplainedKept(s.book, Credit(p.claim.account, p.claim.amount, TOPUP, Ref(ORDER_REF, p.key), "", ""));
    }
  }

  /** Deliveries and everything else keep the ledger explaining its balances. */
  lemma {:induction false} LedgerStaysExplained(events: seq<Event>)
    ensures Explained(Run(START, events).book)
  {
    if events == [] {
      LedgerExplainsBalances([]);
    } else {
      LedgerStaysExplained(events[..|events| - 1]);
      NextExplained(Run(START, events[..|events| - 1]), events[|events| - 1]);
    }
  }

  // ----- What never changes back -----

  lemma {:induction false} OrderFinal(s: State, events: seq<Event>, no: string)
    requires no in s.orders
    ensures no in Run(s, events).orders
    ensures var o, o' := s.orders[no], Run(s, events).orders[no];
            o' == o.(status := o'.status) && (o.status != Pending ==> o' == o)
  {
    if events != [] {
      OrderFinal(s, events[..|events| - 1], no);
    }
  }

  lemma {:induction false} PayerFinal(s: State, events: seq<Event>, i: nat)
    requires i < |s.payers|
    ensures i < |Run(s, events).payers|
    ensures Run(s, events).payers[i].key == s.payers[i].key
    ensures s.payers[i].stage != Holding ==> Run(s, events).payers[i] == s.payers[i]
  {
    if events != [] {
      PayerFinal(s, events[..|events| - 1], i);
    }
  }

  /**
   * A delivery that dies between the flip and the credit is never made good: however often the
   * webhook is redelivered, the order stays paid and uncredited.
   */
  lemma {:induction false} LostCreditStaysLost(s: State, i: nat, events: seq<Event>)
    requires Inv(s) && AllForeign(events)
    requires i < |s.payers| && s.payers[i].stage == Lost
    ensures Credits(Run(s, events), s.payers[i].key) == 0
    ensures s.payers[i].key in Claims(Run(s, events).orders)
  {
    RunKeeps(s, events);
    PayerFinal(s, events, i);
    OneMention(Run(s, events).book.rows, Claims(Run(s, events).orders), Run(s, events).payers, STYLE, i);
  }

  lemma RunSnoc(s: State, events: seq<Event>, e: Event)
    ensures Run(s, events + [e]) == Next(Run(s, events), e)
  {
    assert (events + [e])[..|events|] == events;
  }

  /** An order is created and paid, and the delivery that flipped it dies. */
  function LosingRun(no: string, account: int, amount: int, now: int): seq<Event> {
    [Elsewhere(OpenWallet(account)), CreateOrder(no, account, "topup", amount, now), Deliver(no), Crash(0)]
  }

  lemma LosingEnd(no: string, account: int, amount: int, now: int)
    requires amount > 0
    ensures Run(START, LosingRun(no, account, amount, now)) ==
            State(Opened(EMPTY, account), map[no := Order(account, "topup", amount, PaidUp, now)],
                  [Payer(no, Claim(account, amount), Lost)])
  {
    var run := LosingRun(no, account, amount, now);
    var e1, e2, e3, e4 := run[0], run[1], run[2], run[3];
    RunSnoc(START, [], e1);
    RunSnoc(START, [e1], e2);
    RunSnoc(START, [e1, e2], e3);
    RunSnoc(START, [e1, e2, e3], e4);
    assert [] + [e1] == [e1] && [e1] + [e2] == [e1, e2];
    assert [e1, e2] + [e3] == [e1, e2, e3] && [e1, e2, e3] + [e4] == run;
  }

  /** Such a run exists: from the empty state it ends in a paid order that no later event ever credits. */
  lemma {:induction false} PaidNeverCredited(no: string, account: int, amount: int, now: int, later: seq<Event>)
    requires amount > 0 && AllForeign(later)
    ensures var s := Run(Run(START, LosingRun(no, account, amount, now)), later);
            no in Claims(s.orders) && Claims(s.orders)[no] == Claim(account, amount) && Credits(s, no) == 0
  {
    LosingEnd(no, account, amount, now);
    InvStart();
    RunKeeps(START, LosingRun(no, account, amount, now));
    var s := Run(START, LosingRun(no, account, amount, now));
    LostCreditStaysLost(s, 0, later);
    OrderFinal(s, later, no);
  }

  /** A credited order stays credited exactly once under any further deliveries and sweeps. */
  lemma {:induction false} CreditedStaysCreditedOnce(s: State, i: nat, events: seq<Event>)
    requires Inv(s) && AllForeign(events)
    requires i < |s.payers| && s.payers[i].stage == Paid
    ensures Credits(Run(s, events), s.payers[i].key) == 1
  {
    RunKeeps(s, events);
    PayerFinal(s, events, i);
    OneMention(Run(s, events).book.rows, Claims(Run(s, events).orders), Run(s, events).payers, STYLE, i);
  }

  // ----- The service -----

  class WalletService {
    const repo: WalletRepo
    var orders: map<string, Order>
    ghost var payers: seq<Payer<string>>

    ghost function View(): State
      reads this, repo
    {
      State(repo.Contents(), orders, payers)
    }

    constructor (repo: WalletRepo)
      requires repo.Contents() == EMPTY
      ensures this.repo == repo && View() == START
    {
      this.repo := repo;
      orders, payers := map[], [];
    }

    method CreateTopup(no: string, account: int, amount: int, now: int) returns (r: Result<Order>)
      modifies this
      ensures View() == Next(old(View()), CreateOrder(no, account, "topup", amount, now))
      ensures r.Ok? <==> amount > 0 && no !in old(orders)
    {
      if amount <= 0 {
        return Err(Malformed);
      }
      if no in orders {
        return Err(Duplicate);
      }
      var o := Order(account, "topup", amount, Pending, now);
      orders := orders[no := o];
      r := Ok(o);
    }

    /** Returns the order, and whether this call performed the transition. */
    method MarkPaymentOrderPaid(no: string) returns (o: Option<Order>, didTransition: bool)
      modifies this
      ensures View() == Next(old(View()), Deliver(no))
      ensures didTransition <==> no in old(orders) && old(orders)[no].status == Pending
      ensures o == if no in orders then Some(orders[no]) else None
    {
      didTransition := no in orders && orders[no].status == Pending;
      if didTransition {
        var row := orders[no];
        orders := orders[no := row.(status := PaidUp)];
        if IsTopup(row) {
          payers := payers + [Payer(no, Claim(row.account, row.amount), Holding)];
        }
      }
      o := if no in orders then Some(orders[no]) else None;
    }

    /** The uninterrupted flip-then-credit of one webhook delivery. */
    method MarkOrderPaid(no: string) returns (r: Result<Order>)
      modifies this, repo
      ensures View() == Run(old(View()), if no in old(orders) && old(orders)[no].status == Pending && IsTopup(old(orders)[no])
                                         then [Deliver(no), CreditOrder(|old(payers)|)] else [Deliver(no)])
      ensures no in old(orders) && old(orders)[no].status != Pending ==> View() == old(View()) && r == Ok(old(orders)[no])
      ensures no !in old(orders) ==> View() == old(View()) && r == Err(NotFound)
      ensures r.Ok? <==> no in old(orders) && (old(orders)[no].status == Pending && IsTopup(old(orders)[no])
                                               ==> old(orders)[no].account in old(repo.wallets))
      ensures r.Ok? ==> no in orders && r.value == orders[no]
    {
      ghost var s0 := View();
      var o, didTransition := MarkPaymentOrderPaid(no);
      ghost var s1 := View();
      assert s1 == Run(s0, [Deliver(no)]) by {
        assert [Deliver(no)][..0] == [];
      }
      if o.None? {
        return Err(NotFound);
      }
      if didTransition && IsTopup(o.value) {
        assert Run(s0, [Deliver(no), CreditOrder(|s0.payers|)]) == CreditedOrder(s1, |s0.payers|) by {
          assert [Deliver(no), CreditOrder(|s0.payers|)][..1] == [Deliver(no)];
        }
        var tx := repo.Credit(o.value.account, o.value.amount, TOPUP, Ref(ORDER_REF, no), "", "");
        ghost var i := |payers| - 1;
        if tx.Err? {
          payers := payers[i := payers[i].(stage := Lost)];
          return Err(tx.error);
        }
        payers := payers[i := payers[i].(stage := Paid)];
      }
      r := Ok(o.value);
    }

    method ExpireStalePendingOrders(now: int) returns (count: nat)
      modifies this
      ensures orders.Keys == old(orders).Keys
      ensures View() == Next(old(View()), Sweep(now))
      ensures count == |set no | no in orders && orders[no] != old(orders)[no]|
      ensures forall no :: no in orders && orders[no].status == Pending ==> orders[no].createdAt >= now - MAX_AGE
      ensures forall no :: no in orders && orders[no] != old(orders)[no] ==>
                && old(orders)[no].status == Pending && old(orders)[no].createdAt < now - MAX_AGE
                && orders[no] == old(orders)[no].(status := Expired)
    {
      var stale := set no | no in orders && orders[no].status == Pending && orders[no].createdAt < now - MAX_AGE;
      count := |stale|;
      orders := orders + (map no | no in stale :: orders[no].(status := Expired));
      assert orders == Swept(old(orders), now);
      assert stale == set no | no in orders && orders[no] != old(orders)[no];
    }
  }
}
