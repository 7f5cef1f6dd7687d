/**
 * The renewal job: for each subscription due, debit the wallet, then activate the next cycle; give the
 * money back if the activation fails, and back off if the debit fails.
 */
module Renewal {
  import opened Base
  import opened Sums
  import opened Ledger
  import opened Entitlements
  import opened Subscriptions
  import Calendar
  import Decimal

  const HOUR := 3600 * 1_000_000_000

  const DEBIT_KIND := "subscription_renewal"
  const REFUND_KIND := "subscription_renewal_refund"

  /** How long to wait after the given number of failed debits. */
  function Backoff(attempts: int): int {
    if attempts == 1 then HOUR else if attempts == 2 then 4 * HOUR else 12 * HOUR
  }

  /** How the world answers one renewal: which calls fail, and what the clock says at each. */
  datatype Attempt = Attempt(planOk: bool, debitUp: bool, debitAt: int, at: Calendar.Stamp, fault: Fault,
                             creditUp: bool, storeOk: bool, calcAt: int)

  datatype Outcome =
    | NoPlan
    | Renewed
    | Compensated   // debited, not activated, credited back
    | Leaked        // debited, not activated, and the credit failed too
    | DebitFailed

  datatype Entry = Entry(id: nat, account: int, price: int, outcome: Outcome)

  /** A failed debit, and whether the retry state that counts it was stored: the job ignores that error. */
  datatype Failure = Failure(at: int, stored: bool)

  /** failures: failed debits per row; renewed: rows renewed so far; both in order. */
  datatype Office = Office(book: Book, world: World, failures: map<nat, seq<Failure>>, renewed: seq<nat>)

  function FailuresOf(o: Office, id: nat): seq<Failure> {
    if id in o.failures then o.failures[id] else []
  }

  function DebitRef(id: nat): Ref {
    Ref("subscription", "renewal:sub:" + Decimal.Format(id))
  }

  function RefundRef(id: nat): Ref {
    Ref("subscription", "refund:renewal:sub:" + Decimal.Format(id))
  }

  function WithRenewalState(subs: seq<Sub>, id: nat, attempts: int, nextAt: Option<int>, ok: bool): seq<Sub> {
    if ok && id < |subs| then subs[id := subs[id].(attempts := attempts, nextRenewalAt := nextAt)] else subs
  }

  /** One listed row, as it was when listed. */
  function ProcessOne(o: Office, plans: Plans, id: nat, sub: Sub, a: Attempt): (Office, Entry) {
    if !a.planOk || sub.plan !in plans then (o, Entry(id, sub.owner.account, 0, NoPlan))
    else
      var account, price := sub.owner.account, plans[sub.plan].price;
      var debit := if a.debitUp then Debited(o.book, account, price, DEBIT_KIND, DebitRef(id), sub.owner.product, "") else Err(Unavailable);
      match debit
      case Err(_) =>
        var attempts := sub.attempts + 1;
        var subs := WithRenewalState(o.world.subs, id, attempts, Some(a.calcAt + Backoff(attempts)), a.storeOk);
        (o.(world := o.world.(subs := subs), failures := o.failures[id := FailuresOf(o, id) + [Failure(a.debitAt, a.storeOk)]]),
         Entry(id, account, price, DebitFailed))
      case Ok(debited) =>
        var (w, activation) := Activated(o.world, plans, sub.owner, sub.plan, a.at, sub.paymentMethod, sub.externalId, a.fault);
        if activation.Ok? then
          (o.(book := debited, world := w.(subs := WithRenewalState(w.subs, id, 0, None, a.storeOk)), renewed := o.renewed + [id]),
           Entry(id, account, price, Renewed))
        else
          var credit := if a.creditUp then Credited(debited, account, price, REFUND_KIND, RefundRef(id), sub.owner.product, "") else Err(Unavailable);
          match credit
          case Ok(refunded) => (o.(book := refunded, world := w), Entry(id, account, price, Compensated))
          case Err(_) => (o.(book := debited, world := w), Entry(id, account, price, Leaked))
  }

  /** The batch loop over the rows as listed; it may stop early, if the process dies. */
  function ProcessAll(o: Office, plans: Plans, ids: seq<nat>, listed: seq<Sub>, tries: seq<Attempt>): (Office, seq<Entry>)
    requires forall k :: 0 <= k < |ids| ==> ids[k] < |listed|
    decreases |ids|
  {
    if ids == [] || tries == [] then (o, [])
    else
      var (o1, e) := ProcessOne(o, plans, ids[0], listed[ids[0]], tries[0]);
      var (o2, es) := ProcessAll(o1, plans, ids[1..], listed, tries[1..]);
      (o2, [e] + es)
  }

  // ----- Money -----

  /** What an entry has cost an account. */
  ghost function CostTo(account: int): Entry -> int {
    (e: Entry) => if e.account == account && (e.outcome == Renewed || e.outcome == Leaked) then e.price else 0
  }

  lemma OneConservesMoney(o: Office, plans: Plans, id: nat, sub: Sub, a: Attempt, account: int)
    ensures var (o', e) := ProcessOne(o, plans, id, sub, a);
            Balance(o'.book, account) == Balance(o.book, account) - CostTo(account)(e)
  {
  }

  /**
   * A batch moves exactly the prices of the renewals that happened, account by account. Failed debits and
   * compensated activations net to zero; only a failed compensation loses money, and then the price.
   */
  lemma {:induction false} BatchConservesMoney(o: Office, plans: Plans, ids: seq<nat>, listed: seq<Sub>, tries: seq<Attempt>, account: int)
    requires forall k :: 0 <= k < |ids| ==> ids[k] < |listed|
    ensures var (o', entries) := ProcessAll(o, plans, ids, listed, tries);
            Balance(o'.book, account) == Balance(o.book, account) - Sum(entries, CostTo(account))
    decreases |ids|
  {
    if ids != [] && tries != [] {
      var (o1, e) := ProcessOne(o, plans, ids[0], listed[ids[0]], tries[0]);
      OneConservesMoney(o, plans, ids[0], listed[ids[0]], tries[0], account);
      BatchConservesMoney(o1, plans, ids[1..], listed, tries[1..], account);
      var es := ProcessAll(o1, plans, ids[1..], listed, tries[1..]).1;
      SumConcat([e], es, CostTo(account));
      SumAppend([], e, CostTo(account));
      assert [] + [e] == [e];
    }
  }

  lemma CompensationKeeps(b: Book, debit: Ledger.Op, credit: Ledger.Op)
    requires Explained(b)
    ensures Explained(Apply(b, debit)) && Explained(Apply(Apply(b, debit), credit))
  {
    ExplainedKept(b, debit);
    ExplainedKept(Apply(b, debit), credit);
  }

  /** The book after a renewal attempt is reached by at most a debit and a credit. */
  lemma OneBook(o: Office, plans: Plans, id: nat, sub: Sub, a: Attempt)
    requires sub.plan in plans
    ensures var account, price := sub.owner.account, plans[sub.plan].price;
            var debited := Apply(o.book, Ledger.Op.Debit(account, price, DEBIT_KIND, DebitRef(id), sub.owner.product, ""));
            ProcessOne(o, plans, id, sub, a).0.book in
              {o.book, debited, Apply(debited, Ledger.Op.Credit(account, price, REFUND_KIND, RefundRef(id), sub.owner.product, ""))}
  {
  }

  lemma OneKeepsLedger(o: Office, plans: Plans, id: nat, sub: Sub, a: Attempt)
    requires Explained(o.book)
    ensures Explained(ProcessOne(o, plans, id, sub, a).0.book)
  {
    if sub.plan in plans {
      OneBook(o, plans, id, sub, a);
      var account, price := sub.owner.account, plans[sub.plan].price;
      var debit := Ledger.Op.Debit(account, price, DEBIT_KIND, DebitRef(id), sub.owner.product, "");
      CompensationKeeps(o.book, debit, Ledger.Op.Credit(account, price, REFUND_KIND, RefundRef(id), sub.owner.product, ""));
    }
  }

  /** Every ledger the batch leaves behind still explains its balances. */
  lemma {:induction false} BatchKeepsLedger(o: Office, plans: Plans, ids: seq<nat>, listed: seq<Sub>, tries: seq<Attempt>)
    requires forall k :: 0 <= k < |ids| ==> ids[k] < |listed|
    requires Explained(o.book)
    ensures Explained(ProcessAll(o, plans, ids, listed, tries).0.book)
    decreases |ids|
  {
    if ids != [] && tries != [] {
      OneKeepsLedger(o, plans, ids[0], listed[ids[0]], tries[0]);
      BatchKeepsLedger(ProcessOne(o, plans, ids[0], listed[ids[0]], tries[0]).0, plans, ids[1..], listed, tries[1..]);
    }
  }

  // ----- What a renewal does to the rows -----

  /** The row of a listed subscription after its own renewal attempt, and what is added beside it. */
  ghost predicate RowOutcome(before: seq<Sub>, after: seq<Sub>, plans: Plans, id: nat, e: Entry, a: Attempt)
    requires id < |before|
  {
    var sub := before[id];
    && e.id == id && e.account == sub.owner.account
    && |after| >= |before|
    && (forall i :: 0 <= i < |before| && i != id ==> after[i] == before[i])
    && match e.outcome
       case NoPlan => after == before
       case DebitFailed =>
         after == WithRenewalState(before, id, sub.attempts + 1, Some(a.calcAt + Backoff(sub.attempts + 1)), a.storeOk)
       case Renewed =>
         && sub.plan in plans && e.price == plans[sub.plan].price
         && |after| == |before| + 1
         && after[id].owner == sub.owner && after[id].status == Expired
         && after[|before|] == NewSub(sub.owner, sub.plan, plans[sub.plan], a.at, sub.paymentMethod, sub.externalId)
         && GetActive(after, sub.owner) == Some(|before|)
       case _ =>
         |after| == |before| && after[id] == sub.(status := after[id].status) && after[id].status in {Active, Expired}
  }

  /** Activation retires the very row being renewed, since that is the live one of its pair. */
  lemma RetiresItself(subs: seq<Sub>, id: nat)
    requires OneLive(subs) && id < |subs| && Live(subs[id])
    ensures Retired(subs, subs[id].owner) == subs[id := subs[id].(status := Expired)]
  {
    LiveIsUnique(subs, subs[id].owner, id);
  }

  lemma OneKeepsInv(o: Office, plans: Plans, id: nat, a: Attempt)
    requires OneLive(o.world.subs)
    requires id < |o.world.subs| && o.world.subs[id].status == Active
    ensures OneLive(ProcessOne(o, plans, id, o.world.subs[id], a).0.world.subs)
    ensures Subscriptions.Inv(o.world, plans) ==> Subscriptions.Inv(ProcessOne(o, plans, id, o.world.subs[id], a).0.world, plans)
  {
    var sub := o.world.subs[id];
    ActivateOneLive(o.world, plans, sub.owner, sub.plan, a.at, sub.paymentMethod, sub.externalId, a.fault);
    if Subscriptions.Inv(o.world, plans) {
      OneKeepsInvHeld(o, plans, id, a);
    }
  }

  lemma OneKeepsInvHeld(o: Office, plans: Plans, id: nat, a: Attempt)
    requires Subscriptions.Inv(o.world, plans)
    requires id < |o.world.subs| && o.world.subs[id].status == Active
    ensures Subscriptions.Inv(ProcessOne(o, plans, id, o.world.subs[id], a).0.world, plans)
  {
    var sub := o.world.subs[id];
    ActivateKeeps(o.world, plans, sub.owner, sub.plan, a.at, sub.paymentMethod, sub.externalId, a.fault);
  }

  lemma OneRow(o: Office, plans: Plans, id: nat, a: Attempt)
    requires OneLive(o.world.subs)
    requires id < |o.world.subs| && o.world.subs[id].status == Active
    ensures var (o', e) := ProcessOne(o, plans, id, o.world.subs[id], a);
            && OneLive(o'.world.subs)
            && RowOutcome(o.world.subs, o'.world.subs, plans, id, e, a)
  {
    var (o', e) := ProcessOne(o, plans, id, o.world.subs[id], a);
    OneKeepsInv(o, plans, id, a);
    RetiresItself(o.world.subs, id);
    if e.outcome == Renewed {
      LiveIsUnique(o'.world.subs, o.world.subs[id].owner, |o.world.subs|);
    }
  }

  /**
   * Contrary to the comment at the call, a failed activation does not enter backoff: the counter and the
   * retry time stay. Unless the row was already retired, it is due again at once.
   */
  lemma FailedActivationSkipsBackoff(o: Office, plans: Plans, id: nat, a: Attempt, now: int)
    requires OneLive(o.world.subs)
    requires id < |o.world.subs| && Matches(o.world.subs[id], DueForRenewal(now))
    requires ProcessOne(o, plans, id, o.world.subs[id], a).1.outcome in {Compensated, Leaked}
    ensures var sub, sub' := o.world.subs[id], ProcessOne(o, plans, id, o.world.subs[id], a).0.world.subs[id];
            && sub'.attempts == sub.attempts && sub'.nextRenewalAt == sub.nextRenewalAt
            && (Matches(sub', DueForRenewal(now)) <==> !a.fault.CreateFails?)
            && (a.fault.CreateFails? ==> sub'.status == Expired)
  {
    RetiresItself(o.world.subs, id);
    LiveIsUnique(o.world.subs, o.world.subs[id].owner, id);
  }

  /** The rows still to be processed are as they were listed. */
  ghost predicate AsListed(subs: seq<Sub>, ids: seq<nat>, listed: seq<Sub>) {
    Ascending(ids) && forall k :: 0 <= k < |ids| ==>
      ids[k] < |subs| && ids[k] < |listed| && subs[ids[k]] == listed[ids[k]] && listed[ids[k]].status == Active
  }

  lemma AsListedRest(o: Office, plans: Plans, ids: seq<nat>, listed: seq<Sub>, a: Attempt)
    requires OneLive(o.world.subs) && ids != [] && AsListed(o.world.subs, ids, listed)
    ensures AsListed(ProcessOne(o, plans, ids[0], listed[ids[0]], a).0.world.subs, ids[1..], listed)
  {
    OneRow(o, plans, ids[0], a);
    var subs' := ProcessOne(o, plans, ids[0], listed[ids[0]], a).0.world.subs;
    forall k | 0 <= k < |ids[1..]|
      ensures ids[1..][k] < |subs'| && subs'[ids[1..][k]] == listed[ids[1..][k]]
    {
      assert ids[1..][k] == ids[k + 1] && ids[0] < ids[k + 1];
    }
  }

  /** Rows a batch does not list are left alone. */
  lemma {:induction false} BatchLeavesOthers(o: Office, plans: Plans, ids: seq<nat>, listed: seq<Sub>, tries: seq<Attempt>)
    requires OneLive(o.world.subs) && AsListed(o.world.subs, ids, listed)
    ensures var o' := ProcessAll(o, plans, ids, listed, tries).0;
            && OneLive(o'.world.subs) && (Subscriptions.Inv(o.world, plans) ==> Subscriptions.Inv(o'.world, plans))
            && |o'.world.subs| >= |o.world.subs|
            && forall i :: 0 <= i < |o.world.subs| && i !in ids ==> o'.world.subs[i] == o.world.subs[i]
    decreases |ids|
  {
    if ids != [] && tries != [] {
      OneRow(o, plans, ids[0], tries[0]);
      OneKeepsInv(o, plans, ids[0], tries[0]);
      AsListedRest(o, plans, ids, listed, tries[0]);
      BatchLeavesOthers(ProcessOne(o, plans, ids[0], listed[ids[0]], tries[0]).0, plans, ids[1..], listed, tries[1..]);
    }
  }

  /** What its own attempt makes of a listed row. */
  predicate OwnOutcome(sub: Sub, sub': Sub, plans: Plans, e: Entry, a: Attempt) {
    match e.outcome
    case NoPlan => sub' == sub
    case Renewed => sub'.status == Expired && sub.plan in plans && e.price == plans[sub.plan].price
    case DebitFailed =>
      sub' == if a.storeOk
              then sub.(attempts := sub.attempts + 1, nextRenewalAt := Some(a.calcAt + Backoff(sub.attempts + 1)))
              else sub
    case _ => sub' == sub.(status := sub'.status) && sub'.status in {Active, Expired}
  }

  lemma OneOwnOutcome(o: Office, plans: Plans, id: nat, a: Attempt)
    requires OneLive(o.world.subs)
    requires id < |o.world.subs| && o.world.subs[id].status == Active
    ensures var (o', e) := ProcessOne(o, plans, id, o.world.subs[id], a);
            && e.id == id && e.account == o.world.subs[id].owner.account
            && id < |o'.world.subs| && OwnOutcome(o.world.subs[id], o'.world.subs[id], plans, e, a)
  {
    OneRow(o, plans, id, a);
  }

  /**
   * At the end of a batch every row it renewed has expired, and every row whose debit failed is in the
   * retry state its own attempt left it in: no other attempt of the batch has touched it.
   */
  lemma {:induction false} BatchRows(o: Office, plans: Plans, ids: seq<nat>, listed: seq<Sub>, tries: seq<Attempt>, k: nat)
    requires OneLive(o.world.subs) && AsListed(o.world.subs, ids, listed)
    requires k < |ids| && k < |tries|
    ensures var (o', entries) := ProcessAll(o, plans, ids, listed, tries);
            && k < |entries| && ids[k] < |o'.world.subs|
            && entries[k].id == ids[k] && entries[k].account == listed[ids[k]].owner.account
            && OwnOutcome(listed[ids[k]], o'.world.subs[ids[k]], plans, entries[k], tries[k])
    decreases |ids|
  {
    var o1 := ProcessOne(o, plans, ids[0], listed[ids[0]], tries[0]).0;
    OneKeepsInv(o, plans, ids[0], tries[0]);
    AsListedRest(o, plans, ids, listed, tries[0]);
    if k == 0 {
      OneOwnOutcome(o, plans, ids[0], tries[0]);
      assert ids[0] !in ids[1..];
      BatchLeavesOthers(o1, plans, ids[1..], listed, tries[1..]);
    } else {
      BatchRows(o1, plans, ids[1..], listed, tries[1..], k - 1);
    }
  }

  /** Rows due for renewal belong to different account+product pairs. */
  lemma {:induction false} DuePairsDiffer(w: World, plans: Plans, now: int, j: nat, k: nat)
    requires OneLive(w.subs)
    requires var ids := Select(w.subs, DueForRenewal(now)); j < |ids| && k < |ids| && j != k
    ensures var ids := Select(w.subs, DueForRenewal(now));
            ids[j] < |w.subs| && ids[k] < |w.subs| && w.subs[ids[j]].owner != w.subs[ids[k]].owner
  {
    SelectIsListed(w.subs, DueForRenewal(now));
    ListedPairsDiffer(w.subs, Select(w.subs, DueForRenewal(now)), Active, j, k);
  }

  // ----- Runs -----

  datatype Step =
    | Lifecycle(event: Subscriptions.Event)
    | RenewalTick(now: int, tries: seq<Attempt>)
    | EnableAutoRenew(id: nat)           // nothing in the service does this; an operator may
    | WalletStep(op: Ledger.Op)

  function Renewals(o: Office, plans: Plans, now: int, tries: seq<Attempt>): (Office, seq<Entry>) {
    var ids := Select(o.world.subs, DueForRenewal(now));
    assert forall k :: 0 <= k < |ids| ==> ids[k] in ids;
    ProcessAll(o, plans, ids, o.world.subs, tries)
  }

  function Stepped(o: Office, plans: Plans, s: Step): Office {
    match s
    case Lifecycle(e) => o.(world := Subscriptions.Next(o.world, plans, e))
    case RenewalTick(now, tries) => Renewals(o, plans, now, tries).0
    case EnableAutoRenew(id) =>
      if id < |o.world.subs| then o.(world := o.world.(subs := o.world.subs[id := o.world.subs[id].(autoRenew := true)])) else o
    case WalletStep(op) => o.(book := Apply(o.book, op))
  }

  const NEW_OFFICE := Office(EMPTY, EMPTY_WORLD, map[], [])

  /** Any table without renewals so far: empty, or migrated with auto-renew set as it was. */
  ghost predicate Fresh(o: Office) {
    && OneLive(o.world.subs) && o.failures == map[] && o.renewed == []
    && forall i :: 0 <= i < |o.world.subs| ==> o.world.subs[i].attempts == 0
  }

  function RunOffice(o: Office, plans: Plans, steps: seq<Step>): Office {
    if steps == [] then o else Stepped(RunOffice(o, plans, steps[..|steps| - 1]), plans, steps[|steps| - 1])
  }

  /** Within a tick the clock does not run backwards. */
  predicate WellBehaved(s: Step) {
    s.RenewalTick? ==> forall k :: 0 <= k < |s.tries| ==> s.now <= s.tries[k].debitAt <= s.tries[k].calcAt
  }

  function StoredCount(f: seq<Failure>): nat {
    if f == [] then 0 else StoredCount(f[..|f| - 1]) + if f[|f| - 1].stored then 1 else 0
  }

  /** How many stored failures there are up to and including failure i. */
  function Rank(f: seq<Failure>, i: nat): nat
    requires i < |f|
  {
    StoredCount(f[..i + 1])
  }

  /**
   * At most three failures are stored, and none of any kind follows the third; every failure after the first stored
   * one comes at least an hour after it, and after the second at least four hours.
   */
  ghost predicate Spaced(f: seq<Failure>) {
    && StoredCount(f) <= 3
    && forall i, j :: 0 <= i < j < |f| && f[i].stored ==> Rank(f, i) <= 2 && f[j].at >= f[i].at + Backoff(Rank(f, i))
  }

  /** The next attempt is held back by every stored failure. */
  ghost predicate HeldBack(f: seq<Failure>, next: Option<int>) {
    forall i :: 0 <= i < |f| && f[i].stored ==> next.Some? && next.value >= f[i].at + Backoff(Rank(f, i))
  }

  lemma {:induction false} RankAtMost(f: seq<Failure>, i: nat)
    requires i < |f|
    ensures Rank(f, i) <= StoredCount(f)
  {
    if i < |f| - 1 {
      assert f[..|f| - 1][..i + 1] == f[..i + 1];
      RankAtMost(f[..|f| - 1], i);
    } else {
      assert f[..i + 1] == f;
    }
  }

  lemma FailureAdded(f: seq<Failure>, x: Failure)
    ensures StoredCount(f + [x]) == StoredCount(f) + if x.stored then 1 else 0
    ensures forall i :: 0 <= i < |f| ==> Rank(f + [x], i) == Rank(f, i)
    ensures Rank(f + [x], |f|) == StoredCount(f + [x])
  {
    assert (f + [x])[..|f|] == f;
    assert (f + [x])[..|f| + 1] == f + [x];
    forall i | 0 <= i < |f|
      ensures Rank(f + [x], i) == Rank(f, i)
    {
      assert (f + [x])[..i + 1] == f[..i + 1];
    }
  }

  /** A further failure, no earlier than the next attempt is allowed, keeps the spacing. */
  lemma FailureSpaced(f: seq<Failure>, next: Option<int>, x: Failure)
    requires Spaced(f) && HeldBack(f, next) && StoredCount(f) < 3 && (next.Some? ==> next.value <= x.at)
    ensures Spaced(f + [x])
  {
    var g := f + [x];
    FailureAdded(f, x);
    forall i, j | 0 <= i < j < |g| && g[i].stored
      ensures Rank(g, i) <= 2 && g[j].at >= g[i].at + Backoff(Rank(g, i))
    {
      assert g[i] == f[i] && Rank(g, i) == Rank(f, i);
      RankAtMost(f, i);
      if j < |f| {
        assert g[j] == f[j];
      }
    }
  }

  /** ... and, with the backoff it sets if it is stored, the hold. */
  lemma FailureHeldBack(f: seq<Failure>, next: Option<int>, x: Failure, calcAt: int)
    requires HeldBack(f, next) && (next.Some? ==> next.value <= x.at) && x.at <= calcAt
    ensures HeldBack(f + [x], if x.stored then Some(calcAt + Backoff(StoredCount(f) + 1)) else next)
  {
    var g, n := f + [x], StoredCount(f);
    FailureAdded(f, x);
    forall i | 0 <= i < |f| && f[i].stored
      ensures next.Some? && next.value >= g[i].at + Backoff(Rank(g, i))
    {
      assert g[i] == f[i] && Rank(g, i) == Rank(f, i);
    }
    if x.stored {
      assert Rank(g, |f|) == n + 1 && g[|f|] == x;
      assert HeldBack(g, Some(calcAt + Backoff(n + 1)));
    }
  }

  /** The stored retry state of one row agrees with its history. */
  ghost predicate Tracked(o: Office, id: nat) {
    var f := FailuresOf(o, id);
    && Spaced(f)
    && if id >= |o.world.subs| then id !in o.renewed && f == []
       else
         var s := o.world.subs[id];
         if id in o.renewed then s.status != Active
         else s.attempts == StoredCount(f) && HeldBack(f, s.nextRenewalAt)
  }

  ghost predicate OfficeInv(o: Office, plans: Plans) {
    && OneLive(o.world.subs)
    && (forall id: nat :: Tracked(o, id))
    && (forall i, j :: 0 <= i < j < |o.renewed| ==> o.renewed[i] != o.renewed[j])
  }

  lemma OneTrackedElsewhere(o: Office, plans: Plans, id: nat, a: Attempt, j: nat)
    requires OneLive(o.world.subs) && Tracked(o, j) && j != id
    requires id < |o.world.subs| && o.world.subs[id].status == Active
    ensures Tracked(ProcessOne(o, plans, id, o.world.subs[id], a).0, j)
  {
    OneRow(o, plans, id, a);
    var (o', e) := ProcessOne(o, plans, id, o.world.subs[id], a);
    assert FailuresOf(o', j) == FailuresOf(o, j) && (j in o'.renewed <==> j in o.renewed);
    assert j >= |o.world.subs| && j < |o'.world.subs| ==> o'.world.subs[j].attempts == 0;
  }

  lemma OneTracked(o: Office, plans: Plans, id: nat, a: Attempt, now: int)
    requires OneLive(o.world.subs) && Tracked(o, id)
    requires id < |o.world.subs| && Matches(o.world.subs[id], DueForRenewal(now))
    requires now <= a.debitAt <= a.calcAt
    ensures Tracked(ProcessOne(o, plans, id, o.world.subs[id], a).0, id)
  {
    OneOwnOutcome(o, plans, id, a);
    var (o', e) := ProcessOne(o, plans, id, o.world.subs[id], a);
    if e.outcome == DebitFailed {
      FailureTracked(o, id, Failure(a.debitAt, a.storeOk), a.calcAt, o');
    } else {
      assert FailuresOf(o', id) == FailuresOf(o, id);
    }
  }

  lemma FailureTracked(o: Office, id: nat, x: Failure, calcAt: int, o': Office)
    requires Tracked(o, id) && id < |o.world.subs| && id < |o'.world.subs| && o'.renewed == o.renewed
    requires FailuresOf(o', id) == FailuresOf(o, id) + [x] && o.world.subs[id].status == Active
    requires o.world.subs[id].attempts < 3 && x.at <= calcAt
    requires o.world.subs[id].nextRenewalAt.Some? ==> o.world.subs[id].nextRenewalAt.value <= x.at
    requires var s := o.world.subs[id];
             o'.world.subs[id] == if x.stored then s.(attempts := s.attempts + 1, nextRenewalAt := Some(calcAt + Backoff(s.attempts + 1))) else s
    ensures Tracked(o', id)
  {
    FailureSpaced(FailuresOf(o, id), o.world.subs[id].nextRenewalAt, x);
    FailureHeldBack(FailuresOf(o, id), o.world.subs[id].nextRenewalAt, x, calcAt);
    FailureAdded(FailuresOf(o, id), x);
  }

  lemma OneKeepsOffice(o: Office, plans: Plans, id: nat, a: Attempt, now: int)
    requires OfficeInv(o, plans)
    requires id < |o.world.subs| && Matches(o.world.subs[id], DueForRenewal(now))
    requires now <= a.debitAt <= a.calcAt
    ensures OfficeInv(ProcessOne(o, plans, id, o.world.subs[id], a).0, plans)
  {
    OneKeepsInv(o, plans, id, a);
    assert Tracked(o, id);
    forall j: nat
      ensures Tracked(ProcessOne(o, plans, id, o.world.subs[id], a).0, j)
    {
      assert Tracked(o, j);
      if j == id {
        OneTracked(o, plans, id, a, now);
      } else {
        OneTrackedElsewhere(o, plans, id, a, j);
      }
    }
  }

  lemma {:induction false} BatchTracked(o: Office, plans: Plans, ids: seq<nat>, listed: seq<Sub>, tries: seq<Attempt>, now: int)
    requires OfficeInv(o, plans) && AsListed(o.world.subs, ids, listed)
    requires forall k :: 0 <= k < |ids| ==> Matches(listed[ids[k]], DueForRenewal(now))
    requires WellBehaved(RenewalTick(now, tries))
    ensures OfficeInv(ProcessAll(o, plans, ids, listed, tries).0, plans)
    decreases |ids|
  {
    if ids != [] && tries != [] {
      OneKeepsOffice(o, plans, ids[0], tries[0], now);
      AsListedRest(o, plans, ids, listed, tries[0]);
      BatchTracked(ProcessOne(o, plans, ids[0], listed[ids[0]], tries[0]).0, plans, ids[1..], listed, tries[1..], now);
    }
  }

  /** Retry states are untouched, no row becomes active again, and added rows start without failures. */
  predicate RetriesKept(subs: seq<Sub>, subs': seq<Sub>) {
    && |subs'| >= |subs|
    && (forall i :: 0 <= i < |subs| ==>
          && subs'[i].attempts == subs[i].attempts && subs'[i].nextRenewalAt == subs[i].nextRenewalAt
          && (subs'[i].status == Active ==> subs[i].status == Active))
    && (forall i :: |subs| <= i < |subs'| ==> subs'[i].attempts == 0)
  }

  /** Owners stay, no row becomes active again or is switched to auto-renew, and added rows start without. */
  predicate SwitchesKept(subs: seq<Sub>, subs': seq<Sub>) {
    && |subs'| >= |subs|
    && (forall i :: 0 <= i < |subs| ==>
          && subs'[i].owner == subs[i].owner
          && (subs'[i].status == Active ==> subs[i].status == Active)
          && (subs'[i].autoRenew ==> subs[i].autoRenew))
    && (forall i :: |subs| <= i < |subs'| ==> !subs'[i].autoRenew)
  }

  predicate RowsKept(subs: seq<Sub>, subs': seq<Sub>) {
    RetriesKept(subs, subs') && SwitchesKept(subs, subs')
  }

  lemma RowsKeptOn(a: seq<Sub>, b: seq<Sub>, c: seq<Sub>)
    requires |a| == |b| == |c| && RowsKept(a, b) && RowsKept(b, c)
    ensures RowsKept(a, c)
  {
  }

  lemma {:induction false} ExpireEachKeepsRows(w: World, ids: seq<nat>, tries: seq<Try>, graceDays: int)
    ensures var w' := ExpireEach(w, ids, tries, graceDays); |w'.subs| == |w.subs| && RowsKept(w.subs, w'.subs)
    decreases |ids|
  {
    if ids != [] && tries != [] {
      var w1 := if tries[0].ok then Graced(w, ids[0], tries[0].now, graceDays) else w;
      ExpireEachKeepsRows(w1, ids[1..], tries[1..], graceDays);
      RowsKeptOn(w.subs, w1.subs, ExpireEach(w, ids, tries, graceDays).subs);
    }
  }

  lemma {:induction false} EndEachKeepsRows(w: World, ids: seq<nat>, faults: seq<EndFault>)
    ensures var w' := EndEach(w, ids, faults); |w'.subs| == |w.subs| && RowsKept(w.subs, w'.subs)
    decreases |ids|
  {
    if ids != [] && faults != [] {
      var w1 := Ended(w, ids[0], faults[0]);
      EndEachKeepsRows(w1, ids[1..], faults[1..]);
      RowsKeptOn(w.subs, w1.subs, EndEach(w, ids, faults).subs);
    }
  }

  lemma TickKeepsRows(w: World, now: int, tries: seq<Try>, later: int, faults: seq<EndFault>, graceDays: int)
    ensures RowsKept(w.subs, Ticked(w, now, tries, later, faults, graceDays).subs)
  {
    var ids := Select(w.subs, ActiveExpired(now));
    var w1 := ExpireEach(w, ids, tries, graceDays);
    var listed := Select(w1.subs, GraceExpired(later));
    ExpireEachKeepsRows(w, ids, tries, graceDays);
    EndEachKeepsRows(w1, listed, faults);
    RowsKeptOn(w.subs, w1.subs, EndEach(w1, listed, faults).subs);
  }

  /** The lifecycle touches neither retry states nor auto-renew, save that Cancel turns it off. */
  lemma LifecycleKeepsRows(w: World, plans: Plans, e: Subscriptions.Event)
    ensures RowsKept(w.subs, Subscriptions.Next(w, plans, e).subs)
  {
    match e
    case Tick(now, tries, later, faults, graceDays) => TickKeepsRows(w, now, tries, later, faults, graceDays);
    case _ =>
  }

  lemma {:induction false} RetriesKeepTracked(o: Office, w: World)
    requires RetriesKept(o.world.subs, w.subs) && forall id: nat :: Tracked(o, id)
    ensures forall id: nat :: Tracked(o.(world := w), id)
  {
    forall id: nat
      ensures Tracked(o.(world := w), id)
    {
      assert Tracked(o, id);
    }
  }

  lemma SteppedKeeps(o: Office, plans: Plans, s: Step)
    requires OfficeInv(o, plans) && WellBehaved(s)
    ensures OfficeInv(Stepped(o, plans, s), plans)
  {
    match s
    case Lifecycle(e) =>
      NextOneLive(o.world, plans, e);
      LifecycleKeepsRows(o.world, plans, e);
      RetriesKeepTracked(o, Subscriptions.Next(o.world, plans, e));
    case RenewalTick(now, tries) =>
      var ids := Select(o.world.subs, DueForRenewal(now));
      SelectIsListed(o.world.subs, DueForRenewal(now));
      BatchTracked(o, plans, ids, o.world.subs, tries, now);
    case EnableAutoRenew(id) =>
      RetriesKeepTracked(o, Stepped(o, plans, s).world);
    case WalletStep(_) =>
      forall j: nat
        ensures Tracked(Stepped(o, plans, s), j)
      {
        assert Tracked(o, j);
      }
  }

  lemma {:induction false} RunOfficeKeeps(o: Office, plans: Plans, steps: seq<Step>)
    requires Fresh(o) && forall i :: 0 <= i < |steps| ==> WellBehaved(steps[i])
    ensures OfficeInv(RunOffice(o, plans, steps), plans)
  {
    if steps != [] {
      RunOfficeKeeps(o, plans, steps[..|steps| - 1]);
      SteppedKeeps(RunOffice(o, plans, steps[..|steps| - 1]), plans, steps[|steps| - 1]);
    }
  }

  lemma {:induction false} CountAll(f: seq<Failure>)
    ensures StoredCount(f) <= |f|
    ensures StoredCount(f) == |f| <==> forall i :: 0 <= i < |f| ==> f[i].stored
  {
    if f != [] {
      CountAll(f[..|f| - 1]);
    }
  }

  /**
   * Over every run, with turns of the expiry job coming late or not, a row has at most three failed debits that were
   * counted, each followed by the backoff, and none of any kind after the third; so if every count is stored it has at
   * most three in all. And it is renewed at most once.
   */
  lemma {:induction false} RetriesBounded(o: Office, plans: Plans, steps: seq<Step>, id: nat)
    requires Fresh(o) && forall i :: 0 <= i < |steps| ==> WellBehaved(steps[i])
    ensures var o' := RunOffice(o, plans, steps);
            var f := FailuresOf(o', id);
            && Spaced(f)
            // an hour after the first counted failure, four hours after the second, nothing after the third
            && (forall i, j :: 0 <= i < j < |f| && f[i].stored ==>
                  && (Rank(f, i) == 1 ==> f[j].at - f[i].at >= 3_600_000_000_000)
                  && (Rank(f, i) == 2 ==> f[j].at - f[i].at >= 14_400_000_000_000)
                  && Rank(f, i) in {1, 2})
            && ((forall i :: 0 <= i < |f| ==> f[i].stored) ==> |f| <= 3)
            && (forall i, j :: 0 <= i < |o'.renewed| && 0 <= j < |o'.renewed| && o'.renewed[i] == o'.renewed[j] ==> i == j)
            // a renewed row, or one with three stored failures, is never listed again
            && forall now :: id in o'.renewed || StoredCount(f) == 3 ==> id !in Select(o'.world.subs, DueForRenewal(now))
  {
    RunOfficeKeeps(o, plans, steps);
    assert Tracked(RunOffice(o, plans, steps), id);
    CountAll(FailuresOf(RunOffice(o, plans, steps), id));
    RanksPositive(FailuresOf(RunOffice(o, plans, steps), id));
  }

  lemma RanksPositive(f: seq<Failure>)
    ensures forall i :: 0 <= i < |f| && f[i].stored ==> Rank(f, i) >= 1
  {
    forall i | 0 <= i < |f| && f[i].stored
      ensures Rank(f, i) >= 1
    {
      assert f[..i + 1][|f[..i + 1]| - 1] == f[i];
    }
  }

  /**
   * When a row whose debit has failed is due again: within its window, and if the failure was counted, after the
   * backoff and only below three. If the count was not stored, the job's own backoff is lost, and the row stays as due
   * as it was.
   */
  lemma DueAfterFailureIff(o: Office, plans: Plans, id: nat, a: Attempt, now: int, later: int)
    requires id < |o.world.subs| && Matches(o.world.subs[id], DueForRenewal(now))
    requires ProcessOne(o, plans, id, o.world.subs[id], a).1.outcome == DebitFailed
    ensures var sub, subs' := o.world.subs[id], ProcessOne(o, plans, id, o.world.subs[id], a).0.world.subs;
            && var inWindow := later <= sub.expiresAt.value <= later + 86_400_000_000_000;
            && (a.storeOk && sub.attempts == 0 ==>
                  (id in Select(subs', DueForRenewal(later)) <==> inWindow && a.calcAt + 3_600_000_000_000 <= later))
            && (a.storeOk && sub.attempts == 1 ==>
                  (id in Select(subs', DueForRenewal(later)) <==> inWindow && a.calcAt + 14_400_000_000_000 <= later))
            && (a.storeOk && sub.attempts >= 2 ==> id !in Select(subs', DueForRenewal(later)))
            && (!a.storeOk ==>
                  (id in Select(subs', DueForRenewal(later)) <==> inWindow && (sub.nextRenewalAt.None? || sub.nextRenewalAt.value <= later)))
            && (!a.storeOk && now <= later <= sub.expiresAt.value ==> id in Select(subs', DueForRenewal(later)))
  {
  }

  // ----- One attempt and one tick -----

  /** Which rows a tick attempts: exactly the active ones with auto-renew, fewer than three counted failures, a day or less to go, and no retry time ahead. */
  lemma {:induction false} AttemptedIff(o: Office, plans: Plans, now: int, tries: seq<Attempt>, i: nat)
    requires |tries| >= |o.world.subs|
    ensures var entries := Renewals(o, plans, now, tries).1;
            (exists k :: 0 <= k < |entries| && entries[k].id == i) <==>
            && i < |o.world.subs|
            && var s := o.world.subs[i];
               && s.status == Active && s.autoRenew && s.attempts < 3
               && s.expiresAt.Some? && 0 <= s.expiresAt.value - now <= 86_400_000_000_000
               && (s.nextRenewalAt.None? || s.nextRenewalAt.value <= now)
  {
    var ids := Select(o.world.subs, DueForRenewal(now));
    assert forall k :: 0 <= k < |ids| ==> ids[k] in ids;
    SelectShort(o.world.subs, DueForRenewal(now));
    EntriesAreListed(o, plans, ids, o.world.subs, tries);
    var entries := Renewals(o, plans, now, tries).1;
    if i in ids {
      var k: nat :| k < |ids| && ids[k] == i;
      assert entries[k].id == i;
    }
  }

  lemma {:induction false} EntriesAreListed(o: Office, plans: Plans, ids: seq<nat>, listed: seq<Sub>, tries: seq<Attempt>)
    requires (forall k :: 0 <= k < |ids| ==> ids[k] < |listed|) && |tries| >= |ids|
    ensures var entries := ProcessAll(o, plans, ids, listed, tries).1;
            |entries| == |ids| && forall k :: 0 <= k < |ids| ==> entries[k].id == ids[k]
    decreases |ids|
  {
    if ids != [] {
      EntriesAreListed(ProcessOne(o, plans, ids[0], listed[ids[0]], tries[0]).0, plans, ids[1..], listed, tries[1..]);
    }
  }

  /**
   * How an attempt ends: without its plan nothing happens; the debit goes through exactly if the wallet covers the price;
   * then the renewal succeeds exactly if the activation does, and otherwise the price is given back if the store answers.
   */
  lemma OutcomeIff(o: Office, plans: Plans, id: nat, sub: Sub, a: Attempt)
    requires OneLive(o.world.subs)
    ensures var (o', e) := ProcessOne(o, plans, id, sub, a);
            var account := sub.owner.account;
            if !a.planOk || sub.plan !in plans then e == Entry(id, account, 0, NoPlan) && o' == o
            else
              var price := plans[sub.plan].price;
              var covered := a.debitUp && account in o.book.wallets && o.book.wallets[account].balance >= price;
              var activates := !a.fault.PlanFails? && !a.fault.ReadFails? && !a.fault.CreateFails?
                               && ((exists i :: 0 <= i < |o.world.subs| && o.world.subs[i].owner == sub.owner
                                      && o.world.subs[i].status in {Active, Grace, Trial}) ==> !a.fault.ExpireFails?);
              && e.id == id && e.account == account && e.price == price
              && e.outcome == (if !covered then DebitFailed else if activates then Renewed else if a.creditUp then Compensated else Leaked)
              && (e.outcome == DebitFailed ==> o'.book == o.book && o'.world.ents == o.world.ents && o'.renewed == o.renewed)
              && (e.outcome == Renewed ==> o'.renewed == o.renewed + [id] && o'.failures == o.failures)
  {
    if sub.plan in plans {
      ActivateIff(o.world, plans, sub.owner, sub.plan, a.at, sub.paymentMethod, sub.externalId, a.fault);
    }
  }

  /** What an attempt adds to the ledger: the price taken, naming the subscription, and given back if it is compensated. */
  lemma AttemptRows(o: Office, plans: Plans, id: nat, sub: Sub, a: Attempt)
    ensures var (o', e) := ProcessOne(o, plans, id, sub, a);
            var account, before := sub.owner.account, Balance(o.book, sub.owner.account);
            var taken := Row(account, "subscription_renewal", -e.price, before - e.price, sub.owner.product,
                             Ref("subscription", "renewal:sub:" + Decimal.Format(id)), "");
            var returned := Row(account, "subscription_renewal_refund", e.price, before, sub.owner.product,
                                Ref("subscription", "refund:renewal:sub:" + Decimal.Format(id)), "");
            match e.outcome
            case Renewed => o'.book.rows == o.book.rows + [taken]
            case Leaked => o'.book.rows == o.book.rows + [taken]
            case Compensated => o'.book.rows == o.book.rows + [taken] + [returned]
            case _ => o'.book == o.book
  {
  }

  /** A failed debit leaves, if the store takes it, one more failure counted and an hour, four or twelve to wait. */
  lemma FailedRow(o: Office, plans: Plans, id: nat, a: Attempt)
    requires id < |o.world.subs| && o.world.subs[id].attempts >= 0
    requires ProcessOne(o, plans, id, o.world.subs[id], a).1.outcome == DebitFailed
    ensures var s, o' := o.world.subs[id], ProcessOne(o, plans, id, o.world.subs[id], a).0;
            var wait := if s.attempts == 0 then 3_600_000_000_000 else if s.attempts == 1 then 14_400_000_000_000 else 43_200_000_000_000;
            && o'.world.subs == (if a.storeOk then o.world.subs[id := s.(attempts := s.attempts + 1, nextRenewalAt := Some(a.calcAt + wait))]
                                 else o.world.subs)
            && FailuresOf(o', id) == FailuresOf(o, id) + [Failure(a.debitAt, a.storeOk)]
  {
  }

  /** A renewal leaves the old row expired, with its retry state cleared if the store takes it. */
  lemma RenewedRow(o: Office, plans: Plans, id: nat, a: Attempt)
    requires OneLive(o.world.subs) && id < |o.world.subs| && o.world.subs[id].status == Active
    requires ProcessOne(o, plans, id, o.world.subs[id], a).1.outcome == Renewed
    ensures var subs, subs' := o.world.subs, ProcessOne(o, plans, id, o.world.subs[id], a).0.world.subs;
            && |subs'| == |subs| + 1
            && subs'[id] == (if a.storeOk then subs[id].(status := Expired, attempts := 0, nextRenewalAt := None)
                             else subs[id].(status := Expired))
            && subs'[|subs|] == Sub(subs[id].owner, subs[id].plan, Active, ExpiryInstant(a.at, plans[subs[id].plan].cycle), None, false, 0, None,
                                    subs[id].paymentMethod, subs[id].externalId)
  {
    OneRow(o, plans, id, a);
    var s := o.world.subs[id];
    ActivateIff(o.world, plans, s.owner, s.plan, a.at, s.paymentMethod, s.externalId, a.fault);
  }

  /** Once cancelled, a pair is not due in any later run in which nothing switches auto-renew on for it. */
  lemma {:induction false} CancelledNotDueAgain(o: Office, plans: Plans, p: Pair, steps: seq<Step>, now: int)
    requires OneLive(o.world.subs)
    requires AllLeaveOff(Stepped(o, plans, Lifecycle(Cancel(p, true))), plans, steps, p)
    ensures var subs' := RunOffice(Stepped(o, plans, Lifecycle(Cancel(p, true))), plans, steps).world.subs;
            forall j :: j in Select(subs', DueForRenewal(now)) ==> j < |subs'| && subs'[j].owner != p
  {
    CancelEffect(o.world, p, true);
    StaysOff(Stepped(o, plans, Lifecycle(Cancel(p, true))), plans, steps, p);
  }

  // ----- Failures that are not counted -----

  /** The debit fails, and the store does not take the retry state either. */
  function Uncounted(at: Calendar.Stamp, t: int): Attempt {
    Attempt(true, false, t, at, NoFault, true, false, t)
  }

  /** A subscription is activated, switched to auto-renew, and n times found due at t. */
  function FailingSteps(owner: Pair, plan: int, at: Calendar.Stamp, t: int, n: nat): seq<Step> {
    [Lifecycle(Activate(owner, plan, at, "", "", NoFault)), EnableAutoRenew(0)]
    + seq(n, i => RenewalTick(t, [Uncounted(at, t)]))
  }

  lemma FailingTick(o: Office, plans: Plans, at: Calendar.Stamp, t: int)
    requires |o.world.subs| == 1 && Matches(o.world.subs[0], DueForRenewal(t)) && o.world.subs[0].plan in plans
    ensures Stepped(o, plans, RenewalTick(t, [Uncounted(at, t)]))
         == o.(failures := o.failures[0 := FailuresOf(o, 0) + [Failure(t, false)]])
  {
    var a := Uncounted(at, t);
    assert Select(o.world.subs[..0], DueForRenewal(t)) == [];
    assert Select(o.world.subs, DueForRenewal(t)) == [0];
    var o1 := ProcessOne(o, plans, 0, o.world.subs[0], a).0;
    assert o1.world == o.world;
    assert [0][1..] == [] && ProcessAll(o1, plans, [0][1..], o.world.subs, [a][1..]) == (o1, []);
  }

  lemma RunOfficeSnoc(o: Office, plans: Plans, steps: seq<Step>, s: Step)
    ensures RunOffice(o, plans, steps + [s]) == Stepped(RunOffice(o, plans, steps), plans, s)
  {
    assert (steps + [s])[..|steps|] == steps;
  }

  lemma BeforeFailing(plans: Plans, owner: Pair, plan: int, at: Calendar.Stamp, t: int)
    requires plan in plans && ExpiryInstant(at, plans[plan].cycle) == Some(t)
    ensures RunOffice(NEW_OFFICE, plans, FailingSteps(owner, plan, at, t, 0)).failures == map[]
    ensures RunOffice(NEW_OFFICE, plans, FailingSteps(owner, plan, at, t, 0)).world.subs
         == [NewSub(owner, plan, plans[plan], at, "", "").(autoRenew := true)]
  {
    var steps, s := FailingSteps(owner, plan, at, t, 0), NewSub(owner, plan, plans[plan], at, "", "");
    var o1 := Stepped(NEW_OFFICE, plans, steps[0]);
    assert o1.world.subs == [s];
    assert RunOffice(NEW_OFFICE, plans, steps[..1]) == o1 by { assert steps[..1][..0] == []; }
    assert steps[..|steps| - 1] == steps[..1];
    assert [s][0 := s.(autoRenew := true)] == [s.(autoRenew := true)];
  }

  /** Any number of failed debits of one row is reached, at one moment even, if none of them is counted. */
  lemma {:induction false} UncountedFailures(plans: Plans, owner: Pair, plan: int, at: Calendar.Stamp, t: int, n: nat)
    requires plan in plans && ExpiryInstant(at, plans[plan].cycle) == Some(t)
    ensures var o := RunOffice(NEW_OFFICE, plans, FailingSteps(owner, plan, at, t, n));
            && |FailuresOf(o, 0)| == n && StoredCount(FailuresOf(o, 0)) == 0
            && |o.world.subs| == 1 && o.world.subs[0].plan == plan && Matches(o.world.subs[0], DueForRenewal(t))
  {
    if n == 0 {
      BeforeFailing(plans, owner, plan, at, t);
    } else {
      var before := FailingSteps(owner, plan, at, t, n - 1);
      assert FailingSteps(owner, plan, at, t, n) == before + [RenewalTick(t, [Uncounted(at, t)])];
      RunOfficeSnoc(NEW_OFFICE, plans, before, RenewalTick(t, [Uncounted(at, t)]));
      UncountedFailures(plans, owner, plan, at, t, n - 1);
      var o := RunOffice(NEW_OFFICE, plans, before);
      FailingTick(o, plans, at, t);
      FailureAdded(FailuresOf(o, 0), Failure(t, false));
    }
  }

  // ----- A renewal that goes through -----

  /** An account is funded, activates a plan, and is switched to auto-renew. */
  function FundedSteps(owner: Pair, plan: int, price: int, at: Calendar.Stamp): seq<Step> {
    [WalletStep(OpenWallet(owner.account)), WalletStep(Ledger.Op.Credit(owner.account, price, TOPUP, Ref("payment_order", "order"), "", "")),
     Lifecycle(Activate(owner, plan, at, "", "", NoFault)), EnableAutoRenew(0)]
  }

  /** Everything answers, at one moment. */
  function Answered(at: Calendar.Stamp, t: int): Attempt {
    Attempt(true, true, t, at, NoFault, true, true, t)
  }

  lemma Funded(plans: Plans, owner: Pair, plan: int, at: Calendar.Stamp)
    requires plan in plans
    ensures var o := RunOffice(NEW_OFFICE, plans, FundedSteps(owner, plan, plans[plan].price, at));
            && owner.account in o.book.wallets && o.book.wallets[owner.account].balance == plans[plan].price && o.renewed == []
            && o.world.subs == [NewSub(owner, plan, plans[plan], at, "", "").(autoRenew := true)]
  {
    var steps, s := FundedSteps(owner, plan, plans[plan].price, at), NewSub(owner, plan, plans[plan], at, "", "");
    var e1, e2, e3, e4 := steps[0], steps[1], steps[2], steps[3];
    RunOfficeSnoc(NEW_OFFICE, plans, [], e1);
    RunOfficeSnoc(NEW_OFFICE, plans, [e1], e2);
    RunOfficeSnoc(NEW_OFFICE, plans, [e1, e2], e3);
    RunOfficeSnoc(NEW_OFFICE, plans, [e1, e2, e3], e4);
    assert [] + [e1] == [e1] && [e1] + [e2] == [e1, e2] && [e1, e2] + [e3] == [e1, e2, e3] && [e1, e2, e3] + [e4] == steps;
    assert RunOffice(NEW_OFFICE, plans, [e1]).book.wallets == map[owner.account := Wallet(0, 0, 0)];
    var o2 := RunOffice(NEW_OFFICE, plans, [e1, e2]);
    assert o2.world == EMPTY_WORLD && o2.renewed == [] && owner.account in o2.book.wallets
           && o2.book.wallets[owner.account].balance == plans[plan].price;
    FirstActivation(o2, plans, owner, plan, at);
    assert [s][0 := s.(autoRenew := true)] == [s.(autoRenew := true)];
  }

  lemma FirstActivation(o: Office, plans: Plans, owner: Pair, plan: int, at: Calendar.Stamp)
    requires o.world == EMPTY_WORLD && plan in plans
    ensures var o' := Stepped(o, plans, Lifecycle(Activate(owner, plan, at, "", "", NoFault)));
            o'.world.subs == [NewSub(owner, plan, plans[plan], at, "", "")] && o'.book == o.book && o'.renewed == o.renewed
  {
  }

  lemma OnlyRowRenewed(o: Office, plans: Plans, a: Attempt, t: int)
    requires |o.world.subs| == 1 && Matches(o.world.subs[0], DueForRenewal(t))
    ensures Stepped(o, plans, RenewalTick(t, [a])) == ProcessOne(o, plans, 0, o.world.subs[0], a).0
  {
    assert Select(o.world.subs[..0], DueForRenewal(t)) == [];
    assert Select(o.world.subs, DueForRenewal(t)) == [0];
    var o1 := ProcessOne(o, plans, 0, o.world.subs[0], a).0;
    assert [0][1..] == [] && ProcessAll(o1, plans, [0][1..], o.world.subs, [a][1..]) == (o1, []);
  }

  /** From the empty table: with the price in the wallet and everything answering, the subscription is renewed and the price taken. */
  lemma {:induction false} RenewalHappens(plans: Plans, owner: Pair, plan: int, at: Calendar.Stamp, t: int, again: Calendar.Stamp)
    requires plan in plans && ExpiryInstant(at, plans[plan].cycle) == Some(t)
    ensures var o := RunOffice(NEW_OFFICE, plans, FundedSteps(owner, plan, plans[plan].price, at) + [RenewalTick(t, [Answered(again, t)])]);
            && o.renewed == [0] && Balance(o.book, owner.account) == 0
            && |o.world.subs| == 2 && o.world.subs[0].status == Expired
            && o.world.subs[1].owner == owner && o.world.subs[1].status == Active
            && o.world.subs[1].expiresAt == ExpiryInstant(again, plans[plan].cycle)
  {
    var o, a := RunOffice(NEW_OFFICE, plans, FundedSteps(owner, plan, plans[plan].price, at)), Answered(again, t);
    Funded(plans, owner, plan, at);
    RunOfficeSnoc(NEW_OFFICE, plans, FundedSteps(owner, plan, plans[plan].price, at), RenewalTick(t, [a]));
    OnlyRowRenewed(o, plans, a, t);
    OutcomeIff(o, plans, 0, o.world.subs[0], a);
    OneConservesMoney(o, plans, 0, o.world.subs[0], a, owner.account);
    RenewedRow(o, plans, 0, a);
  }

  // ----- Auto-renew -----

  /** No active row of the pair has auto-renew. */
  predicate SwitchedOff(subs: seq<Sub>, p: Pair) {
    forall i :: 0 <= i < |subs| && subs[i].owner == p && subs[i].status == Active ==> !subs[i].autoRenew
  }

  lemma OneKeepsSwitches(o: Office, plans: Plans, id: nat, sub: Sub, a: Attempt)
    ensures SwitchesKept(o.world.subs, ProcessOne(o, plans, id, sub, a).0.world.subs)
  {
    LifecycleKeepsRows(o.world, plans, Activate(sub.owner, sub.plan, a.at, sub.paymentMethod, sub.externalId, a.fault));
  }

  lemma {:induction false} BatchKeepsSwitches(o: Office, plans: Plans, ids: seq<nat>, listed: seq<Sub>, tries: seq<Attempt>)
    requires forall k :: 0 <= k < |ids| ==> ids[k] < |listed|
    ensures SwitchesKept(o.world.subs, ProcessAll(o, plans, ids, listed, tries).0.world.subs)
    decreases |ids|
  {
    if ids != [] && tries != [] {
      OneKeepsSwitches(o, plans, ids[0], listed[ids[0]], tries[0]);
      BatchKeepsSwitches(ProcessOne(o, plans, ids[0], listed[ids[0]], tries[0]).0, plans, ids[1..], listed, tries[1..]);
    }
  }

  lemma SteppedKeepsSwitches(o: Office, plans: Plans, s: Step)
    requires !s.EnableAutoRenew?
    ensures SwitchesKept(o.world.subs, Stepped(o, plans, s).world.subs)
  {
    match s
    case Lifecycle(e) => LifecycleKeepsRows(o.world, plans, e);
    case RenewalTick(now, tries) =>
      var ids := Select(o.world.subs, DueForRenewal(now));
      assert forall k :: 0 <= k < |ids| ==> ids[k] in ids;
      BatchKeepsSwitches(o, plans, ids, o.world.subs, tries);
    case WalletStep(_) =>
  }

  /** The step does not switch auto-renew on for a row of the pair. */
  predicate LeavesOff(o: Office, s: Step, p: Pair) {
    s.EnableAutoRenew? && s.id < |o.world.subs| ==> o.world.subs[s.id].owner != p
  }

  predicate AllLeaveOff(o: Office, plans: Plans, steps: seq<Step>, p: Pair) {
    forall k :: 0 <= k < |steps| ==> LeavesOff(RunOffice(o, plans, steps[..k]), steps[k], p)
  }

  lemma {:induction false} LeaveOffPrefix(o: Office, plans: Plans, steps: seq<Step>, p: Pair)
    requires steps != [] && AllLeaveOff(o, plans, steps, p)
    ensures AllLeaveOff(o, plans, steps[..|steps| - 1], p)
  {
    var init := steps[..|steps| - 1];
    forall k | 0 <= k < |init|
      ensures LeavesOff(RunOffice(o, plans, init[..k]), init[k], p)
    {
      assert init[..k] == steps[..k];
    }
  }

  lemma {:induction false} StaysOff(o: Office, plans: Plans, steps: seq<Step>, p: Pair)
    requires SwitchedOff(o.world.subs, p) && AllLeaveOff(o, plans, steps, p)
    ensures SwitchedOff(RunOffice(o, plans, steps).world.subs, p)
  {
    if steps != [] {
      LeaveOffPrefix(o, plans, steps, p);
      StaysOff(o, plans, steps[..|steps| - 1], p);
      var before, s := RunOffice(o, plans, steps[..|steps| - 1]), steps[|steps| - 1];
      if !s.EnableAutoRenew? {
        SteppedKeepsSwitches(before, plans, s);
      }
    }
  }

  /** The row a renewal creates has auto-renew off, and the renewed row is no longer active. */
  lemma RenewedIsOff(o: Office, plans: Plans, id: nat, a: Attempt)
    requires OneLive(o.world.subs)
    requires id < |o.world.subs| && o.world.subs[id].status == Active
    requires ProcessOne(o, plans, id, o.world.subs[id], a).1.outcome == Renewed
    ensures SwitchedOff(ProcessOne(o, plans, id, o.world.subs[id], a).0.world.subs, o.world.subs[id].owner)
  {
    OneRow(o, plans, id, a);
    var subs' := ProcessOne(o, plans, id, o.world.subs[id], a).0.world.subs;
    forall i | 0 <= i < |subs'| && subs'[i].owner == o.world.subs[id].owner && subs'[i].status == Active
      ensures !subs'[i].autoRenew
    {
      LiveIsUnique(subs', o.world.subs[id].owner, i);
    }
  }

  /**
   * Once a row has been renewed, its pair is never due again, at any time in any later run, until something switches
   * auto-renew on for one of its rows.
   */
  lemma {:induction false} RenewedPairNotDueAgain(o: Office, plans: Plans, id: nat, a: Attempt, steps: seq<Step>, now: int)
    requires OneLive(o.world.subs)
    requires id < |o.world.subs| && o.world.subs[id].status == Active
    requires ProcessOne(o, plans, id, o.world.subs[id], a).1.outcome == Renewed
    requires AllLeaveOff(ProcessOne(o, plans, id, o.world.subs[id], a).0, plans, steps, o.world.subs[id].owner)
    ensures var subs' := RunOffice(ProcessOne(o, plans, id, o.world.subs[id], a).0, plans, steps).world.subs;
            forall j :: j in Select(subs', DueForRenewal(now)) ==> j < |subs'| && subs'[j].owner != o.world.subs[id].owner
  {
    RenewedIsOff(o, plans, id, a);
    StaysOff(ProcessOne(o, plans, id, o.world.subs[id], a).0, plans, steps, o.world.subs[id].owner);
  }

  /** And if it is switched on for the new row, that row is due exactly in the last day before it expires. */
  lemma SwitchedOnDueIff(o: Office, plans: Plans, id: nat, a: Attempt, now: int)
    requires OneLive(o.world.subs)
    requires id < |o.world.subs| && o.world.subs[id].status == Active
    requires ProcessOne(o, plans, id, o.world.subs[id], a).1.outcome == Renewed
    ensures var o' := Stepped(ProcessOne(o, plans, id, o.world.subs[id], a).0, plans, EnableAutoRenew(|o.world.subs|));
            && o.world.subs[id].plan in plans
            && var expiresAt := ExpiryInstant(a.at, plans[o.world.subs[id].plan].cycle);
               |o.world.subs| in Select(o'.world.subs, DueForRenewal(now)) <==>
               expiresAt.Some? && now <= expiresAt.value <= now + 86_400_000_000_000
  {
    OneRow(o, plans, id, a);
  }

  /** Renewals of rows of the pair so far: at most one, and then the pair is switched off. */
  ghost predicate PairDone(o: Office, p: Pair) {
    && (forall i :: 0 <= i < |o.renewed| ==> o.renewed[i] < |o.world.subs|)
    && (forall i, j | 0 <= i < |o.renewed| && 0 <= j < |o.renewed| ::
          o.world.subs[o.renewed[i]].owner == p && o.world.subs[o.renewed[j]].owner == p ==> i == j)
    && (forall i :: 0 <= i < |o.renewed| && o.world.subs[o.renewed[i]].owner == p ==> SwitchedOff(o.world.subs, p))
  }

  lemma OneKeepsDone(o: Office, plans: Plans, id: nat, a: Attempt, now: int, p: Pair)
    requires OneLive(o.world.subs) && PairDone(o, p)
    requires id < |o.world.subs| && Matches(o.world.subs[id], DueForRenewal(now))
    ensures PairDone(ProcessOne(o, plans, id, o.world.subs[id], a).0, p)
  {
    var (o', e) := ProcessOne(o, plans, id, o.world.subs[id], a);
    OneKeepsSwitches(o, plans, id, o.world.subs[id], a);
    if e.outcome == Renewed {
      RenewedIsOff(o, plans, id, a);
      assert o'.renewed == o.renewed + [id];
      assert o.world.subs[id].owner == p ==> !SwitchedOff(o.world.subs, p);
    } else {
      assert o'.renewed == o.renewed;
    }
  }

  lemma {:induction false} BatchKeepsDone(o: Office, plans: Plans, ids: seq<nat>, listed: seq<Sub>, tries: seq<Attempt>, now: int, p: Pair)
    requires OneLive(o.world.subs) && PairDone(o, p) && AsListed(o.world.subs, ids, listed)
    requires forall k :: 0 <= k < |ids| ==> Matches(listed[ids[k]], DueForRenewal(now))
    ensures OneLive(ProcessAll(o, plans, ids, listed, tries).0.world.subs)
    ensures PairDone(ProcessAll(o, plans, ids, listed, tries).0, p)
    decreases |ids|
  {
    if ids != [] && tries != [] {
      OneKeepsDone(o, plans, ids[0], tries[0], now, p);
      OneKeepsInv(o, plans, ids[0], tries[0]);
      AsListedRest(o, plans, ids, listed, tries[0]);
      BatchKeepsDone(ProcessOne(o, plans, ids[0], listed[ids[0]], tries[0]).0, plans, ids[1..], listed, tries[1..], now, p);
    }
  }

  lemma SteppedKeepsDone(o: Office, plans: Plans, s: Step, p: Pair)
    requires OneLive(o.world.subs) && PairDone(o, p) && LeavesOff(o, s, p)
    ensures OneLive(Stepped(o, plans, s).world.subs) && PairDone(Stepped(o, plans, s), p)
  {
    match s
    case Lifecycle(e) =>
      NextOneLive(o.world, plans, e);
      LifecycleKeepsRows(o.world, plans, e);
    case RenewalTick(now, tries) =>
      var ids := Select(o.world.subs, DueForRenewal(now));
      SelectIsListed(o.world.subs, DueForRenewal(now));
      assert forall k :: 0 <= k < |ids| ==> ids[k] in ids;
      BatchKeepsDone(o, plans, ids, o.world.subs, tries, now, p);
    case EnableAutoRenew(_) =>
    case WalletStep(_) =>
  }

  /**
   * Nothing in the service switches auto-renew on. So whatever a migrated table says, a pair is renewed at most once in
   * any run in which nobody else does, and is not due at any time after that.
   */
  lemma {:induction false} MigratedRenewedOnce(o: Office, plans: Plans, steps: seq<Step>, p: Pair)
    requires Fresh(o) && AllLeaveOff(o, plans, steps, p)
    ensures OneLive(RunOffice(o, plans, steps).world.subs) && PairDone(RunOffice(o, plans, steps), p)
  {
    if steps != [] {
      LeaveOffPrefix(o, plans, steps, p);
      MigratedRenewedOnce(o, plans, steps[..|steps| - 1], p);
      SteppedKeepsDone(RunOffice(o, plans, steps[..|steps| - 1]), plans, steps[|steps| - 1], p);
    }
  }

  /** From a table without auto-renew, in particular the empty one, the renewal job never finds a row, nor does anything. */
  lemma {:induction false} NothingRenewed(o: Office, plans: Plans, steps: seq<Step>, now: int, tries: seq<Attempt>)
    requires NoneOn(o.world.subs) && forall k :: 0 <= k < |steps| ==> !steps[k].EnableAutoRenew?
    ensures var o' := RunOffice(o, plans, steps);
            && Renewals(o', plans, now, tries) == (o', [])
            && o'.renewed == o.renewed && o'.failures == o.failures
  {
    NoneSwitchedOn(o, plans, steps);
    var o' := RunOffice(o, plans, steps);
    NoneDue(o'.world.subs, now);
    if steps != [] {
      NothingRenewed(o, plans, steps[..|steps| - 1], if steps[|steps| - 1].RenewalTick? then steps[|steps| - 1].now else now,
                     if steps[|steps| - 1].RenewalTick? then steps[|steps| - 1].tries else tries);
    }
  }

  predicate NoneOn(subs: seq<Sub>) {
    forall i :: 0 <= i < |subs| ==> !subs[i].autoRenew
  }

  lemma {:induction false} NoneDue(subs: seq<Sub>, now: int)
    requires NoneOn(subs)
    ensures Select(subs, DueForRenewal(now)) == []
  {
    if subs != [] {
      NoneDue(subs[..|subs| - 1], now);
    }
  }

  lemma {:induction false} NoneSwitchedOn(o: Office, plans: Plans, steps: seq<Step>)
    requires NoneOn(o.world.subs) && forall k :: 0 <= k < |steps| ==> !steps[k].EnableAutoRenew?
    ensures NoneOn(RunOffice(o, plans, steps).world.subs)
  {
    if steps != [] {
      var before := RunOffice(o, plans, steps[..|steps| - 1]);
      NoneSwitchedOn(o, plans, steps[..|steps| - 1]);
      SteppedKeepsSwitches(before, plans, steps[|steps| - 1]);
    }
  }

  // ----- The job -----

  ghost function RenewedOne(): Entry -> int {
    (e: Entry) => if e.outcome == Renewed then 1 else 0
  }

  class RenewalJob {
    const service: SubscriptionService
    const repo: WalletRepo
    ghost var failures: map<nat, seq<Failure>>
    ghost var renewed: seq<nat>

    ghost function View(): Office
      reads this, service, service.ents, repo
    {
      Office(repo.Contents(), service.View(), failures, renewed)
    }

    constructor (service: SubscriptionService, repo: WalletRepo)
      ensures this.service == service && this.repo == repo && failures == map[] && renewed == []
    {
      this.service, this.repo, failures, renewed := service, repo, map[], [];
    }

    method UpdateRenewalState(id: nat, attempts: int, nextAt: Option<int>, ok: bool)
      modifies service
      ensures service.View() == old(service.View()).(subs := WithRenewalState(old(service.subs), id, attempts, nextAt, ok))
    {
      if ok && id < |service.subs| {
        service.subs := service.subs[id := service.subs[id].(attempts := attempts, nextRenewalAt := nextAt)];
      }
    }

    /** env says how the calls answer; its fault is what the activation really met. */
    method ProcessSub(id: nat, sub: Sub, env: Attempt, answers: StoreAnswers)
      returns (ok: bool, ghost a: Attempt, ghost e: Entry)
      requires Calendar.Valid(env.at.date)
      modifies this, service, service.ents, repo
      ensures a == env.(fault := a.fault)
      ensures (View(), e) == ProcessOne(old(View()), service.plans, id, sub, a)
      ensures ok <==> e.outcome == Renewed
    {
      a := env.(fault := NoFault);
      if !env.planOk || sub.plan !in service.plans {
        e := Entry(id, sub.owner.account, 0, NoPlan);
        return false, a, e;
      }
      var plan := service.plans[sub.plan];
      var debit: Result<Row> := Err(Unavailable);
      if env.debitUp {
        debit := repo.Debit(sub.owner.account, plan.price, DEBIT_KIND, DebitRef(id), sub.owner.product, "");
      }
      if debit.Ok? {
        var r, fault := service.Activate(sub.owner, sub.plan, env.at, sub.paymentMethod, sub.externalId, answers);
        a := env.(fault := fault);
        if r.Err? {
          var credit: Result<Row> := Err(Unavailable);
          if env.creditUp {
            credit := repo.Credit(sub.owner.account, plan.price, REFUND_KIND, RefundRef(id), sub.owner.product, "");
          }
          e := Entry(id, sub.owner.account, plan.price, if credit.Ok? then Compensated else Leaked);
          return false, a, e;
        }
        UpdateRenewalState(id, 0, None, env.storeOk);
        renewed := renewed + [id];
        e := Entry(id, sub.owner.account, plan.price, Renewed);
        return true, a, e;
      }
      var nextAttempts := sub.attempts + 1;
      UpdateRenewalState(id, nextAttempts, Some(env.calcAt + Backoff(nextAttempts)), env.storeOk);
      failures := failures[id := FailuresOf(View(), id) + [Failure(env.debitAt, env.storeOk)]];
      e := Entry(id, sub.owner.account, plan.price, DebitFailed);
      ok := false;
    }

    /** A tick of the renewal job is a RenewalTick step; if its query fails, an empty one. */
    method RunRenewal(now: int, listOk: bool, envOf: nat -> Attempt, answersOf: nat -> StoreAnswers)
      returns (scanned: nat, renewals: nat, failed: nat, ghost tries: seq<Attempt>, ghost entries: seq<Entry>)
      requires forall id :: Calendar.Valid(envOf(id).at.date)
      modifies this, service, service.ents, repo
      ensures (View(), entries) == Renewals(old(View()), service.plans, now, tries)
      ensures scanned == |entries| == |tries| == renewals + failed
      ensures scanned == if listOk then |Select(old(service.subs), DueForRenewal(now))| else 0
      ensures renewals == Sum(entries, RenewedOne())
    {
      if !listOk {
        return 0, 0, 0, [], [];
      }
      var listed := service.subs;
      var ids := Select(listed, DueForRenewal(now));
      assert forall k :: 0 <= k < |ids| ==> ids[k] in ids;
      scanned, renewals, failed := |ids|, 0, 0;
      tries, entries := [], [];
      ghost var start := View();
      for i := 0 to |ids|
        invariant |tries| == |entries| == i == renewals + failed
        invariant (View(), entries) == ProcessAll(start, service.plans, ids[..i], listed, tries)
        invariant renewals == Sum(entries, RenewedOne())
      {
        var ok, a, e := ProcessSub(ids[i], listed[ids[i]], envOf(ids[i]), answersOf(ids[i]));
        assert ids[..i + 1] == ids[..i] + [ids[i]];
        ProcessAllSnoc(start, service.plans, ids[..i], listed, tries, ids[i], a);
        SumAppend(entries, e, RenewedOne());
        tries, entries := tries + [a], entries + [e];
        if ok {
          renewals := renewals + 1;
        } else {
          failed := failed + 1;
        }
      }
      assert ids[..|ids|] == ids;
    }
  }

  lemma {:induction false} ProcessAllSnoc(o: Office, plans: Plans, ids: seq<nat>, listed: seq<Sub>, tries: seq<Attempt>, id: nat, a: Attempt)
    requires |ids| == |tries| && id < |listed| && forall k :: 0 <= k < |ids| ==> ids[k] < |listed|
    ensures var (o1, es) := ProcessAll(o, plans, ids, listed, tries);
            var (o2, e) := ProcessOne(o1, plans, id, listed[id], a);
            ProcessAll(o, plans, ids + [id], listed, tries + [a]) == (o2, es + [e])
    decreases |ids|
  {
    if ids == [] {
      assert ids + [id] == [id] && tries + [a] == [a] && [id][1..] == [];
      var (o2, e) := ProcessOne(o, plans, id, listed[id], a);
      assert ProcessAll(o2, plans, [], listed, [a][1..]) == (o2, []);
      assert [e] + [] == [] + [e];
    } else {
      var o1 := ProcessOne(o, plans, ids[0], listed[ids[0]], tries[0]).0;
      ProcessAllSnoc(o1, plans, ids[1..], listed, tries[1..], id, a);
      assert (ids + [id])[1..] == ids[1..] + [id] && (tries + [a])[1..] == tries[1..] + [a];
      var (o2, es) := ProcessAll(o1, plans, ids[1..], listed, tries[1..]);
      var e0, e := ProcessOne(o, plans, ids[0], listed[ids[0]], tries[0]).1, ProcessOne(o2, plans, id, listed[id], a).1;
      assert [e0] + (es + [e]) == ([e0] + es) + [e];
    }
  }
}
