/**
 * The subscription lifecycle: activation, cancellation, and the expiry job's two batch loops.
 * A subscription's id is its position in the table; rows are never deleted.
 */
module Subscriptions {
  import opened Base
  import opened Sums
  import opened Entitlements
  import EntitlementCache
  import Calendar
  import Topup

  datatype Status = Pending | Trial | Active | Grace | Expired | Cancelled | Suspended

  datatype Sub = Sub(owner: Pair, plan: int, status: Status, expiresAt: Option<int>, graceUntil: Option<int>,
                     autoRenew: bool, attempts: int, nextRenewalAt: Option<int>, paymentMethod: string, externalId: string)

  /** synced: ids of the subscriptions whose entitlement sync succeeded. */
  datatype World = World(subs: seq<Sub>, ents: map<Pair, Rows>, synced: set<nat>)

  type Plans = map<int, Plan>

  predicate Live(s: Sub) {
    s.status == Active || s.status == Grace || s.status == Trial
  }

  // ----- Queries -----

  /** The live subscription with the lowest id, from position i on. */
  function LiveFrom(subs: seq<Sub>, owner: Pair, i: nat): (r: Option<nat>)
    requires i <= |subs|
    ensures r.Some? ==> i <= r.value < |subs| && subs[r.value].owner == owner && Live(subs[r.value])
                        && forall j :: i <= j < r.value && subs[j].owner == owner ==> !Live(subs[j])
    ensures r.None? ==> forall j :: i <= j < |subs| && subs[j].owner == owner ==> !Live(subs[j])
    decreases |subs| - i
  {
    if i == |subs| then None
    else if subs[i].owner == owner && Live(subs[i]) then Some(i)
    else LiveFrom(subs, owner, i + 1)
  }

  /** The live subscription of a pair; the lowest id, if there should be several. */
  function GetActive(subs: seq<Sub>, owner: Pair): (r: Option<nat>)
    ensures r.Some? <==> exists j :: 0 <= j < |subs| && subs[j].owner == owner && Live(subs[j])
    ensures r.Some? ==> r.value < |subs| && subs[r.value].owner == owner && Live(subs[r.value])
                        && forall j :: 0 <= j < r.value && subs[j].owner == owner ==> !Live(subs[j])
  {
    LiveFrom(subs, owner, 0)
  }

  datatype Query =
    | ActiveExpired(now: int)
    | GraceExpired(now: int)
    | DueForRenewal(now: int)

  predicate Matches(s: Sub, q: Query) {
    match q
    case ActiveExpired(now) => s.status == Active && s.expiresAt.Some? && s.expiresAt.value < now
    case GraceExpired(now) => s.status == Grace && s.graceUntil.Some? && s.graceUntil.value < now
    case DueForRenewal(now) =>
      && s.autoRenew && s.status == Active && s.attempts < 3
      && s.expiresAt.Some? && now <= s.expiresAt.value <= now + Calendar.DAY
      && (s.nextRenewalAt.None? || s.nextRenewalAt.value <= now)
  }

  predicate Ascending(ids: seq<nat>) {
    forall i, j :: 0 <= i < j < |ids| ==> ids[i] < ids[j]
  }

  /** Exactly the matching ids, each once. */
  function Select(subs: seq<Sub>, q: Query): (ids: seq<nat>)
    ensures Ascending(ids)
    ensures forall id: nat :: id in ids <==> id < |subs| && Matches(subs[id], q)
  {
    if subs == [] then []
    else
      var n := |subs| - 1;
      var ids := Select(subs[..n], q);
      assert forall k :: 0 <= k < |ids| ==> ids[k] in ids;
      if Matches(subs[n], q) then ids + [n] else ids
  }

  // ----- What each call does -----

  datatype Fault = NoFault | PlanFails | ReadFails | ExpireFails | CreateFails | SyncFails(written: set<string>)

  function ExpiryInstant(now: Calendar.Stamp, cycle: string): Option<int> {
    match Calendar.Expiry(now, cycle)
    case None => None
    case Some(t) => Some(Calendar.Instant(t))
  }

  function NewSub(owner: Pair, plan: int, p: Plan, now: Calendar.Stamp, paymentMethod: string, externalId: string): Sub {
    Sub(owner, plan, Active, ExpiryInstant(now, p.cycle), None, false, 0, None, paymentMethod, externalId)
  }

  /** Retires the live subscription of the pair, if there is one. */
  function Retired(subs: seq<Sub>, owner: Pair): seq<Sub> {
    match GetActive(subs, owner)
    case None => subs
    case Some(i) => subs[i := subs[i].(status := Expired)]
  }

  function Activated(w: World, plans: Plans, owner: Pair, plan: int, now: Calendar.Stamp,
                     paymentMethod: string, externalId: string, fault: Fault): (World, Result<nat>)
  {
    if plan !in plans || fault.PlanFails? then (w, Err(NotFound))
    else if fault.ReadFails? then (w, Err(Unavailable))
    else if fault.ExpireFails? && GetActive(w.subs, owner).Some? then (w, Err(Unavailable))
    else
      var subs := Retired(w.subs, owner);
      if fault.CreateFails? then (w.(subs := subs), Err(Unavailable))
      else
        var sub := NewSub(owner, plan, plans[plan], now, paymentMethod, externalId);
        var written := if fault.SyncFails? then fault.written else Entries(plans[plan]).Keys;
        (World(subs + [sub],
               SyncedRows(w.ents, owner, plans[plan], sub.expiresAt, written),
               if fault.SyncFails? then w.synced else w.synced + {|subs|}),
         Ok(|subs|))
  }

  function GracedSub(s: Sub, now: int, graceDays: int): Sub {
    s.(status := Grace, graceUntil := Some(now + graceDays * Calendar.DAY))
  }

  /** The partial unique index on live rows refuses to make row id of the pair live. */
  predicate Taken(subs: seq<Sub>, owner: Pair, id: nat) {
    exists j :: 0 <= j < |subs| && j != id && subs[j].owner == owner && Live(subs[j])
  }

  /** Expire looks at nothing but the id; the write fails if another row of the pair is live. */
  function Graced(w: World, id: nat, now: int, graceDays: int): World {
    if id >= |w.subs| || Taken(w.subs, w.subs[id].owner, id) then w
    else w.(subs := w.subs[id := GracedSub(w.subs[id], now, graceDays)])
  }

  datatype EndFault = NoEndFault | UpdateFails | DeleteFails | UpsertFails

  function Ended(w: World, id: nat, fault: EndFault): World {
    if id >= |w.subs| || fault.UpdateFails? then w
    else
      var s := w.subs[id];
      w.(subs := w.subs[id := s.(status := Expired)],
         ents := match fault
                 case DeleteFails => w.ents
                 case UpsertFails => w.ents[s.owner := map[]]
                 case _ => w.ents[s.owner := FREE_ROWS])
  }

  function CancelledBy(w: World, owner: Pair, ok: bool): World {
    match GetActive(w.subs, owner)
    case None => w
    case Some(i) => if ok then w.(subs := w.subs[i := w.subs[i].(status := Cancelled, autoRenew := false)]) else w
  }

  /** One attempt of the expiry job on a listed row: whether the store answers, and the clock. */
  datatype Try = Try(ok: bool, now: int)

  /** The first loop; it may stop early, if the process dies. */
  function ExpireEach(w: World, ids: seq<nat>, tries: seq<Try>, graceDays: int): World
    decreases |ids|
  {
    if ids == [] || tries == [] then w
    else ExpireEach(if tries[0].ok then Graced(w, ids[0], tries[0].now, graceDays) else w, ids[1..], tries[1..], graceDays)
  }

  /** The second loop. */
  function EndEach(w: World, ids: seq<nat>, faults: seq<EndFault>): World
    decreases |ids|
  {
    if ids == [] || faults == [] then w
    else EndEach(Ended(w, ids[0], faults[0]), ids[1..], faults[1..])
  }

  /** A whole tick: list, expire each, list again, end each. */
  function Ticked(w: World, now: int, tries: seq<Try>, later: int, faults: seq<EndFault>, graceDays: int): World {
    var w1 := ExpireEach(w, Select(w.subs, ActiveExpired(now)), tries, graceDays);
    EndEach(w1, Select(w1.subs, GraceExpired(later)), faults)
  }

  // ----- Invariants -----

  ghost predicate OneLive(subs: seq<Sub>) {
    forall i, j :: 0 <= i < |subs| && 0 <= j < |subs| && Live(subs[i]) && Live(subs[j]) && subs[i].owner == subs[j].owner ==> i == j
  }

  /** A live subscription whose sync succeeded finds everything its plan grants in the stored rows. */
  ghost predicate SyncHeld(w: World, plans: Plans) {
    forall i :: i in w.synced ==>
      && i < |w.subs|
      && (Live(w.subs[i]) ==> w.subs[i].plan in plans
                              && Grants(RowsOf(w.ents, w.subs[i].owner), plans[w.subs[i].plan], w.subs[i].expiresAt))
  }

  ghost predicate Inv(w: World, plans: Plans) {
    OneLive(w.subs) && SyncHeld(w, plans)
  }

  lemma LiveIsUnique(subs: seq<Sub>, owner: Pair, i: nat)
    requires OneLive(subs) && i < |subs| && Live(subs[i]) && subs[i].owner == owner
    ensures GetActive(subs, owner) == Some(i)
  {
  }

  lemma RetiredFacts(subs: seq<Sub>, owner: Pair)
    requires OneLive(subs)
    ensures var subs' := Retired(subs, owner);
            && |subs'| == |subs|
            && (forall j :: 0 <= j < |subs| ==> subs'[j] == subs[j] || (subs[j].owner == owner && Live(subs[j]) && subs'[j] == subs[j].(status := Expired)))
            && (forall j :: 0 <= j < |subs| && subs'[j].owner == owner ==> !Live(subs'[j]))
            && OneLive(subs')
  {
    var r := GetActive(subs, owner);
    if r.Some? {
      forall j | 0 <= j < |subs| && subs[j].owner == owner && j != r.value
        ensures !Live(subs[j])
      {
      }
    }
  }

  lemma RetireKeeps(w: World, plans: Plans, owner: Pair)
    requires Inv(w, plans)
    ensures Inv(w.(subs := Retired(w.subs, owner)), plans)
  {
    RetiredFacts(w.subs, owner);
  }

  lemma CreateKeeps(w: World, plans: Plans, s: Sub, written: set<string>, synced: bool)
    requires Inv(w, plans) && s.plan in plans
    requires forall j :: 0 <= j < |w.subs| && w.subs[j].owner == s.owner ==> !Live(w.subs[j])
    requires synced ==> written == Entries(plans[s.plan]).Keys
    ensures Inv(World(w.subs + [s], SyncedRows(w.ents, s.owner, plans[s.plan], s.expiresAt, written),
                      if synced then w.synced + {|w.subs|} else w.synced), plans)
  {
    SyncGrants(w.ents, s.owner, plans[s.plan], s.expiresAt);
  }

  /** Activation keeps the invariant wherever it fails: even if the old row is retired and the new one never created. */
  lemma ActivateKeeps(w: World, plans: Plans, owner: Pair, plan: int, now: Calendar.Stamp, pay: string, ext: string, fault: Fault)
    requires Inv(w, plans)
    ensures Inv(Activated(w, plans, owner, plan, now, pay, ext, fault).0, plans)
  {
    RetireKeeps(w, plans, owner);
    RetiredFacts(w.subs, owner);
    if plan in plans {
      var written := if fault.SyncFails? then fault.written else Entries(plans[plan]).Keys;
      CreateKeeps(w.(subs := Retired(w.subs, owner)), plans, NewSub(owner, plan, plans[plan], now, pay, ext), written, !fault.SyncFails?);
    }
  }

  /** Which subscriptions of the pair are live once an activation has succeeded: the new one and no other. */
  lemma {:induction false} ActivateLeavesNewest(w: World, plans: Plans, owner: Pair, plan: int, now: Calendar.Stamp, pay: string, ext: string, fault: Fault)
    requires Inv(w, plans)
    requires Activated(w, plans, owner, plan, now, pay, ext, fault).1.Ok?
    ensures var (w', r) := Activated(w, plans, owner, plan, now, pay, ext, fault);
            && r == Ok(|w.subs|) && |w'.subs| == |w.subs| + 1
            && GetActive(w'.subs, owner) == Some(|w.subs|)
            && w'.subs[|w.subs|] == NewSub(owner, plan, plans[plan], now, pay, ext)
            && (forall i :: 0 <= i < |w.subs| && w.subs[i].owner != owner ==> w'.subs[i] == w.subs[i])
            && (forall q :: q != owner ==> RowsOf(w'.ents, q) == RowsOf(w.ents, q))
            && (!fault.SyncFails? ==>
                  var expiresAt := ExpiryInstant(now, plans[plan].cycle);
                  Holds(RowsOf(w'.ents, owner), plans[plan], expiresAt) <==>
                  forall k :: k in Entries(plans[plan]) ==> !Resists(RowsOf(w.ents, owner), plans[plan], expiresAt, k))
  {
    RetiredFacts(w.subs, owner);
    ActivateKeeps(w, plans, owner, plan, now, pay, ext, fault);
    var w' := Activated(w, plans, owner, plan, now, pay, ext, fault).0;
    LiveIsUnique(w'.subs, owner, |w.subs|);
    SyncHoldsIff(w.ents, owner, plans[plan], ExpiryInstant(now, plans[plan].cycle));
  }

  /**
   * An activation succeeds exactly if the plan is found, the pair's live row can be read and, if there is one, retired,
   * and the new row created. Then the live row has expired, and the new one is active for the plan, without auto-renew
   * and without failures. Entitlements that cannot be synced do not make it fail.
   */
  lemma ActivateIff(w: World, plans: Plans, owner: Pair, plan: int, now: Calendar.Stamp, pay: string, ext: string, fault: Fault)
    requires OneLive(w.subs)
    ensures var (w', r) := Activated(w, plans, owner, plan, now, pay, ext, fault);
            var live := exists i :: 0 <= i < |w.subs| && w.subs[i].owner == owner && w.subs[i].status in {Active, Grace, Trial};
            && (r.Ok? <==> plan in plans && !fault.PlanFails? && !fault.ReadFails? && !fault.CreateFails? && (live ==> !fault.ExpireFails?))
            && (r.Err? ==> r == Err(if plan !in plans || fault.PlanFails? then NotFound else Unavailable) && w'.ents == w.ents
                           && (w' == w || (live && fault.CreateFails?)))
            && |w'.subs| == |w.subs| + (if r.Ok? then 1 else 0)
            && (r.Ok? ==> w'.subs[|w.subs|] == Sub(owner, plan, Active, ExpiryInstant(now, plans[plan].cycle), None, false, 0, None, pay, ext))
            && (forall i :: 0 <= i < |w.subs| ==>
                  w'.subs[i] == if w.subs[i].owner == owner && w.subs[i].status in {Active, Grace, Trial} && (r.Ok? || w' != w)
                                then w.subs[i].(status := Expired) else w.subs[i])
  {
    RetiredFacts(w.subs, owner);
  }

  /** What an activation stores if its sync stops after some keys: those, and the subscription does not count as synced. */
  lemma {:induction false} PartialSync(w: World, plans: Plans, owner: Pair, plan: int, now: Calendar.Stamp, pay: string, ext: string, written: set<string>)
    requires plan in plans
    ensures var w' := Activated(w, plans, owner, plan, now, pay, ext, SyncFails(written)).0;
            var before, after, expiresAt := RowsOf(w.ents, owner), RowsOf(w'.ents, owner), ExpiryInstant(now, plans[plan].cycle);
            && w'.synced == w.synced
            && (forall k :: k in after <==> k in before || (k in written && k in Entries(plans[plan])))
            && (forall k :: k in after ==>
                  after[k] == if k in written && k in Entries(plans[plan]) then Upserted(before, k, Entries(plans[plan])[k], expiresAt) else before[k])
  {
  }

  /** A cancellation turns the pair's live row, if there is one, into a cancelled one without auto-renew, and nothing else. */
  lemma CancelEffect(w: World, owner: Pair, ok: bool)
    requires OneLive(w.subs)
    ensures var w' := CancelledBy(w, owner, ok);
            && w' == w.(subs := w'.subs) && |w'.subs| == |w.subs|
            && (forall i :: 0 <= i < |w.subs| ==>
                  w'.subs[i] == if ok && w.subs[i].owner == owner && w.subs[i].status in {Active, Grace, Trial}
                                then w.subs[i].(status := Cancelled, autoRenew := false) else w.subs[i])
            && (ok ==> forall i :: 0 <= i < |w'.subs| && w'.subs[i].owner == owner ==> w'.subs[i].status !in {Active, Grace, Trial})
  {
    var r := GetActive(w.subs, owner);
    if r.Some? {
      forall i | 0 <= i < |w.subs| && w.subs[i].owner == owner && Live(w.subs[i])
        ensures i == r.value
      {
      }
    }
  }

  /** How long an activation lasts: the cycle's days from now, to the nanosecond. */
  lemma ActivationTerm(owner: Pair, plan: int, p: Plan, now: Calendar.Stamp, pay: string, ext: string)
    returns (days: int)
    requires Calendar.Valid(now.date)
    ensures var s := NewSub(owner, plan, p, now, pay, ext);
            if p.cycle == "forever" || p.cycle == "one_time" then s.expiresAt == None
            else
              && s.expiresAt == Some(Calendar.Instant(now) + days * 86_400_000_000_000)
              && if p.cycle == "weekly" then days == 7
                 else if p.cycle == "quarterly" then 89 <= days <= 92
                 else if p.cycle == "yearly" then 365 <= days <= 366
                 else 28 <= days <= 31
  {
    Calendar.ExpiryAdvance(now, p.cycle);
    var r := Calendar.Expiry(now, p.cycle);
    days := if r.Some? then Calendar.DayNumber(r.value.date) - Calendar.DayNumber(now.date) else 0;
    if r.Some? {
      Calendar.InstantGap(now, r.value, days);
    }
  }

  /**
   * Calling Expire on any id, listed or not, keeps subscriptions unique: the index refuses the call exactly if the
   * pair has a live row of another id. A call that goes through leaves the row as the pair's live one.
   */
  lemma ExpireOneLive(w: World, id: nat, now: int, graceDays: int)
    requires OneLive(w.subs) && id < |w.subs|
    ensures var w', active := Graced(w, id, now, graceDays), GetActive(w.subs, w.subs[id].owner);
            && OneLive(w'.subs)
            && (Taken(w.subs, w.subs[id].owner, id) <==> active.Some? && active.value != id)
            && (if active.Some? && active.value != id then w' == w else GetActive(w'.subs, w.subs[id].owner) == Some(id))
  {
    var owner, subs' := w.subs[id].owner, Graced(w, id, now, graceDays).subs;
    var active := GetActive(w.subs, owner);
    if active.None? || active.value == id {
      assert !Taken(w.subs, owner, id);
      forall i, j | 0 <= i < |subs'| && 0 <= j < |subs'| && Live(subs'[i]) && Live(subs'[j]) && subs'[i].owner == subs'[j].owner
        ensures i == j
      {
        assert i != id ==> subs'[i] == w.subs[i];
        assert j != id ==> subs'[j] == w.subs[j];
      }
      LiveIsUnique(subs', owner, id);
    }
  }

  /**
   * So a row that the expiry job has listed and that is renewed before its turn is left alone: the job's call is
   * refused and counted as failed.
   */
  lemma OvertakenExpireRefused(w: World, plans: Plans, id: nat, plan: int, at: Calendar.Stamp, pay: string, ext: string,
                               fault: Fault, now: int, graceDays: int)
    requires OneLive(w.subs) && id < |w.subs|
    requires Activated(w, plans, w.subs[id].owner, plan, at, pay, ext, fault).1.Ok?
    ensures var w' := Activated(w, plans, w.subs[id].owner, plan, at, pay, ext, fault).0;
            Taken(w'.subs, w.subs[id].owner, id) && Graced(w', id, now, graceDays) == w'
  {
    var owner := w.subs[id].owner;
    RetiredFacts(w.subs, owner);
    var subs' := Activated(w, plans, owner, plan, at, pay, ext, fault).0.subs;
    assert subs'[|w.subs|].owner == owner && Live(subs'[|w.subs|]);
  }

  lemma GraceKeeps(w: World, plans: Plans, id: nat, now: int, graceDays: int)
    requires Inv(w, plans) && id < |w.subs| && Live(w.subs[id])
    ensures Inv(Graced(w, id, now, graceDays), plans)
    ensures Graced(w, id, now, graceDays) == w.(subs := w.subs[id := GracedSub(w.subs[id], now, graceDays)])
  {
  }

  lemma EndKeeps(w: World, plans: Plans, id: nat, fault: EndFault)
    requires Inv(w, plans) && id < |w.subs| && Live(w.subs[id])
    ensures Inv(Ended(w, id, fault), plans)
    ensures fault.NoEndFault? ==>
              var w' := Ended(w, id, fault);
              GetActive(w'.subs, w.subs[id].owner) == None && RowsOf(w'.ents, w.subs[id].owner) == FREE_ROWS
  {
    var w' := Ended(w, id, fault);
    if !fault.UpdateFails? {
      forall i | i in w'.synced && Live(w'.subs[i])
        ensures w'.subs[i] == w.subs[i] && w.subs[i].owner != w.subs[id].owner
      {
      }
    }
  }

  /** What a reset leaves behind still holds everything a plan grants. */
  predicate FreeGrants(plan: Plan, expiresAt: Option<int>) {
    Entries(plan).Keys == {PLAN_CODE} && Entries(plan)[PLAN_CODE] in {FREE, ""} && expiresAt.None?
  }

  lemma FreeRowsGrant(plan: Plan, expiresAt: Option<int>)
    ensures Grants(FREE_ROWS, plan, expiresAt) <==> FreeGrants(plan, expiresAt)
    ensures !Grants(map[], plan, expiresAt)
    ensures forall now :: AnswersPlan(View(FREE_ROWS, now), plan) <==> Entries(plan) == map[PLAN_CODE := FREE]
  {
    assert PLAN_CODE in Entries(plan);
    forall now
      ensures AnswersPlan(View(FREE_ROWS, now), plan) <==> Entries(plan) == map[PLAN_CODE := FREE]
    {
      assert View(FREE_ROWS, now) == map[PLAN_CODE := FREE];
    }
  }

  /** The pair of row id has another live row, whose sync succeeded and whose grants a reset of the pair would not leave. */
  ghost predicate LosesGrants(w: World, plans: Plans, id: nat, fault: EndFault)
    requires id < |w.subs|
  {
    exists i :: i in w.synced && i < |w.subs| && i != id && Live(w.subs[i]) && w.subs[i].owner == w.subs[id].owner
      && w.subs[i].plan in plans && !(fault.NoEndFault? && FreeGrants(plans[w.subs[i].plan], w.subs[i].expiresAt))
  }

  /**
   * Ending the grace period of any id, listed or not, resets the whole pair, and no index stops it. Every live synced
   * row keeps its grants exactly if the reset is not reached, or the pair has no other live synced row that needs more
   * than the free entitlement.
   */
  lemma EndKeepsIff(w: World, plans: Plans, id: nat, fault: EndFault)
    requires Inv(w, plans) && id < |w.subs|
    ensures Inv(Ended(w, id, fault), plans) <==> fault.UpdateFails? || fault.DeleteFails? || !LosesGrants(w, plans, id, fault)
  {
    var w', owner := Ended(w, id, fault), w.subs[id].owner;
    if fault.NoEndFault? || fault.UpsertFails? {
      var rows := if fault.NoEndFault? then FREE_ROWS else map[];
      assert RowsOf(w'.ents, owner) == rows;
      forall i | i in w.synced && i < |w.subs| && i != id && Live(w.subs[i]) && w.subs[i].owner == owner && w.subs[i].plan in plans
        ensures Grants(rows, plans[w.subs[i].plan], w.subs[i].expiresAt) <==>
                fault.NoEndFault? && FreeGrants(plans[w.subs[i].plan], w.subs[i].expiresAt)
      {
        FreeRowsGrant(plans[w.subs[i].plan], w.subs[i].expiresAt);
      }
    }
  }

  /**
   * A row in grace that the expiry job has listed and whose pair is activated before its turn is ended all the same:
   * the new subscription stays live and synced, but the pair is left with the free entitlement, and is answered
   * with the plan just bought exactly if that is all the plan grants.
   */
  lemma {:induction false} OvertakenEndWipes(w: World, plans: Plans, id: nat, plan: int, at: Calendar.Stamp, pay: string, ext: string, now: int)
    requires Inv(w, plans) && id < |w.subs| && plan in plans
    ensures var owner := w.subs[id].owner;
            var w' := Ended(Activated(w, plans, owner, plan, at, pay, ext, NoFault).0, id, NoEndFault);
            && GetActive(w'.subs, owner) == Some(|w.subs|) && |w.subs| in w'.synced
            && w'.subs[|w.subs|] == NewSub(owner, plan, plans[plan], at, pay, ext)
            && RowsOf(w'.ents, owner) == FREE_ROWS
            && (AnswersPlan(View(RowsOf(w'.ents, owner), now), plans[plan]) <==> Entries(plans[plan]) == map[PLAN_CODE := FREE])
            && (Inv(w', plans) <==> FreeGrants(plans[plan], ExpiryInstant(at, plans[plan].cycle)))
  {
    var owner := w.subs[id].owner;
    var w1 := Activated(w, plans, owner, plan, at, pay, ext, NoFault).0;
    ActivateKeeps(w, plans, owner, plan, at, pay, ext, NoFault);
    ActivateLeavesNewest(w, plans, owner, plan, at, pay, ext, NoFault);
    FreeRowsGrant(plans[plan], ExpiryInstant(at, plans[plan].cycle));
    OvertakenEndLive(w1, id, |w.subs|);
    EndKeepsIff(w1, plans, id, NoEndFault);
    assert LosesGrants(w1, plans, id, NoEndFault) <==> !FreeGrants(plans[plan], ExpiryInstant(at, plans[plan].cycle)) by {
      forall i | 0 <= i < |w1.subs| && Live(w1.subs[i]) && w1.subs[i].owner == owner
        ensures i == |w.subs|
      {
        LiveIsUnique(w1.subs, owner, i);
      }
    }
  }

  lemma OvertakenEndLive(w: World, id: nat, live: nat)
    requires OneLive(w.subs) && id < |w.subs| && live < |w.subs| && id != live
    requires Live(w.subs[live]) && w.subs[live].owner == w.subs[id].owner
    ensures var w' := Ended(w, id, NoEndFault);
            w'.subs[live] == w.subs[live] && GetActive(w'.subs, w.subs[id].owner) == Some(live)
  {
    var w' := Ended(w, id, NoEndFault);
    assert w'.subs[live] == w.subs[live];
    EndOneLive(w, id, NoEndFault);
    LiveIsUnique(w'.subs, w.subs[id].owner, live);
  }

  lemma EndOneLive(w: World, id: nat, fault: EndFault)
    requires OneLive(w.subs)
    ensures OneLive(Ended(w, id, fault).subs)
  {
  }

  // ----- Batches -----

  /** Every listed id, once, with the status it was listed under. */
  ghost predicate StillListed(subs: seq<Sub>, ids: seq<nat>, status: Status) {
    Ascending(ids) && forall k :: 0 <= k < |ids| ==> ids[k] < |subs| && subs[ids[k]].status == status
  }

  /** The first loop turns exactly the rows it got through into grace, and keeps everything else as listed. */
  lemma {:induction false} ExpireEachEffect(w: World, plans: Plans, ids: seq<nat>, tries: seq<Try>, graceDays: int)
    requires Inv(w, plans) && StillListed(w.subs, ids, Active)
    ensures var w' := ExpireEach(w, ids, tries, graceDays);
            && Inv(w', plans) && w'.ents == w.ents && w'.synced == w.synced && |w'.subs| == |w.subs|
            && (forall i :: 0 <= i < |w.subs| && i !in ids ==> w'.subs[i] == w.subs[i])
            && (forall k :: 0 <= k < |ids| ==>
                  w'.subs[ids[k]] == if k < |tries| && tries[k].ok then GracedSub(w.subs[ids[k]], tries[k].now, graceDays) else w.subs[ids[k]])
    decreases |ids|
  {
    if ids != [] && tries != [] {
      var w1 := if tries[0].ok then Graced(w, ids[0], tries[0].now, graceDays) else w;
      GraceKeeps(w, plans, ids[0], tries[0].now, graceDays);
      assert StillListed(w1.subs, ids[1..], Active);
      ExpireEachEffect(w1, plans, ids[1..], tries[1..], graceDays);
      var w' := ExpireEach(w, ids, tries, graceDays);
      forall k | 0 <= k < |ids|
        ensures w'.subs[ids[k]] == if k < |tries| && tries[k].ok then GracedSub(w.subs[ids[k]], tries[k].now, graceDays) else w.subs[ids[k]]
      {
        if k > 0 {
          assert ids[k] == ids[1..][k - 1] && (k < |tries| ==> tries[k] == tries[1..][k - 1]);
        } else {
          assert ids[0] !in ids[1..];
        }
      }
    }
  }

  /** The second loop expires exactly the rows it got through. */
  lemma {:induction false} EndEachSubs(w: World, plans: Plans, ids: seq<nat>, faults: seq<EndFault>)
    requires Inv(w, plans) && StillListed(w.subs, ids, Grace)
    ensures var w' := EndEach(w, ids, faults);
            && Inv(w', plans) && w'.synced == w.synced && |w'.subs| == |w.subs|
            && (forall i :: 0 <= i < |w.subs| && i !in ids ==> w'.subs[i] == w.subs[i])
            && (forall k :: 0 <= k < |ids| ==>
                  w'.subs[ids[k]] == if k < |faults| && !faults[k].UpdateFails? then w.subs[ids[k]].(status := Expired) else w.subs[ids[k]])
    decreases |ids|
  {
    if ids != [] && faults != [] {
      var w1 := Ended(w, ids[0], faults[0]);
      EndKeeps(w, plans, ids[0], faults[0]);
      assert StillListed(w1.subs, ids[1..], Grace);
      EndEachSubs(w1, plans, ids[1..], faults[1..]);
      var w' := EndEach(w, ids, faults);
      forall k | 0 <= k < |ids|
        ensures w'.subs[ids[k]] == if k < |faults| && !faults[k].UpdateFails? then w.subs[ids[k]].(status := Expired) else w.subs[ids[k]]
      {
        if k > 0 {
          assert ids[k] == ids[1..][k - 1] && (k < |faults| ==> faults[k] == faults[1..][k - 1]);
        } else {
          assert ids[0] !in ids[1..];
        }
      }
    }
  }

  /** Pairs without a listed row keep their entitlements. */
  lemma {:induction false} EndEachOtherRows(w: World, ids: seq<nat>, faults: seq<EndFault>, p: Pair)
    requires forall k :: 0 <= k < |ids| ==> ids[k] < |w.subs| && w.subs[ids[k]].owner != p
    ensures RowsOf(EndEach(w, ids, faults).ents, p) == RowsOf(w.ents, p)
    decreases |ids|
  {
    if ids != [] && faults != [] {
      EndEachOtherRows(Ended(w, ids[0], faults[0]), ids[1..], faults[1..], p);
    }
  }

  /** Listed rows belong to different pairs, since each is the live one of its pair. */
  lemma ListedPairsDiffer(subs: seq<Sub>, ids: seq<nat>, status: Status, j: nat, k: nat)
    requires OneLive(subs) && StillListed(subs, ids, status) && status in {Active, Grace}
    requires j < |ids| && k < |ids| && j != k
    ensures subs[ids[j]].owner != subs[ids[k]].owner
  {
    assert ids[j] != ids[k];
  }

  lemma {:induction false} EndedPairHasNoLive(w: World, plans: Plans, ids: seq<nat>, faults: seq<EndFault>, k: nat)
    requires Inv(w, plans) && StillListed(w.subs, ids, Grace)
    requires k < |ids| && k < |faults| && !faults[k].UpdateFails?
    ensures GetActive(EndEach(w, ids, faults).subs, w.subs[ids[k]].owner) == None
  {
    var w' := EndEach(w, ids, faults);
    EndEachSubs(w, plans, ids, faults);
    forall j | 0 <= j < |w'.subs| && w'.subs[j].owner == w.subs[ids[k]].owner
      ensures !Live(w'.subs[j])
    {
      if j in ids {
        var m: nat :| m < |ids| && ids[m] == j;
        assert w.subs[j].owner == w.subs[ids[k]].owner;
      }
    }
  }

  /**
   * Each pair whose listed row the second loop finished is left with no live subscription and exactly
   * the free entitlement.
   */
  lemma {:induction false} EndedPairIsFree(w: World, plans: Plans, ids: seq<nat>, faults: seq<EndFault>, k: nat)
    requires Inv(w, plans) && StillListed(w.subs, ids, Grace)
    requires k < |ids| && k < |faults| && faults[k].NoEndFault?
    ensures var w' := EndEach(w, ids, faults);
            var owner := w.subs[ids[k]].owner;
            GetActive(w'.subs, owner) == None && RowsOf(w'.ents, owner) == FREE_ROWS
    decreases |ids|
  {
    var owner := w.subs[ids[k]].owner;
    EndedPairHasNoLive(w, plans, ids, faults, k);
    EndKeeps(w, plans, ids[0], faults[0]);
    var w1 := Ended(w, ids[0], faults[0]);
    assert StillListed(w1.subs, ids[1..], Grace);
    if k == 0 {
      forall m | 0 <= m < |ids[1..]|
        ensures w1.subs[ids[1..][m]].owner != owner
      {
        ListedPairsDiffer(w.subs, ids, Grace, 0, m + 1);
      }
      EndEachOtherRows(w1, ids[1..], faults[1..], owner);
    } else {
      EndedPairIsFree(w1, plans, ids[1..], faults[1..], k - 1);
    }
  }

  lemma SelectIsListed(subs: seq<Sub>, q: Query)
    ensures q.ActiveExpired? ==> StillListed(subs, Select(subs, q), Active)
    ensures q.GraceExpired? ==> StillListed(subs, Select(subs, q), Grace)
    ensures q.DueForRenewal? ==> StillListed(subs, Select(subs, q), Active)
  {
    var ids := Select(subs, q);
    assert forall k :: 0 <= k < |ids| ==> ids[k] in ids;
  }

  /** A row that entered grace at time t is picked up for its end exactly once the grace days have passed. */
  lemma GraceLasts(w: World, id: nat, t: int, graceDays: int, now: int)
    requires id < |w.subs|
    ensures var subs' := Graced(w, id, t, graceDays).subs;
            if Taken(w.subs, w.subs[id].owner, id) then subs' == w.subs
            else
              && (id in Select(subs', GraceExpired(now)) <==> now > t + graceDays * Calendar.DAY)
              && id !in Select(subs', ActiveExpired(now)) && id !in Select(subs', DueForRenewal(now))
  {
  }

  lemma TickKeeps(w: World, plans: Plans, now: int, tries: seq<Try>, later: int, faults: seq<EndFault>, graceDays: int)
    requires Inv(w, plans)
    ensures Inv(Ticked(w, now, tries, later, faults, graceDays), plans)
  {
    var ids := Select(w.subs, ActiveExpired(now));
    SelectIsListed(w.subs, ActiveExpired(now));
    ExpireEachEffect(w, plans, ids, tries, graceDays);
    var w1 := ExpireEach(w, ids, tries, graceDays);
    SelectIsListed(w1.subs, GraceExpired(later));
    EndEachSubs(w1, plans, Select(w1.subs, GraceExpired(later)), faults);
  }

  // ----- Runs -----

  datatype Event =
    | Activate(owner: Pair, plan: int, at: Calendar.Stamp, paymentMethod: string, externalId: string, fault: Fault)
    | Cancel(owner: Pair, ok: bool)
    | Tick(now: int, tries: seq<Try>, later: int, faults: seq<EndFault>, graceDays: int)
    | ExpireCall(id: nat, now: int, graceDays: int)   // a turn of the first loop that comes late: the row may have changed since
    | EndCall(id: nat, endFault: EndFault)             // a turn of the second loop that comes late

  function Next(w: World, plans: Plans, e: Event): World {
    match e
    case Activate(owner, plan, now, pay, ext, fault) => Activated(w, plans, owner, plan, now, pay, ext, fault).0
    case Cancel(owner, ok) => CancelledBy(w, owner, ok)
    case Tick(now, tries, later, faults, graceDays) => Ticked(w, now, tries, later, faults, graceDays)
    case ExpireCall(id, now, graceDays) => Graced(w, id, now, graceDays)
    case EndCall(id, fault) => Ended(w, id, fault)
  }

  function Run(w: World, plans: Plans, events: seq<Event>): World {
    if events == [] then w else Next(Run(w, plans, events[..|events| - 1]), plans, events[|events| - 1])
  }

  lemma {:induction false} ExpireEachOneLive(w: World, ids: seq<nat>, tries: seq<Try>, graceDays: int)
    requires OneLive(w.subs)
    ensures OneLive(ExpireEach(w, ids, tries, graceDays).subs)
    decreases |ids|
  {
    if ids != [] && tries != [] {
      if ids[0] < |w.subs| {
        ExpireOneLive(w, ids[0], tries[0].now, graceDays);
      }
      ExpireEachOneLive(if tries[0].ok then Graced(w, ids[0], tries[0].now, graceDays) else w, ids[1..], tries[1..], graceDays);
    }
  }

  lemma {:induction false} EndEachOneLive(w: World, ids: seq<nat>, faults: seq<EndFault>)
    requires OneLive(w.subs)
    ensures OneLive(EndEach(w, ids, faults).subs)
    decreases |ids|
  {
    if ids != [] && faults != [] {
      EndOneLive(w, ids[0], faults[0]);
      EndEachOneLive(Ended(w, ids[0], faults[0]), ids[1..], faults[1..]);
    }
  }

  lemma ActivateOneLive(w: World, plans: Plans, owner: Pair, plan: int, now: Calendar.Stamp, pay: string, ext: string, fault: Fault)
    requires OneLive(w.subs)
    ensures OneLive(Activated(w, plans, owner, plan, now, pay, ext, fault).0.subs)
  {
    RetiredFacts(w.subs, owner);
  }

  lemma NextOneLive(w: World, plans: Plans, e: Event)
    requires OneLive(w.subs)
    ensures OneLive(Next(w, plans, e).subs)
  {
    match e
    case Activate(owner, plan, now, pay, ext, fault) => ActivateOneLive(w, plans, owner, plan, now, pay, ext, fault);
    case Cancel(_, _) =>
    case Tick(now, tries, later, faults, graceDays) =>
      var ids := Select(w.subs, ActiveExpired(now));
      ExpireEachOneLive(w, ids, tries, graceDays);
      var w1 := ExpireEach(w, ids, tries, graceDays);
      EndEachOneLive(w1, Select(w1.subs, GraceExpired(later)), faults);
    case ExpireCall(id, now, graceDays) =>
      if id < |w.subs| { ExpireOneLive(w, id, now, graceDays); }
    case EndCall(id, fault) => EndOneLive(w, id, fault);
  }

  /**
   * Over every run of activations, cancellations, expiry ticks and turns of the expiry job that come late, whatever
   * fails on the way, an account has at most one live subscription per product.
   */
  lemma {:induction false} AtMostOneLive(w: World, plans: Plans, events: seq<Event>)
    requires OneLive(w.subs)
    ensures OneLive(Run(w, plans, events).subs)
    ensures var subs := Run(w, plans, events).subs;
            forall i, j :: 0 <= i < j < |subs| && subs[i].owner == subs[j].owner ==>
              subs[i].status !in {Active, Grace, Trial} || subs[j].status !in {Active, Grace, Trial}
  {
    if events != [] {
      AtMostOneLive(w, plans, events[..|events| - 1]);
      NextOneLive(Run(w, plans, events[..|events| - 1]), plans, events[|events| - 1]);
    }
  }

  /**
   * What a late turn must not meet. The first loop may bring a row back to life that was ended meanwhile, with
   * its grants gone; the second may reset a pair that was activated meanwhile.
   */
  ghost predicate Harmless(w: World, plans: Plans, e: Event) {
    match e
    case ExpireCall(id, _, _) =>
      id >= |w.subs| || Taken(w.subs, w.subs[id].owner, id) || Live(w.subs[id]) || id !in w.synced
      || (w.subs[id].plan in plans && Grants(RowsOf(w.ents, w.subs[id].owner), plans[w.subs[id].plan], w.subs[id].expiresAt))
    case EndCall(id, fault) => id >= |w.subs| || fault.UpdateFails? || fault.DeleteFails? || !LosesGrants(w, plans, id, fault)
    case _ => true
  }

  lemma ExpireKeepsIff(w: World, plans: Plans, id: nat, now: int, graceDays: int)
    requires Inv(w, plans) && id < |w.subs|
    ensures Inv(Graced(w, id, now, graceDays), plans) <==> Harmless(w, plans, ExpireCall(id, now, graceDays))
  {
    ExpireOneLive(w, id, now, graceDays);
    var w' := Graced(w, id, now, graceDays);
    if !Taken(w.subs, w.subs[id].owner, id) {
      forall i | i in w.synced && i != id
        ensures i < |w.subs| && w'.subs[i] == w.subs[i]
      {
      }
      assert Live(w'.subs[id]);
    }
  }

  /** With the grants of live synced rows stored before, they are stored after a step exactly if the step is harmless. */
  lemma NextKeepsIff(w: World, plans: Plans, e: Event)
    requires Inv(w, plans)
    ensures Inv(Next(w, plans, e), plans) <==> Harmless(w, plans, e)
  {
    match e
    case Activate(owner, plan, now, pay, ext, fault) => ActivateKeeps(w, plans, owner, plan, now, pay, ext, fault);
    case Cancel(_, _) =>
    case Tick(now, tries, later, faults, graceDays) => TickKeeps(w, plans, now, tries, later, faults, graceDays);
    case ExpireCall(id, now, graceDays) =>
      if id < |w.subs| { ExpireKeepsIff(w, plans, id, now, graceDays); }
    case EndCall(id, fault) =>
      if id < |w.subs| { EndKeepsIff(w, plans, id, fault); }
  }

  /** Over every run whose late turns are harmless, a live subscription's grants are stored if its sync succeeded. */
  lemma {:induction false} GrantsHeld(w: World, plans: Plans, events: seq<Event>)
    requires Inv(w, plans)
    requires forall i :: 0 <= i < |events| ==> Harmless(Run(w, plans, events[..i]), plans, events[i])
    ensures Inv(Run(w, plans, events), plans)
  {
    if events != [] {
      var init := events[..|events| - 1];
      forall i | 0 <= i < |init|
        ensures Harmless(Run(w, plans, init[..i]), plans, init[i])
      {
        assert init[..i] == events[..i];
      }
      GrantsHeld(w, plans, init);
      NextKeepsIff(Run(w, plans, init), plans, events[|events| - 1]);
    }
  }

  // ----- What a tick does to one row -----

  lemma {:induction false} LoopsLeaveUnlisted(w: World, ids: seq<nat>, tries: seq<Try>, graceDays: int, faults: seq<EndFault>, i: nat)
    requires i < |w.subs| && i !in ids
    ensures var w' := ExpireEach(w, ids, tries, graceDays); i < |w'.subs| && w'.subs[i] == w.subs[i]
    ensures var w' := EndEach(w, ids, faults); i < |w'.subs| && w'.subs[i] == w.subs[i]
    decreases |ids|
  {
    if ids != [] && tries != [] {
      LoopsLeaveUnlisted(if tries[0].ok then Graced(w, ids[0], tries[0].now, graceDays) else w, ids[1..], tries[1..], graceDays, faults, i);
    }
    if ids != [] && faults != [] {
      LoopsLeaveUnlisted(Ended(w, ids[0], faults[0]), ids[1..], tries, graceDays, faults[1..], i);
    }
  }

  /**
   * Whatever a tick meets, it leaves alone an active row that has no expiry or has not expired, a row in grace whose
   * grace has not passed, and every row that is neither.
   */
  lemma TickLeaves(w: World, now: int, tries: seq<Try>, later: int, faults: seq<EndFault>, graceDays: int, i: nat)
    requires i < |w.subs|
    requires match w.subs[i].status
             case Active => w.subs[i].expiresAt.None? || now <= w.subs[i].expiresAt.value
             case Grace => w.subs[i].graceUntil.None? || later <= w.subs[i].graceUntil.value
             case _ => true
    ensures var w' := Ticked(w, now, tries, later, faults, graceDays); i < |w'.subs| && w'.subs[i] == w.subs[i]
  {
    var ids := Select(w.subs, ActiveExpired(now));
    LoopsLeaveUnlisted(w, ids, tries, graceDays, [], i);
    var w1 := ExpireEach(w, ids, tries, graceDays);
    LoopsLeaveUnlisted(w1, Select(w1.subs, GraceExpired(later)), [], graceDays, faults, i);
  }

  lemma {:induction false} SelectShort(subs: seq<Sub>, q: Query)
    ensures |Select(subs, q)| <= |subs|
  {
    if subs != [] {
      SelectShort(subs[..|subs| - 1], q);
    }
  }

  /** An active row past its expiry enters grace for the grace days, if the store answers every try. */
  lemma {:induction false} TickEntersGrace(w: World, plans: Plans, now: int, tries: seq<Try>, graceDays: int, i: nat)
    requires Inv(w, plans) && i < |w.subs|
    requires w.subs[i].status == Active && w.subs[i].expiresAt.Some? && w.subs[i].expiresAt.value < now
    requires |tries| >= |w.subs| && forall k :: 0 <= k < |tries| ==> tries[k].ok
    ensures var w' := Ticked(w, now, tries, now, [], graceDays);
            && i < |w'.subs| && w'.ents == w.ents
            && exists k :: 0 <= k < |tries| &&
                 w'.subs[i] == w.subs[i].(status := Grace, graceUntil := Some(tries[k].now + graceDays * 86_400_000_000_000))
  {
    var ids := Select(w.subs, ActiveExpired(now));
    SelectShort(w.subs, ActiveExpired(now));
    SelectIsListed(w.subs, ActiveExpired(now));
    ExpireEachEffect(w, plans, ids, tries, graceDays);
    assert i in ids;
    var k: nat :| k < |ids| && ids[k] == i;
    assert ExpireEach(w, ids, tries, graceDays).subs[ids[k]] == GracedSub(w.subs[ids[k]], tries[k].now, graceDays);
  }

  /** A row whose grace has passed expires, and its pair is answered as free at any time, if every write is stored. */
  lemma {:induction false} TickEndsGrace(w: World, plans: Plans, later: int, faults: seq<EndFault>, graceDays: int, i: nat, t: int)
    requires Inv(w, plans) && i < |w.subs|
    requires w.subs[i].status == Grace && w.subs[i].graceUntil.Some? && w.subs[i].graceUntil.value < later
    requires |faults| >= |w.subs| && forall k :: 0 <= k < |faults| ==> faults[k].NoEndFault?
    ensures var w', owner := Ticked(w, later, [], later, faults, graceDays), w.subs[i].owner;
            && i < |w'.subs| && w'.subs[i] == w.subs[i].(status := Expired)
            && (forall j :: 0 <= j < |w'.subs| && w'.subs[j].owner == owner ==> w'.subs[j].status !in {Active, Grace, Trial})
            && View(RowsOf(w'.ents, owner), t) == map["plan_code" := "free"]
  {
    var ids := Select(w.subs, GraceExpired(later));
    assert Ticked(w, later, [], later, faults, graceDays) == EndEach(w, ids, faults);
    SelectIsListed(w.subs, GraceExpired(later));
    SelectShort(w.subs, GraceExpired(later));
    assert i in ids;
    var k: nat :| k < |ids| && ids[k] == i;
    ListedEnds(w, plans, ids, faults, k, t);
  }

  lemma ListedEnds(w: World, plans: Plans, ids: seq<nat>, faults: seq<EndFault>, k: nat, t: int)
    requires Inv(w, plans) && StillListed(w.subs, ids, Grace) && k < |ids| && k < |faults| && faults[k].NoEndFault?
    ensures var w', owner := EndEach(w, ids, faults), w.subs[ids[k]].owner;
            && |w'.subs| == |w.subs| && w'.subs[ids[k]] == w.subs[ids[k]].(status := Expired)
            && (forall j :: 0 <= j < |w'.subs| && w'.subs[j].owner == owner ==> !Live(w'.subs[j]))
            && View(RowsOf(w'.ents, owner), t) == map["plan_code" := "free"]
  {
    EndEachSubs(w, plans, ids, faults);
    EndedPairIsFree(w, plans, ids, faults, k);
    assert View(FREE_ROWS, t) == map["plan_code" := "free"];
  }

  /** The event leaves an active row alone: no activation or cancellation of its pair, no late turn on it, no tick after its expiry. */
  predicate LeavesActive(e: Event, s: Sub, i: nat) {
    match e
    case Activate(owner, _, _, _, _, _) => owner != s.owner
    case Cancel(owner, _) => owner != s.owner
    case Tick(now, _, _, _, _) => s.expiresAt.None? || now <= s.expiresAt.value
    case ExpireCall(id, _, _) => id != i
    case EndCall(id, _) => id != i
  }

  /** So an active row stays as it is through any run until its expiry, whatever happens to other pairs. */
  lemma {:induction false} StaysActive(w: World, plans: Plans, events: seq<Event>, i: nat)
    requires i < |w.subs| && w.subs[i].status == Active
    requires forall k :: 0 <= k < |events| ==> LeavesActive(events[k], w.subs[i], i)
    ensures i < |Run(w, plans, events).subs| && Run(w, plans, events).subs[i] == w.subs[i]
  {
    if events != [] {
      var w1, e := Run(w, plans, events[..|events| - 1]), events[|events| - 1];
      StaysActive(w, plans, events[..|events| - 1], i);
      match e
      case Tick(now, tries, later, faults, graceDays) => TickLeaves(w1, now, tries, later, faults, graceDays, i);
      case _ =>
    }
  }

  /** In particular a new subscription is active from its activation until the end of its cycle. */
  lemma {:induction false} ActivatedStaysActive(w: World, plans: Plans, owner: Pair, plan: int, at: Calendar.Stamp, pay: string, ext: string,
                                                fault: Fault, events: seq<Event>)
    requires OneLive(w.subs) && Activated(w, plans, owner, plan, at, pay, ext, fault).1.Ok?
    requires var s := Activated(w, plans, owner, plan, at, pay, ext, fault).0.subs[|w.subs|];
             forall k :: 0 <= k < |events| ==> LeavesActive(events[k], s, |w.subs|)
    ensures var subs := Run(Activated(w, plans, owner, plan, at, pay, ext, fault).0, plans, events).subs;
            && |w.subs| < |subs| && subs[|w.subs|].owner == owner && subs[|w.subs|].status == Active
            && subs[|w.subs|].expiresAt == ExpiryInstant(at, plans[plan].cycle)
  {
    ActivateIff(w, plans, owner, plan, at, pay, ext, fault);
    StaysActive(Activated(w, plans, owner, plan, at, pay, ext, fault).0, plans, events, |w.subs|);
  }

  // ----- What a live subscription is answered -----

  lemma {:induction false} ExpireEachLiveRow(w: World, ids: seq<nat>, tries: seq<Try>, graceDays: int, i: nat)
    requires OneLive(w.subs) && StillListed(w.subs, ids, Active) && i < |w.subs|
    ensures var w' := ExpireEach(w, ids, tries, graceDays);
            && OneLive(w'.subs) && |w'.subs| == |w.subs| && w'.ents == w.ents && w'.synced == w.synced
            && SameTerms(w.subs[i], w'.subs[i]) && (Live(w'.subs[i]) <==> Live(w.subs[i]))
    decreases |ids|
  {
    if ids != [] && tries != [] {
      var w1 := if tries[0].ok then Graced(w, ids[0], tries[0].now, graceDays) else w;
      ExpireOneLive(w, ids[0], tries[0].now, graceDays);
      assert StillListed(w1.subs, ids[1..], Active);
      ExpireEachLiveRow(w1, ids[1..], tries[1..], graceDays, i);
    }
  }

  lemma {:induction false} EndEachLiveRow(w: World, ids: seq<nat>, faults: seq<EndFault>, i: nat)
    requires OneLive(w.subs) && StillListed(w.subs, ids, Grace) && i < |w.subs|
    ensures var w' := EndEach(w, ids, faults);
            && |w'.subs| == |w.subs| && w'.synced == w.synced && SameTerms(w.subs[i], w'.subs[i])
            && (Live(w'.subs[i]) ==> Live(w.subs[i]) && RowsOf(w'.ents, w.subs[i].owner) == RowsOf(w.ents, w.subs[i].owner))
    decreases |ids|
  {
    if ids != [] && faults != [] {
      var w1 := Ended(w, ids[0], faults[0]);
      EndOneLive(w, ids[0], faults[0]);
      assert StillListed(w1.subs, ids[1..], Grace);
      EndEachLiveRow(w1, ids[1..], faults[1..], i);
      assert Live(w.subs[ids[0]]);
    }
  }

  predicate SameTerms(s: Sub, s': Sub) {
    s'.owner == s.owner && s'.plan == s.plan && s'.expiresAt == s.expiresAt
  }

  /** The event is not a late turn on a row of the pair. */
  predicate Spares(w: World, e: Event, p: Pair) {
    (e.ExpireCall? || e.EndCall?) && e.id < |w.subs| ==> w.subs[e.id].owner != p
  }

  lemma TickStaysLive(w: World, now: int, tries: seq<Try>, later: int, faults: seq<EndFault>, graceDays: int, i: nat)
    requires OneLive(w.subs) && i < |w.subs|
    ensures var w' := Ticked(w, now, tries, later, faults, graceDays);
            && |w'.subs| == |w.subs| && w'.synced == w.synced && SameTerms(w.subs[i], w'.subs[i])
            && (Live(w'.subs[i]) ==> Live(w.subs[i]) && RowsOf(w'.ents, w.subs[i].owner) == RowsOf(w.ents, w.subs[i].owner))
  {
    var ids := Select(w.subs, ActiveExpired(now));
    SelectIsListed(w.subs, ActiveExpired(now));
    ExpireEachLiveRow(w, ids, tries, graceDays, i);
    var w1 := ExpireEach(w, ids, tries, graceDays);
    SelectIsListed(w1.subs, GraceExpired(later));
    EndEachLiveRow(w1, Select(w1.subs, GraceExpired(later)), faults, i);
  }

  lemma ActivateStaysLive(w: World, plans: Plans, owner: Pair, plan: int, now: Calendar.Stamp, pay: string, ext: string, fault: Fault, i: nat)
    requires OneLive(w.subs) && i < |w.subs|
    ensures var w' := Activated(w, plans, owner, plan, now, pay, ext, fault).0;
            && |w'.subs| >= |w.subs| && SameTerms(w.subs[i], w'.subs[i]) && (i in w'.synced <==> i in w.synced)
            && (Live(w'.subs[i]) ==> Live(w.subs[i]) && RowsOf(w'.ents, w.subs[i].owner) == RowsOf(w.ents, w.subs[i].owner))
  {
    RetiredFacts(w.subs, owner);
  }

  /** Terms never change, and while a row stays live nothing touches its pair's entitlements. */
  lemma StaysLive(w: World, plans: Plans, e: Event, i: nat)
    requires OneLive(w.subs) && i < |w.subs| && Spares(w, e, w.subs[i].owner)
    ensures var w' := Next(w, plans, e);
            && i < |w'.subs| && SameTerms(w.subs[i], w'.subs[i]) && (i in w'.synced <==> i in w.synced)
            && (Live(w'.subs[i]) ==> Live(w.subs[i]) && RowsOf(w'.ents, w.subs[i].owner) == RowsOf(w.ents, w.subs[i].owner))
  {
    match e
    case Activate(owner, plan, now, pay, ext, fault) => ActivateStaysLive(w, plans, owner, plan, now, pay, ext, fault, i);
    case Cancel(_, _) =>
    case Tick(now, tries, later, faults, graceDays) => TickStaysLive(w, now, tries, later, faults, graceDays, i);
    case ExpireCall(_, _, _) =>
    case EndCall(_, _) =>
  }

  const EMPTY_WORLD := World([], map[], {})

  /** No turn of the expiry job comes late on a row of the pair. */
  predicate OnTime(plans: Plans, events: seq<Event>, p: Pair) {
    forall k :: 0 <= k < |events| ==> Spares(Run(EMPTY_WORLD, plans, events[..k]), events[k], p)
  }

  /** The activation that event j of a run performs created row i. */
  predicate Created(plans: Plans, events: seq<Event>, j: nat, i: nat) {
    j < |events| && events[j].Activate? &&
    var e := events[j];
    Activated(Run(EMPTY_WORLD, plans, events[..j]), plans, e.owner, e.plan, e.at, e.paymentMethod, e.externalId, e.fault).1 == Ok(i)
  }

  lemma TermsKept(w: World, plans: Plans, e: Event, i: nat)
    requires OneLive(w.subs) && i < |w.subs|
    ensures i < |Next(w, plans, e).subs| && SameTerms(w.subs[i], Next(w, plans, e).subs[i])
  {
    match e
    case Activate(owner, _, _, _, _, _) => RetiredFacts(w.subs, owner);
    case Tick(_, _, _, _, _) => StaysLive(w, plans, e, i);
    case _ =>
  }

  lemma {:induction false} LoopsAddNothing(w: World, ids: seq<nat>, tries: seq<Try>, graceDays: int, faults: seq<EndFault>)
    ensures var w' := ExpireEach(w, ids, tries, graceDays); |w'.subs| == |w.subs| && w'.synced == w.synced
    ensures var w' := EndEach(w, ids, faults); |w'.subs| == |w.subs| && w'.synced == w.synced
    decreases |ids|
  {
    if ids != [] && tries != [] {
      LoopsAddNothing(if tries[0].ok then Graced(w, ids[0], tries[0].now, graceDays) else w, ids[1..], tries[1..], graceDays, faults);
    }
    if ids != [] && faults != [] {
      LoopsAddNothing(Ended(w, ids[0], faults[0]), ids[1..], tries, graceDays, faults[1..]);
    }
  }

  lemma TickAddsNothing(w: World, now: int, tries: seq<Try>, later: int, faults: seq<EndFault>, graceDays: int)
    ensures var w' := Ticked(w, now, tries, later, faults, graceDays); |w'.subs| == |w.subs| && w'.synced == w.synced
  {
    var w1 := ExpireEach(w, Select(w.subs, ActiveExpired(now)), tries, graceDays);
    LoopsAddNothing(w, Select(w.subs, ActiveExpired(now)), tries, graceDays, []);
    LoopsAddNothing(w1, Select(w1.subs, GraceExpired(later)), [], graceDays, faults);
  }

  /** Only rows of the table are synced. */
  lemma {:induction false} SyncedAreRows(plans: Plans, events: seq<Event>)
    ensures forall i :: i in Run(EMPTY_WORLD, plans, events).synced ==> i < |Run(EMPTY_WORLD, plans, events).subs|
  {
    if events != [] {
      var w, e := Run(EMPTY_WORLD, plans, events[..|events| - 1]), events[|events| - 1];
      SyncedAreRows(plans, events[..|events| - 1]);
      if e.Tick? {
        TickAddsNothing(w, e.now, e.tries, e.later, e.faults, e.graceDays);
      }
    }
  }

  lemma NewRowCreated(w: World, plans: Plans, e: Event, i: nat)
    requires OneLive(w.subs) && |w.subs| <= i < |Next(w, plans, e).subs|
    ensures e.Activate? && e.plan in plans
    ensures var (w', r) := Activated(w, plans, e.owner, e.plan, e.at, e.paymentMethod, e.externalId, e.fault);
            && r == Ok(i) && w'.subs[i] == NewSub(e.owner, e.plan, plans[e.plan], e.at, e.paymentMethod, e.externalId)
            && (i in w'.synced && i !in w.synced ==> !e.fault.SyncFails?)
  {
    match e
    case Activate(owner, _, _, _, _, _) => RetiredFacts(w.subs, owner);
    case Tick(now, tries, later, faults, graceDays) => TickAddsNothing(w, now, tries, later, faults, graceDays);
    case _ =>
  }

  /** A row comes from an activation; while it is live and synced its pair's entitlements are as that activation left them. */
  lemma {:induction false} LiveOrigin(plans: Plans, events: seq<Event>, i: nat) returns (j: nat)
    requires i < |Run(EMPTY_WORLD, plans, events).subs|
    requires OnTime(plans, events, Run(EMPTY_WORLD, plans, events).subs[i].owner)
    ensures Created(plans, events, j, i)
    ensures var w, before, e := Run(EMPTY_WORLD, plans, events), Run(EMPTY_WORLD, plans, events[..j]), events[j];
            && e.plan in plans && w.subs[i].owner == e.owner && w.subs[i].plan == e.plan
            && w.subs[i].expiresAt == ExpiryInstant(e.at, plans[e.plan].cycle)
            && (Live(w.subs[i]) && i in w.synced ==>
                  RowsOf(w.ents, e.owner) == RowsOf(SyncedRows(before.ents, e.owner, plans[e.plan], w.subs[i].expiresAt, Entries(plans[e.plan]).Keys), e.owner))
  {
    var init, last := events[..|events| - 1], events[|events| - 1];
    var w := Run(EMPTY_WORLD, plans, init);
    AtMostOneLive(EMPTY_WORLD, plans, init);
    if i < |w.subs| {
      assert Spares(w, last, Run(EMPTY_WORLD, plans, events).subs[i].owner);
      TermsKept(w, plans, last, i);
      forall k | 0 <= k < |init|
        ensures Spares(Run(EMPTY_WORLD, plans, init[..k]), init[k], w.subs[i].owner)
      {
        assert init[..k] == events[..k];
      }
      j := LiveOrigin(plans, init, i);
      assert init[..j] == events[..j];
      StaysLive(w, plans, last, i);
    } else {
      j := |events| - 1;
      SyncedAreRows(plans, init);
      NewRowCreated(w, plans, last, i);
    }
  }

  /**
   * From an empty table, if no turn of the expiry job comes late on its pair: a live subscription whose sync succeeded
   * is answered with everything its plan grants exactly until it expires, or if that is no more than anyone is
   * answered; in grace it no longer is. One that never expires is answered exactly while the rows that its activation
   * met, which keep their expiry, are current.
   */
  lemma {:induction false} LiveAnswerIff(plans: Plans, events: seq<Event>, i: nat, now: int) returns (j: nat)
    requires var w := Run(EMPTY_WORLD, plans, events); i in w.synced && i < |w.subs| && Live(w.subs[i])
    requires OnTime(plans, events, Run(EMPTY_WORLD, plans, events).subs[i].owner)
    ensures Created(plans, events, j, i)
    ensures var w := Run(EMPTY_WORLD, plans, events);
            var s, before := w.subs[i], RowsOf(Run(EMPTY_WORLD, plans, events[..j]).ents, w.subs[i].owner);
            && s.plan in plans
            && (AnswersPlan(View(RowsOf(w.ents, s.owner), now), plans[s.plan]) <==>
                forall k :: k in Entries(plans[s.plan]) ==> SaidAfterSync(before, plans[s.plan], s.expiresAt, k, now))
            && (s.expiresAt.Some? && NoEmptyText(plans[s.plan]) ==>
                  (AnswersPlan(View(RowsOf(w.ents, s.owner), now), plans[s.plan]) <==>
                   now < s.expiresAt.value || Entries(plans[s.plan]) == map[PLAN_CODE := FREE]))
  {
    j := LiveOrigin(plans, events, i);
    var w := Run(EMPTY_WORLD, plans, events);
    var s := w.subs[i];
    AnswerAfterSync(Run(EMPTY_WORLD, plans, events[..j]).ents, s.owner, plans[s.plan], s.expiresAt, now);
    if s.expiresAt.Some? && NoEmptyText(plans[s.plan]) {
      AnswerOfPlan(RowsOf(w.ents, s.owner), plans[s.plan], s.expiresAt, now);
    }
  }

  /**
   * Moving on to a plan that never expires keeps the expiry of the rows the earlier plan granted as well: from then
   * on the live, synced, unexpiring subscription is answered as free.
   */
  lemma {:induction false} ForeverPlanExpires(plans: Plans, owner: Pair, first: int, second: int, at: Calendar.Stamp, later: Calendar.Stamp, now: int)
    requires first in plans && second in plans && PLAN_CODE !in plans[second].features && plans[second].code != FREE
    requires ExpiryInstant(later, plans[second].cycle).None?
    requires ExpiryInstant(at, plans[first].cycle).Some? && now >= ExpiryInstant(at, plans[first].cycle).value
    ensures var w := Run(EMPTY_WORLD, plans, TwoPlans(owner, first, second, at, later));
            && |w.subs| == 2 && GetActive(w.subs, owner) == Some(1) && 1 in w.synced && w.subs[1].expiresAt == None
            && View(RowsOf(w.ents, owner), now)[PLAN_CODE] == FREE && !AnswersPlan(View(RowsOf(w.ents, owner), now), plans[second])
  {
    var events := TwoPlans(owner, first, second, at, later);
    var w0 := EMPTY_WORLD;
    var w1 := Next(w0, plans, events[0]);
    assert Run(w0, plans, events[..1]) == w1 by { assert events[..1][..0] == []; }
    ActivateKeeps(w0, plans, owner, first, at, "", "", NoFault);
    ActivateLeavesNewest(w0, plans, owner, first, at, "", "", NoFault);
    ActivateLeavesNewest(w1, plans, owner, second, later, "", "", NoFault);
    PlanCodeKeepsExpiry(map[], owner, plans[first], ExpiryInstant(at, plans[first].cycle).value, plans[second], now);
  }

  /** A pair is activated for one plan, and then for another. */
  function TwoPlans(owner: Pair, first: int, second: int, at: Calendar.Stamp, later: Calendar.Stamp): seq<Event> {
    [Activate(owner, first, at, "", "", NoFault), Activate(owner, second, later, "", "", NoFault)]
  }

  // ----- A late turn of the expiry job -----

  /** A pair is activated, and the expiry job finds it expired. */
  function GraceEvents(owner: Pair, plan: int, at: Calendar.Stamp, t: int, graceDays: int): seq<Event> {
    [Activate(owner, plan, at, "", "", NoFault), Tick(t, [Try(true, t)], t, [], graceDays)]
  }

  lemma InGrace(plans: Plans, owner: Pair, plan: int, at: Calendar.Stamp, t: int, graceDays: int)
    requires plan in plans && ExpiryInstant(at, plans[plan].cycle).Some? && t > ExpiryInstant(at, plans[plan].cycle).value
    ensures Run(EMPTY_WORLD, plans, GraceEvents(owner, plan, at, t, graceDays)).subs
         == [GracedSub(NewSub(owner, plan, plans[plan], at, "", ""), t, graceDays)]
  {
    var events := GraceEvents(owner, plan, at, t, graceDays);
    var w1 := Next(EMPTY_WORLD, plans, events[0]);
    assert Run(EMPTY_WORLD, plans, events[..1]) == w1 by { assert events[..1][..0] == []; }
    var s := NewSub(owner, plan, plans[plan], at, "", "");
    assert w1.subs == [s];
    assert Select([s][..0], ActiveExpired(t)) == [];
    assert Select(w1.subs, ActiveExpired(t)) == [0];
    assert [0][1..] == [];
  }

  /**
   * Such a run exists: the grace period of a subscription has passed and the job has listed it; its owner buys the plan
   * again before the job gets to it; then the job ends the listed row, and the new one is left with nothing.
   */
  lemma {:induction false} LateEndLosesPlan(plans: Plans, owner: Pair, plan: int, at: Calendar.Stamp, t: int, graceDays: int, listedAt: int,
                                            again: Calendar.Stamp, now: int)
    requires plan in plans && ExpiryInstant(at, plans[plan].cycle).Some? && t > ExpiryInstant(at, plans[plan].cycle).value
    requires listedAt > t + graceDays * Calendar.DAY
    ensures var events := GraceEvents(owner, plan, at, t, graceDays);
            var w := Run(EMPTY_WORLD, plans, events);
            var w' := Run(EMPTY_WORLD, plans, events + [Activate(owner, plan, again, "", "", NoFault), EndCall(0, NoEndFault)]);
            && 0 in Select(w.subs, GraceExpired(listedAt))
            && GetActive(w'.subs, owner) == Some(1) && 1 in w'.synced && RowsOf(w'.ents, owner) == FREE_ROWS
            && (AnswersPlan(View(RowsOf(w'.ents, owner), now), plans[plan]) <==> Entries(plans[plan]) == map[PLAN_CODE := FREE])
  {
    InGrace(plans, owner, plan, at, t, graceDays);
    InGraceHeld(plans, owner, plan, at, t, graceDays);
    LateEndFrom(plans, GraceEvents(owner, plan, at, t, graceDays), owner, plan, again, now);
  }

  lemma InGraceHeld(plans: Plans, owner: Pair, plan: int, at: Calendar.Stamp, t: int, graceDays: int)
    ensures Inv(Run(EMPTY_WORLD, plans, GraceEvents(owner, plan, at, t, graceDays)), plans)
  {
    GrantsHeld(EMPTY_WORLD, plans, GraceEvents(owner, plan, at, t, graceDays));
  }

  lemma LateEndFrom(plans: Plans, events: seq<Event>, owner: Pair, plan: int, again: Calendar.Stamp, now: int)
    requires var w := Run(EMPTY_WORLD, plans, events); Inv(w, plans) && |w.subs| == 1 && w.subs[0].owner == owner
    requires plan in plans
    ensures var w' := Run(EMPTY_WORLD, plans, events + [Activate(owner, plan, again, "", "", NoFault), EndCall(0, NoEndFault)]);
            && GetActive(w'.subs, owner) == Some(1) && 1 in w'.synced && RowsOf(w'.ents, owner) == FREE_ROWS
            && (AnswersPlan(View(RowsOf(w'.ents, owner), now), plans[plan]) <==> Entries(plans[plan]) == map[PLAN_CODE := FREE])
  {
    RunTwo(plans, events, Activate(owner, plan, again, "", "", NoFault), EndCall(0, NoEndFault));
    LateEndNext(Run(EMPTY_WORLD, plans, events), plans, plan, again, now);
  }

  lemma LateEndNext(w: World, plans: Plans, plan: int, again: Calendar.Stamp, now: int)
    requires Inv(w, plans) && |w.subs| == 1 && plan in plans
    ensures var owner := w.subs[0].owner;
            var w' := Next(Next(w, plans, Activate(owner, plan, again, "", "", NoFault)), plans, EndCall(0, NoEndFault));
            && GetActive(w'.subs, owner) == Some(1) && 1 in w'.synced && RowsOf(w'.ents, owner) == FREE_ROWS
            && (AnswersPlan(View(RowsOf(w'.ents, owner), now), plans[plan]) <==> Entries(plans[plan]) == map[PLAN_CODE := FREE])
  {
    var owner := w.subs[0].owner;
    assert Next(Next(w, plans, Activate(owner, plan, again, "", "", NoFault)), plans, EndCall(0, NoEndFault))
        == Ended(Activated(w, plans, owner, plan, again, "", "", NoFault).0, 0, NoEndFault);
    OvertakenEndWipes(w, plans, 0, plan, again, "", "", now);
  }

  lemma RunTwo(plans: Plans, events: seq<Event>, e1: Event, e2: Event)
    ensures Run(EMPTY_WORLD, plans, events + [e1, e2]) == Next(Next(Run(EMPTY_WORLD, plans, events), plans, e1), plans, e2)
  {
    assert events + [e1, e2] == (events + [e1]) + [e2];
    RunSnoc(plans, events, e1);
    RunSnoc(plans, events + [e1], e2);
  }

  lemma RunSnoc(plans: Plans, events: seq<Event>, e: Event)
    ensures Run(EMPTY_WORLD, plans, events + [e]) == Next(Run(EMPTY_WORLD, plans, events), plans, e)
  {
    assert (events + [e])[..|events|] == events;
  }

  // ----- The service and the expiry job -----

  /** Which store calls of an activation succeed. */
  datatype StoreAnswers = StoreAnswers(plan: bool, read: bool, expire: bool, create: bool, sync: EntitlementCache.SyncAnswers)

  class SubscriptionService {
    const plans: Plans
    const ents: EntitlementCache.EntitlementService
    const graceDays: int
    var subs: seq<Sub>
    ghost var synced: set<nat>

    ghost function View(): World
      reads this, ents
    {
      World(subs, ents.rows, synced)
    }

    constructor (plans: Plans, ents: EntitlementCache.EntitlementService, gracePeriodDays: int)
      requires ents.rows == map[]
      ensures this.plans == plans && this.ents == ents && View() == EMPTY_WORLD
      ensures graceDays == if gracePeriodDays <= 0 then 3 else gracePeriodDays
    {
      this.plans, this.ents := plans, ents;
      graceDays := if gracePeriodDays <= 0 then 3 else gracePeriodDays;
      subs, synced := [], {};
    }

    /** fault is NoFault if everything answers. */
    method Activate(owner: Pair, plan: int, now: Calendar.Stamp, paymentMethod: string, externalId: string, ok: StoreAnswers)
      returns (r: Result<nat>, ghost fault: Fault)
      requires Calendar.Valid(now.date)
      modifies this, ents
      ensures (View(), r) == Activated(old(View()), plans, owner, plan, now, paymentMethod, externalId, fault)
      ensures ok.plan && ok.read && ok.expire && ok.create && ok.sync.planOk && (forall k :: ok.sync.upsertOk(k)) ==> fault == NoFault
      ensures fault.SyncFails? ==> plan in plans && fault.written < Entries(plans[plan]).Keys
    {
      fault := NoFault;
      if !ok.plan {
        return Err(NotFound), PlanFails;
      }
      if plan !in plans {
        return Err(NotFound), fault;
      }
      var p := plans[plan];
      if !ok.read {
        return Err(Unavailable), ReadFails;
      }
      var existing := GetActive(subs, owner);
      if existing.Some? {
        if !ok.expire {
          return Err(Unavailable), ExpireFails;
        }
        subs := subs[existing.value := subs[existing.value].(status := Expired)];
      }
      var expiry := Calendar.CalculateExpiry(now, p.cycle);
      var expiresAt := if expiry.None? then None else Some(Calendar.Instant(expiry.value));
      if !ok.create {
        return Err(Unavailable), CreateFails;
      }
      var id := |subs|;
      subs := subs + [Sub(owner, plan, Active, expiresAt, None, false, 0, None, paymentMethod, externalId)];
      var synced', written := ents.SyncFromSubscription(owner, p, expiresAt, ok.sync);
      if synced' {
        synced := synced + {id};
      } else {
        fault := SyncFails(written);
      }
      r := Ok(id);
    }

    method Expire(id: nat, now: int, ok: bool) returns (r: Result<()>)
      modifies this
      ensures View() == if ok then Graced(old(View()), id, now, graceDays) else old(View())
      ensures r.Ok? <==> ok && id < |subs| && !Taken(old(subs), old(subs)[id].owner, id)
    {
      if id >= |subs| {
        return Err(NotFound);
      }
      if !ok {
        return Err(Unavailable);
      }
      if Taken(subs, subs[id].owner, id) {
        return Err(Duplicate);
      }
      subs := subs[id := subs[id].(status := Grace, graceUntil := Some(now + graceDays * Calendar.DAY))];
      r := Ok(());
    }

    method EndGrace(id: nat, fault: EndFault, cacheUp: bool) returns (r: Result<()>)
      modifies this, ents
      ensures View() == Ended(old(View()), id, fault)
      ensures r.Ok? <==> fault.NoEndFault? && id < |subs|
    {
      if id >= |subs| {
        return Err(NotFound);
      }
      if fault.UpdateFails? {
        return Err(Unavailable);
      }
      subs := subs[id := subs[id].(status := Expired)];
      var ok := ents.ResetToFree(subs[id].owner, match fault
                                                 case DeleteFails => EntitlementCache.DeleteFails
                                                 case UpsertFails => EntitlementCache.UpsertFails
                                                 case _ => EntitlementCache.NoFault, cacheUp);
      r := if ok then Ok(()) else Err(Unavailable);
    }

    method Cancel(owner: Pair, ok: bool) returns (r: Result<()>)
      modifies this
      ensures View() == CancelledBy(old(View()), owner, ok)
      ensures r.Ok? <==> ok && GetActive(old(subs), owner).Some?
    {
      var sub := GetActive(subs, owner);
      if sub.None? {
        return Err(NotFound);
      }
      if !ok {
        return Err(Unavailable);
      }
      subs := subs[sub.value := subs[sub.value].(status := Cancelled, autoRenew := false)];
      r := Ok(());
    }
  }

  ghost function TryFailed(): Try -> int {
    (t: Try) => if t.ok then 0 else 1
  }

  /** How many calls of the first loop fail: the store does not answer, or the index refuses. */
  ghost function ExpireFailures(w: World, ids: seq<nat>, tries: seq<Try>, graceDays: int): nat
    decreases |ids|
  {
    if ids == [] || tries == [] then 0
    else
      var w1 := if tries[0].ok then Graced(w, ids[0], tries[0].now, graceDays) else w;
      var refused := ids[0] >= |w.subs| || Taken(w.subs, w.subs[ids[0]].owner, ids[0]);
      (if tries[0].ok && !refused then 0 else 1) + ExpireFailures(w1, ids[1..], tries[1..], graceDays)
  }

  /** Of the rows it lists the index refuses none. */
  lemma {:induction false} ListedNotRefused(w: World, ids: seq<nat>, tries: seq<Try>, graceDays: int)
    requires OneLive(w.subs) && StillListed(w.subs, ids, Active) && |tries| == |ids|
    ensures ExpireFailures(w, ids, tries, graceDays) == Sum(tries, TryFailed())
    decreases |ids|
  {
    if ids != [] {
      var w1 := if tries[0].ok then Graced(w, ids[0], tries[0].now, graceDays) else w;
      LiveIsUnique(w.subs, w.subs[ids[0]].owner, ids[0]);
      ExpireOneLive(w, ids[0], tries[0].now, graceDays);
      ListedNotRefused(w1, ids[1..], tries[1..], graceDays);
      SumConcat([tries[0]], tries[1..], TryFailed());
      assert [tries[0]] + tries[1..] == tries && [tries[0]][..0] == [];
    }
  }

  ghost function EndFailed(): EndFault -> int {
    (f: EndFault) => if f.NoEndFault? then 0 else 1
  }

  /** Which of a tick's two queries and its sweep succeed. */
  datatype TickAnswers = TickAnswers(active: bool, grace: bool, sweep: bool)

  class ExpiryJob {
    const service: SubscriptionService

    constructor (service: SubscriptionService)
      ensures this.service == service
    {
      this.service := service;
    }

    /** Phase 1; tryOf says, row by row, how the store and the clock answer. */
    method EnterGrace(now: int, tryOf: nat -> Try) returns (scanned: nat, processed: nat, failed: nat)
      modifies service
      ensures var w := old(service.View());
              var listed := Select(w.subs, ActiveExpired(now));
              var tries := seq(|listed|, k requires 0 <= k < |listed| => tryOf(listed[k]));
              && service.View() == ExpireEach(w, listed, tries, service.graceDays)
              && scanned == |listed| == processed + failed && failed == ExpireFailures(w, listed, tries, service.graceDays)
    {
      var listed := Select(service.subs, ActiveExpired(now));
      scanned, processed, failed := |listed|, 0, 0;
      ghost var w := service.View();
      ghost var tries := seq(|listed|, k requires 0 <= k < |listed| => tryOf(listed[k]));
      for i := 0 to |listed|
        invariant processed + failed == i
        invariant ExpireEach(service.View(), listed[i..], tries[i..], service.graceDays) == ExpireEach(w, listed, tries, service.graceDays)
        invariant failed + ExpireFailures(service.View(), listed[i..], tries[i..], service.graceDays)
               == ExpireFailures(w, listed, tries, service.graceDays)
        invariant |service.subs| == |w.subs|
      {
        var t := tryOf(listed[i]);
        assert listed[i] in listed;
        assert listed[i..][1..] == listed[i + 1..] && tries[i..][1..] == tries[i + 1..];
        var r := service.Expire(listed[i], t.now, t.ok);
        if r.Err? {
          failed := failed + 1;
        } else {
          processed := processed + 1;
        }
      }
    }

    /** Phase 2; faultOf says, row by row, which store write fails. */
    method EndGracePeriods(now: int, faultOf: nat -> EndFault, cacheUp: bool) returns (scanned: nat, processed: nat, failed: nat)
      modifies service, service.ents
      ensures var w := old(service.View());
              var listed := Select(w.subs, GraceExpired(now));
              var faults := seq(|listed|, k requires 0 <= k < |listed| => faultOf(listed[k]));
              && service.View() == EndEach(w, listed, faults)
              && scanned == |listed| == processed + failed && failed == Sum(faults, EndFailed())
    {
      var listed := Select(service.subs, GraceExpired(now));
      scanned, processed, failed := |listed|, 0, 0;
      ghost var faults := seq(|listed|, k requires 0 <= k < |listed| => faultOf(listed[k]));
      for i := 0 to |listed|
        invariant processed + failed == i && failed == Sum(faults[..i], EndFailed())
        invariant EndEach(service.View(), listed[i..], faults[i..]) == EndEach(old(service.View()), listed, faults)
        invariant |service.subs| == |old(service.subs)|
      {
        assert listed[i] in listed;
        assert listed[i..][1..] == listed[i + 1..] && faults[i..][1..] == faults[i + 1..];
        assert faults[..i + 1] == faults[..i] + [faults[i]];
        SumAppend(faults[..i], faults[i], EndFailed());
        var r := service.EndGrace(listed[i], faultOf(listed[i]), cacheUp);
        if r.Err? {
          failed := failed + 1;
        } else {
          processed := processed + 1;
        }
      }
      assert faults[..|listed|] == faults;
    }

    /**
     * A tick of the expiry job is a Tick event of the lifecycle, followed by the sweep of stale orders if there is
     * a wallet service. A query that fails ends the tick: ok tells which of the two queries and the sweep succeed.
     */
    method RunExpiry(now: int, tryOf: nat -> Try, later: int, faultOf: nat -> EndFault, cacheUp: bool,
                     wallets: Option<Topup.WalletService>, ok: TickAnswers)
      returns (scanned: nat, processed: nat, failed: nat, ghost tick: Event, ghost swept: nat)
      modifies service, service.ents, if wallets.Some? then {wallets.value} else {}
      ensures tick.Tick? && tick.now == now && tick.later == later && tick.graceDays == service.graceDays
      ensures service.View() == Next(old(service.View()), service.plans, tick)
      ensures !ok.active ==> scanned == 0 && service.View() == old(service.View())
      ensures !(ok.active && ok.grace) ==> tick.faults == []
      ensures scanned + swept == processed + failed
      ensures OneLive(old(service.subs)) ==> failed == Sum(tick.tries, TryFailed()) + Sum(tick.faults, EndFailed())
      ensures wallets.Some? ==>
                wallets.value.View() == if ok.active && ok.grace && ok.sweep
                                        then Topup.Next(old(wallets.value.View()), Topup.Sweep(later)) else old(wallets.value.View())
      ensures swept == if wallets.None? then 0
                       else |set no | no in wallets.value.orders && wallets.value.orders[no] != old(wallets.value.orders)[no]|
    {
      swept := 0;
      tick := Tick(now, [], later, [], service.graceDays);
      if !ok.active {
        return 0, 0, 0, tick, swept;
      }
      ghost var listed := Select(service.subs, ActiveExpired(now));
      ghost var tries := seq(|listed|, k requires 0 <= k < |listed| => tryOf(listed[k]));
      ghost var w := service.View();
      scanned, processed, failed := EnterGrace(now, tryOf);
      tick := tick.(tries := tries);
      if OneLive(w.subs) {
        SelectIsListed(w.subs, ActiveExpired(now));
        ListedNotRefused(w, listed, tries, service.graceDays);
      }
      if !ok.grace {
        return scanned, processed, failed, tick, swept;
      }
      ghost var graced := Select(service.subs, GraceExpired(later));
      ghost var faults := seq(|graced|, k requires 0 <= k < |graced| => faultOf(graced[k]));
      var s, p, f := EndGracePeriods(later, faultOf, cacheUp);
      scanned, processed, failed := scanned + s, processed + p, failed + f;
      tick := tick.(faults := faults);
      if wallets.Some? && ok.sweep {
        var count := wallets.value.ExpireStalePendingOrders(later);
        swept := count;
        processed := processed + count;
      }
    }
  }
}
