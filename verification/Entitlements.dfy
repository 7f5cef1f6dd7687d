/**
 * Entitlement rows derived from plan features, and the answer computed from them.
 * Points in time are integers (nanoseconds).
 */
module Entitlements {
  import opened Base
  import Decimal

  const PLAN_CODE := "plan_code"
  const FREE := "free"

  datatype Pair = Pair(account: int, product: string)

  /** A decoded JSON value of the plan's feature map; Other carries its JSON or decimal text. */
  datatype Feature = Text(text: string) | Flag(on: bool) | Whole(n: int) | Other(json: string)

  datatype Plan = Plan(code: string, cycle: string, price: int, features: map<string, Feature>)

  datatype Ent = Ent(value: string, expiresAt: Option<int>)

  type Rows = map<string, Ent>

  type Answer = map<string, string>

  function AnyToString(v: Feature): string {
    match v
    case Text(text) => text
    case Flag(on) => if on then "true" else "false"
    case Whole(n) => Decimal.Format(n)
    case Other(json) => json
  }

  /** What a plan entitles to: its code under plan_code, then its features, which may override it. */
  function Entries(plan: Plan): Answer {
    map[PLAN_CODE := plan.code] + map k | k in plan.features :: AnyToString(plan.features[k])
  }

  predicate Current(e: Ent, now: int) {
    e.expiresAt.None? || e.expiresAt.value > now
  }

  /** The answer computed directly from the stored rows. */
  function View(rows: Rows, now: int): Answer {
    var em := map k | k in rows && Current(rows[k], now) :: rows[k].value;
    if PLAN_CODE in em then em else em[PLAN_CODE := FREE]
  }

  function RowsOf(store: map<Pair, Rows>, p: Pair): Rows {
    if p in store then store[p] else map[]
  }

  /**
   * What an upsert makes of a key. A new row is stored as given; in an existing one GORM's Assign leaves alone
   * a column whose new value is zero: an empty text, or no expiry.
   */
  function Upserted(rows: Rows, k: string, value: string, expiresAt: Option<int>): Ent {
    if k !in rows then Ent(value, expiresAt)
    else Ent(if value == "" then rows[k].value else value, if expiresAt.None? then rows[k].expiresAt else expiresAt)
  }

  function Granted(rows: Rows, plan: Plan, expiresAt: Option<int>, keys: set<string>): Rows {
    map k | k in Entries(plan) && k in keys :: Upserted(rows, k, Entries(plan)[k], expiresAt)
  }

  /** Rows after a sync that got as far as the given keys; older keys of the pair stay. */
  function SyncedRows(store: map<Pair, Rows>, p: Pair, plan: Plan, expiresAt: Option<int>, written: set<string>): map<Pair, Rows> {
    if written == {} then store else store[p := RowsOf(store, p) + Granted(RowsOf(store, p), plan, expiresAt, written)]
  }

  lemma GrantedStep(rows: Rows, plan: Plan, expiresAt: Option<int>, written: set<string>, k: string)
    requires k in Entries(plan) && k !in written
    ensures var now := rows + Granted(rows, plan, expiresAt, written);
            rows + Granted(rows, plan, expiresAt, written + {k}) == now[k := Upserted(now, k, Entries(plan)[k], expiresAt)]
  {
  }

  lemma SyncedStep(store: map<Pair, Rows>, p: Pair, plan: Plan, expiresAt: Option<int>, written: set<string>, k: string)
    requires k in Entries(plan) && k !in written
    ensures var now := SyncedRows(store, p, plan, expiresAt, written);
            SyncedRows(store, p, plan, expiresAt, written + {k})
              == now[p := RowsOf(now, p)[k := Upserted(RowsOf(now, p), k, Entries(plan)[k], expiresAt)]]
  {
    GrantedStep(RowsOf(store, p), plan, expiresAt, written, k);
    assert k in written + {k};
    if written == {} {
      assert RowsOf(store, p) + Granted(RowsOf(store, p), plan, expiresAt, {}) == RowsOf(store, p);
    }
  }

  const FREE_ROWS: Rows := map[PLAN_CODE := Ent(FREE, None)]

  /**
   * Two points in time give the same answer exactly if no row is current at one of them only, except
   * for a plan_code row that says free, which its absence says as well.
   */
  lemma SameAnswerIff(rows: Rows, t: int, now: int)
    ensures View(rows, t) == View(rows, now) <==>
            forall k :: k in rows && Current(rows[k], t) != Current(rows[k], now) ==> k == PLAN_CODE && rows[k].value == FREE
  {
    if View(rows, t) == View(rows, now) {
      forall k | k in rows && Current(rows[k], t) != Current(rows[k], now)
        ensures k == PLAN_CODE && rows[k].value == FREE
      {
        assert k in View(rows, t) && k in View(rows, now);
        assert View(rows, t)[k] == View(rows, now)[k];
      }
    }
    if forall k :: k in rows && Current(rows[k], t) != Current(rows[k], now) ==> k == PLAN_CODE && rows[k].value == FREE {
      forall k
        ensures k in View(rows, t) <==> k in View(rows, now)
        ensures k in View(rows, t) ==> View(rows, t)[k] == View(rows, now)[k]
      {
      }
      assert View(rows, t) == View(rows, now);
    }
  }

  /** What is answered about a key: the value of its row until the expiry instant; without such a row free for plan_code, else nothing. */
  lemma AnsweredIff(rows: Rows, now: int, k: string)
    ensures var em, current := View(rows, now), k in rows && (rows[k].expiresAt.None? || now < rows[k].expiresAt.value);
            && (k in em <==> current || k == "plan_code")
            && (current ==> em[k] == rows[k].value)
            && (!current && k == "plan_code" ==> em[k] == "free")
  {
  }

  // ----- What a sync leaves behind -----

  /** The texts a plan grants: every feature under its name, and the code under plan_code unless a feature takes that name. */
  lemma GrantedTexts(plan: Plan, k: string)
    ensures k in Entries(plan) <==> k in plan.features || k == "plan_code"
    ensures k == "plan_code" && k !in plan.features ==> Entries(plan)[k] == plan.code
    ensures k in plan.features ==>
              match plan.features[k]
              case Text(text) => Entries(plan)[k] == text
              case Flag(true) => Entries(plan)[k] == "true"
              case Flag(false) => Entries(plan)[k] == "false"
              case Whole(n) => Decimal.ParseSigned(Entries(plan)[k]) == Some(n)
              case Other(json) => Entries(plan)[k] == json
  {
    if k in plan.features && plan.features[k].Whole? {
      Decimal.ParseSignedFormat(plan.features[k].n);
    }
  }

  /** plan_code answers the plan's code exactly if no feature of the plan is called plan_code and says otherwise. */
  lemma PlanCodeStoredIff(plan: Plan)
    ensures Entries(plan).Keys == plan.features.Keys + {PLAN_CODE}
    ensures forall k :: k in plan.features ==> Entries(plan)[k] == AnyToString(plan.features[k])
    ensures Entries(plan)[PLAN_CODE] == plan.code <==>
            (PLAN_CODE in plan.features ==> AnyToString(plan.features[PLAN_CODE]) == plan.code)
  {
  }

  /** The rows of a pair hold everything a plan grants until a given time. */
  predicate Holds(rows: Rows, plan: Plan, expiresAt: Option<int>) {
    forall k :: k in Entries(plan) ==> k in rows && rows[k] == Ent(Entries(plan)[k], expiresAt)
  }

  /** An answer names everything a plan grants. */
  predicate AnswersPlan(em: Answer, plan: Plan) {
    forall k :: k in Entries(plan) ==> k in em && em[k] == Entries(plan)[k]
  }

  /**
   * A pair that holds a plan's grants is answered with all of them exactly until they expire, or if all the
   * plan grants is what a pair without any row is answered. Once expired none of them is answered, although
   * the subscription may be in grace; a pair with nothing else current is answered as free.
   */
  lemma AnswerOfPlan(rows: Rows, plan: Plan, expiresAt: Option<int>, now: int)
    requires Holds(rows, plan, expiresAt)
    ensures AnswersPlan(View(rows, now), plan) <==>
            expiresAt.None? || now < expiresAt.value || Entries(plan) == map[PLAN_CODE := FREE]
    ensures expiresAt.Some? && expiresAt.value <= now ==>
              && (forall k :: k in Entries(plan) ==> k !in View(rows, now) || k == PLAN_CODE)
              && View(rows, now)[PLAN_CODE] == FREE
              && (View(rows, now) == map[PLAN_CODE := FREE] <==>
                  forall k :: k in rows && k !in Entries(plan) ==> !Current(rows[k], now))
  {
    var em := View(rows, now);
    assert PLAN_CODE in Entries(plan);
    if expiresAt.Some? && expiresAt.value <= now {
      if AnswersPlan(em, plan) {
        assert forall k :: k in Entries(plan) ==> k == PLAN_CODE;
        assert Entries(plan) == map[PLAN_CODE := FREE];
      }
      if em == map[PLAN_CODE := FREE] {
        forall k | k in rows && k !in Entries(plan)
          ensures !Current(rows[k], now)
        {
          assert k in em || !Current(rows[k], now);
        }
      }
    }
  }

  /** Rows that survive a sync only in part: what the new plan sets to no expiry or to no text already has one. */
  predicate Resists(rows: Rows, plan: Plan, expiresAt: Option<int>, k: string)
    requires k in Entries(plan)
  {
    k in rows && ((expiresAt.None? && rows[k].expiresAt.Some?) || (Entries(plan)[k] == "" && rows[k].value != ""))
  }

  /** A complete sync leaves every grant stored with the subscription's expiry exactly if no earlier row resists it. */
  lemma SyncHoldsIff(store: map<Pair, Rows>, p: Pair, plan: Plan, expiresAt: Option<int>)
    ensures Holds(RowsOf(SyncedRows(store, p, plan, expiresAt, Entries(plan).Keys), p), plan, expiresAt) <==>
            forall k :: k in Entries(plan) ==> !Resists(RowsOf(store, p), plan, expiresAt, k)
  {
    assert PLAN_CODE in Entries(plan).Keys;
    var before, after := RowsOf(store, p), RowsOf(SyncedRows(store, p, plan, expiresAt, Entries(plan).Keys), p);
    forall k | k in Entries(plan)
      ensures k in after && (after[k] == Ent(Entries(plan)[k], expiresAt) <==> !Resists(before, plan, expiresAt, k))
    {
    }
  }

  /** What a complete sync leaves in any case: each grant's text, if not empty, and the expiry, if there is one. */
  predicate Grants(rows: Rows, plan: Plan, expiresAt: Option<int>) {
    forall k :: k in Entries(plan) ==>
      k in rows && (Entries(plan)[k] != "" ==> rows[k].value == Entries(plan)[k]) && (expiresAt.Some? ==> rows[k].expiresAt == expiresAt)
  }

  lemma SyncGrants(store: map<Pair, Rows>, p: Pair, plan: Plan, expiresAt: Option<int>)
    ensures Grants(RowsOf(SyncedRows(store, p, plan, expiresAt, Entries(plan).Keys), p), plan, expiresAt)
  {
    assert PLAN_CODE in Entries(plan).Keys;
  }

  /** After a sync of an expiring plan, one of an unexpiring plan leaves the plan code with the earlier expiry. */
  lemma PlanCodeKeepsExpiry(store: map<Pair, Rows>, p: Pair, first: Plan, t: int, second: Plan, now: int)
    requires PLAN_CODE !in second.features && second.code != FREE && now >= t
    ensures var store1 := SyncedRows(store, p, first, Some(t), Entries(first).Keys);
            var em := View(RowsOf(SyncedRows(store1, p, second, None, Entries(second).Keys), p), now);
            em[PLAN_CODE] == FREE && !AnswersPlan(em, second)
  {
    var store1 := SyncedRows(store, p, first, Some(t), Entries(first).Keys);
    assert PLAN_CODE in Entries(first) && PLAN_CODE in Entries(second) && Entries(second)[PLAN_CODE] == second.code;
    SyncGrants(store, p, first, Some(t));
    var rows := RowsOf(SyncedRows(store1, p, second, None, Entries(second).Keys), p);
    assert rows[PLAN_CODE].expiresAt == Some(t);
  }

  /** No text a plan grants is empty. */
  predicate NoEmptyText(plan: Plan) {
    forall k :: k in Entries(plan) ==> Entries(plan)[k] != ""
  }

  /** Whether a key still counts after a sync over earlier rows: until the new expiry, or if there is none, until the old. */
  predicate Lasts(before: Rows, expiresAt: Option<int>, k: string, now: int) {
    match expiresAt
    case Some(t) => now < t
    case None => k in before ==> Current(before[k], now)
  }

  /** Whether the answer says of a key what the plan does: from the row, or as a missing plan_code would. */
  predicate SaidAfterSync(before: Rows, plan: Plan, expiresAt: Option<int>, k: string, now: int)
    requires k in Entries(plan)
  {
    if Lasts(before, expiresAt, k, now) then Entries(plan)[k] == "" && k in before ==> before[k].value == ""
    else k == PLAN_CODE && Entries(plan)[k] == FREE
  }

  /** After a complete sync over any rows, exactly when the answer names everything the plan grants. */
  lemma AnswerAfterSync(store: map<Pair, Rows>, p: Pair, plan: Plan, expiresAt: Option<int>, now: int)
    ensures var before, after := RowsOf(store, p), RowsOf(SyncedRows(store, p, plan, expiresAt, Entries(plan).Keys), p);
            && (AnswersPlan(View(after, now), plan) <==> forall k :: k in Entries(plan) ==> SaidAfterSync(before, plan, expiresAt, k, now))
            && (expiresAt.Some? && NoEmptyText(plan) ==> Holds(after, plan, expiresAt))
  {
    assert PLAN_CODE in Entries(plan).Keys;
    var before, after := RowsOf(store, p), RowsOf(SyncedRows(store, p, plan, expiresAt, Entries(plan).Keys), p);
    forall k | k in Entries(plan)
      ensures (k in View(after, now) && View(after, now)[k] == Entries(plan)[k]) <==> SaidAfterSync(before, plan, expiresAt, k, now)
    {
      assert after[k] == Upserted(before, k, Entries(plan)[k], expiresAt);
    }
  }

  /**
   * A sync replaces nothing but what the plan grants: keys an earlier plan granted and this one does not
   * stay behind with their old value and expiry, and go on being answered until then.
   */
  lemma OldGrantsStay(store: map<Pair, Rows>, p: Pair, plan: Plan, expiresAt: Option<int>, now: int)
    ensures var before, after := RowsOf(store, p), RowsOf(SyncedRows(store, p, plan, expiresAt, Entries(plan).Keys), p);
            && after.Keys == before.Keys + Entries(plan).Keys
            && forall k :: k in before && k !in Entries(plan) ==>
                 after[k] == before[k] && (Current(before[k], now) <==> k in View(after, now))
  {
    assert PLAN_CODE in Entries(plan).Keys;
  }
}
