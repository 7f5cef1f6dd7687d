/** The entitlement service: cache-aside reads over the stored rows, invalidated by every write. */
module EntitlementCache {
  import opened Base
  import opened Entitlements

  datatype State = State(rows: map<Pair, Rows>, cache: map<Pair, Answer>, filled: map<Pair, int>)

  class EntitlementService {
    var rows: map<Pair, Rows>
    var cache: map<Pair, Answer>
    ghost var filled: map<Pair, int>  // when each cached answer was computed

    ghost function Contents(): State
      reads this
    {
      State(rows, cache, filled)
    }

    constructor ()
      ensures Contents() == State(map[], map[], map[])
    {
      rows, cache, filled := map[], map[], map[];
    }

    /** dbUp and cacheUp tell whether the database and Redis answer. */
    method Refresh(p: Pair, now: int, dbUp: bool, cacheUp: bool) returns (r: Result<Answer>)
      modifies this
      ensures r == if dbUp then Ok(View(RowsOf(rows, p), now)) else Err(Unavailable)
      ensures Contents() == Next(old(Contents()), Fill(p, now, dbUp, cacheUp))
    {
      if !dbUp {
        return Err(Unavailable);
      }
      var stored := RowsOf(rows, p);
      var todo := set k | k in stored && Current(stored[k], now);
      ghost var live := todo;
      var em: Answer := map[];
      while todo != {}
        invariant todo <= live
        invariant em == map k | k in live && k !in todo :: stored[k].value
        decreases todo
      {
        var k :| k in todo;
        em := em[k := stored[k].value];
        todo := todo - {k};
      }
      if PLAN_CODE !in em {
        em := em[PLAN_CODE := FREE];
      }
      assert em == View(RowsOf(rows, p), now);
      if cacheUp {
        cache := cache[p := em];
        filled := filled[p := now];
      }
      r := Ok(em);
    }

    method Get(p: Pair, now: int, dbUp: bool, cacheUp: bool) returns (r: Result<Answer>)
      modifies this
      ensures r == if cacheUp && p in old(cache) then Ok(old(cache)[p])
                   else if dbUp then Ok(View(RowsOf(rows, p), now)) else Err(Unavailable)
      ensures Contents() == if cacheUp && p in old(cache) then old(Contents()) else Next(old(Contents()), Fill(p, now, dbUp, cacheUp))
    {
      if cacheUp && p in cache {
        return Ok(cache[p]);
      }
      r := Refresh(p, now, dbUp, cacheUp);
    }

    /** Upserts entry by entry, in no particular order, and stops at the first that fails. */
    method SyncFromSubscription(p: Pair, plan: Plan, expiresAt: Option<int>, a: SyncAnswers) returns (ok: bool, ghost written: set<string>)
      modifies this
      ensures ok <==> a.planOk && forall k :: k in Entries(plan) ==> a.upsertOk(k)
      ensures written <= Entries(plan).Keys && (ok <==> written == Entries(plan).Keys)
      ensures Contents() == Next(old(Contents()), Sync(p, plan, expiresAt, written, a.cacheUp))
      ensures rows == SyncedRows(old(rows), p, plan, expiresAt, written)
    {
      written := {};
      assert PLAN_CODE in Entries(plan).Keys;
      if !a.planOk {
        return false, written;
      }
      var entries := Entries(plan);
      var todo := entries.Keys;
      while todo != {}
        invariant todo <= entries.Keys && written == entries.Keys - todo
        invariant forall k :: k in written ==> a.upsertOk(k)
        invariant rows == SyncedRows(old(rows), p, plan, expiresAt, written)
        invariant cache == old(cache) && filled == old(filled)
        decreases todo
      {
        var k :| k in todo;
        if !a.upsertOk(k) {
          ok := false;
          return;
        }
        SyncedStep(old(rows), p, plan, expiresAt, written, k);
        rows := rows[p := RowsOf(rows, p)[k := Upserted(RowsOf(rows, p), k, entries[k], expiresAt)]];
        todo := todo - {k};
        written := written + {k};
      }
      if a.cacheUp {
        cache := cache - {p};
      }
      ok := true;
    }

    method ResetToFree(p: Pair, fault: ResetFault, cacheUp: bool) returns (ok: bool)
      modifies this
      ensures ok <==> fault.NoFault?
      ensures Contents() == Next(old(Contents()), Reset(p, fault, cacheUp))
    {
      if fault.DeleteFails? {
        return false;
      }
      rows := rows[p := map[]];
      if fault.UpsertFails? {
        return false;
      }
      rows := rows[p := rows[p][PLAN_CODE := Upserted(rows[p], PLAN_CODE, FREE, None)]];
      if cacheUp {
        cache := cache - {p};
      }
      ok := true;
    }
  }

  // ----- Serial runs -----

  /** planOk: the plan is found and its features parse; upsertOk: which upserts succeed; cacheUp: the invalidation does. */
  datatype SyncAnswers = SyncAnswers(planOk: bool, upsertOk: string -> bool, cacheUp: bool)

  datatype ResetFault = NoFault | DeleteFails | UpsertFails

  /** The calls, with what fails on the way; written are the keys a sync got to. */
  datatype Op =
    | Fill(p: Pair, now: int, dbUp: bool, cacheUp: bool)   // Refresh, or Get without a cached answer
    | Sync(p: Pair, plan: Plan, expiresAt: Option<int>, written: set<string>, cacheUp: bool)
    | Reset(p: Pair, fault: ResetFault, cacheUp: bool)
    | Evict(p: Pair)                                       // the cache entry's time to live ends

  function Next(s: State, op: Op): State {
    match op
    case Fill(p, now, dbUp, cacheUp) =>
      if dbUp && cacheUp then s.(cache := s.cache[p := View(RowsOf(s.rows, p), now)], filled := s.filled[p := now]) else s
    case Sync(p, plan, expiresAt, written, cacheUp) =>
      s.(rows := SyncedRows(s.rows, p, plan, expiresAt, written),
         cache := if written == Entries(plan).Keys && cacheUp then s.cache - {p} else s.cache)
    case Reset(p, fault, cacheUp) =>
      s.(rows := if fault.DeleteFails? then s.rows else s.rows[p := if fault.NoFault? then FREE_ROWS else map[]],
         cache := if fault.NoFault? && cacheUp then s.cache - {p} else s.cache)
    case Evict(p) => s.(cache := s.cache - {p})
  }

  function Run(s: State, ops: seq<Op>): State {
    if ops == [] then s else Next(Run(s, ops[..|ops| - 1]), ops[|ops| - 1])
  }

  /** The answer cached for a pair, if any, is what the rows stored now gave at the time it was filled. */
  predicate Coherent(s: State, p: Pair) {
    p in s.cache ==> p in s.filled && s.cache[p] == View(RowsOf(s.rows, p), s.filled[p])
  }

  /** An answer computed at time t already says about a key what storing this row would make it say. */
  predicate AlreadySays(em: Answer, k: string, e: Ent, t: int) {
    if Current(e, t) then k in em && em[k] == e.value
    else if k == PLAN_CODE then k in em && em[k] == FREE
    else k !in em
  }

  /** The call removes the cached answer with what it was computed from, or changes nothing the answer says. */
  predicate Harmless(s: State, op: Op) {
    match op
    case Fill(_, _, _, _) => true
    case Evict(_) => true
    case Sync(p, plan, expiresAt, written, cacheUp) =>
      (written == Entries(plan).Keys && cacheUp) || p !in s.cache || p !in s.filled
      || forall k :: k in written && k in Entries(plan) ==>
           AlreadySays(s.cache[p], k, Upserted(RowsOf(s.rows, p), k, Entries(plan)[k], expiresAt), s.filled[p])
    case Reset(p, fault, cacheUp) =>
      fault.DeleteFails? || (fault.NoFault? && cacheUp) || p !in s.cache || s.cache[p] == map[PLAN_CODE := FREE]
  }

  /** Storing rows leaves an answer as it is exactly if it already says what each of them says. */
  lemma SaysAfter(rows: Rows, more: Rows, t: int)
    ensures View(rows + more, t) == View(rows, t) <==> forall k :: k in more ==> AlreadySays(View(rows, t), k, more[k], t)
  {
    var before, after := View(rows, t), View(rows + more, t);
    forall k
      ensures k in more ==>
                (AlreadySays(before, k, more[k], t) <==> ((k in after <==> k in before) && (k in after ==> after[k] == before[k])))
      ensures k !in more ==> ((k in after <==> k in before) && (k in after ==> after[k] == before[k]))
    {
    }
  }

  /** With a coherent answer before, the answer is coherent after a call exactly if the call is harmless. */
  lemma CoherentKeptIff(s: State, op: Op)
    requires Coherent(s, op.p)
    ensures Coherent(Next(s, op), op.p) <==> Harmless(s, op)
  {
    var p := op.p;
    match op
    case Fill(_, _, _, _) =>
    case Evict(_) =>
    case Reset(_, _, _) =>
      if p in s.filled {
        assert View(FREE_ROWS, s.filled[p]) == map[PLAN_CODE := FREE];
        assert View(map[], s.filled[p]) == map[PLAN_CODE := FREE];
      }
    case Sync(_, plan, expiresAt, written, _) =>
      if p in s.cache {
        SaysAfter(RowsOf(s.rows, p), Granted(RowsOf(s.rows, p), plan, expiresAt, written), s.filled[p]);
      }
  }

  /** Calls for one pair leave the others alone. */
  lemma OtherPairKept(s: State, op: Op, p: Pair)
    requires Coherent(s, p) && op.p != p
    ensures Coherent(Next(s, op), p)
  {
    assert RowsOf(Next(s, op).rows, p) == RowsOf(s.rows, p);
  }

  /**
   * What is cached after a call: a read that reaches both stores caches its answer; an eviction, and a complete sync or
   * reset whose invalidation goes through, leave nothing; any other call leaves what was there.
   */
  lemma CachedAfter(s: State, op: Op, p: Pair)
    ensures var s' := Next(s, op);
            if op.p != p then p in s'.cache <==> p in s.cache && s'.cache[p] == s.cache[p]
            else
              match op
              case Fill(_, now, true, true) => p in s'.cache && s'.cache[p] == View(RowsOf(s'.rows, p), now) && s'.rows == s.rows
              case Evict(_) => p !in s'.cache && s'.rows == s.rows
              case Sync(_, plan, _, written, true) =>
                if Entries(plan).Keys == written then p !in s'.cache else s'.cache == s.cache
              case Reset(_, NoFault, true) => p !in s'.cache
              case _ => s'.cache == s.cache
  {
  }

  /** What a reset leaves stored: only the free plan code if nothing fails, nothing if the upsert fails, all if the delete does. */
  lemma StoredAfterReset(s: State, p: Pair, fault: ResetFault, cacheUp: bool)
    ensures var rows := RowsOf(Next(s, Reset(p, fault, cacheUp)).rows, p);
            match fault
            case NoFault => rows == map["plan_code" := Ent("free", None)]
            case UpsertFails => rows == map[]
            case DeleteFails => rows == RowsOf(s.rows, p)
  {
  }

  /** Whatever went wrong before, these calls leave the pair with a right answer or none. */
  predicate Mends(op: Op) {
    match op
    case Fill(_, _, dbUp, cacheUp) => dbUp && cacheUp
    case Sync(_, plan, _, written, cacheUp) => written == Entries(plan).Keys && cacheUp
    case Reset(_, fault, cacheUp) => fault.NoFault? && cacheUp
    case Evict(_) => true
  }

  /** The calls for a pair are harmless, each in the state it meets. */
  predicate AllHarmless(s: State, ops: seq<Op>, p: Pair) {
    forall i :: 0 <= i < |ops| && ops[i].p == p ==> Harmless(Run(s, ops[..i]), ops[i])
  }

  /**
   * Over every run of reads, syncs, resets and evictions, whatever fails on the way: if every call for a pair
   * after some mending one is harmless, its cached answer is what the rows stored now gave when it was filled.
   */
  lemma {:induction false} CacheCoherent(s: State, mend: Op, ops: seq<Op>)
    requires Mends(mend) && AllHarmless(Next(s, mend), ops, mend.p)
    ensures Coherent(Run(Next(s, mend), ops), mend.p)
  {
    if ops != [] {
      var prefix, op, start := ops[..|ops| - 1], ops[|ops| - 1], Next(s, mend);
      forall i | 0 <= i < |prefix| && prefix[i].p == mend.p
        ensures Harmless(Run(start, prefix[..i]), prefix[i])
      {
        assert prefix[..i] == ops[..i];
      }
      CacheCoherent(s, mend, prefix);
      if op.p == mend.p {
        CoherentKeptIff(Run(start, prefix), op);
      } else {
        OtherPairKept(Run(start, prefix), op, mend.p);
      }
    }
  }

  /** After such a run, a further call for the pair leaves the cached answer right exactly if that call is harmless. */
  lemma {:induction false} CoherentUntil(s: State, mend: Op, ops: seq<Op>, op: Op)
    requires Mends(mend) && AllHarmless(Next(s, mend), ops, mend.p) && op.p == mend.p
    ensures Coherent(Run(Next(s, mend), ops + [op]), mend.p) <==> Harmless(Run(Next(s, mend), ops), op)
  {
    CacheCoherent(s, mend, ops);
    CoherentKeptIff(Run(Next(s, mend), ops), op);
    assert (ops + [op])[..|ops|] == ops;
  }

  /**
   * After such a run a cached answer is the answer computed directly now exactly if no stored row has
   * changed between current and expired since it was filled.
   */
  lemma {:induction false} CachedAnswerIff(s: State, mend: Op, ops: seq<Op>, now: int)
    requires Mends(mend) && AllHarmless(Next(s, mend), ops, mend.p) && mend.p in Run(Next(s, mend), ops).cache
    ensures mend.p in Run(Next(s, mend), ops).filled
    ensures var s' := Run(Next(s, mend), ops);
            var rows, t := RowsOf(s'.rows, mend.p), s'.filled[mend.p];
            && PLAN_CODE in s'.cache[mend.p]
            && (s'.cache[mend.p] == View(rows, now) <==>
                forall k :: k in rows && Current(rows[k], t) != Current(rows[k], now) ==> k == PLAN_CODE && rows[k].value == FREE)
  {
    CacheCoherent(s, mend, ops);
    var s' := Run(Next(s, mend), ops);
    SameAnswerIff(RowsOf(s'.rows, mend.p), s'.filled[mend.p], now);
  }

  // ----- Runs that leave a stale answer -----

  const EMPTY_STATE := State(map[], map[], map[])

  /** A pair without rows is read, and then a sync of the plan gets as far as the given keys. */
  function ReadThenSync(p: Pair, plan: Plan, expiresAt: Option<int>, written: set<string>, t: int, cacheUp: bool): seq<Op> {
    [Fill(p, t, true, true), Sync(p, plan, expiresAt, written, cacheUp)]
  }

  /**
   * From the empty state: if the sync of a new plan stores its code and then fails, or if its invalidation is lost, the
   * pair goes on being answered as free from the cache, although the rows name the plan.
   */
  lemma StaleAnswer(p: Pair, plan: Plan, expiresAt: Option<int>, written: set<string>, t: int, cacheUp: bool)
    requires PLAN_CODE in written && Entries(plan)[PLAN_CODE] != FREE && (expiresAt.Some? ==> t < expiresAt.value)
    requires written != Entries(plan).Keys || !cacheUp
    ensures var s := Run(EMPTY_STATE, ReadThenSync(p, plan, expiresAt, written, t, cacheUp));
            && p in s.cache && s.cache[p] == map[PLAN_CODE := FREE]
            && View(RowsOf(s.rows, p), t)[PLAN_CODE] == Entries(plan)[PLAN_CODE]
            && !Coherent(s, p)
  {
    var ops := ReadThenSync(p, plan, expiresAt, written, t, cacheUp);
    var s1 := Next(EMPTY_STATE, ops[0]);
    assert Run(EMPTY_STATE, ops[..1]) == s1 by { assert ops[..1][..0] == []; }
    assert s1.cache[p] == map[PLAN_CODE := FREE];
  }
}
