/**
 * The sliding-window rate limiter: a sorted set of request times per key, pruned to the window at each
 * call and given a time to live. Times are nanoseconds; a member's score is the member itself.
 */
module RateLimit {
  import opened Sums

  const SECOND := 1_000_000_000

  datatype Entry = Entry(times: set<int>, expiresAt: int)

  /** One request; up tells whether Redis answers. */
  datatype Call = Call(key: string, at: int, up: bool)

  /** The set a key holds at a point in time; an expired key holds nothing. */
  function Stored(db: map<string, Entry>, key: string, now: int): set<int> {
    if key in db && now < db[key].expiresAt then db[key].times else {}
  }

  /** ZREMRANGEBYSCORE key 0 bound. */
  function Pruned(times: set<int>, bound: int): set<int> {
    set t | t in times && !(0 <= t <= bound)
  }

  function Allowed(db: map<string, Entry>, c: Call, limit: int, window: int): (map<string, Entry>, bool) {
    if !c.up then (db, true)
    else
      var kept := Pruned(Stored(db, c.key, c.at), c.at - window);
      (db[c.key := Entry(kept + {c.at}, c.at + window + SECOND)], |kept| < limit)
  }

  /**
   * One call: if Redis does not answer it is admitted and nothing changes. Otherwise the key, and no other, is kept for
   * the window and a second, with this request and those of its window, whether this one is admitted or not.
   */
  lemma AllowEffect(db: map<string, Entry>, c: Call, limit: int, window: int)
    ensures var (db', ok) := Allowed(db, c, limit, window);
            if !c.up then db' == db && ok
            else
              && db' == db[c.key := db'[c.key]] && db'[c.key].expiresAt == c.at + window + 1_000_000_000
              && c.at in db'[c.key].times
              && forall t :: t != c.at ==>
                   (t in db'[c.key].times <==>
                    c.key in db && c.at < db[c.key].expiresAt && t in db[c.key].times && (t < 0 || c.at - window < t))
  {
  }

  class Limiter {
    var db: map<string, Entry>

    constructor ()
      ensures db == map[]
    {
      db := map[];
    }

    /** Fails open if Redis is unavailable. */
    method Allow(key: string, limit: int, window: int, now: int, up: bool) returns (ok: bool)
      modifies this
      ensures (db, ok) == Allowed(old(db), Call(key, now, up), limit, window)
    {
      if !up {
        return true;
      }
      var windowStart := now - window;
      var times := Stored(db, key, now);
      times := Pruned(times, windowStart);
      var count := |times|;
      times := times + {now};
      db := db[key := Entry(times, now + window + SECOND)];
      ok := count < limit;
    }
  }

  // ----- Runs -----

  function Run(calls: seq<Call>, limit: int, window: int): map<string, Entry> {
    if calls == [] then map[]
    else Allowed(Run(calls[..|calls| - 1], limit, window), calls[|calls| - 1], limit, window).0
  }

  /** Whether the limiter admits call i of a run. */
  predicate Admits(calls: seq<Call>, i: nat, limit: int, window: int)
    requires i < |calls|
  {
    Allowed(Run(calls[..i], limit, window), calls[i], limit, window).1
  }

  /** Clocks are past the epoch, and move forward from one request of a key to the next. */
  predicate Increasing(calls: seq<Call>) {
    && (forall i :: 0 <= i < |calls| ==> calls[i].at > 0)
    && (forall i, j :: 0 <= i < j < |calls| && calls[i].up && calls[j].up && calls[i].key == calls[j].key ==> calls[i].at < calls[j].at)
  }

  /** Every request of the key that Redis has seen came before now. */
  predicate Before(calls: seq<Call>, key: string, now: int) {
    forall i :: 0 <= i < |calls| && calls[i].key == key && calls[i].up ==> calls[i].at < now
  }

  /** The full history of a key: every request Redis has seen, admitted or not. */
  function Times(calls: seq<Call>, key: string): set<int> {
    set i: nat | i < |calls| && calls[i].key == key && calls[i].up :: calls[i].at
  }

  function After(times: set<int>, bound: int): set<int> {
    set t | t in times && t > bound
  }

  /** From now on, the pruned set of every key is its full history filtered to the window. */
  ghost predicate Faithful(db: map<string, Entry>, calls: seq<Call>, window: int) {
    forall key, now :: Before(calls, key, now) ==>
      InStep(db, Times(calls, key), key, now, window)
  }

  lemma TimesAppend(calls: seq<Call>, c: Call, key: string)
    ensures Times(calls + [c], key) == if c.key == key && c.up then Times(calls, key) + {c.at} else Times(calls, key)
  {
    var more := calls + [c];
    forall t | t in Times(calls, key)
      ensures t in Times(more, key)
    {
      var i: nat :| i < |calls| && calls[i].key == key && calls[i].up && calls[i].at == t;
      assert more[i] == calls[i];
    }
    assert more[|calls|] == c;
  }

  /** Pruning in two steps prunes as much as once; when the key expires, nothing was left in the window. */
  lemma PruneLater(times: set<int>, c: int, now: int, window: int)
    requires forall t :: t in times ==> 0 < t < c
    requires 0 < c < now
    ensures Pruned(After(times, c - window) + {c}, now - window) == After(times + {c}, now - window)
    ensures now >= c + window + SECOND ==> After(times + {c}, now - window) == {}
  {
  }

  lemma TimesBefore(calls: seq<Call>, c: Call)
    requires Increasing(calls + [c]) && c.up
    ensures c.at > 0 && Before(calls, c.key, c.at)
    ensures forall t :: t in Times(calls, c.key) ==> 0 < t < c.at
  {
    var more := calls + [c];
    assert more[|calls|] == c;
    forall i | 0 <= i < |calls| && calls[i].key == c.key && calls[i].up
      ensures 0 < calls[i].at < c.at
    {
      assert more[i] == calls[i];
    }
  }

  ghost predicate InStep(db: map<string, Entry>, times: set<int>, key: string, now: int, window: int) {
    Pruned(Stored(db, key, now), now - window) == After(times, now - window)
  }

  lemma OwnCallKeeps(db: map<string, Entry>, times: set<int>, c: Call, limit: int, window: int, now: int)
    requires c.up && InStep(db, times, c.key, c.at, window)
    requires (forall t :: t in times ==> 0 < t < c.at) && 0 < c.at < now
    ensures InStep(Allowed(db, c, limit, window).0, times + {c.at}, c.key, now, window)
  {
    PruneLater(times, c.at, now, window);
    var db' := Allowed(db, c, limit, window).0;
    var kept := After(times, c.at - window) + {c.at};
    assert Pruned(Stored(db, c.key, c.at), c.at - window) == After(times, c.at - window);
    assert db'[c.key] == Entry(kept, c.at + window + SECOND);
    if now >= c.at + window + SECOND {
      assert Stored(db', c.key, now) == {};
    } else {
      assert Stored(db', c.key, now) == kept;
    }
  }

  lemma OtherCallKeeps(db: map<string, Entry>, times: set<int>, c: Call, limit: int, window: int, key: string, now: int)
    requires !c.up || c.key != key
    requires InStep(db, times, key, now, window)
    ensures InStep(Allowed(db, c, limit, window).0, times, key, now, window)
  {
    assert Stored(Allowed(db, c, limit, window).0, key, now) == Stored(db, key, now);
  }

  lemma {:induction false} PrunedSetIsHistory(calls: seq<Call>, limit: int, window: int)
    requires Increasing(calls)
    ensures Faithful(Run(calls, limit, window), calls, window)
  {
    if calls != [] {
      var init, c := calls[..|calls| - 1], calls[|calls| - 1];
      assert calls == init + [c];
      PrunedSetIsHistory(init, limit, window);
      var db := Run(init, limit, window);
      assert calls[|init|] == c;
      forall key, now | Before(calls, key, now)
        ensures InStep(Run(calls, limit, window), Times(calls, key), key, now, window)
      {
        TimesAppend(init, c, key);
        assert Before(init, key, now) by {
          assert forall i :: 0 <= i < |init| ==> init[i] == calls[i];
        }
        if c.up && c.key == key {
          TimesBefore(init, c);
          assert InStep(db, Times(init, key), key, c.at, window);
          OwnCallKeeps(db, Times(init, key), c, limit, window, now);
        } else {
          assert InStep(db, Times(init, key), key, now, window);
          OtherCallKeeps(db, Times(init, key), c, limit, window, key, now);
        }
      }
    }
  }

  lemma AdmitsByTimes(calls: seq<Call>, i: nat, limit: int, window: int)
    requires Increasing(calls) && i < |calls| && calls[i].up
    ensures Admits(calls, i, limit, window) <==> |After(Times(calls[..i], calls[i].key), calls[i].at - window)| < limit
  {
    PrunedSetIsHistory(calls[..i], limit, window);
    assert Before(calls[..i], calls[i].key, calls[i].at);
    assert InStep(Run(calls[..i], limit, window), Times(calls[..i], calls[i].key), calls[i].key, calls[i].at, window);
  }

  /** Earlier requests of the same key that Redis has seen, admitted or not, within the window before call i. */
  function EarlierInWindow(calls: seq<Call>, i: nat, window: int): set<nat>
    requires i < |calls|
  {
    set j: nat | j < i && calls[j].up && calls[j].key == calls[i].key && calls[i].at - calls[j].at < window
  }

  /**
   * A call is admitted exactly if Redis does not answer, or fewer than limit earlier requests of its key, admitted or
   * rejected, lie in the window: neither pruning nor the key's time to live ever changes a decision.
   */
  lemma {:induction false} AdmitsIff(calls: seq<Call>, i: nat, limit: int, window: int)
    requires Increasing(calls) && i < |calls|
    ensures Admits(calls, i, limit, window) <==> !calls[i].up || |EarlierInWindow(calls, i, window)| < limit
  {
    if calls[i].up {
      var ids, at := EarlierInWindow(calls, i, window), (j: nat) => if j < |calls| then calls[j].at else 0;
      AdmitsByTimes(calls, i, limit, window);
      forall j, k | j in ids && k in ids && at(j) == at(k)
        ensures j == k
      {
      }
      ImageSize(ids, at);
      var times := After(Times(calls[..i], calls[i].key), calls[i].at - window);
      forall j | j in ids
        ensures at(j) in times
      {
        assert calls[..i][j] == calls[j];
      }
      forall t | t in times
        ensures t in Image(ids, at)
      {
        var j: nat :| j < i && calls[..i][j].key == calls[i].key && calls[..i][j].up && calls[..i][j].at == t;
        assert j in ids && at(j) == t;
      }
      assert Image(ids, at) == times;
    }
  }

  /** Admitted calls of a key in the interval (from, from + window]. */
  ghost function AdmittedIn(calls: seq<Call>, key: string, from: int, limit: int, window: int): set<nat> {
    set i: nat | i < |calls| && calls[i].key == key && calls[i].up && from < calls[i].at <= from + window && Admits(calls, i, limit, window)
  }

  /** Times of earlier calls in the window of call i. */
  ghost function Ahead(calls: seq<Call>, i: nat, window: int): set<int>
    requires i < |calls|
  {
    After(Times(calls[..i], calls[i].key), calls[i].at - window)
  }

  lemma EarlierIsAhead(calls: seq<Call>, i: nat, j: nat, window: int)
    requires i < j < |calls| && calls[i].key == calls[j].key && calls[i].up && calls[i].at > calls[j].at - window
    ensures calls[i].at in Ahead(calls, j, window)
  {
    assert calls[..j][i] == calls[i];
  }

  /** No interval as long as the window, wherever it starts, holds more than limit admitted requests of a key. */
  lemma {:induction false} NeverOverLimit(calls: seq<Call>, key: string, from: int, limit: nat, window: int)
    requires Increasing(calls)
    ensures |AdmittedIn(calls, key, from, limit, window)| <= limit
  {
    var admitted := AdmittedIn(calls, key, from, limit, window);
    if admitted != {} {
      var last := Latest(admitted);
      AdmitsByTimes(calls, last, limit, window);
      var earlier := admitted - {last};
      forall i | i in earlier
        ensures i < |calls| && calls[i].at in Ahead(calls, last, window)
      {
        EarlierIsAhead(calls, i, last, window);
      }
      NoMoreThan(earlier, Ahead(calls, last, window), calls, key);
      assert |earlier| == |admitted| - 1;
    }
  }

  lemma {:induction false} Latest(s: set<nat>) returns (m: nat)
    requires s != {}
    ensures m in s && forall i :: i in s ==> i <= m
    decreases |s|
  {
    var k :| k in s;
    m := k;
    if s - {k} != {} {
      var n := Latest(s - {k});
      m := if n > k then n else k;
    }
    forall i | i in s
      ensures i <= m
    {
      assert i == k || i in s - {k};
    }
  }

  /** Requests of a key are at most as many as their times. */
  lemma {:induction false} NoMoreThan(ids: set<nat>, times: set<int>, calls: seq<Call>, key: string)
    requires Increasing(calls)
    requires forall i :: i in ids ==> i < |calls| && calls[i].key == key && calls[i].up && calls[i].at in times
    ensures |ids| <= |times|
    decreases |ids|
  {
    if ids != {} {
      var i :| i in ids;
      NoMoreThan(ids - {i}, times - {calls[i].at}, calls, key);
    }
  }
}
