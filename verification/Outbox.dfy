/**
 * The transactional outbox and its relay: poll a batch of unpublished rows, publish each, mark it
 * published or count the failure, and sweep out old published rows.
 */
module Outbox {
  import opened Base
  import opened Sums

  const BATCH := 50
  const MAX_ATTEMPTS := 10

  /** Seven days, in seconds. */
  const RETENTION := 7 * 24 * 3600

  datatype Row = Row(event: int, attempts: int, publishedAt: Option<int>)

  /** Rows in id order. emitted: events handed to the broker; inserted: every event ever inserted; both in order. */
  datatype State = State(rows: seq<Row>, emitted: seq<int>, inserted: seq<int>)

  /** How the world answers the relay for one row: the publish, and the store write that follows it. */
  datatype Reply = Reply(published: bool, stored: bool)

  predicate Unpublished(r: Row) {
    r.publishedAt.None?
  }

  predicate Dead(r: Row) {
    Unpublished(r) && r.attempts >= MAX_ATTEMPTS
  }

  /** A row the relay still tries to publish. */
  predicate Alive(r: Row) {
    Unpublished(r) && r.attempts < MAX_ATTEMPTS
  }

  /** Positions of the first unpublished rows from position i on, at most limit of them. */
  function ListUnpublished(rows: seq<Row>, i: nat, limit: nat): (ids: seq<nat>)
    requires i <= |rows|
    ensures |ids| <= limit
    ensures forall k :: 0 <= k < |ids| ==> i <= ids[k] < |rows| && Unpublished(rows[ids[k]])
    ensures forall j, k :: 0 <= j < k < |ids| ==> ids[j] < ids[k]
    decreases |rows| - i
  {
    if i == |rows| || limit == 0 then []
    else if Unpublished(rows[i]) then [i] + ListUnpublished(rows, i + 1, limit - 1)
    else ListUnpublished(rows, i + 1, limit)
  }

  // ----- The relay's steps on values -----

  /** What one row becomes. */
  function Handled(r: Row, reply: Reply, now: int): Row {
    if !Alive(r) || !reply.stored then r
    else if reply.published then r.(publishedAt := Some(now))
    else r.(attempts := r.attempts + 1)
  }

  function Emission(r: Row, reply: Reply): seq<int> {
    if Alive(r) && reply.published then [r.event] else []
  }

  /** One turn of the relay's loop. */
  function PollOne(s: State, id: nat, reply: Reply, now: int): State {
    if id >= |s.rows| then s
    else s.(rows := s.rows[id := Handled(s.rows[id], reply, now)], emitted := s.emitted + Emission(s.rows[id], reply))
  }

  /** The loop over the listed positions. */
  function PollEach(s: State, ids: seq<nat>, replies: seq<Reply>, now: int): State
    decreases |ids|
  {
    if ids == [] || replies == [] then s
    else PollEach(PollOne(s, ids[0], replies[0], now), ids[1..], replies[1..], now)
  }

  function Poll(s: State, replies: seq<Reply>, now: int): State {
    PollEach(s, ListUnpublished(s.rows, 0, BATCH), replies, now)
  }

  function Insert(s: State, event: int): State {
    s.(rows := s.rows + [Row(event, 0, None)], inserted := s.inserted + [event])
  }

  /** Rows that were not published before the cutoff. */
  function Kept(rows: seq<Row>, cutoff: int): seq<Row> {
    if rows == [] then []
    else
      var r := rows[|rows| - 1];
      var rest := Kept(rows[..|rows| - 1], cutoff);
      if r.publishedAt.Some? && r.publishedAt.value < cutoff then rest else rest + [r]
  }

  function Cleanup(s: State, now: int): State {
    s.(rows := Kept(s.rows, now - RETENTION))
  }

  // ----- One poll, row by row -----

  /** The replies cover the list, as in a poll that is not cut short. */
  predicate Covers(s: State, replies: seq<Reply>) {
    |replies| >= |ListUnpublished(s.rows, 0, BATCH)|
  }

  lemma {:induction false} PollRows(s: State, ids: seq<nat>, replies: seq<Reply>, now: int)
    requires forall k :: 0 <= k < |ids| ==> ids[k] < |s.rows|
    requires forall j, k :: 0 <= j < k < |ids| ==> ids[j] < ids[k]
    ensures var s' := PollEach(s, ids, replies, now);
            && |s'.rows| == |s.rows| && s'.inserted == s.inserted
            && (forall i :: 0 <= i < |s.rows| && i !in ids ==> s'.rows[i] == s.rows[i])
            && (forall k :: 0 <= k < |ids| ==>
                  s'.rows[ids[k]] == if k < |replies| then Handled(s.rows[ids[k]], replies[k], now) else s.rows[ids[k]])
    decreases |ids|
  {
    if ids != [] && replies != [] {
      var s1 := PollOne(s, ids[0], replies[0], now);
      PollRows(s1, ids[1..], replies[1..], now);
      var s' := PollEach(s, ids, replies, now);
      forall k | 0 <= k < |ids|
        ensures s'.rows[ids[k]] == if k < |replies| then Handled(s.rows[ids[k]], replies[k], now) else s.rows[ids[k]]
      {
        if k > 0 {
          assert ids[k] == ids[1..][k - 1] && ids[0] < ids[k];
        } else {
          assert ids[0] !in ids[1..];
        }
      }
    }
  }

  // ----- Progress -----

  /** Attempts left over all live rows. */
  ghost function Remaining(): Row -> int {
    (r: Row) => if Alive(r) then MAX_ATTEMPTS - r.attempts else 0
  }

  ghost function Deadness(): Row -> int {
    (r: Row) => if Dead(r) then 1 else 0
  }

  /** If the list holds no live row, it stops short only at the end of the table or at a full batch of dead rows. */
  lemma {:induction false} NoLiveListed(rows: seq<Row>, i: nat, limit: nat, live: nat)
    requires i <= live < |rows| && Alive(rows[live])
    requires forall k :: 0 <= k < |ListUnpublished(rows, i, limit)| ==> !Alive(rows[ListUnpublished(rows, i, limit)[k]])
    ensures Sum(rows[i..], Deadness()) >= limit
    decreases |rows| - i
  {
    DeadNonNegative(rows[i..]);
    if limit > 0 {
      var ids := ListUnpublished(rows, i, limit);
      assert rows[i..] == [rows[i]] + rows[i + 1..];
      SumConcat([rows[i]], rows[i + 1..], Deadness());
      SumAppend([], rows[i], Deadness());
      assert [] + [rows[i]] == [rows[i]];
      if Unpublished(rows[i]) {
        assert ids[0] == i;
        var rest := ListUnpublished(rows, i + 1, limit - 1);
        forall k | 0 <= k < |rest|
          ensures !Alive(rows[rest[k]])
        {
          assert ids[k + 1] == rest[k];
        }
        NoLiveListed(rows, i + 1, limit - 1, live);
      } else {
        NoLiveListed(rows, i + 1, limit, live);
      }
    }
  }

  lemma DeadNonNegative(rows: seq<Row>)
    ensures Sum(rows, Deadness()) >= 0
  {
    SumAtMost(rows, rows, (r: Row) => 0, Deadness());
    SumZero(rows, (r: Row) => 0);
  }

  /** With fewer than a batch of dead rows, a live row is always within reach. */
  lemma {:induction false} LiveRowListed(rows: seq<Row>, live: nat) returns (k: nat)
    requires live < |rows| && Alive(rows[live])
    requires Sum(rows, Deadness()) < BATCH
    ensures k < |ListUnpublished(rows, 0, BATCH)| && Alive(rows[ListUnpublished(rows, 0, BATCH)[k]])
  {
    var ids := ListUnpublished(rows, 0, BATCH);
    assert rows[0..] == rows;
    if forall j :: 0 <= j < |ids| ==> !Alive(rows[ids[j]]) {
      NoLiveListed(rows, 0, BATCH, live);
    }
    k :| k < |ids| && Alive(rows[ids[k]]);
  }

  lemma HandledRemaining(r: Row, reply: Reply, now: int)
    ensures Remaining()(Handled(r, reply, now)) <= Remaining()(r)
    ensures Alive(r) && reply.stored ==> Remaining()(Handled(r, reply, now)) < Remaining()(r)
  {
  }

  /**
   * Whatever publishing does: if the store accepts writes, a poll uses up attempts exactly if its list
   * holds a live row. Otherwise it changes nothing at all, however many live rows wait behind.
   */
  lemma {:induction false} PollProgressIff(s: State, replies: seq<Reply>, now: int)
    requires Covers(s, replies) && forall k :: 0 <= k < |replies| ==> replies[k].stored
    ensures var ids := ListUnpublished(s.rows, 0, BATCH);
            var s' := Poll(s, replies, now);
            if exists k :: 0 <= k < |ids| && Alive(s.rows[ids[k]])
            then Sum(s'.rows, Remaining()) < Sum(s.rows, Remaining())
            else s' == s
  {
    var ids := ListUnpublished(s.rows, 0, BATCH);
    var s' := Poll(s, replies, now);
    PollRows(s, ids, replies, now);
    forall i | 0 <= i < |s.rows|
      ensures Remaining()(s'.rows[i]) <= Remaining()(s.rows[i])
    {
      if i in ids {
        var k: nat :| k < |ids| && ids[k] == i;
        HandledRemaining(s.rows[i], replies[k], now);
      }
    }
    if k: nat :| k < |ids| && Alive(s.rows[ids[k]]) {
      HandledRemaining(s.rows[ids[k]], replies[k], now);
      SumBelow(s'.rows, s.rows, Remaining(), Remaining(), ids[k]);
    } else {
      DeadListChangesNothing(s, ids, replies, now);
    }
  }

  lemma {:induction false} DeadListChangesNothing(s: State, ids: seq<nat>, replies: seq<Reply>, now: int)
    requires forall k :: 0 <= k < |ids| ==> ids[k] < |s.rows| && !Alive(s.rows[ids[k]])
    ensures PollEach(s, ids, replies, now) == s
    decreases |ids|
  {
    if ids != [] && replies != [] {
      assert s.rows[ids[0] := s.rows[ids[0]]] == s.rows && s.emitted + [] == s.emitted;
      DeadListChangesNothing(s, ids[1..], replies[1..], now);
    }
  }

  /** So with fewer than a batch of dead rows, and a live one, every poll makes progress. */
  lemma {:induction false} PollProgress(s: State, replies: seq<Reply>, now: int, live: nat)
    requires Covers(s, replies) && forall k :: 0 <= k < |replies| ==> replies[k].stored
    requires live < |s.rows| && Alive(s.rows[live])
    requires Sum(s.rows, Deadness()) < BATCH
    ensures Sum(Poll(s, replies, now).rows, Remaining()) < Sum(s.rows, Remaining())
  {
    var k := LiveRowListed(s.rows, live);
    PollProgressIff(s, replies, now);
  }

  /** A poll marks a row published only after its own event was published, and emits nothing else. */
  lemma {:induction false} PublishedAfterPublish(s: State, replies: seq<Reply>, now: int, i: nat)
    requires i < |s.rows| && Unpublished(s.rows[i])
    requires var s' := Poll(s, replies, now); i < |s'.rows| && !Unpublished(s'.rows[i])
    ensures var ids := ListUnpublished(s.rows, 0, BATCH);
            exists k :: 0 <= k < |ids| && k < |replies| && ids[k] == i && Alive(s.rows[i]) && replies[k] == Reply(true, true)
    ensures Poll(s, replies, now).rows[i] == s.rows[i].(publishedAt := Some(now))
  {
    var ids := ListUnpublished(s.rows, 0, BATCH);
    PollRows(s, ids, replies, now);
    var k: nat :| k < |ids| && ids[k] == i;
  }

  /** While the broker is down nothing is emitted, and every listed live row has used up one attempt. */
  lemma {:induction false} BrokerDown(s: State, ids: seq<nat>, replies: seq<Reply>, now: int)
    requires forall k :: 0 <= k < |ids| ==> ids[k] < |s.rows|
    requires forall j, k :: 0 <= j < k < |ids| ==> ids[j] < ids[k]
    requires |replies| == |ids| && forall k :: 0 <= k < |replies| ==> replies[k] == Reply(false, true)
    ensures PollEach(s, ids, replies, now).emitted == s.emitted
    ensures |PollEach(s, ids, replies, now).rows| == |s.rows|
    ensures forall k :: 0 <= k < |ids| && Alive(s.rows[ids[k]]) ==>
              PollEach(s, ids, replies, now).rows[ids[k]] == s.rows[ids[k]].(attempts := s.rows[ids[k]].attempts + 1)
    decreases |ids|
  {
    PollRows(s, ids, replies, now);
    if ids != [] {
      assert s.emitted + [] == s.emitted;
      var s1 := PollOne(s, ids[0], replies[0], now);
      BrokerDown(s1, ids[1..], replies[1..], now);
    }
  }

  // ----- Runs -----

  datatype Event =
    | Add(event: int)
    | Tick(replies: seq<Reply>, now: int)
    | Sweep(now: int)

  function Next(s: State, e: Event): State {
    match e
    case Add(event) => Insert(s, event)
    case Tick(replies, now) => Poll(s, replies, now)
    case Sweep(now) => Cleanup(s, now)
  }

  function RunFrom(s: State, events: seq<Event>): State {
    if events == [] then s else Next(RunFrom(s, events[..|events| - 1]), events[|events| - 1])
  }

  function Run(events: seq<Event>): State {
    RunFrom(State([], [], []), events)
  }

  /** Attempts stay within the cap, a published row has been emitted, and only inserted events are. */
  ghost predicate Safe(s: State) {
    && (forall i :: 0 <= i < |s.rows| ==>
          && 0 <= s.rows[i].attempts <= 10
          && s.rows[i].event in s.inserted
          && (s.rows[i].publishedAt.Some? ==> s.rows[i].event in s.emitted))
    && (forall e :: e in s.emitted ==> e in s.inserted)
  }

  /** Every inserted event is still in the table or has been emitted: nothing is dropped unsent. */
  ghost predicate NothingLost(s: State) {
    forall e :: e in s.inserted ==> e in s.emitted || exists i :: 0 <= i < |s.rows| && s.rows[i].event == e
  }

  lemma {:induction false} PollSafe(s: State, ids: seq<nat>, replies: seq<Reply>, now: int)
    requires Safe(s)
    ensures var s' := PollEach(s, ids, replies, now);
            && Safe(s') && |s'.rows| == |s.rows| && s'.inserted == s.inserted && s.emitted <= s'.emitted
            && forall i :: 0 <= i < |s.rows| ==> s'.rows[i].event == s.rows[i].event
    decreases |ids|
  {
    if ids != [] && replies != [] {
      var s1 := PollOne(s, ids[0], replies[0], now);
      assert Safe(s1);
      PollSafe(s1, ids[1..], replies[1..], now);
    }
  }

  lemma {:induction false} KeptMembers(rows: seq<Row>, cutoff: int)
    ensures forall r :: r in Kept(rows, cutoff) <==> r in rows && (r.publishedAt.Some? ==> r.publishedAt.value >= cutoff)
  {
    if rows != [] {
      KeptMembers(rows[..|rows| - 1], cutoff);
      assert rows == rows[..|rows| - 1] + [rows[|rows| - 1]];
    }
  }

  /**
   * A sweep keeps exactly the rows that are unpublished or were published at the cutoff or later, each as often as
   * before and in the same order: at gives their former positions.
   */
  lemma {:induction false} KeptExactly(rows: seq<Row>, cutoff: int) returns (at: seq<nat>)
    ensures |at| == |Kept(rows, cutoff)|
    ensures forall k :: 0 <= k < |at| ==> at[k] < |rows| && Kept(rows, cutoff)[k] == rows[at[k]]
    ensures forall j, k :: 0 <= j < k < |at| ==> at[j] < at[k]
    ensures forall i: nat :: i in at <==> i < |rows| && (rows[i].publishedAt.Some? ==> rows[i].publishedAt.value >= cutoff)
  {
    at := [];
    if rows != [] {
      var n := |rows| - 1;
      at := KeptExactly(rows[..n], cutoff);
      if rows[n].publishedAt.Some? ==> rows[n].publishedAt.value >= cutoff {
        at := at + [n];
      }
    }
  }

  lemma NextSafe(s: State, e: Event)
    requires Safe(s) && NothingLost(s)
    ensures Safe(Next(s, e)) && NothingLost(Next(s, e))
  {
    var s' := Next(s, e);
    match e
    case Add(event) =>
      assert s'.rows[|s.rows|].event == event;
      forall x | x in s'.inserted && x !in s'.emitted
        ensures exists i :: 0 <= i < |s'.rows| && s'.rows[i].event == x
      {
        if x in s.inserted {
          var i :| 0 <= i < |s.rows| && s.rows[i].event == x;
          assert s'.rows[i].event == x;
        }
      }
    case Tick(replies, now) =>
      PollSafe(s, ListUnpublished(s.rows, 0, BATCH), replies, now);
      forall x | x in s'.inserted && x !in s'.emitted
        ensures exists i :: 0 <= i < |s'.rows| && s'.rows[i].event == x
      {
        var i :| 0 <= i < |s.rows| && s.rows[i].event == x;
        assert s'.rows[i].event == x;
      }
    case Sweep(now) =>
      KeptMembers(s.rows, now - RETENTION);
      forall i | 0 <= i < |s'.rows|
        ensures s'.rows[i] in s.rows
      {
        assert s'.rows[i] in s'.rows;
      }
      forall x | x in s'.inserted && x !in s'.emitted
        ensures exists i :: 0 <= i < |s'.rows| && s'.rows[i].event == x
      {
        var i :| 0 <= i < |s.rows| && s.rows[i].event == x;
        assert s.rows[i] in s'.rows;
      }
  }

  /**
   * Over every run, whatever publishing and the store do: no row exceeds the attempt cap, a row is marked
   * published only after its event was published, and no event leaves the table unpublished.
   */
  lemma {:induction false} RelaySafe(events: seq<Event>)
    ensures Safe(Run(events)) && NothingLost(Run(events))
  {
    if events != [] {
      RelaySafe(events[..|events| - 1]);
      NextSafe(Run(events[..|events| - 1]), events[|events| - 1]);
    }
  }

  // ----- How often -----

  ghost function Is(event: int): int -> int {
    (e: int) => if e == event then 1 else 0
  }

  ghost function WaitsFor(event: int): Row -> int {
    (r: Row) => if Unpublished(r) && r.event == event then 1 else 0
  }

  /** Whether the row's event was published while the mark was not stored. */
  ghost function Unmarked(r: Row, reply: Reply, event: int): nat {
    if Alive(r) && reply.published && !reply.stored && r.event == event then 1 else 0
  }

  ghost function UnmarkedIn(s: State, ids: seq<nat>, replies: seq<Reply>, now: int, event: int): nat
    decreases |ids|
  {
    if ids == [] || replies == [] then 0
    else
      (if ids[0] < |s.rows| then Unmarked(s.rows[ids[0]], replies[0], event) else 0)
      + UnmarkedIn(PollOne(s, ids[0], replies[0], now), ids[1..], replies[1..], now, event)
  }

  /** How often in a run an event was published without being marked. */
  ghost function UnmarkedBy(events: seq<Event>, event: int): nat {
    if events == [] then 0
    else
      var s := Run(events[..|events| - 1]);
      UnmarkedBy(events[..|events| - 1], event) +
      match events[|events| - 1]
      case Tick(replies, now) => UnmarkedIn(s, ListUnpublished(s.rows, 0, BATCH), replies, now, event)
      case _ => 0
  }

  /** One row: an emission takes the event off the waiting rows, or goes unmarked. */
  lemma OneCounts(s: State, id: nat, reply: Reply, now: int, event: int)
    requires id < |s.rows|
    ensures var s' := PollOne(s, id, reply, now);
            Sum(s'.emitted, Is(event)) + Sum(s'.rows, WaitsFor(event))
              == Sum(s.emitted, Is(event)) + Sum(s.rows, WaitsFor(event)) + Unmarked(s.rows[id], reply, event)
  {
    var r := s.rows[id];
    SumUpdate(s.rows, id, Handled(r, reply, now), WaitsFor(event));
    if Emission(r, reply) == [] {
      assert s.emitted + [] == s.emitted;
    } else {
      SumAppend(s.emitted, r.event, Is(event));
    }
  }

  lemma {:induction false} PollCounts(s: State, ids: seq<nat>, replies: seq<Reply>, now: int, event: int)
    ensures var s' := PollEach(s, ids, replies, now);
            && s'.inserted == s.inserted
            && Sum(s'.emitted, Is(event)) + Sum(s'.rows, WaitsFor(event))
                 == Sum(s.emitted, Is(event)) + Sum(s.rows, WaitsFor(event)) + UnmarkedIn(s, ids, replies, now, event)
    decreases |ids|
  {
    if ids != [] && replies != [] {
      if ids[0] < |s.rows| {
        OneCounts(s, ids[0], replies[0], now, event);
      }
      PollCounts(PollOne(s, ids[0], replies[0], now), ids[1..], replies[1..], now, event);
    }
  }

  lemma {:induction false} SweepCounts(rows: seq<Row>, cutoff: int, event: int)
    ensures Sum(Kept(rows, cutoff), WaitsFor(event)) == Sum(rows, WaitsFor(event))
  {
    if rows != [] {
      SweepCounts(rows[..|rows| - 1], cutoff, event);
      SumAppend(Kept(rows[..|rows| - 1], cutoff), rows[|rows| - 1], WaitsFor(event));
    }
  }

  /**
   * Over every run, an event has been emitted, or still waits, as often as it was inserted, and has been emitted once
   * more for each time it was published and the mark was not stored.
   */
  lemma {:induction false} EmissionsCounted(events: seq<Event>, event: int)
    ensures var s := Run(events);
            Sum(s.emitted, Is(event)) + Sum(s.rows, WaitsFor(event)) == Sum(s.inserted, Is(event)) + UnmarkedBy(events, event)
  {
    if events != [] {
      EmissionsCounted(events[..|events| - 1], event);
      var s := Run(events[..|events| - 1]);
      match events[|events| - 1]
      case Add(e) =>
        SumAppend(s.rows, Row(e, 0, None), WaitsFor(event));
        SumAppend(s.inserted, e, Is(event));
      case Tick(replies, now) => PollCounts(s, ListUnpublished(s.rows, 0, BATCH), replies, now, event);
      case Sweep(now) => SweepCounts(s.rows, now - RETENTION, event);
    }
  }

  /** Whatever was published in the event was also marked. */
  predicate Marks(e: Event) {
    e.Tick? ==> forall k :: 0 <= k < |e.replies| && e.replies[k].published ==> e.replies[k].stored
  }

  lemma {:induction false} PollMarks(s: State, ids: seq<nat>, replies: seq<Reply>, now: int, event: int)
    requires forall k :: 0 <= k < |replies| && replies[k].published ==> replies[k].stored
    ensures UnmarkedIn(s, ids, replies, now, event) == 0
    decreases |ids|
  {
    if ids != [] && replies != [] {
      PollMarks(PollOne(s, ids[0], replies[0], now), ids[1..], replies[1..], now, event);
    }
  }

  lemma {:induction false} NoneUnmarked(events: seq<Event>, event: int)
    requires forall i :: 0 <= i < |events| ==> Marks(events[i])
    ensures UnmarkedBy(events, event) == 0
  {
    if events != [] {
      NoneUnmarked(events[..|events| - 1], event);
      var s, e := Run(events[..|events| - 1]), events[|events| - 1];
      assert Marks(e);
      if e.Tick? {
        PollMarks(s, ListUnpublished(s.rows, 0, BATCH), e.replies, e.now, event);
      }
    }
  }

  /** So if every mark is stored, whatever else fails, each insertion is emitted exactly once or still waits. */
  lemma {:induction false} EmittedOnce(events: seq<Event>, event: int)
    requires forall i :: 0 <= i < |events| ==> Marks(events[i])
    ensures var s := Run(events);
            Sum(s.emitted, Is(event)) + Sum(s.rows, WaitsFor(event)) == Sum(s.inserted, Is(event))
  {
    EmissionsCounted(events, event);
    NoneUnmarked(events, event);
  }

  /** An event is inserted, and n polls publish it without being able to mark it. */
  function UnmarkedPolls(event: int, n: nat): seq<Event> {
    [Add(event)] + seq(n, i => Tick([Reply(true, false)], i))
  }

  /** There is no bound otherwise: such polls use up no attempt, and each emits the event again. */
  lemma {:induction false} EmittedEveryPoll(event: int, n: nat)
    ensures var s := Run(UnmarkedPolls(event, n)); Sum(s.emitted, Is(event)) == n && s.rows == [Row(event, 0, None)]
  {
    var events := UnmarkedPolls(event, n);
    if n == 0 {
      assert events == [Add(event)];
      assert Run([Add(event)]) == Insert(Run([]), event) by { assert [Add(event)][..0] == []; }
    } else {
      assert events[..|events| - 1] == UnmarkedPolls(event, n - 1);
      EmittedEveryPoll(event, n - 1);
      UnmarkedPoll(Run(UnmarkedPolls(event, n - 1)), event, n - 1);
    }
  }

  lemma UnmarkedPoll(s: State, event: int, now: int)
    requires s.rows == [Row(event, 0, None)]
    ensures Poll(s, [Reply(true, false)], now) == s.(emitted := s.emitted + [event])
    ensures Sum(s.emitted + [event], Is(event)) == Sum(s.emitted, Is(event)) + 1
  {
    SumAppend(s.emitted, event, Is(event));
    assert ListUnpublished(s.rows, 0, BATCH) == [0];
    var s1 := PollOne(s, 0, Reply(true, false), now);
    assert s.rows[0 := s.rows[0]] == s.rows;
    assert [0][1..] == [] && PollEach(s1, [0][1..], [Reply(true, false)][1..], now) == s1;
  }

  // ----- Order -----

  /** Publishing and the store answer every time, for the whole list. */
  predicate Smooth(s: State, e: Event) {
    e.Tick? ==> Covers(s, e.replies) && forall k :: 0 <= k < |e.replies| ==> e.replies[k] == Reply(true, true)
  }

  function Events(rows: seq<Row>): seq<int> {
    if rows == [] then [] else Events(rows[..|rows| - 1]) + [rows[|rows| - 1].event]
  }

  /** Published rows first, then untouched rows holding exactly what has not been emitted yet. */
  ghost predicate InOrder(s: State, p: nat) {
    && p <= |s.rows|
    && (forall i :: 0 <= i < p ==> s.rows[i].publishedAt.Some?)
    && (forall i :: p <= i < |s.rows| ==> s.rows[i].publishedAt.None? && s.rows[i].attempts == 0)
    && s.inserted == s.emitted + Events(s.rows[p..])
  }

  lemma {:induction false} EventsConcat(a: seq<Row>, b: seq<Row>)
    ensures Events(a + b) == Events(a) + Events(b)
  {
    if b == [] {
      assert a + b == a;
    } else {
      assert (a + b)[..|a + b| - 1] == a + b[..|b| - 1];
      EventsConcat(a, b[..|b| - 1]);
    }
  }

  /** In such a table the list is the first rows past the published ones. */
  lemma {:induction false} ListInOrder(rows: seq<Row>, i: nat, p: nat, limit: nat)
    requires i <= |rows| && p <= |rows|
    requires forall j :: 0 <= j < p ==> rows[j].publishedAt.Some?
    requires forall j :: p <= j < |rows| ==> rows[j].publishedAt.None?
    ensures var ids := ListUnpublished(rows, i, limit);
            var start := if i < p then p else i;
            && start + |ids| <= |rows|
            && forall k :: 0 <= k < |ids| ==> ids[k] == start + k
    decreases |rows| - i
  {
    if i < |rows| && limit > 0 {
      ListInOrder(rows, i + 1, p, if i < p then limit else limit - 1);
    }
  }

  lemma {:induction false} PollInOrder(s: State, p: nat, ids: seq<nat>, replies: seq<Reply>, now: int)
    requires InOrder(s, p)
    requires p + |ids| <= |s.rows| && forall k :: 0 <= k < |ids| ==> ids[k] == p + k
    requires |replies| >= |ids| && forall k :: 0 <= k < |replies| ==> replies[k] == Reply(true, true)
    ensures InOrder(PollEach(s, ids, replies, now), p + |ids|)
    decreases |ids|
  {
    if ids != [] {
      var r := s.rows[p];
      var s1 := PollOne(s, p, replies[0], now);
      assert s.rows[p..] == [r] + s1.rows[p + 1..];
      EventsConcat([r], s1.rows[p + 1..]);
      assert Events([r]) == [r.event] by { assert [r][..0] == []; }
      assert InOrder(s1, p + 1);
      PollInOrder(s1, p + 1, ids[1..], replies[1..], now);
    }
  }

  /** A sweep removes published rows only, so what is still to come stays. */
  lemma {:induction false} KeptSplit(a: seq<Row>, b: seq<Row>, cutoff: int)
    requires forall i :: 0 <= i < |b| ==> b[i].publishedAt.None?
    ensures Kept(a + b, cutoff) == Kept(a, cutoff) + b
  {
    if b == [] {
      assert a + b == a;
    } else {
      assert (a + b)[..|a + b| - 1] == a + b[..|b| - 1];
      KeptSplit(a, b[..|b| - 1], cutoff);
      assert b == b[..|b| - 1] + [b[|b| - 1]];
    }
  }

  lemma AddInOrder(s: State, event: int, p: nat)
    requires InOrder(s, p)
    ensures InOrder(Insert(s, event), p)
  {
    var rest := s.rows[p..] + [Row(event, 0, None)];
    assert Insert(s, event).rows[p..] == rest && rest[..|rest| - 1] == s.rows[p..];
  }

  lemma {:induction false} SweepInOrder(s: State, now: int, p: nat) returns (q: nat)
    requires InOrder(s, p)
    ensures InOrder(Cleanup(s, now), q)
  {
    var cutoff := now - RETENTION;
    var kept := Kept(s.rows[..p], cutoff);
    assert s.rows == s.rows[..p] + s.rows[p..];
    KeptSplit(s.rows[..p], s.rows[p..], cutoff);
    KeptMembers(s.rows[..p], cutoff);
    assert forall i :: 0 <= i < |kept| ==> kept[i] in kept;
    q := |kept|;
    assert Cleanup(s, now).rows[q..] == s.rows[p..];
  }

  lemma NextInOrder(s: State, e: Event, p: nat) returns (q: nat)
    requires InOrder(s, p) && Smooth(s, e)
    ensures InOrder(Next(s, e), q)
  {
    match e
    case Add(event) =>
      AddInOrder(s, event, p);
      q := p;
    case Tick(replies, now) =>
      var ids := ListUnpublished(s.rows, 0, BATCH);
      ListInOrder(s.rows, 0, p, BATCH);
      PollInOrder(s, p, ids, replies, now);
      q := p + |ids|;
    case Sweep(now) =>
      q := SweepInOrder(s, now, p);
  }

  ghost predicate SmoothRun(events: seq<Event>) {
    forall i :: 0 <= i < |events| ==> Smooth(Run(events[..i]), events[i])
  }

  /** If publishing and the store never fail, one relay emits exactly a prefix of what was inserted, in order. */
  lemma {:induction false} EmitsPrefix(events: seq<Event>) returns (p: nat)
    requires SmoothRun(events)
    ensures InOrder(Run(events), p)
    ensures Run(events).emitted <= Run(events).inserted
  {
    if events == [] {
      p := 0;
    } else {
      var init := events[..|events| - 1];
      forall i | 0 <= i < |init|
        ensures Smooth(Run(init[..i]), init[i])
      {
        assert init[..i] == events[..i];
      }
      var p0 := EmitsPrefix(init);
      p := NextInOrder(Run(init), events[|events| - 1], p0);
    }
  }

  // ----- Blocking -----

  /** The unpublished rows, in order. */
  function Waiting(rows: seq<Row>): seq<Row> {
    if rows == [] then []
    else
      var rest := Waiting(rows[..|rows| - 1]);
      if Unpublished(rows[|rows| - 1]) then rest + [rows[|rows| - 1]] else rest
  }

  lemma {:induction false} WaitingConcat(a: seq<Row>, b: seq<Row>)
    ensures Waiting(a + b) == Waiting(a) + Waiting(b)
  {
    if b == [] {
      assert a + b == a;
    } else {
      assert (a + b)[..|a + b| - 1] == a + b[..|b| - 1];
      WaitingConcat(a, b[..|b| - 1]);
    }
  }

  lemma WaitingCons(r: Row, rows: seq<Row>)
    ensures Waiting([r] + rows) == if Unpublished(r) then [r] + Waiting(rows) else Waiting(rows)
  {
    WaitingConcat([r], rows);
    assert [r][..0] == [];
  }

  /** The list is the front of the waiting rows. */
  lemma {:induction false} ListIsFront(rows: seq<Row>, i: nat, limit: nat, k: nat)
    requires i <= |rows| && k < |ListUnpublished(rows, i, limit)|
    ensures k < |Waiting(rows[i..])| && rows[ListUnpublished(rows, i, limit)[k]] == Waiting(rows[i..])[k]
    decreases |rows| - i
  {
    assert rows[i..] == [rows[i]] + rows[i + 1..];
    WaitingCons(rows[i], rows[i + 1..]);
    if !Unpublished(rows[i]) {
      ListIsFront(rows, i + 1, limit, k);
    } else if k > 0 {
      ListIsFront(rows, i + 1, limit - 1, k - 1);
    }
  }

  /** A full batch of dead rows waits in front of everything else. */
  predicate Blocked(s: State) {
    |Waiting(s.rows)| >= BATCH && forall k :: 0 <= k < BATCH ==> Dead(Waiting(s.rows)[k])
  }

  lemma {:induction false} SweepKeepsWaiting(rows: seq<Row>, cutoff: int)
    ensures Waiting(Kept(rows, cutoff)) == Waiting(rows)
  {
    if rows != [] {
      var init, r := rows[..|rows| - 1], rows[|rows| - 1];
      SweepKeepsWaiting(init, cutoff);
      var kept := Kept(init, cutoff);
      assert (kept + [r])[..|kept|] == kept;
    }
  }

  lemma NextBlocked(s: State, e: Event)
    requires Blocked(s)
    ensures Blocked(Next(s, e)) && Next(s, e).emitted == s.emitted
  {
    match e
    case Add(event) =>
      assert (s.rows + [Row(event, 0, None)])[..|s.rows|] == s.rows;
    case Tick(replies, now) =>
      var ids := ListUnpublished(s.rows, 0, BATCH);
      assert s.rows[0..] == s.rows;
      forall k | 0 <= k < |ids|
        ensures !Alive(s.rows[ids[k]])
      {
        ListIsFront(s.rows, 0, BATCH, k);
      }
      DeadListChangesNothing(s, ids, replies, now);
    case Sweep(now) => SweepKeepsWaiting(s.rows, now - RETENTION);
  }

  /**
   * Dead rows are never removed. Once a full batch of them waits in front, no poll of any later run
   * emits anything, whatever is inserted behind them.
   */
  lemma {:induction false} BlockedForever(s: State, events: seq<Event>)
    requires Blocked(s)
    ensures Blocked(RunFrom(s, events)) && RunFrom(s, events).emitted == s.emitted
  {
    if events != [] {
      BlockedForever(s, events[..|events| - 1]);
      NextBlocked(RunFrom(s, events[..|events| - 1]), events[|events| - 1]);
    }
  }

  lemma {:induction false} ListLength(rows: seq<Row>, i: nat, limit: nat)
    requires i <= |rows|
    ensures |ListUnpublished(rows, i, limit)| == if |Waiting(rows[i..])| < limit then |Waiting(rows[i..])| else limit
    decreases |rows| - i
  {
    if i < |rows| && limit > 0 {
      assert rows[i..] == [rows[i]] + rows[i + 1..];
      WaitingCons(rows[i], rows[i + 1..]);
      ListLength(rows, i + 1, if Unpublished(rows[i]) then limit - 1 else limit);
    }
  }

  /** A live row within the first batch of waiting rows is listed, and so can be emitted. */
  lemma LiveInFront(s: State, k: nat, now: int)
    requires k < BATCH && k < |Waiting(s.rows)| && Alive(Waiting(s.rows)[k])
    ensures CanEmit(s, now)
  {
    assert s.rows[0..] == s.rows;
    ListLength(s.rows, 0, BATCH);
    ListIsFront(s.rows, 0, BATCH, k);
    assert ListUnpublished(s.rows, 0, BATCH)[k] in ListUnpublished(s.rows, 0, BATCH);
    EmitsIffNotStuck(s, now);
  }

  lemma {:induction false} WaitingUnpublished(rows: seq<Row>)
    ensures forall k :: 0 <= k < |Waiting(rows)| ==> Unpublished(Waiting(rows)[k])
  {
    if rows != [] {
      WaitingUnpublished(rows[..|rows| - 1]);
    }
  }

  /** If not blocked, the relay emits something after at most one insert and one poll. */
  lemma {:induction false} UnblockedEmits(s: State) returns (events: seq<Event>)
    requires !Blocked(s)
    ensures |events| <= 2 && RunFrom(s, events).emitted != s.emitted
  {
    WaitingUnpublished(s.rows);
    if |Waiting(s.rows)| < BATCH {
      var s1 := Insert(s, 0);
      assert s1.rows[..|s.rows|] == s.rows;
      LiveInFront(s1, |Waiting(s.rows)|, 0);
      var replies :| Poll(s1, replies, 0).emitted != s1.emitted;
      events := [Add(0), Tick(replies, 0)];
      assert RunFrom(s, [Add(0)]) == s1 by { assert [Add(0)][..0] == []; }
      assert events[..1] == [Add(0)];
    } else {
      var k: nat :| k < BATCH && !Dead(Waiting(s.rows)[k]);
      LiveInFront(s, k, 0);
      var replies :| Poll(s, replies, 0).emitted != s.emitted;
      events := [Tick(replies, 0)];
      assert events[..0] == [];
    }
  }

  /** Fifty rows with ten failed attempts in front of the others are exactly what stops the relay for good. */
  lemma {:induction false} BlockedForeverIff(s: State)
    ensures |Waiting(s.rows)| >= 50 && (forall k :: 0 <= k < 50 ==> Waiting(s.rows)[k].attempts >= 10) <==>
            forall events :: RunFrom(s, events).emitted == s.emitted
  {
    WaitingUnpublished(s.rows);
    if Blocked(s) {
      forall events
        ensures RunFrom(s, events).emitted == s.emitted
      {
        BlockedForever(s, events);
      }
    } else {
      var events := UnblockedEmits(s);
    }
  }

  function Adds(events: seq<int>): seq<Event> {
    seq(|events|, i requires 0 <= i < |events| => Add(events[i]))
  }

  /** Polls during which every publish fails and every failure is counted. */
  function DownPolls(n: nat): seq<Event> {
    seq(n, i => Tick(seq(BATCH, j => Reply(false, true)), i))
  }

  lemma {:induction false} AddsRows(events: seq<int>)
    ensures Run(Adds(events)).emitted == [] && |Run(Adds(events)).rows| == |events|
    ensures forall i :: 0 <= i < |events| ==> Run(Adds(events)).rows[i] == Row(events[i], 0, None)
  {
    if events != [] {
      var n := |events| - 1;
      AddsRows(events[..n]);
      assert Adds(events)[..n] == Adds(events[..n]);
    }
  }

  lemma DownPoll(s: State, now: int)
    requires |s.rows| == BATCH && forall i :: 0 <= i < BATCH ==> Alive(s.rows[i])
    ensures var s' := Poll(s, seq(BATCH, j => Reply(false, true)), now);
            && s'.emitted == s.emitted && |s'.rows| == BATCH
            && forall i :: 0 <= i < BATCH ==> s'.rows[i] == s.rows[i].(attempts := s.rows[i].attempts + 1)
  {
    var ids := ListUnpublished(s.rows, 0, BATCH);
    ListInOrder(s.rows, 0, 0, BATCH);
    ListLength(s.rows, 0, BATCH);
    assert s.rows[0..] == s.rows;
    AllWaiting(s.rows);
    BrokerDown(s, ids, seq(BATCH, j => Reply(false, true)), now);
    forall i | 0 <= i < BATCH
      ensures Poll(s, seq(BATCH, j => Reply(false, true)), now).rows[i] == s.rows[i].(attempts := s.rows[i].attempts + 1)
    {
      assert ids[i] == i && Alive(s.rows[ids[i]]);
    }
  }

  lemma {:induction false} DownPollsRows(events: seq<int>, n: nat)
    requires |events| == BATCH && n <= MAX_ATTEMPTS
    ensures var s := Run(Adds(events) + DownPolls(n));
            && s.emitted == [] && |s.rows| == BATCH
            && forall i :: 0 <= i < BATCH ==> s.rows[i] == Row(events[i], n, None)
  {
    if n == 0 {
      AddsRows(events);
      assert Adds(events) + DownPolls(0) == Adds(events);
    } else {
      DownPollsRows(events, n - 1);
      var run, before := Adds(events) + DownPolls(n), Adds(events) + DownPolls(n - 1);
      assert run[..|run| - 1] == before;
      DownPoll(Run(before), n - 1);
    }
  }

  lemma {:induction false} AllWaiting(rows: seq<Row>)
    requires forall i :: 0 <= i < |rows| ==> Unpublished(rows[i])
    ensures Waiting(rows) == rows
  {
    if rows != [] {
      AllWaiting(rows[..|rows| - 1]);
    }
  }

  /** Fifty events and ten polls while the broker is down block the relay: when the broker is back, nothing is emitted ever again. */
  lemma {:induction false} OutageBlocks(events: seq<int>, later: seq<Event>)
    requires |events| == 50
    ensures RunFrom(Run(Adds(events) + DownPolls(10)), later).emitted == []
  {
    DownPollsRows(events, MAX_ATTEMPTS);
    var s := Run(Adds(events) + DownPolls(MAX_ATTEMPTS));
    AllWaiting(s.rows);
    BlockedForever(s, later);
  }

  /**
   * What a poll does to any one row: it writes exactly the rows that are unpublished, have fewer than ten failed
   * attempts, and have fewer than fifty unpublished rows before them, if the store takes the write.
   */
  lemma {:induction false} PollRow(s: State, replies: seq<Reply>, now: int, i: nat)
    requires i < |s.rows|
    ensures var s', r, k := Poll(s, replies, now), s.rows[i], |Waiting(s.rows[..i])|;
            && |s'.rows| == |s.rows|
            && s'.rows[i] == if r.publishedAt.None? && r.attempts < 10 && k < 50 && k < |replies| && replies[k].stored
                             then if replies[k].published then r.(publishedAt := Some(now)) else r.(attempts := r.attempts + 1)
                             else r
  {
    var ids, k := ListUnpublished(s.rows, 0, BATCH), |Waiting(s.rows[..i])|;
    PollRows(s, ids, replies, now);
    assert s.rows[0..] == s.rows && s.rows[0..i] == s.rows[..i];
    if i in ids {
      var j: nat :| j < |ids| && ids[j] == i;
      ListPosition(s.rows, 0, BATCH, j);
    } else if Unpublished(s.rows[i]) {
      NotListed(s.rows, 0, BATCH, i);
    }
  }

  /** The position in the list is the number of unpublished rows before. */
  lemma {:induction false} ListPosition(rows: seq<Row>, i: nat, limit: nat, j: nat)
    requires i <= |rows| && j < |ListUnpublished(rows, i, limit)|
    ensures |Waiting(rows[i..ListUnpublished(rows, i, limit)[j]])| == j
    decreases |rows| - i
  {
    var at := ListUnpublished(rows, i, limit)[j];
    if at > i {
      assert rows[i..at] == [rows[i]] + rows[i + 1..at];
      WaitingCons(rows[i], rows[i + 1..at]);
      if Unpublished(rows[i]) {
        ListPosition(rows, i + 1, limit - 1, j - 1);
      } else {
        ListPosition(rows, i + 1, limit, j);
      }
    }
  }

  /** An unpublished row is left off the list only behind a full one. */
  lemma {:induction false} NotListed(rows: seq<Row>, i: nat, limit: nat, at: nat)
    requires i <= at < |rows| && Unpublished(rows[at]) && at !in ListUnpublished(rows, i, limit)
    ensures |Waiting(rows[i..at])| >= limit
    decreases |rows| - i
  {
    if limit > 0 {
      assert at > i;
      assert rows[i..at] == [rows[i]] + rows[i + 1..at];
      WaitingCons(rows[i], rows[i + 1..at]);
      var rest := if Unpublished(rows[i]) then limit - 1 else limit;
      assert at !in ListUnpublished(rows, i + 1, rest);
      NotListed(rows, i + 1, rest, at);
    }
  }

  /** The sweep deletes exactly the rows published more than seven days ago, and nothing is emitted. */
  lemma {:induction false} SweptExactly(s: State, now: int) returns (at: seq<nat>)
    ensures var s' := Next(s, Sweep(now));
            && s'.emitted == s.emitted && s'.inserted == s.inserted && |s'.rows| == |at|
            && (forall k :: 0 <= k < |at| ==> at[k] < |s.rows| && s'.rows[k] == s.rows[at[k]])
            && (forall j, k :: 0 <= j < k < |at| ==> at[j] < at[k])
    ensures forall i: nat :: i in at <==> i < |s.rows| && (s.rows[i].publishedAt.None? || now - s.rows[i].publishedAt.value <= 604800)
  {
    at := KeptExactly(s.rows, now - RETENTION);
  }

  /** What a poll emits is what it publishes: nothing, if no publish succeeds or no row is left to try. */
  lemma {:induction false} PollEmitsOnlyPublished(s: State, ids: seq<nat>, replies: seq<Reply>, now: int)
    requires forall k :: 0 <= k < |replies| ==> !replies[k].published
    ensures PollEach(s, ids, replies, now).emitted == s.emitted
    decreases |ids|
  {
    if ids != [] && replies != [] {
      assert s.emitted + [] == s.emitted;
      PollEmitsOnlyPublished(PollOne(s, ids[0], replies[0], now), ids[1..], replies[1..], now);
    }
  }

  ghost predicate CanEmit(s: State, now: int) {
    exists replies: seq<Reply> :: Poll(s, replies, now).emitted != s.emitted
  }

  ghost predicate ListsLiveRow(s: State) {
    exists id :: id in ListUnpublished(s.rows, 0, BATCH) && Alive(s.rows[id])
  }

  lemma LiveListEmits(s: State, now: int) returns (replies: seq<Reply>)
    requires ListsLiveRow(s)
    ensures Poll(s, replies, now).emitted != s.emitted
  {
    var ids := ListUnpublished(s.rows, 0, BATCH);
    var id :| id in ids && Alive(s.rows[id]);
    var k: nat :| k < |ids| && ids[k] == id;
    replies := seq(|ids|, j requires 0 <= j < |ids| => Reply(true, true));
    EmitsSome(s, ids, replies, now, k);
  }

  /** The next poll can emit something exactly if its list holds a live row. */
  lemma {:induction false} EmitsIffNotStuck(s: State, now: int)
    ensures CanEmit(s, now) <==> ListsLiveRow(s)
  {
    if ListsLiveRow(s) {
      var replies := LiveListEmits(s, now);
    } else {
      var ids := ListUnpublished(s.rows, 0, BATCH);
      assert forall k :: 0 <= k < |ids| ==> ids[k] in ids;
      forall replies
        ensures Poll(s, replies, now) == s
      {
        DeadListChangesNothing(s, ids, replies, now);
      }
    }
  }

  lemma {:induction false} EmitsSome(s: State, ids: seq<nat>, replies: seq<Reply>, now: int, k: nat)
    requires k < |ids| == |replies| && forall j :: 0 <= j < |ids| ==> ids[j] < |s.rows|
    requires forall i, j :: 0 <= i < j < |ids| ==> ids[i] < ids[j]
    requires forall j :: 0 <= j < |replies| ==> replies[j] == Reply(true, true)
    requires Alive(s.rows[ids[k]])
    ensures |PollEach(s, ids, replies, now).emitted| > |s.emitted|
    decreases |ids|
  {
    var s1 := PollOne(s, ids[0], replies[0], now);
    if k > 0 {
      EmitsSome(s1, ids[1..], replies[1..], now, k - 1);
    } else {
      EmitsMore(s1, ids[1..], replies[1..], now);
    }
  }

  lemma {:induction false} EmitsMore(s: State, ids: seq<nat>, replies: seq<Reply>, now: int)
    ensures |PollEach(s, ids, replies, now).emitted| >= |s.emitted|
    decreases |ids|
  {
    if ids != [] && replies != [] {
      EmitsMore(PollOne(s, ids[0], replies[0], now), ids[1..], replies[1..], now);
    }
  }

  // ----- The relay -----

  class OutboxRelay {
    var rows: seq<Row>
    ghost var emitted: seq<int>
    ghost var inserted: seq<int>

    ghost function View(): State
      reads this
    {
      State(rows, emitted, inserted)
    }

    constructor ()
      ensures View() == Run([])
    {
      rows, emitted, inserted := [], [], [];
    }

    method InsertEvent(event: int)
      modifies this
      ensures View() == Insert(old(View()), event)
    {
      rows := rows + [Row(event, 0, None)];
      inserted := inserted + [event];
    }

    method MarkPublished(id: nat, now: int, ok: bool)
      requires id < |rows|
      modifies this`rows
      ensures rows == if ok then old(rows)[id := old(rows)[id].(publishedAt := Some(now))] else old(rows)
    {
      if ok {
        rows := rows[id := rows[id].(publishedAt := Some(now))];
      }
    }

    method IncrementAttempts(id: nat, ok: bool)
      requires id < |rows|
      modifies this`rows
      ensures rows == if ok then old(rows)[id := old(rows)[id].(attempts := old(rows)[id].attempts + 1)] else old(rows)
    {
      if ok {
        rows := rows[id := rows[id].(attempts := rows[id].attempts + 1)];
      }
    }

    /** Publishes one listed row and records the result; dead letters are skipped. */
    method RelayOne(id: nat, row: Row, now: int, reply: Reply)
      requires id < |rows| && rows[id] == row && Unpublished(row)
      modifies this
      ensures View() == PollOne(old(View()), id, reply, now)
    {
      if row.attempts >= MAX_ATTEMPTS {
        assert rows[id := row] == rows;
      } else if !reply.published {
        IncrementAttempts(id, reply.stored);
      } else {
        emitted := emitted + [row.event];
        MarkPublished(id, now, reply.stored);
      }
      assert rows == old(rows)[id := Handled(row, reply, now)];
      assert emitted == old(emitted) + Emission(row, reply);
    }

    /** The poll loop, unless the list query fails; replyOf says, row by row, how the broker and the store answer. */
    method PollAndPublish(now: int, listOk: bool, replyOf: nat -> Reply) returns (ghost replies: seq<Reply>)
      modifies this
      ensures View() == Poll(old(View()), replies, now)
      ensures |replies| == if listOk then |ListUnpublished(old(rows), 0, BATCH)| else 0
      ensures forall k :: 0 <= k < |replies| ==> replies[k] == replyOf(ListUnpublished(old(rows), 0, BATCH)[k])
    {
      if !listOk {
        return [];
      }
      var ids := ListUnpublished(rows, 0, BATCH);
      var listed := rows;
      replies := seq(|ids|, k requires 0 <= k < |ids| => replyOf(ids[k]));
      for i := 0 to |ids|
        invariant |rows| == |listed|
        invariant forall k :: i <= k < |ids| ==> rows[ids[k]] == listed[ids[k]]
        invariant PollEach(View(), ids[i..], replies[i..], now) == PollEach(old(View()), ids, replies, now)
      {
        assert ids[i..][0] == ids[i] && ids[i..][1..] == ids[i + 1..] && replies[i..][1..] == replies[i + 1..];
        RelayOne(ids[i], listed[ids[i]], now, replyOf(ids[i]));
      }
    }

    /** ok tells whether the delete goes through. */
    method CleanupPublished(now: int, ok: bool) returns (deleted: nat)
      modifies this
      ensures View() == if ok then Cleanup(old(View()), now) else old(View())
      ensures deleted == |old(rows)| - |rows|
    {
      if !ok {
        return 0;
      }
      var kept := Kept(rows, now - RETENTION);
      KeptShorter(rows, now - RETENTION);
      deleted := |rows| - |kept|;
      rows := kept;
    }
  }

  lemma {:induction false} KeptShorter(rows: seq<Row>, cutoff: int)
    ensures |Kept(rows, cutoff)| <= |rows|
  {
    if rows != [] {
      KeptShorter(rows[..|rows| - 1], cutoff);
    }
  }
}
