/**
 Concrete runs from a fresh snapshot in which the code falls short.  Three end
 with a wrong answer and involve no error: a clone overtakes another, a released
 write reaches the device while the read in hand is still fetching, and a write
 in incremental mode overtakes a read left over from snapshot mode.  In two
 others an error has a lasting effect: a COW file is closed without a mark, and
 the counters of the COW thread never agree again.
 */
module Counterexamples {
  import opened Blocks
  import opened BioQueues
  import opened Tracing
  import opened Protocol
  import opened Invariants
  import opened Runs
  import opened Periods
  import opened Accounting

  function Fill(n: nat, v: byte): (r: seq<byte>)
    ensures |r| == n && forall i :: 0 <= i < n ==> r[i] == v
  {
    seq(n, _ => v)
  }

  // ------------------------------------------------------------- joining runs

  lemma {:induction false} Join(s: State, a: seq<Step>, b: seq<Step>)
    requires Possible(s, a) && Possible(After(s, a), b)
    ensures Possible(s, a + b) && After(s, a + b) == After(After(s, a), b)
    decreases |a|
  {
    hide Enabled;
    hide Apply;
    if a == [] {
      assert a + b == b;
    } else {
      assert (a + b)[1..] == a[1..] + b;
      Join(Apply(s, a[0]), a[1..], b);
    }
  }

  lemma One(s: State, x: Step)
    requires Enabled(s, x)
    ensures Possible(s, [x]) && After(s, [x]) == Apply(s, x)
  {
  }

  lemma Two(s: State, x: Step, y: Step)
    requires Enabled(s, x) && Enabled(Apply(s, x), y)
    ensures Possible(s, [x, y]) && After(s, [x, y]) == Apply(Apply(s, x), y)
  {
    One(s, x);
    One(Apply(s, x), y);
    Join(s, [x], [y]);
    assert [x] + [y] == [x, y];
  }

  // ------------------------------------------------------------ common stages

  ghost function Begun(s: State, w: Write, c: nat): State
    requires w.First() <= w.End()
  {
    s.(ids := s.ids + {w.id}, traced := s.traced[w.id := w], tps := s.tps[w.id := Tp(w, 1, false, w.End())],
       flights := s.flights[c := Flight(w.id, w.First(), w.End() - w.First(), map[], false)],
       counts := s.counts.(submitted := s.counts.submitted + 1))
  }

  /** A write arrives and is traced with a single clone. */
  lemma Begin(s: State, w: Write, c: nat) returns (steps: seq<Step>)
    requires s.mode == Snapshot && !s.failed && FreshWrite(s, w) && c !in s.flights && w.id !in s.tps
    requires w.First() < w.End() && w.End() - w.First() <= BIO_MAX_PAGES
    ensures Possible(s, steps) && After(s, steps) == Begun(s, w, c)
  {
    hide Possible;
    hide After;
    hide Enabled;
    hide Apply;
    var x := BeginStart(s, w);
    var s1 := Apply(s, x);
    var y := TraceClone(w.id, c, w.End() - w.First());
    BeginClone(s1, w, c);
    Two(s, x, y);
    One(Apply(s1, y), TraceFinish(w.id));
    Join(s, [x, y], [TraceFinish(w.id)]);
    steps := [x, y] + [TraceFinish(w.id)];
  }

  ghost function Started(s: State, w: Write): State {
    s.(ids := s.ids + {w.id}, traced := s.traced[w.id := w], tps := s.tps[w.id := Tp(w, 1, true, w.First())])
  }

  lemma BeginStart(s: State, w: Write) returns (x: Step)
    requires s.mode == Snapshot && !s.failed && FreshWrite(s, w)
    ensures Enabled(s, x) && Apply(s, x) == Started(s, w)
  {
    var seg := Segment(|w.data|, false);
    x := TraceStart(w, [seg], Data, false);
    assert [seg][..0] == [];
    assert Sectors([seg]) == Sectors([]) + |w.data| / 512;
  }

  lemma BeginClone(s: State, w: Write, c: nat)
    requires w.id in s.tps && s.tps[w.id] == Tp(w, 1, true, w.First()) && c !in s.flights
    requires w.First() < w.End() && w.End() - w.First() <= BIO_MAX_PAGES
    ensures var y := TraceClone(w.id, c, w.End() - w.First());
      Enabled(s, y) && Enabled(Apply(s, y), TraceFinish(w.id))
    ensures var y := TraceClone(w.id, c, w.End() - w.First());
      Apply(Apply(s, y), TraceFinish(w.id)) == s.(tps := s.tps[w.id := Tp(w, 1, false, w.End())],
        flights := s.flights[c := Flight(w.id, w.First(), w.End() - w.First(), map[], false)],
        counts := s.counts.(submitted := s.counts.submitted + 1))
  {
    var y := TraceClone(w.id, c, w.End() - w.First());
    assert Apply(s, y).tps == s.tps[w.id := Tp(w, 2, true, w.End())];
    assert Apply(Apply(s, y), TraceFinish(w.id)).tps == s.tps[w.id := Tp(w, 1, false, w.End())];
  }

  ghost predicate Ready(s: State, c: nat) {
    && c in s.flights && !s.flights[c].queued
    && (forall k :: 4096 * s.flights[c].start <= k < 4096 * (s.flights[c].start + s.flights[c].count) ==> k in s.flights[c].buf)
    && s.flights[c].tp in s.tps && s.tps[s.flights[c].tp].refs == 1
  }

  ghost function Completed(s: State, c: nat): State
    requires Ready(s, c)
  {
    var t := s.flights[c].tp;
    s.(queue := s.queue + [EntryOf(c, s.flights[c])], flights := s.flights - {c},
       counts := s.counts.(received := s.counts.received + 1),
       tps := s.tps - {t}, origs := s.origs + [s.tps[t].w])
  }

  /** The last clone of a write is queued, which releases the write. */
  lemma Complete(s: State, c: nat) returns (steps: seq<Step>)
    requires Ready(s, c)
    ensures Possible(s, steps) && After(s, steps) == Completed(s, c)
  {
    var s1 := Apply(s, QueueClone(c));
    assert s1.flights - {c} == s.flights - {c};
    Two(s, QueueClone(c), DropClone(c));
    steps := [QueueClone(c), DropClone(c)];
  }

  ghost function Landed(s: State): State
    requires s.origs != [] && s.origs[0].Fits(|s.base|)
  {
    var w := s.origs[0];
    s.(origs := s.origs[1..], sent := s.sent + [w], writing := s.writing + {w}, base := Splice(s.base, 512 * w.sect, w.data))
  }

  /** The first released original is submitted and carried out. */
  lemma Land(s: State) returns (steps: seq<Step>)
    requires s.origs != [] && s.origs[0].Fits(|s.base|)
    ensures Possible(s, steps) && After(s, steps) == Landed(s)
  {
    var w := s.origs[0];
    var x := DeviceWrite(w, 512 * w.sect, 512 * w.sect + |w.data|);
    assert w.data[0..|w.data|] == w.data;
    Two(s, SubmitOrig, x);
    steps := [SubmitOrig, x];
  }

  // ------------------------------------------------------------------ the race

  const RACE_READ: Entry := Read(9, 0, 8)   // block 0

  function FirstBlockWrite(): Write { Write(1, 0, Fill(4096, 1)) }   // block 0

  /** A read of block 0 is taken from the queue; a write to block 0 is traced,
      captured and carried out; then the read fetches. */
  lemma RaceGivesWrongAnswer() returns (steps: seq<Step>)
    ensures Possible(Init(Fill(4096, 0), 1), steps)
    ensures var s := After(Init(Fill(4096, 0), 1), steps);
      !s.failed && s.bypassed == {} && |s.answers| == 1 && !AnswerOk(s.answers[0], s.snap)
  {
    var s0 := Init(Fill(4096, 0), 1);
    var r, w := RACE_READ, FirstBlockWrite();
    var s1 := s0.(hand := Answering(r, map[]));
    assert Apply(s0, ArriveRead(r)).queue == [r];
    assert [r][1..] == [];
    Two(s0, ArriveRead(r), TakeNext(false));
    assert After(s0, [ArriveRead(r), TakeNext(false)]) == s1;

    var a := Begin(s1, w, 1);
    var s2 := Begun(s1, w, 1);
    Join(s0, [ArriveRead(r), TakeNext(false)], a);
    steps := [ArriveRead(r), TakeNext(false)] + a;
    steps := RaceEnd(s0, steps, s2);
  }

  lemma RaceEnd(s0: State, before: seq<Step>, s: State) returns (steps: seq<Step>)
    requires Possible(s0, before) && After(s0, before) == s
    requires s == Begun(Init(Fill(4096, 0), 1).(hand := Answering(RACE_READ, map[])), FirstBlockWrite(), 1)
    ensures Possible(s0, steps)
    ensures var z := After(s0, steps); !z.failed && z.bypassed == {} && |z.answers| == 1 && !AnswerOk(z.answers[0], z.snap)
  {
    hide Possible;
    hide After;
    hide Apply;
    hide Enabled;
    hide RaceReady;
    hide RaceLost;
    var fetch := FetchClone(1, 0, 4096);
    RaceCloneRead(s);
    One(s, fetch);
    Join(s0, before, [fetch]);
    var a, s1 := RaceLanded(Apply(s, fetch));
    Join(s0, before + [fetch], a);
    RaceFetch(s1);
    Join(s0, before + [fetch] + a, [FetchRead(0, 4096), ReadDone]);
    steps := before + [fetch] + a + [FetchRead(0, 4096), ReadDone];
  }

  /** The read of block 0 is in hand with nothing captured, and the device has changed. */
  ghost predicate RaceLost(s: State) {
    && s.hand == Answering(RACE_READ, map[]) && |s.base| == |s.snap| == 4096 && s.store == map[]
    && !s.failed && !s.noticed && s.bypassed == {} && s.answers == [] && s.base[0] != s.snap[0]
  }

  /** The write's clone has been read completely. */
  ghost predicate RaceReady(s: State) {
    && Ready(s, 1) && s.flights[1].tp == 1 && s.tps[1].w == FirstBlockWrite() && s.origs == []
    && s.hand == Answering(RACE_READ, map[]) && s.base == s.snap == Fill(4096, 0) && s.store == map[]
    && !s.failed && !s.noticed && s.bypassed == {} && s.answers == []
  }

  lemma RaceCloneRead(s: State)
    requires s == Begun(Init(Fill(4096, 0), 1).(hand := Answering(RACE_READ, map[])), FirstBlockWrite(), 1)
    ensures Enabled(s, FetchClone(1, 0, 4096)) && RaceReady(Apply(s, FetchClone(1, 0, 4096)))
  {
  }

  lemma RaceLanded(s: State) returns (steps: seq<Step>, s': State)
    requires RaceReady(s)
    ensures Possible(s, steps) && After(s, steps) == s' && RaceLost(s')
  {
    hide Possible;
    hide After;
    hide EntryOf;
    var a := Complete(s, 1);
    var s1 := Completed(s, 1);
    assert s1.origs == [FirstBlockWrite()];
    var b := Land(s1);
    Join(s, a, b);
    s' := Landed(s1);
    steps := a + b;
  }

  lemma RaceFetch(s: State)
    requires RaceLost(s)
    ensures Possible(s, [FetchRead(0, 4096), ReadDone])
    ensures var z := After(s, [FetchRead(0, 4096), ReadDone]);
      !z.failed && z.bypassed == {} && |z.answers| == 1 && !AnswerOk(z.answers[0], z.snap)
  {
    hide Possible;
    hide After;
    var s1 := s.(hand := Answering(RACE_READ, Fetched(s.base, 0, 4096)));
    assert Fetched(s.base, 0, 4096) + map[] == Fetched(s.base, 0, 4096);
    assert Apply(s, FetchRead(0, 4096)) == s1;
    RaceAnswer(s1);
    Two(s, FetchRead(0, 4096), ReadDone);
  }

  lemma RaceAnswer(s: State)
    requires |s.base| == |s.snap| == 4096 && s.store == map[] && s.hand == Answering(RACE_READ, Fetched(s.base, 0, 4096))
    requires !s.failed && !s.noticed && s.answers == [] && s.bypassed == {} && s.base[0] != s.snap[0]
    ensures Enabled(s, ReadDone)
    ensures var z := Apply(s, ReadDone); !z.failed && z.bypassed == {} && |z.answers| == 1 && !AnswerOk(z.answers[0], z.snap)
  {
    var a := Apply(s, ReadDone).answers[0];
    assert a.data[0] == s.base[0];
  }

  // ----------------------------------------------------------- the left-over read

  /** A write to block 0 in incremental mode, with what gets recorded for it. */
  function Increment(): Step {
    TraceIncrement(FirstBlockWrite(), [Segment(4096, false)], Data, false, [SectorSet(0, 8)])
  }

  lemma IncrementEnabled(s: State)
    requires s.mode == Incremental && !s.failed && |s.base| == 4096 && s.ids == {}
    ensures Enabled(s, Increment())
    ensures Apply(s, Increment()).bypassed == s.bypassed
  {
    var segs, sets := [Segment(4096, false)], [SectorSet(0, 8)];
    assert segs[..0] == [] && sets[..0] == [];
    assert Sectors(segs) == 8;
    assert SectorsOf(sets) == Span(0, 8);
    forall b | b in BlocksOf(0, 8) ensures b !in Unrecorded(segs, 0, Data, false) {
      UnrecordedExactly(segs, 0, Data, false, b);
    }
  }

  /** The device after the write to block 0. */
  ghost predicate Changed(s: State, s': State) {
    && s'.sets == s.sets + [SectorSet(0, 8)]
    && s' == s.(ids := {1}, sets := s'.sets, writing := s.writing + {FirstBlockWrite()}, base := Fill(4096, 1))
  }

  lemma IncrementNext(s: State)
    requires s.mode == Incremental && !s.failed && |s.base| == 4096 && s.ids == {}
    ensures var steps := [Increment(), DeviceWrite(FirstBlockWrite(), 0, 4096)]; Possible(s, steps) && Changed(s, After(s, steps))
  {
    hide Possible;
    hide After;
    var w := FirstBlockWrite();
    IncrementEnabled(s);
    hide Unrecorded;
    var s1 := Apply(s, Increment());
    assert w.data[0..4096] == w.data;
    assert Splice(s.base, 0, w.data) == w.data;
    Two(s, Increment(), DeviceWrite(w, 0, 4096));
  }

  /** A read of block 0 is queued; the tracer changes to incremental mode; a write
      to block 0 is recorded and carried out; then the read is answered. */
  lemma SwitchGivesWrongAnswer() returns (steps: seq<Step>)
    ensures Possible(Init(Fill(4096, 0), 1), steps) && ForeignRun(steps)
    ensures var s := After(Init(Fill(4096, 0), 1), steps);
      !s.failed && s.bypassed == {} && |s.answers| == 1 && !AnswerOk(s.answers[0], s.snap)
  {
    hide Possible;
    hide After;
    var s0 := Init(Fill(4096, 0), 1);
    var a := [ArriveRead(RACE_READ), ToIncremental];
    assert Apply(s0, ArriveRead(RACE_READ)).queue == [RACE_READ];
    Two(s0, ArriveRead(RACE_READ), ToIncremental);
    var s1 := s0.(queue := [RACE_READ], mode := Incremental);
    var b := [Increment(), DeviceWrite(FirstBlockWrite(), 0, 4096)];
    IncrementNext(s1);
    Join(s0, a, b);
    var s2 := After(s1, b);
    assert [RACE_READ][1..] == [];
    One(s2, TakeNext(false));
    Join(s0, a + b, [TakeNext(false)]);
    var s3 := s2.(queue := [], hand := Answering(RACE_READ, map[]));
    assert Apply(s2, TakeNext(false)) == s3;
    RaceFetch(s3);
    Join(s0, a + b + [TakeNext(false)], [FetchRead(0, 4096), ReadDone]);
    steps := a + b + [TakeNext(false)] + [FetchRead(0, 4096), ReadDone];
  }

  // --------------------------------------------------------------- the lost mark

  /** A write to block 0 is recorded and carried out in incremental mode, and its
      sector set is still queued when the next snapshot is taken; marking it then
      fails.  The file is closed all the same, without the mark. */
  lemma MissedMarkGoesUnnoticed() returns (steps: seq<Step>)
    ensures Possible(Init(Fill(4096, 0), 1), steps) && ForeignRun(steps)
    ensures var s := After(Init(Fill(4096, 0), 1), steps);
      !s.failed && s.past.files == [Some({})] && |s.past.epochs| == 1
      && s.past.epochs[0].marks == {0} && s.past.epochs[0].snap == Fill(4096, 0) && s.snap == Fill(4096, 1)
  {
    hide Possible;
    hide After;
    var s0, w := Init(Fill(4096, 0), 1), FirstBlockWrite();
    One(s0, ToIncremental);
    var s1 := s0.(mode := Incremental);
    var b := [Increment(), DeviceWrite(w, 0, 4096)];
    IncrementNext(s1);
    Join(s0, [ToIncremental], b);
    var s2 := After(s1, b);
    var c := [WriteDone(w), ToSnapshot];
    MarkPendingNext(s2);
    Join(s0, [ToIncremental] + b, c);
    MarkLost(After(s2, c));
    Join(s0, [ToIncremental] + b + c, [CloseError({}, true)]);
    steps := [ToIncremental] + b + c + [CloseError({}, true)];
  }

  /** A new snapshot has been taken while the mark for block 0 is still to be made. */
  ghost predicate MarkPending(s: State) {
    && !s.failed && s.past.files == [] && s.past.closing == Some(Closing({}, [SectorSet(0, 8)]))
    && |s.past.epochs| == 1 && s.past.epochs[0].marks == {0}
    && s.past.epochs[0].snap == Fill(4096, 0) && s.snap == Fill(4096, 1)
  }

  lemma MarkPendingNext(s: State)
    requires Changed(Init(Fill(4096, 0), 1).(mode := Incremental), s)
    ensures var steps := [WriteDone(FirstBlockWrite()), ToSnapshot]; Possible(s, steps) && MarkPending(After(s, steps))
  {
    hide Possible;
    hide After;
    var w := FirstBlockWrite();
    var s1 := s.(writing := {}, finished := {w});
    assert Apply(s, WriteDone(w)) == s1;
    assert s1.sets == [SectorSet(0, 8)];
    NextSnapshot(s1);
    Two(s, WriteDone(w), ToSnapshot);
  }

  lemma NextSnapshot(s: State)
    requires s.mode == Incremental && !s.failed && Quiescent(s) && !Draining(s) && s.past == Past(1, [], None, [])
    requires s.sets == [SectorSet(0, 8)] && s.store == map[] && s.filler == {} && s.snap == Fill(4096, 0) && s.base == Fill(4096, 1)
    ensures Enabled(s, ToSnapshot) && MarkPending(Apply(s, ToSnapshot))
  {
    assert [SectorSet(0, 8)][..0] == [];
    assert BlocksOfSets([SectorSet(0, 8)]) == BlocksOf(0, 8) == {0};
    assert s.store.Keys + s.filler == {};
    var s2 := Apply(s, ToSnapshot);
    assert s2.past.closing == Some(Closing({}, [SectorSet(0, 8)]));
    assert s2.past.epochs[0].marks == {0};
  }

  lemma MarkLost(s: State)
    requires MarkPending(s)
    ensures Possible(s, [CloseError({}, true)])
    ensures After(s, [CloseError({}, true)]) == s.(past := s.past.(closing := None, files := [Some({})]))
  {
    hide Possible;
    hide After;
    var none: set<nat> := {};
    assert none + none == none && [] + [Some(none)] == [Some(none)];
    One(s, CloseError({}, true));
  }

  // -------------------------------------------------------------- the lost clone

  /** A write is traced and reading for its clone fails: whatever happens after
      that, the counters of the COW thread never agree again. */
  lemma ReadErrorGetsStuck() returns (steps: seq<Step>)
    ensures Possible(Init(Fill(4096, 0), 1), steps) && After(Init(Fill(4096, 0), 1), steps).counts.lost == 1
    ensures forall more :: Possible(After(Init(Fill(4096, 0), 1), steps), more) ==>
      var z := After(After(Init(Fill(4096, 0), 1), steps), more); z.counts.submitted != z.counts.received
  {
    hide Possible;
    hide After;
    var s0, w := Init(Fill(4096, 0), 1), FirstBlockWrite();
    var a := Begin(s0, w, 1);
    InvInit(Fill(4096, 0), 1);
    InvAlways(s0, a);
    var s1 := Begun(s0, w, 1);
    assert 1 in s1.flights && s1.flights[1].tp == 1 && s1.tps[1].refs == 1;
    One(s1, CloneError(1));
    Join(s0, a, [CloneError(1)]);
    steps := a + [CloneError(1)];
    var s2 := Apply(s1, CloneError(1));
    hide Inv;
    hide Apply;
    hide Enabled;
    forall more | Possible(s2, more) ensures After(s2, more).counts.submitted != After(s2, more).counts.received {
      StuckAfterReadError(s1, 1, more);
    }
  }

  // ------------------------------------------------------------ the overtaking

  const FIRST_READ: Entry := Read(9, 9, 1)    // one sector of block 1
  const SECOND_READ: Entry := Read(10, 0, 8)  // block 0

  function WideWrite(): Write { Write(2, 0, Fill(8192, 2)) }     // blocks 0 and 1

  /** Both writes are being traced, the read of block 1 is queued, and the
      narrow write's clone has been read. */
  ghost function Overlapping(): State {
    var s := Begun(Begun(Init(Fill(8192, 0), 1), FirstBlockWrite(), 1), WideWrite(), 2);
    s.(queue := [FIRST_READ], flights := s.flights[1 := s.flights[1].(buf := Fetched(s.base, 0, 4096))])
  }

  lemma OverlappingReached() returns (steps: seq<Step>)
    ensures Possible(Init(Fill(8192, 0), 1), steps) && After(Init(Fill(8192, 0), 1), steps) == Overlapping()
  {
    var s0 := Init(Fill(8192, 0), 1);
    var a := Begin(s0, FirstBlockWrite(), 1);
    var s1 := Begun(s0, FirstBlockWrite(), 1);
    var b := Begin(s1, WideWrite(), 2);
    var s2 := Begun(s1, WideWrite(), 2);
    Join(s0, a, b);
    var x, y := FetchClone(1, 0, 4096), ArriveRead(FIRST_READ);
    var f := s2.flights[1];
    assert f.buf + Fetched(s2.base, 0, 4096) == Fetched(s2.base, 0, 4096);
    assert [] + [FIRST_READ] == [FIRST_READ];
    Two(s2, x, y);
    Join(s0, a + b, [x, y]);
    steps := a + b + [x, y];
  }

  /** The narrow write is released and carried out, then the wide clone is read
      and queued: the queue holds the read, the narrow and the wide clone. */
  ghost predicate Queued(s: State) {
    && s.mode == Snapshot && !s.failed && !s.noticed && s.bypassed == {} && s.answers == [] && s.store == map[] && s.hand == Idle
    && s.snap == Fill(8192, 0) && |s.base| == 8192 && |s.queue| == 3 && s.queue[0] == FIRST_READ
    && s.queue[1].Clone? && s.queue[1].start == 0 && |s.queue[1].pages| == 1
    && s.queue[2].Clone? && s.queue[2].start == 0 && |s.queue[2].pages| == 2 && s.queue[2].pages[0][0] == 1
  }

  lemma QueuedReached() returns (steps: seq<Step>)
    ensures Possible(Init(Fill(8192, 0), 1), steps) && Queued(After(Init(Fill(8192, 0), 1), steps))
  {
    var s0 := Init(Fill(8192, 0), 1);
    var a := OverlappingReached();
    OverlappingIsPending();
    var b, s1 := NarrowDone(Overlapping());
    Join(s0, a, b);
    var c, s2 := WideCloneQueued(s1);
    Join(s0, a + b, c);
    steps := a + b + c;
  }

  ghost predicate WidePending(s: State) {
    && 2 in s.flights && s.flights[2] == Flight(2, 0, 2, map[], false) && 2 in s.tps && s.tps[2].refs == 1
    && s.mode == Snapshot && !s.failed && !s.noticed && s.bypassed == {} && s.answers == [] && s.store == map[] && s.hand == Idle
    && s.snap == Fill(8192, 0) && |s.base| == 8192 && s.base[0] == 1 && |s.queue| == 2 && s.queue[0] == FIRST_READ
    && s.queue[1].Clone? && s.queue[1].start == 0 && |s.queue[1].pages| == 1
  }

  /** What matters about `Overlapping()`. */
  ghost predicate NarrowPending(s: State) {
    && Ready(s, 1) && s.flights[1].tp == 1 && s.flights[1].start == 0 && s.flights[1].count == 1
    && s.tps[1].w == FirstBlockWrite() && s.origs == []
    && 2 in s.flights && s.flights[2] == Flight(2, 0, 2, map[], false) && 2 in s.tps && s.tps[2].refs == 1
    && s.mode == Snapshot && !s.failed && !s.noticed && s.bypassed == {} && s.answers == [] && s.store == map[] && s.hand == Idle
    && s.snap == Fill(8192, 0) && |s.base| == 8192 && s.queue == [FIRST_READ]
  }

  lemma OverlappingIsPending()
    ensures NarrowPending(Overlapping())
  {
  }

  lemma NarrowDone(s: State) returns (steps: seq<Step>, s': State)
    requires NarrowPending(s)
    ensures Possible(s, steps) && After(s, steps) == s' && WidePending(s')
  {
    hide Possible;
    hide After;
    var b := Complete(s, 1);
    var s1 := Completed(s, 1);
    assert s1.origs == [FirstBlockWrite()];
    var c := Land(s1);
    Join(s, b, c);
    s' := Landed(s1);
    steps := b + c;
  }

  lemma WideCloneQueued(s: State) returns (steps: seq<Step>, s': State)
    requires WidePending(s)
    ensures Possible(s, steps) && After(s, steps) == s' && Queued(s')
  {
    var x := FetchClone(2, 0, 8192);
    One(s, x);
    var s1 := Apply(s, x);
    assert s1.flights[2].buf[0] == 1;
    var a := Complete(s1, 2);
    Join(s, [x], a);
    s' := Completed(s1, 2);
    steps := [x] + a;
    var e := EntryOf(2, s1.flights[2]);
    assert e.pages[0][0] == s1.flights[2].buf[4096 * (0 + 0) + 0];
    assert s'.queue == s.queue + [e];
  }

  /** The wide clone has been stored ahead of the narrow one. */
  ghost predicate Spoiled(s: State) {
    && s.mode == Snapshot && !s.failed && !s.noticed && s.bypassed == {} && s.answers == [] && s.hand == Idle
    && s.snap == Fill(8192, 0) && |s.base| == 8192 && |s.queue| == 2 && s.queue[1] == FIRST_READ
    && s.queue[0].Clone? && s.queue[0].start == 0 && |s.queue[0].pages| == 1
    && 0 in s.store && 1 in s.store && s.store[0][0] == 1
  }

  lemma SpoiledNext(s: State)
    requires Queued(s)
    ensures Possible(s, [TakeNext(false), StoreDone]) && Spoiled(After(s, [TakeNext(false), StoreDone]))
  {
  }

  /** The narrow clone is stored without effect: block 0 has been captured. */
  lemma NarrowStored(s: State)
    requires Spoiled(s)
    ensures Possible(s, [TakeNext(false), StoreDone])
    ensures var z := After(s, [TakeNext(false), StoreDone]);
      z == s.(queue := [FIRST_READ], store := z.store, counts := z.counts) && 0 in z.store && 1 in z.store && z.store[0] == s.store[0]
  {
    hide Possible;
    hide After;
    assert s.queue[1..] == [FIRST_READ];
    Two(s, TakeNext(false), StoreDone);
  }

  /** The queue is drained and block 0 is read. */
  lemma WrongAnswerNext(s: State) returns (steps: seq<Step>)
    requires Spoiled(s)
    ensures Possible(s, steps)
    ensures var z := After(s, steps); !z.failed && z.bypassed == {} && |z.answers| == 2 && !AnswerOk(z.answers[1], z.snap)
  {
    hide Possible;
    hide After;
    var take := TakeNext(false);
    NarrowStored(s);
    var s2 := After(s, [take, StoreDone]);
    AnsweredNext(s2, FIRST_READ);
    Join(s, [take, StoreDone], [take, ReadDone]);
    var s3 := After(s2, [take, ReadDone]);
    One(s3, ArriveRead(SECOND_READ));
    var s4 := Apply(s3, ArriveRead(SECOND_READ));
    assert s4.queue == [SECOND_READ];
    Join(s, [take, StoreDone] + [take, ReadDone], [ArriveRead(SECOND_READ)]);
    AnsweredNext(s4, SECOND_READ);
    Join(s, [take, StoreDone] + [take, ReadDone] + [ArriveRead(SECOND_READ)], [take, ReadDone]);
    steps := [take, StoreDone] + [take, ReadDone] + [ArriveRead(SECOND_READ)] + [take, ReadDone];
    var z := After(s4, [take, ReadDone]);
    assert z.answers[1].data[0] == s.store[0][0];
  }

  /** A lone read whose blocks are all captured is answered from the store. */
  lemma AnsweredNext(s: State, r: Entry)
    requires s.mode == Snapshot && !s.failed && !s.noticed && s.hand == Idle && s.queue == [r] && r.Read?
    requires forall k: nat :: InRead(r, k) ==> k / 4096 in s.store
    ensures Possible(s, [TakeNext(false), ReadDone])
    ensures After(s, [TakeNext(false), ReadDone]) ==
      s.(queue := [], answers := s.answers + [Answer(r.id, r.sect, AnswerOf(s.store, map[], r.sect, r.len), s.bypassed)])
  {
  }

  /** A narrow and a wide write overlap in block 0, while a read of block 1 is
      at the head of the queue: the wide clone is taken ahead of the narrow one
      and stores what the narrow write left behind. */
  lemma OvertakingGivesWrongAnswer() returns (steps: seq<Step>)
    ensures Possible(Init(Fill(8192, 0), 1), steps)
    ensures var s := After(Init(Fill(8192, 0), 1), steps);
      !s.failed && s.bypassed == {} && |s.answers| == 2 && !AnswerOk(s.answers[1], s.snap)
  {
    var s0 := Init(Fill(8192, 0), 1);
    var a := QueuedReached();
    var s1 := After(s0, a);
    SpoiledNext(s1);
    Join(s0, a, [TakeNext(false), StoreDone]);
    var s2 := After(s1, [TakeNext(false), StoreDone]);
    var b := WrongAnswerNext(s2);
    Join(s0, a + [TakeNext(false), StoreDone], b);
    steps := a + [TakeNext(false), StoreDone] + b;
  }
}
