/**
 One whole cycle, step by step: the hypotheses of the incremental backup theorem
 are met by a real run, and what it promises is what happens.
 */
module Example {
  import opened Blocks
  import opened BioQueues
  import opened Tracing
  import opened Promises
  import opened Protocol
  import opened Invariants
  import opened Runs
  import opened Periods
  import opened Isolation
  import opened Cycles
  import opened Counterexamples

  ghost predicate GoodRun(s: State, steps: seq<Step>, z: State) {
    Possible(s, steps) && After(s, steps) == z && OrderlyRun(s, steps) && ForeignRun(steps)
  }

  lemma {:induction false} GoodJoin(s: State, a: seq<Step>, b: seq<Step>, m: State, z: State)
    requires GoodRun(s, a, m) && GoodRun(m, b, z)
    ensures GoodRun(s, a + b, z)
    decreases |a|
  {
    hide Enabled;
    hide Apply;
    hide Orderly;
    hide Foreign;
    if a == [] {
      assert a + b == b;
    } else {
      assert (a + b)[1..] == a[1..] + b;
      assert forall i :: 0 <= i < |a| - 1 ==> a[1..][i] == a[i + 1];
      GoodJoin(Apply(s, a[0]), a[1..], b, m, z);
      assert forall i :: 0 <= i < |a + b| ==> (a + b)[i] == if i == 0 then a[0] else (a[1..] + b)[i - 1];
    }
  }

  lemma GoodOne(s: State, x: Step)
    requires Enabled(s, x) && Orderly(s, x) && Foreign(x)
    ensures GoodRun(s, [x], Apply(s, x))
  {
    assert [x][1..] == [];
  }

  // ---------------------------------------------------------- a read of block 0

  ghost predicate AtRest(s: State) {
    s.mode == Snapshot && !s.failed && !s.noticed && s.queue == [] && s.hand == Idle && s.store == map[] && s.flights == map[]
    && |s.base| == 4096 && s.bypassed == {}
  }

  ghost function BlockRead(s: State): State
    requires |s.base| == 4096
  {
    s.(answers := s.answers + [Answer(9, 0, s.base, s.bypassed)])
  }

  lemma ReadBlock(s: State) returns (steps: seq<Step>)
    requires AtRest(s)
    ensures GoodRun(s, steps, BlockRead(s)) && forall i :: 0 <= i < |steps| ==> !steps[i].ToSnapshot?
  {
    hide GoodRun;
    var r := RACE_READ;
    var s1 := s.(queue := [r]);
    assert Apply(s, ArriveRead(r)) == s1;
    GoodOne(s, ArriveRead(r));
    TakeLoneRead(s1, r);
    var s2 := s1.(queue := [], hand := Answering(r, map[]));
    GoodJoin(s, [ArriveRead(r)], [TakeNext(false)], s1, s2);
    FetchAndAnswer(s2, BlockRead(s));
    GoodJoin(s, [ArriveRead(r)] + [TakeNext(false)], [FetchRead(0, 4096)] + [ReadDone], s2, BlockRead(s));
    steps := [ArriveRead(r)] + [TakeNext(false)] + ([FetchRead(0, 4096)] + [ReadDone]);
  }

  lemma TakeLoneRead(s: State, r: Entry)
    requires s.queue == [r] && r.Read? && s.hand == Idle && !s.noticed
    ensures GoodRun(s, [TakeNext(false)], s.(queue := [], hand := Answering(r, map[])))
  {
    assert [r][1..] == [];
    assert forall b :: !Overtakes(s.queue, b);
    GoodOne(s, TakeNext(false));
    assert Apply(s, TakeNext(false)) == s.(queue := [], hand := Answering(r, map[]));
  }

  lemma FetchAndAnswer(s: State, z: State)
    requires s.hand == Answering(RACE_READ, map[]) && |s.base| == 4096 && s.store == map[] && !s.failed && !s.noticed
    requires z == s.(hand := Idle, answers := s.answers + [Answer(9, 0, s.base, s.bypassed)])
    ensures GoodRun(s, [FetchRead(0, 4096)] + [ReadDone], z)
  {
    hide GoodRun;
    var s1 := s.(hand := Answering(RACE_READ, Fetched(s.base, 0, 4096)));
    assert Fetched(s.base, 0, 4096) + map[] == Fetched(s.base, 0, 4096);
    assert Apply(s, FetchRead(0, 4096)) == s1;
    GoodOne(s, FetchRead(0, 4096));
    AnswerWhole(s1, z);
    GoodJoin(s, [FetchRead(0, 4096)], [ReadDone], s1, z);
  }

  lemma AnswerWhole(s: State, z: State)
    requires |s.base| == 4096 && s.hand == Answering(RACE_READ, Fetched(s.base, 0, 4096)) && s.store == map[] && !s.failed && !s.noticed
    requires z == s.(hand := Idle, answers := s.answers + [Answer(9, 0, s.base, s.bypassed)])
    ensures GoodRun(s, [ReadDone], z)
  {
    GoodOne(s, ReadDone);
    hide GoodRun;
    assert AnswerOf(s.store, s.hand.buf, 0, 8) == s.base;
    assert Apply(s, ReadDone) == z;
  }

  // ------------------------------------------------------------------ the cycle

  /** Between two requests, in incremental mode. */
  ghost predicate Calm(s: State) {
    && s.mode == Incremental && !s.failed && s.queue == [] && s.hand == Idle && s.tps == map[] && s.origs == [] && s.store == map[]
    && s.past == Past(1, [], None, []) && s.bypassed == {} && |s.base| == 4096
    && s.snap == Fill(4096, 0) && s.answers == [Answer(9, 0, Fill(4096, 0), {})]
  }

  lemma Begun() returns (steps: seq<Step>, z: State)
    ensures GoodRun(Init(Fill(4096, 0), 1), steps, z) && Calm(z)
    ensures z.ids == {} && z.sets == [] && z.filler == {} && z.writing == {}
  {
    var s := Init(Fill(4096, 0), 1);
    var a := ReadBlock(s);
    var s1 := BlockRead(s);
    hide GoodRun;
    ChangeMode(s1);
    z := s1.(mode := Incremental);
    GoodJoin(s, a, [ToIncremental], s1, z);
    steps := a + [ToIncremental];
  }

  lemma ChangeMode(s: State)
    requires s.mode == Snapshot && !s.failed && Quiescent(s) && s.past.closing.None?
    ensures GoodRun(s, [ToIncremental], s.(mode := Incremental))
  {
    GoodOne(s, ToIncremental);
  }

  /** A write to block 0 is recorded, carried out and marked. */
  lemma Written(s: State) returns (steps: seq<Step>, z: State)
    requires Calm(s) && s.ids == {} && s.sets == [] && s.filler == {} && s.writing == {}
    ensures GoodRun(s, steps, z) && Calm(z)
    ensures z.base == Fill(4096, 1) && z.sets == [] && z.filler == {0} && z.writing == {}
  {
    hide GoodRun;
    var w := FirstBlockWrite();
    RecordOnly(s);
    var s1 := Apply(s, Increment());
    CarryOut(s1);
    var s2 := Apply(s1, DeviceWrite(w, 0, 4096));
    GoodJoin(s, [Increment()], [DeviceWrite(w, 0, 4096)], s1, s2);
    Finish(s2);
    z := Apply(Apply(s2, WriteDone(w)), MarkSet);
    GoodJoin(s, [Increment()] + [DeviceWrite(w, 0, 4096)], [WriteDone(w)] + [MarkSet], s2, z);
    steps := [Increment()] + [DeviceWrite(w, 0, 4096)] + ([WriteDone(w)] + [MarkSet]);
  }

  lemma RecordOnly(s: State)
    requires Calm(s) && s.ids == {} && s.sets == [] && s.filler == {} && s.writing == {}
    ensures Enabled(s, Increment()) && GoodRun(s, [Increment()], Apply(s, Increment()))
    ensures var z := Apply(s, Increment());
      Calm(z) && z.sets == [SectorSet(0, 8)] && z.filler == {} && z.writing == {FirstBlockWrite()}
  {
    hide Separated;
    hide SectorsOf;
    hide MustRecord;
    hide Unrecorded;
    hide Sectors;
    hide BlocksOf;
    IncrementEnabled(s);
    GoodOne(s, Increment());
    hide GoodRun;
    assert [] + [SectorSet(0, 8)] == [SectorSet(0, 8)];
  }

  lemma CarryOut(s: State)
    requires Calm(s) && s.sets == [SectorSet(0, 8)] && s.filler == {} && s.writing == {FirstBlockWrite()}
    ensures var x := DeviceWrite(FirstBlockWrite(), 0, 4096);
      Enabled(s, x) && GoodRun(s, [x], Apply(s, x)) && Apply(s, x) == s.(base := Fill(4096, 1))
  {
    var w := FirstBlockWrite();
    assert w.data[0..4096] == w.data && Splice(s.base, 0, w.data) == w.data;
    assert forall k: nat :: !Needed(s, k);
    GoodOne(s, DeviceWrite(w, 0, 4096));
    hide GoodRun;
  }

  lemma Finish(s: State)
    requires Calm(s) && s.sets == [SectorSet(0, 8)] && s.filler == {} && s.writing == {FirstBlockWrite()}
    ensures var x := WriteDone(FirstBlockWrite());
      && Enabled(s, x) && Enabled(Apply(s, x), MarkSet)
      && GoodRun(s, [x] + [MarkSet], Apply(Apply(s, x), MarkSet))
    ensures var z := Apply(Apply(s, WriteDone(FirstBlockWrite())), MarkSet);
      Calm(z) && z.base == s.base && z.sets == [] && z.filler == {0} && z.writing == {}
  {
    var x := WriteDone(FirstBlockWrite());
    GoodOne(s, x);
    var s1 := Apply(s, x);
    assert s1 == s.(writing := {}, finished := s.finished + {FirstBlockWrite()});
    GoodOne(s1, MarkSet);
    hide GoodRun;
    GoodJoin(s, [x], [MarkSet], s1, Apply(s1, MarkSet));
    assert BlocksOf(0, 8) == {0};
  }

  /** The next snapshot is taken and the COW file closed. */
  ghost predicate NextPeriod(s: State) {
    && AtRest(s) && s.base == s.snap == Fill(4096, 1) && s.answers == [] && s.past.files == [Some({0})]
    && s.past.epochs == [Epoch(Fill(4096, 0), 1, {0}, {}, [Answer(9, 0, Fill(4096, 0), {})])]
  }

  lemma Changed(s: State) returns (steps: seq<Step>, z: State)
    requires Calm(s) && s.base == Fill(4096, 1) && s.sets == [] && s.filler == {0} && s.writing == {}
    ensures GoodRun(s, steps, z) && NextPeriod(z)
  {
    Snapshotted(s);
    var s1 := Apply(s, ToSnapshot);
    FileClosed(s1);
    z := Apply(s1, CloseFile(true));
    hide GoodRun;
    GoodJoin(s, [ToSnapshot], [CloseFile(true)], s1, z);
    steps := [ToSnapshot] + [CloseFile(true)];
  }

  lemma Snapshotted(s: State)
    requires Calm(s) && s.base == Fill(4096, 1) && s.sets == [] && s.filler == {0} && s.writing == {}
    ensures Enabled(s, ToSnapshot) && GoodRun(s, [ToSnapshot], Apply(s, ToSnapshot))
    ensures var z := Apply(s, ToSnapshot);
      && AtRest(z) && z.base == z.snap == Fill(4096, 1) && z.answers == [] && z.past.files == []
      && z.past.closing == Some(Closing({0}, []))
      && z.past.epochs == [Epoch(Fill(4096, 0), 1, {0}, {}, [Answer(9, 0, Fill(4096, 0), {})])]
  {
    GoodOne(s, ToSnapshot);
    hide GoodRun;
    assert BlocksOfSets([]) == {} && s.store.Keys + {0} == {0};
    assert s.store.Keys + {0} + {} == {0};
  }

  lemma FileClosed(s: State)
    requires AtRest(s) && s.past.closing == Some(Closing({0}, [])) && s.past.files == []
    ensures Enabled(s, CloseFile(true)) && GoodRun(s, [CloseFile(true)], Apply(s, CloseFile(true)))
    ensures Apply(s, CloseFile(true)) == s.(past := s.past.(closing := None, files := [Some({0})]))
  {
    GoodOne(s, CloseFile(true));
    hide GoodRun;
    var one: set<nat> := {0};
    assert [] + [Some(one)] == [Some(one)];
  }

  /** The first snapshot is copied in full; block 0 is written and marked in
      incremental mode; the marked block of the next snapshot is copied.  The run is
      an orderly one, and the updated image is the next snapshot, which differs. */
  lemma WholeCycle() returns (steps: seq<Step>, copies: seq<seq<byte>>)
    ensures Possible(Init(Fill(4096, 0), 1), steps) && OrderlyRun(Init(Fill(4096, 0), 1), steps) && ForeignRun(steps)
    ensures var z := After(Init(Fill(4096, 0), 1), steps);
      && |z.past.epochs| == 1 && z.past.epochs[0].marks == {0}
      && SnapOf(z, 0) == Fill(4096, 0) && SnapOf(z, 1) == Fill(4096, 1)
      && Copied(z, copies, 1) && Image(z, copies, 1, 1) == SnapOf(z, 1)
  {
    var s0 := Init(Fill(4096, 0), 1);
    var a, s1 := Begun();
    var b, s2 := Written(s1);
    var c, s3 := Changed(s2);
    var d := ReadBlock(s3);
    var z := BlockRead(s3);
    copies := [Fill(4096, 0), Fill(4096, 1)];
    CopiesAreGood(s3, copies);
    steps := a + b + c + d;
    hide Copied;
    assert GoodRun(s0, steps, z) by {
      hide GoodRun;
      GoodJoin(s0, a, b, s1, s2);
      GoodJoin(s0, a + b, c, s2, s3);
      GoodJoin(s0, a + b + c, d, s3, z);
    }
    hide Possible;
    hide After;
    hide OrderlyRun;
    hide ForeignRun;
  }

  lemma CopiesAreGood(s: State, copies: seq<seq<byte>>)
    requires NextPeriod(s) && copies == [Fill(4096, 0), Fill(4096, 1)]
    ensures Copied(BlockRead(s), copies, 1) && Image(BlockRead(s), copies, 1, 1) == Fill(4096, 1)
  {
    var z := BlockRead(s);
    var first, second := Answer(9, 0, Fill(4096, 0), {}), Answer(9, 0, Fill(4096, 1), {});
    assert AnswersIn(z, 0) == [first] && AnswersIn(z, 1) == [second];
    OneAnswerIsEnough(first, None);
    OneAnswerIsEnough(second, Some({0}));
    hide PiecedFrom;
    hide AnswersIn;
    assert Copied(z, copies, 1);
    ImageIsSecond(z, copies);
  }

  lemma OneAnswerIsEnough(a: Answer, blocks: Option<set<nat>>)
    requires a.sect == 0
    ensures PiecedFrom(a.data, [a], blocks)
  {
    assert a in [a];
  }

  lemma ImageIsSecond(z: State, copies: seq<seq<byte>>)
    requires Copied(z, copies, 1) && z.past.files[0] == Some({0}) && copies == [Fill(4096, 0), Fill(4096, 1)]
    ensures Image(z, copies, 1, 1) == Fill(4096, 1)
  {
    hide PiecedFrom;
    assert Image(z, copies, 1, 0) == copies[0];
    assert Image(z, copies, 1, 1) == Merge(copies[0], copies[1], {0});
  }
}
