/**
 Marks are exact: in every run, the blocks marked for a finished period are
 those that its writes got captured or recorded, no fewer and no more.
 */
module Marks {
  import opened Blocks
  import opened BioQueues
  import opened Tracing
  import opened Promises
  import opened Protocol
  import opened Invariants
  import opened ShapeProof
  import opened TrackingProof
  import opened Runs
  import opened Periods

  /** The step is a write to block `b` that is traced in snapshot mode, or recorded
      in incremental mode as far as this block is concerned. */
  ghost predicate Records(step: Step, b: nat) {
    match step
    case TraceStart(w, segs, kind, cowOnDevice) =>
      b in BlocksOf(w.sect, w.Len())
      && (!cowOnDevice || kind == WriteZeroes || exists i :: 0 <= i < |segs| && !segs[i].ownedByCow)
    case TraceIncrement(w, segs, kind, cowOnDevice, _) =>
      b in BlocksOf(w.sect, w.Len()) && !Untraced(segs, w.sect, kind, cowOnDevice, b)
    case _ => false
  }

  /** Such a step occurs in the `i`-th period from now. */
  ghost predicate RecordedIn(steps: seq<Step>, i: nat, b: nat)
    decreases |steps|
  {
    steps != [] &&
    if steps[0].ToSnapshot? then i > 0 && RecordedIn(steps[1..], i - 1, b)
    else (i == 0 && Records(steps[0], b)) || RecordedIn(steps[1..], i, b)
  }

  /** Some write with a record, or some clone still being read, is for block `b`. */
  ghost predicate UnderWay(tps: map<nat, Tp>, flights: map<nat, Flight>, b: nat) {
    || (exists t :: t in tps && tps[t].w.First() <= b < tps[t].w.End())
    || (exists c :: c in flights && !flights[c].queued && flights[c].start <= b < flights[c].start + flights[c].count)
  }

  /** Block `b` is captured, marked, or on the way there. */
  ghost predicate Due(s: State, b: nat) {
    Held(GuardOf(s), b) || b in GuardOf(s).marks || UnderWay(s.tps, s.flights, b)
  }

  // ----------------------------------------------------------------- the steps

  /** Held blocks come from clones that were queued, and from nowhere else. */
  lemma DueQueued(s: State, step: Step, b: nat)
    requires Shape(s) && Enabled(s, step) && !s.failed && (step.QueueClone? || step.ArriveRead?)
    ensures Due(Apply(s, step), b) <==> Due(s, b)
  {
    hide Capture;
    var p, e := Pending(s.hand, s.queue), if step.QueueClone? then EntryOf(step.c, s.flights[step.c]) else step.r;
    assert Pending(s.hand, s.queue + [e]) == p + [e];
    WaitingAppend(p, [e], b);
    assert [e][1..] == [];
    var s' := Apply(s, step);
    if step.QueueClone? {
      var f := s.flights[step.c];
      assert e.Covers(b) <==> f.start <= b < f.start + f.count;
      FlightQueued(s.tps, s.flights, step.c, b);
      assert s'.flights == s.flights[step.c := f.(queued := true)];
    }
    hide UnderWay;
    hide EntryOf;
    hide Waiting;
  }

  /** Queueing a clone only takes its own blocks out of those under way. */
  lemma FlightQueued(tps: map<nat, Tp>, flights: map<nat, Flight>, c: nat, b: nat)
    requires c in flights && !flights[c].queued
    ensures var f := flights[c]; var flights' := flights[c := f.(queued := true)];
      && (UnderWay(tps, flights', b) ==> UnderWay(tps, flights, b))
      && (UnderWay(tps, flights, b) ==> UnderWay(tps, flights', b) || f.start <= b < f.start + f.count)
      && (f.start <= b < f.start + f.count ==> UnderWay(tps, flights, b))
  {
    var flights' := flights[c := flights[c].(queued := true)];
    if d :| d in flights && !flights[d].queued && flights[d].start <= b < flights[d].start + flights[d].count {
      if d != c { assert d in flights' && flights'[d] == flights[d]; }
    }
    if d :| d in flights' && !flights'[d].queued && flights'[d].start <= b < flights'[d].start + flights'[d].count {
      assert d in flights && flights[d] == flights'[d];
    }
  }

  lemma {:induction false} WaitingSome(q: seq<Entry>, q': seq<Entry>, b: nat)
    requires forall e :: e in q && e.Covers(b) ==> e in q'
    requires Waiting(q, b).Some?
    ensures Waiting(q', b).Some?
  {
    WaitingIff(q, b);
    var i :| 0 <= i < |q| && q[i].Covers(b);
    var j :| 0 <= j < |q'| && q'[j] == q[i];
    WaitingIff(q', b);
  }

  lemma TakenElements(q: seq<Entry>)
    requires q != []
    ensures var (e, rest) := Dequeue(q); forall x :: x in q <==> x == e || x in rest
  {
    DequeueConserves(q);
    var (e, rest) := Dequeue(q);
    forall x ensures x in q <==> x == e || x in rest {
      assert x in q <==> x in multiset(q);
      assert x in rest <==> x in multiset(rest);
    }
  }

  lemma HeldTaken(g: Guard, b: nat)
    requires g.pending != []
    ensures var (e, rest) := Dequeue(g.pending);
      Held(g.(pending := if e.Clone? then [e] + rest else rest), b) <==> Held(g, b)
  {
    TakenElements(g.pending);
    var (e, rest) := Dequeue(g.pending);
    var now := if e.Clone? then [e] + rest else rest;
    hide Dequeue;
    if Waiting(g.pending, b).Some? { WaitingSome(g.pending, now, b); }
    if Waiting(now, b).Some? { WaitingSome(now, g.pending, b); }
    hide Waiting;
  }

  lemma DueTaken(s: State, step: Step, b: nat)
    requires Enabled(s, step) && step.TakeNext?
    ensures Due(Apply(s, step), b) <==> Due(s, b)
  {
    hide Apply;
    hide Enabled;
    hide Dequeue;
    hide Held;
    hide UnderWay;
    TakenPending(s, step);
    TpsTaken(s, step);
    hide GuardOf;
    HeldTaken(GuardOf(s), b);
  }

  lemma TpsTaken(s: State, step: Step)
    requires Enabled(s, step) && step.TakeNext?
    ensures Apply(s, step).tps == s.tps && Apply(s, step).flights == s.flights
  {
    hide Dequeue;
  }

  lemma DueStored(s: State, step: Step, b: nat)
    requires Shape(s) && Enabled(s, step) && !s.failed && step.StoreDone?
    ensures Due(Apply(s, step), b) <==> Due(s, b)
  {
    StoreExtends(s, step);
    hide Promise;
    hide Shape;
    hide Capture;
    hide BlocksOfSets;
    hide UnderWay;
  }

  lemma DueMarked(s: State, step: Step, b: nat)
    requires Enabled(s, step) && step.MarkSet?
    ensures Due(Apply(s, step), b) <==> Due(s, b)
  {
    BlocksOfSetsHead(s.sets);
    hide Waiting;
    hide BlocksOfSets;
    hide UnderWay;
  }

  lemma DueIncrement(s: State, step: Step, b: nat)
    requires Enabled(s, step) && step.TraceIncrement?
    ensures Due(Apply(s, step), b) <==> Due(s, b) || Records(step, b)
  {
    IncrementGuard(s, step);
    IncrementMarks(step.w, step.segs, step.kind, step.cowOnDevice, step.sets, b);
    hide GuardOf;
    hide Apply;
    hide Enabled;
    hide Waiting;
    hide UnderWay;
    hide Untraced;
  }

  lemma IncrementGuard(s: State, step: Step)
    requires Enabled(s, step) && step.TraceIncrement?
    ensures var g, g' := GuardOf(s), GuardOf(Apply(s, step));
      g'.store == g.store && g'.pending == g.pending && g'.marks == g.marks + BlocksOfSets(step.sets)
    ensures Apply(s, step).tps == s.tps && Apply(s, step).flights == s.flights
    ensures Separated(step.sets) && SectorsOf(step.sets) == MustRecord(step.segs, step.w.sect, step.kind, step.cowOnDevice)
    ensures Sectors(step.segs) == step.w.Len() > 0
  {
    BlocksOfSetsAppend(s.sets, step.sets);
    hide BlocksOfSets;
    hide MustRecord;
    hide SectorsOf;
    hide Separated;
    hide Unrecorded;
  }

  /** The sets recorded for a write ask to mark exactly the blocks that it records. */
  lemma IncrementMarks(w: Write, segs: seq<Segment>, kind: WriteKind, cowOnDevice: bool, sets: seq<SectorSet>, b: nat)
    requires Separated(sets) && SectorsOf(sets) == MustRecord(segs, w.sect, kind, cowOnDevice)
    requires Sectors(segs) == w.Len() > 0
    ensures b in BlocksOfSets(sets) <==> b in BlocksOf(w.sect, w.Len()) && !Untraced(segs, w.sect, kind, cowOnDevice, b)
  {
    MarkedInside(sets, segs, w.sect, kind, cowOnDevice);
    MarkedExactly(sets, b);
    if b in BlocksOf(w.sect, w.Len()) { UnrecordedExactly(segs, w.sect, kind, cowOnDevice, b); }
  }

  lemma DueStart(s: State, step: Step, b: nat)
    requires Shape(s) && Ledger(s) && Enabled(s, step) && step.TraceStart?
    ensures Due(Apply(s, step), b) <==> Due(s, b) || Records(step, b)
  {
    var w, s' := step.w, Apply(s, step);
    BlocksAreSpan(w.sect, w.Len());
    assert GuardOf(s').store == GuardOf(s).store && GuardOf(s').pending == GuardOf(s).pending && GuardOf(s').marks == GuardOf(s).marks;
    assert w.id !in s.tps;
    RecordAdded(s.tps, s.flights, Tp(w, 1, true, w.First()), b);
    hide GuardOf;
    hide UnderWay;
    hide Waiting;
    hide Ledger;
    hide Shape;
  }

  lemma RecordAdded(tps: map<nat, Tp>, flights: map<nat, Flight>, tp: Tp, b: nat)
    requires tp.w.id !in tps
    ensures UnderWay(tps[tp.w.id := tp], flights, b) <==> UnderWay(tps, flights, b) || tp.w.First() <= b < tp.w.End()
  {
    var tps' := tps[tp.w.id := tp];
    if t :| t in tps && tps[t].w.First() <= b < tps[t].w.End() { assert t in tps' && tps'[t] == tps[t]; }
    if tp.w.First() <= b < tp.w.End() { assert tp.w.id in tps' && tps'[tp.w.id] == tp; }
  }

  /** Changing a record but not its write, and adding or filling clones for its blocks. */
  lemma RecordChanged(tps: map<nat, Tp>, flights: map<nat, Flight>, t: nat, tp: Tp, c: nat, f: Flight, b: nat)
    requires t in tps && tp.w == tps[t].w && !f.queued
    requires (c in flights && !flights[c].queued && f.start == flights[c].start && f.count == flights[c].count)
      || (c !in flights && tp.w.First() <= f.start && f.start + f.count <= tp.w.End())
    ensures UnderWay(tps[t := tp], flights[c := f], b) <==> UnderWay(tps, flights, b)
  {
    var tps', flights' := tps[t := tp], flights[c := f];
    if u :| u in tps && tps[u].w.First() <= b < tps[u].w.End() { assert u in tps' && tps'[u].w == tps[u].w; }
    if u :| u in tps' && tps'[u].w.First() <= b < tps'[u].w.End() { assert u in tps && tps'[u].w == tps[u].w; }
    if d :| d in flights && !flights[d].queued && flights[d].start <= b < flights[d].start + flights[d].count {
      assert d in flights' && !flights'[d].queued && flights'[d].start <= b < flights'[d].start + flights'[d].count;
    }
    if d :| d in flights' && !flights'[d].queued && flights'[d].start <= b < flights'[d].start + flights'[d].count {
      if d in flights { assert !flights[d].queued && flights[d].start <= b < flights[d].start + flights[d].count; }
      else { assert tps[t].w.First() <= b < tps[t].w.End(); }
    }
  }

  lemma DueFlights(s: State, step: Step, b: nat)
    requires Shape(s) && Refs(s) && Enabled(s, step) && (step.TraceClone? || step.FetchClone?)
    ensures Due(Apply(s, step), b) <==> Due(s, b)
  {
    GuardOfFlights(s, step);
    var s', c := Apply(s, step), step.c;
    var t := if step.TraceClone? then step.t else s.flights[c].tp;
    assert TpFits(s.tps[t], t, |s.base|);
    RecordChanged(s.tps, s.flights, t, s'.tps[t], c, s'.flights[c], b);
    assert s'.tps == s.tps[t := s'.tps[t]] && s'.flights == s.flights[c := s'.flights[c]];
    hide GuardOf;
    hide UnderWay;
    hide Shape;
    hide Refs;
  }

  lemma DueDropped(s: State, step: Step, b: nat)
    requires Inv(s) && Enabled(s, step) && !s.failed && (step.TraceFinish? || step.DropClone?)
    ensures Due(Apply(s, step), b) <==> Due(s, b)
  {
    InvParts(s);
    hide Inv;
    var (p, t) := BeforePut(s, step);
    TrackedBeforePut(s, step);
    DueBeforePut(s, step, b);
    hide Shape;
    hide Refs;
    hide Tracked;
    hide GuardOf;
    DuePut(p, t, b);
  }

  lemma DueBeforePut(s: State, step: Step, b: nat)
    requires Enabled(s, step) && (step.TraceFinish? || step.DropClone?)
    ensures var (p, t) := BeforePut(s, step); UnderWay(p.tps, p.flights, b) <==> UnderWay(s.tps, s.flights, b)
  {
    var (p, t) := BeforePut(s, step);
    if u :| u in s.tps && s.tps[u].w.First() <= b < s.tps[u].w.End() { assert u in p.tps && p.tps[u].w == s.tps[u].w; }
    if c :| c in s.flights && !s.flights[c].queued && s.flights[c].start <= b < s.flights[c].start + s.flights[c].count {
      assert c in p.flights && p.flights[c] == s.flights[c];
    }
  }

  /** A record that goes away leaves only held blocks behind. */
  lemma DuePut(p: State, t: nat, b: nat)
    requires Tracked(p) && t in p.tps && p.tps[t].refs == Owed(p.tps, p.flights, t) + 1 && TpFits(p.tps[t], t, |p.base|)
    ensures Due(Put(p, t), b) <==> Due(p, b)
  {
    GuardOfPut(p, t);
    if p.tps[t].refs == 1 {
      LastReference(GuardOf(p), p.tps, p.flights, t);
      RecordDropped(p.tps, p.flights, t, b);
    } else {
      RecordKept(p.tps, p.flights, t, p.tps[t].(refs := p.tps[t].refs - 1), b);
    }
    hide GuardOf;
    hide Tracked;
    hide Held;
    hide UnderWay;
  }

  lemma RecordDropped(tps: map<nat, Tp>, flights: map<nat, Flight>, t: nat, b: nat)
    requires t in tps
    ensures UnderWay(tps - {t}, flights, b) ==> UnderWay(tps, flights, b)
    ensures UnderWay(tps, flights, b) ==> UnderWay(tps - {t}, flights, b) || tps[t].w.First() <= b < tps[t].w.End()
  {
    if u :| u in tps && tps[u].w.First() <= b < tps[u].w.End() { if u != t { assert u in tps - {t}; } }
  }

  lemma RecordKept(tps: map<nat, Tp>, flights: map<nat, Flight>, t: nat, tp: Tp, b: nat)
    requires t in tps && tp.w == tps[t].w
    ensures UnderWay(tps[t := tp], flights, b) <==> UnderWay(tps, flights, b)
  {
    if u :| u in tps && tps[u].w.First() <= b < tps[u].w.End() { assert u in tps[t := tp] && tps[t := tp][u].w == tps[u].w; }
  }

  ghost predicate Elsewhere(step: Step) {
    !GuardSteps(step) && !AboutReferences(step) && !step.TraceClone? && !step.FetchClone? && !step.ToSnapshot?
  }

  lemma DueElsewhere(s: State, step: Step, b: nat)
    requires Shape(s) && Enabled(s, step) && !s.failed && !Apply(s, step).failed && Elsewhere(step)
    ensures Due(Apply(s, step), b) <==> Due(s, b)
  {
    GuardOfRest(s, step);
    TpsElsewhere(s, step);
    hide Apply;
    hide Enabled;
    hide GuardOf;
  }

  lemma TpsElsewhere(s: State, step: Step)
    requires Enabled(s, step) && Elsewhere(step)
    ensures Apply(s, step).tps == s.tps && Apply(s, step).flights == s.flights
  {
    hide Apply;
    hide Enabled;
    if AboutHand(step) { HandFrame(s, step); } else { TpsOfRest(s, step); }
  }

  lemma TpsOfRest(s: State, step: Step)
    requires Enabled(s, step) && Elsewhere(step) && !AboutHand(step)
    ensures Apply(s, step).tps == s.tps && Apply(s, step).flights == s.flights
  {
    hide BlocksOfSets;
  }

  /** As long as the device has not failed, a block comes to be due exactly by a
      step that records it, and stays so up to the next snapshot. */
  lemma DueStep(s: State, step: Step, b: nat)
    requires Inv(s) && !s.failed && Enabled(s, step) && !step.ToSnapshot? && !Apply(s, step).failed
    ensures Due(Apply(s, step), b) <==> Due(s, b) || Records(step, b)
  {
    hide Apply;
    hide Enabled;
    hide Due;
    InvParts(s);
    hide Shape;
    hide Refs;
    hide Ledger;
    hide Tracked;
    if step.TraceStart? { DueStart(s, step, b); }
    else if step.TraceIncrement? { DueIncrement(s, step, b); }
    else if step.QueueClone? || step.ArriveRead? { DueQueued(s, step, b); }
    else if step.TakeNext? { DueTaken(s, step, b); }
    else if step.StoreDone? { DueStored(s, step, b); }
    else if step.MarkSet? { DueMarked(s, step, b); }
    else if step.TraceClone? || step.FetchClone? { DueFlights(s, step, b); }
    else if step.TraceFinish? || step.DropClone? { DueDropped(s, step, b); }
    else if step.CloneError? { ErrorFails(s, step); }
    else { DueElsewhere(s, step, b); }
  }

  lemma ErrorFails(s: State, step: Step)
    requires Enabled(s, step) && step.CloneError?
    ensures Apply(s, step).failed
  {
  }

  // ------------------------------------------------------------------ the runs

  /** At the next snapshot exactly the blocks that are due are marked, and nothing
      is due in the new period. */
  lemma DueIsMarked(s: State, step: Step, b: nat)
    requires Shape(s) && Refs(s) && Enabled(s, step) && step.ToSnapshot?
    ensures b in Apply(s, step).past.epochs[|s.past.epochs|].marks <==> Due(s, b)
    ensures !Due(Apply(s, step), b) && |Apply(s, step).past.epochs| == |s.past.epochs| + 1 && !Apply(s, step).failed
  {
    assert s.flights == map[];
  }

  lemma {:induction false} NoMorePeriods(s: State, steps: seq<Step>)
    requires s.failed && Possible(s, steps)
    ensures After(s, steps).past.epochs == s.past.epochs
    decreases |steps|
  {
    hide Enabled;
    hide Apply;
    if steps != [] {
      FailedStays(s, steps[0]);
      SnapshotNeedsHealth(s, steps[0]);
      PastStep(s, steps[0]);
      NoMorePeriods(Apply(s, steps[0]), steps[1..]);
    }
  }

  lemma SnapshotNeedsHealth(s: State, step: Step)
    requires Enabled(s, step) && s.failed
    ensures !step.ToSnapshot?
  {
  }

  lemma {:induction false} MarksAlong(s: State, steps: seq<Step>, n: nat, b: nat)
    requires Inv(s) && Possible(s, steps) && |s.past.epochs| <= n < |After(s, steps).past.epochs|
    ensures b in After(s, steps).past.epochs[n].marks
      <==> (n == |s.past.epochs| && Due(s, b)) || RecordedIn(steps, n - |s.past.epochs|, b)
    decreases |steps|
  {
    hide Enabled;
    hide Apply;
    hide Inv;
    hide Due;
    hide Records;
    if s.failed {
      NoMorePeriods(s, steps);
    } else {
      var s1, rest := Apply(s, steps[0]), steps[1..];
      InvKept(s, steps[0]);
      PastStep(s, steps[0]);
      PastStays(s1, rest);
      if steps[0].ToSnapshot? {
        InvParts(s);
        hide Shape;
        hide Refs;
        DueIsMarked(s, steps[0], b);
        if n > |s.past.epochs| { MarksAlong(s1, rest, n, b); }
      } else {
        if s1.failed { NoMorePeriods(s1, rest); }
        DueStep(s, steps[0], b);
        MarksAlong(s1, rest, n, b);
      }
    }
  }

  /** In every run, a block is marked for a finished period if and only if a write of
      that period got it captured or recorded. */
  lemma MarksAreExact(base: seq<byte>, seqid: nat, steps: seq<Step>, n: nat, b: nat)
    requires |base| % 4096 == 0 && Possible(Init(base, seqid), steps)
    requires n < |After(Init(base, seqid), steps).past.epochs|
    ensures b in After(Init(base, seqid), steps).past.epochs[n].marks <==> RecordedIn(steps, n, b)
  {
    hide Possible;
    hide After;
    hide RecordedIn;
    InvInit(base, seqid);
    hide Inv;
    NothingDue(base, seqid, b);
    hide Due;
    MarksAlong(Init(base, seqid), steps, n, b);
  }

  lemma NothingDue(base: seq<byte>, seqid: nat, b: nat)
    ensures !Due(Init(base, seqid), b)
  {
  }
}
