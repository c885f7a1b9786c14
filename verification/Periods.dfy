/**
 What a run leaves behind of each period: exactly which blocks changed behind
 the tracer's back, and exactly when a closed COW file holds all marks.
 */
module Periods {
  import opened Blocks
  import opened BioQueues
  import opened Tracing
  import opened Protocol
  import opened Invariants
  import opened ShapeProof
  import opened TrackingProof
  import opened Runs

  // What is known of period `i`, the last of which is still going on.

  ghost function PeriodCount(s: State): nat { |s.past.epochs| + 1 }

  ghost function SnapOf(s: State, i: nat): seq<byte> requires i < PeriodCount(s) {
    if i == |s.past.epochs| then s.snap else s.past.epochs[i].snap
  }

  ghost function BypassedIn(s: State, i: nat): set<nat> requires i < PeriodCount(s) {
    if i == |s.past.epochs| then s.bypassed else s.past.epochs[i].bypassed
  }

  ghost function AnswersIn(s: State, i: nat): seq<Answer> requires i < PeriodCount(s) {
    if i == |s.past.epochs| then s.answers else s.past.epochs[i].answers
  }

  /** Finished periods and closed files are never changed again. */
  lemma {:induction false} PastStays(s: State, steps: seq<Step>)
    requires Possible(s, steps)
    ensures s.past.epochs <= After(s, steps).past.epochs && s.past.files <= After(s, steps).past.files
    decreases |steps|
  {
    hide Enabled;
    hide Apply;
    if steps != [] {
      PastStep(s, steps[0]);
      PastStays(Apply(s, steps[0]), steps[1..]);
    }
  }

  lemma PastStep(s: State, step: Step)
    requires Enabled(s, step)
    ensures s.past.epochs <= Apply(s, step).past.epochs && s.past.files <= Apply(s, step).past.files
    ensures !step.ToSnapshot? ==> Apply(s, step).past.epochs == s.past.epochs
    ensures !AboutClosing(step) ==> Apply(s, step).past.files == s.past.files
  {
    hide Apply;
    hide Enabled;
    if step.ToSnapshot? || AboutClosing(step) { PastOfChange(s, step); }
    else if AboutReferences(step) { ReferencesFrame(s, step); }
    else if AboutQueue(step) { QueueFrame(s, step); }
    else { PastElsewhere(s, step); }
  }

  lemma PastOfChange(s: State, step: Step)
    requires Enabled(s, step) && (step.ToSnapshot? || AboutClosing(step))
    ensures s.past.epochs <= Apply(s, step).past.epochs && s.past.files <= Apply(s, step).past.files
    ensures !step.ToSnapshot? ==> Apply(s, step).past.epochs == s.past.epochs
    ensures !AboutClosing(step) ==> Apply(s, step).past.files == s.past.files
  {
    hide BlocksOfSets;
  }

  // ------------------------------------------------------------ the snapshots

  /** What counts as the snapshot of a period never changes once the period has begun. */
  lemma {:induction false} SnapStays(s: State, steps: seq<Step>)
    requires Possible(s, steps)
    ensures |s.past.epochs| < PeriodCount(After(s, steps)) && SnapOf(After(s, steps), |s.past.epochs|) == s.snap
    decreases |steps|
  {
    hide Enabled;
    hide Apply;
    if steps != [] {
      var s1, rest := Apply(s, steps[0]), steps[1..];
      SnapStep(s, steps[0]);
      PastStays(s1, rest);
      if !steps[0].ToSnapshot? {
        PastStep(s, steps[0]);
        SnapStays(s1, rest);
      }
    }
  }

  lemma SnapStep(s: State, step: Step)
    requires Enabled(s, step)
    ensures !step.ToSnapshot? ==> Apply(s, step).snap == s.snap
    ensures step.ToSnapshot? ==> |Apply(s, step).past.epochs| == |s.past.epochs| + 1 && Apply(s, step).snap == s.base
    ensures step.ToSnapshot? ==> Apply(s, step).past.epochs[|s.past.epochs|].snap == s.snap
  {
    hide Apply;
    hide Enabled;
    if AboutReferences(step) { ReferencesFrame(s, step); }
    else if AboutQueue(step) { QueueFrame(s, step); }
    else { SnapElsewhere(s, step); }
  }

  lemma SnapElsewhere(s: State, step: Step)
    requires Enabled(s, step) && !AboutReferences(step) && !AboutQueue(step)
    ensures !step.ToSnapshot? ==> Apply(s, step).snap == s.snap
    ensures step.ToSnapshot? ==> |Apply(s, step).past.epochs| == |s.past.epochs| + 1 && Apply(s, step).snap == s.base
    ensures step.ToSnapshot? ==> Apply(s, step).past.epochs[|s.past.epochs|].snap == s.snap
  {
    hide BlocksOfSets;
    hide Dequeue;
  }

  /** In every run, the first snapshot is the device as it was at the start, and the
      snapshot that a change to snapshot mode takes is the device at that instant. */
  lemma SnapshotsAreTheDevice(base: seq<byte>, seqid: nat, before: seq<Step>, after: seq<Step>)
    requires Possible(Init(base, seqid), before) && Possible(After(Init(base, seqid), before), after)
    ensures SnapOf(After(Init(base, seqid), before), 0) == base
    ensures var s := After(Init(base, seqid), before);
      after != [] && after[0].ToSnapshot? ==>
        PeriodCount(s) < PeriodCount(After(s, after)) && SnapOf(After(s, after), PeriodCount(s)) == s.base
  {
    SnapStays(Init(base, seqid), before);
    hide Possible;
    hide After;
    if after != [] && after[0].ToSnapshot? { NextSnapIsDevice(After(Init(base, seqid), before), after); }
  }

  lemma NextSnapIsDevice(s: State, steps: seq<Step>)
    requires Possible(s, steps) && steps != [] && steps[0].ToSnapshot?
    ensures PeriodCount(s) < PeriodCount(After(s, steps)) && SnapOf(After(s, steps), PeriodCount(s)) == s.base
  {
    hide Enabled;
    hide Apply;
    SnapStep(s, steps[0]);
    SnapStays(Apply(s, steps[0]), steps[1..]);
  }

  // ------------------------------------------------------ untraced changes

  /** The step changes block `b` and gets it neither captured nor recorded: all it
      writes are pages of a COW file on the device, or in incremental mode only
      such pages or a discard reach into the block. */
  ghost predicate Excuses(step: Step, b: nat) {
    match step
    case TraceStart(w, segs, kind, cowOnDevice) =>
      b in BlocksOf(w.sect, w.Len()) && cowOnDevice && kind == Data && forall i :: 0 <= i < |segs| ==> segs[i].ownedByCow
    case TraceIncrement(w, segs, kind, cowOnDevice, _) =>
      b in BlocksOf(w.sect, w.Len()) && Untraced(segs, w.sect, kind, cowOnDevice, b)
    case _ => false
  }

  /** Such a step occurs in the `i`-th period from now. */
  ghost predicate Excused(steps: seq<Step>, i: nat, b: nat)
    decreases |steps|
  {
    steps != [] &&
    if steps[0].ToSnapshot? then i > 0 && Excused(steps[1..], i - 1, b)
    else (i == 0 && Excuses(steps[0], b)) || Excused(steps[1..], i, b)
  }

  /** A step adds to the exempt blocks exactly those it excuses. */
  lemma BypassedStep(s: State, step: Step, b: nat)
    requires Enabled(s, step) && !step.ToSnapshot?
    ensures b in Apply(s, step).bypassed <==> b in s.bypassed || Excuses(step, b)
  {
    hide Enabled;
    hide Apply;
    hide Excuses;
    if !step.TraceStart? && !step.TraceIncrement? { ExcusesOnlyWrites(step, b); }
    if step.TraceStart? { BypassedStart(s, step, b); }
    else if step.TraceIncrement? { BypassedIncrement(s, step, b); }
    else if AboutReferences(step) { ReferencesFrame(s, step); }
    else if AboutQueue(step) { QueueFrame(s, step); }
    else { BypassedByRest(s, step); }
  }

  lemma ExcusesOnlyWrites(step: Step, b: nat)
    requires !step.TraceStart? && !step.TraceIncrement?
    ensures !Excuses(step, b)
  {
  }

  lemma BypassedByRest(s: State, step: Step)
    requires Enabled(s, step) && !AboutReferences(step) && !AboutQueue(step)
    requires !step.TraceStart? && !step.TraceIncrement? && !step.ToSnapshot?
    ensures Apply(s, step).bypassed == s.bypassed
  {
    hide BlocksOfSets;
  }

  lemma BypassedStart(s: State, step: Step, b: nat)
    requires Enabled(s, step) && step.TraceStart?
    ensures b in Apply(s, step).bypassed <==> b in s.bypassed || Excuses(step, b)
  {
  }

  lemma BypassedIncrement(s: State, step: Step, b: nat)
    requires Enabled(s, step) && step.TraceIncrement?
    ensures b in Apply(s, step).bypassed <==> b in s.bypassed || Excuses(step, b)
  {
    hide MustRecord;
    hide SectorsOf;
    hide Untraced;
    hide Unrecorded;
    if b in BlocksOf(step.w.sect, step.w.Len()) {
      UnrecordedExactly(step.segs, step.w.sect, step.kind, step.cowOnDevice, b);
    } else {
      UnrecordedInside(step.segs, step.w.sect, step.kind, step.cowOnDevice, b);
    }
  }

  lemma UnrecordedInside(segs: seq<Segment>, sect: nat, kind: WriteKind, cowOnDevice: bool, b: nat)
    requires b !in BlocksOf(sect, Sectors(segs))
    ensures b !in Unrecorded(segs, sect, kind, cowOnDevice)
  {
  }

  lemma PeriodEnds(s: State, step: Step)
    requires Enabled(s, step) && step.ToSnapshot?
    ensures |Apply(s, step).past.epochs| == |s.past.epochs| + 1 && Apply(s, step).bypassed == {}
    ensures Apply(s, step).past.epochs[|s.past.epochs|].bypassed == s.bypassed
  {
  }

  /** In every run, the blocks exempt in a period are exactly those that some step
      of that period excuses. */
  lemma {:induction false} BypassedExactly(s: State, steps: seq<Step>, n: nat, b: nat)
    requires Possible(s, steps) && |s.past.epochs| <= n < PeriodCount(After(s, steps))
    ensures b in BypassedIn(After(s, steps), n)
      <==> (n == |s.past.epochs| && b in s.bypassed) || Excused(steps, n - |s.past.epochs|, b)
    decreases |steps|
  {
    hide Enabled;
    hide Apply;
    hide Excuses;
    if steps != [] {
      var s1, rest := Apply(s, steps[0]), steps[1..];
      PastStep(s, steps[0]);
      PastStays(s1, rest);
      if steps[0].ToSnapshot? {
        PeriodEnds(s, steps[0]);
        if n > |s.past.epochs| { BypassedExactly(s1, rest, n, b); }
      } else {
        BypassedStep(s, steps[0], b);
        BypassedExactly(s1, rest, n, b);
      }
    }
  }

  /** No page of a COW file on the device is written, and no discard reaches a
      device that holds the COW file. */
  ghost predicate Foreign(step: Step) {
    match step
    case TraceStart(_, segs, kind, cowOnDevice) =>
      cowOnDevice ==> kind != Discard && forall i :: 0 <= i < |segs| ==> !segs[i].ownedByCow
    case TraceIncrement(_, segs, kind, cowOnDevice, _) =>
      cowOnDevice ==> kind != Discard && forall i :: 0 <= i < |segs| ==> !segs[i].ownedByCow
    case _ => true
  }

  ghost predicate ForeignRun(steps: seq<Step>) { forall i :: 0 <= i < |steps| ==> Foreign(steps[i]) }

  lemma {:induction false} AllForeign(segs: seq<Segment>, sect: nat)
    requires forall i :: 0 <= i < |segs| ==> !segs[i].ownedByCow
    ensures ForeignSectors(segs, sect) == Span(sect, Sectors(segs))
  {
    if segs != [] { AllForeign(segs[..|segs| - 1], sect); }
  }

  lemma ForeignExcusesNothing(s: State, step: Step, b: nat)
    requires Enabled(s, step) && Foreign(step)
    ensures !Excuses(step, b)
  {
    if step.TraceIncrement? && b in BlocksOf(step.w.sect, step.w.Len()) && step.cowOnDevice {
      AllForeign(step.segs, step.w.sect);
      SpanRecords(step.w.sect, step.w.Len(), b);
      UnrecordedExactly(step.segs, step.w.sect, step.kind, step.cowOnDevice, b);
    }
  }

  lemma {:induction false} NothingExcused(s: State, steps: seq<Step>, i: nat, b: nat)
    requires Possible(s, steps) && ForeignRun(steps)
    ensures !Excused(steps, i, b)
    decreases |steps|
  {
    hide Enabled;
    hide Apply;
    hide Foreign;
    hide Excuses;
    if steps != [] {
      ForeignExcusesNothing(s, steps[0], b);
      assert forall j :: 0 <= j < |steps[1..]| ==> steps[1..][j] == steps[j + 1];
      NothingExcused(Apply(s, steps[0]), steps[1..], if i > 0 && steps[0].ToSnapshot? then i - 1 else i, b);
    }
  }

  /** A run without such writes leaves no block exempt, in any period. */
  lemma NothingBypassed(base: seq<byte>, seqid: nat, steps: seq<Step>, i: nat)
    requires Possible(Init(base, seqid), steps) && ForeignRun(steps) && i < PeriodCount(After(Init(base, seqid), steps))
    ensures BypassedIn(After(Init(base, seqid), steps), i) == {}
  {
    hide Possible;
    hide After;
    hide Excused;
    forall b ensures b !in BypassedIn(After(Init(base, seqid), steps), i) {
      BypassedExactly(Init(base, seqid), steps, i, b);
      NothingExcused(Init(base, seqid), steps, i, b);
    }
  }

  // ---------------------------------------------------- marks of closed files

  /** Marking the last queued set fails without being noticed, and leaves out a
      block that has not been marked for another reason. */
  ghost predicate Misses(s: State, step: Step) {
    step.CloseError? && step.kept && s.past.closing.Some? && s.past.closing.value.sets != []
    && !(BlocksOf(s.past.closing.value.sets[0].sect, s.past.closing.value.sets[0].len) <= s.past.closing.value.marks + step.part)
  }

  /** This happens while the file of period `i` is being closed. */
  ghost predicate MissedIn(s: State, steps: seq<Step>, i: nat)
    requires Possible(s, steps)
    decreases |steps|
  {
    steps != [] && ((|s.past.files| == i && Misses(s, steps[0])) || MissedIn(Apply(s, steps[0]), steps[1..], i))
  }

  lemma {:induction false} ClosedForGood(s: State, steps: seq<Step>, i: nat)
    requires Possible(s, steps) && i < |s.past.files|
    ensures !MissedIn(s, steps, i)
    decreases |steps|
  {
    hide Enabled;
    hide Apply;
    if steps != [] {
      PastStep(s, steps[0]);
      ClosedForGood(Apply(s, steps[0]), steps[1..], i);
    }
  }

  /** The file that a step closes holds its period's marks exactly if the step misses none. */
  lemma ClosedExactly(s: State, step: Step)
    requires History(s) && Enabled(s, step) && |Apply(s, step).past.files| > |s.past.files|
    ensures |Apply(s, step).past.files| == |s.past.files| + 1 && |s.past.files| < |s.past.epochs|
    ensures Apply(s, step).past.epochs == s.past.epochs
    ensures var f := Apply(s, step).past.files[|s.past.files|];
      f.Some? ==> (f.value == s.past.epochs[|s.past.files|].marks <==> !Misses(s, step))
  {
    hide Chained;
    hide Filed;
    hide Apply;
    hide Enabled;
    PastStep(s, step);
    ClosedByStep(s, step);
    hide Misses;
  }

  lemma ClosedByStep(s: State, step: Step)
    requires Filed(s.past.epochs, s.past.files, s.past.closing) && Enabled(s, step) && AboutClosing(step)
    ensures var z := Apply(s, step); z.past.epochs == s.past.epochs
    ensures step.CloseMark? ==> Apply(s, step).past.files == s.past.files
    ensures !step.CloseMark? ==> |Apply(s, step).past.files| == |s.past.files| + 1 && |s.past.files| < |s.past.epochs|
    ensures !step.CloseMark? ==> var f := Apply(s, step).past.files[|s.past.files|];
      f.Some? ==> (f.value == s.past.epochs[|s.past.files|].marks <==> !Misses(s, step))
  {
    hide Apply;
    hide Enabled;
    if step.CloseError? { ClosedByError(s, step); } else { ClosedWell(s, step); }
  }

  lemma ClosedWell(s: State, step: Step)
    requires Filed(s.past.epochs, s.past.files, s.past.closing) && Enabled(s, step) && (step.CloseMark? || step.CloseFile?)
    ensures Apply(s, step).past.epochs == s.past.epochs
    ensures step.CloseMark? ==> Apply(s, step).past.files == s.past.files
    ensures step.CloseFile? ==> |Apply(s, step).past.files| == |s.past.files| + 1 && |s.past.files| < |s.past.epochs|
    ensures step.CloseFile? ==>
      Apply(s, step).past.files[|s.past.files|].Some? ==>
        Apply(s, step).past.files[|s.past.files|].value == s.past.epochs[|s.past.files|].marks
  {
  }

  lemma ClosedByError(s: State, step: Step)
    requires Filed(s.past.epochs, s.past.files, s.past.closing) && Enabled(s, step) && step.CloseError?
    ensures Apply(s, step).past.epochs == s.past.epochs
    ensures |Apply(s, step).past.files| == |s.past.files| + 1 && |s.past.files| < |s.past.epochs|
    ensures var f := Apply(s, step).past.files[|s.past.files|];
      f.Some? ==> (f.value == s.past.epochs[|s.past.files|].marks <==> !Misses(s, step))
  {
    var c := s.past.closing.value;
    BlocksOfSetsHead(c.sets);
    if step.kept { assert BlocksOfSets(c.sets[1..]) == {}; }
    hide BlocksOfSets;
  }

  lemma {:induction false} FilesExactly(s: State, steps: seq<Step>, i: nat)
    requires Inv(s) && Possible(s, steps) && |s.past.files| <= i < |After(s, steps).past.files|
    requires After(s, steps).past.files[i].Some?
    ensures i < |After(s, steps).past.epochs|
    ensures After(s, steps).past.files[i].value == After(s, steps).past.epochs[i].marks <==> !MissedIn(s, steps, i)
    decreases |steps|
  {
    hide Enabled;
    hide Apply;
    hide Misses;
    hide Inv;
    if steps != [] {
      var s1, rest := Apply(s, steps[0]), steps[1..];
      InvKept(s, steps[0]);
      PastStays(s1, rest);
      if |s1.past.files| > |s.past.files| {
        InvParts(s);
        ClosedExactly(s, steps[0]);
        if i == |s.past.files| { ClosedForGood(s1, rest, i); } else { FilesExactly(s1, rest, i); }
      } else {
        NothingMissed(s, steps[0]);
        FilesExactly(s1, rest, i);
      }
    }
  }

  lemma NothingMissed(s: State, step: Step)
    requires Enabled(s, step) && |Apply(s, step).past.files| <= |s.past.files|
    ensures !Misses(s, step)
  {
  }

  /** In every run, a COW file that was closed and not removed holds only marks of
      its period, and all of them if and only if none was missed while closing. */
  lemma ClosedFilesHoldMarks(base: seq<byte>, seqid: nat, steps: seq<Step>, i: nat)
    requires |base| % 4096 == 0 && Possible(Init(base, seqid), steps)
    requires var s := After(Init(base, seqid), steps); i < |s.past.files| && s.past.files[i].Some?
    ensures var s := After(Init(base, seqid), steps);
      && i < |s.past.epochs| && s.past.files[i].value <= s.past.epochs[i].marks
      && (s.past.files[i].value == s.past.epochs[i].marks <==> !MissedIn(Init(base, seqid), steps, i))
  {
    hide Possible;
    hide MissedIn;
    InvInit(base, seqid);
    ReachableInv(base, seqid, steps);
    FilesExactly(Init(base, seqid), steps, i);
    hide Tracked;
    hide Shape;
    hide Refs;
    hide Ledger;
    hide Counts;
    hide Chained;
  }
}
