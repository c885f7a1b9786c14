/** Whole runs of the protocol, and what holds after each of them. */
module Runs {
  import opened Blocks
  import opened Tracing
  import opened Protocol
  import opened Invariants
  import opened ShapeProof
  import opened TrackingProof

  /** The steps can be taken one after the other from `s`. */
  ghost predicate Possible(s: State, steps: seq<Step>)
    decreases |steps|
  {
    steps == [] || (Enabled(s, steps[0]) && Possible(Apply(s, steps[0]), steps[1..]))
  }

  ghost function After(s: State, steps: seq<Step>): State
    requires Possible(s, steps)
    decreases |steps|
  {
    if steps == [] then s else After(Apply(s, steps[0]), steps[1..])
  }

  // ------------------------------------------------------------------- history

  lemma ChainExtended(epochs: seq<Epoch>, seqid: nat, snap: seq<byte>, e: Epoch, next: seq<byte>)
    requires Chained(epochs, seqid, snap) && e.snap == snap && e.seqid == seqid && Explains(e, next)
    ensures Chained(epochs + [e], seqid + 1, next)
  {
  }

  /** The marks left by a period explain how the device has changed in it. */
  lemma PeriodExplained(s: State, step: Step)
    requires Shape(s) && Tracked(s) && Enabled(s, step) && step.ToSnapshot?
    ensures Explains(Epoch(s.snap, s.past.seqid, s.store.Keys + s.filler + BlocksOfSets(s.sets), s.bypassed, s.answers), s.base)
  {
  }

  lemma HistoryOfNewSnapshot(s: State, step: Step)
    requires Shape(s) && History(s) && Tracked(s) && Enabled(s, step) && step.ToSnapshot?
    ensures History(Apply(s, step))
  {
    PeriodExplained(s, step);
    ChainExtended(s.past.epochs, s.past.seqid, s.snap,
      Epoch(s.snap, s.past.seqid, s.store.Keys + s.filler + BlocksOfSets(s.sets), s.bypassed, s.answers), s.base);
    hide Chained;
    hide BlocksOfSets;
  }

  ghost predicate AboutClosing(step: Step) { step.CloseMark? || step.CloseError? || step.CloseFile? }

  lemma HistoryOfClosing(s: State, step: Step)
    requires History(s) && Enabled(s, step) && AboutClosing(step)
    ensures History(Apply(s, step))
  {
    hide Chained;
    if !step.CloseFile? { BlocksOfSetsHead(s.past.closing.value.sets); }
  }

  lemma HistoryOfRest(s: State, step: Step)
    requires History(s) && Enabled(s, step) && !step.ToSnapshot? && !AboutClosing(step)
    ensures History(Apply(s, step))
  {
    hide Chained;
    hide Filed;
    hide Apply;
    hide Enabled;
    if AboutReferences(step) { ReferencesFrame(s, step); }
    else if AboutQueue(step) { QueueFrame(s, step); }
    else { PastElsewhere(s, step); }
  }

  lemma PastElsewhere(s: State, step: Step)
    requires Enabled(s, step) && !step.ToSnapshot? && !AboutClosing(step) && !AboutReferences(step) && !AboutQueue(step)
    ensures Apply(s, step).past == s.past && Apply(s, step).snap == s.snap
  {
    hide Apply;
    hide Enabled;
    if AboutRequests(step) { PastOfRequests(s, step); } else { PastOfRest(s, step); }
  }

  lemma PastOfRequests(s: State, step: Step)
    requires Enabled(s, step) && AboutRequests(step)
    ensures Apply(s, step).past == s.past && Apply(s, step).snap == s.snap
  {
    hide NeedsCow;
    hide Fetched;
  }

  lemma PastOfRest(s: State, step: Step)
    requires Enabled(s, step) && !step.ToSnapshot? && !AboutClosing(step)
    requires !AboutReferences(step) && !AboutQueue(step) && !AboutRequests(step)
    ensures Apply(s, step).past == s.past && Apply(s, step).snap == s.snap
  {
    hide Unrecorded;
    hide BlocksOfSets;
  }

  lemma HistoryKept(s: State, step: Step)
    requires Inv(s) && Enabled(s, step)
    ensures History(Apply(s, step))
  {
    hide Apply;
    hide History;
    hide Shape;
    hide Tracked;
    if step.ToSnapshot? { HistoryOfNewSnapshot(s, step); }
    else if AboutClosing(step) { HistoryOfClosing(s, step); }
    else { HistoryOfRest(s, step); }
  }

  // ---------------------------------------------------------------- invariance

  lemma InvInit(base: seq<byte>, seqid: nat)
    requires |base| % 4096 == 0
    ensures Inv(Init(base, seqid))
  {
  }

  lemma InvKept(s: State, step: Step)
    requires Inv(s) && Enabled(s, step)
    ensures Inv(Apply(s, step))
  {
    hide Apply;
    hide Enabled;
    hide Shape;
    hide Refs;
    hide Ledger;
    hide Counts;
    hide History;
    hide Tracked;
    ShapeKept(s, step);
    RefsKept(s, step);
    LedgerKept(s, step);
    CountsKept(s, step);
    HistoryKept(s, step);
    TrackedKept(s, step);
  }

  lemma {:induction false} InvAlways(s: State, steps: seq<Step>)
    requires Inv(s) && Possible(s, steps)
    ensures Inv(After(s, steps))
    decreases |steps|
  {
    hide Inv;
    hide Apply;
    hide Enabled;
    if steps != [] {
      InvKept(s, steps[0]);
      InvAlways(Apply(s, steps[0]), steps[1..]);
    }
  }

  /** Every state reached from a fresh snapshot satisfies the invariant. */
  lemma ReachableInv(base: seq<byte>, seqid: nat, steps: seq<Step>)
    requires |base| % 4096 == 0 && Possible(Init(base, seqid), steps)
    ensures Inv(After(Init(base, seqid), steps))
  {
    InvInit(base, seqid);
    InvAlways(Init(base, seqid), steps);
  }
}
