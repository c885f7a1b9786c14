/**
 Snapshot isolation: in every orderly run, whatever is captured or answered is
 what the device held when the snapshot was taken.
 */
module Isolation {
  import opened Blocks
  import opened BioQueues
  import opened Promises
  import opened Protocol
  import opened Invariants
  import opened ShapeProof
  import opened TrackingProof
  import opened Runs
  import opened Periods

  // ------------------------------------------------------------------- answers

  lemma CapturedByte(s: State, k: nat)
    requires Shape(s) && Isolated(s) && k / 4096 in s.store && k / 4096 !in s.bypassed
    ensures k < |s.snap| && s.store[k / 4096][k % 4096] == s.snap[k]
  {
  }

  lemma FetchedByte(s: State, k: nat)
    requires Shape(s) && Isolated(s) && s.hand.Answering? && InRead(s.hand.e, k) && k in s.hand.buf
    requires k / 4096 !in s.store && k / 4096 !in s.bypassed
    ensures k < |s.snap| && s.hand.buf[k] == s.snap[k]
  {
    hide Right;
    hide Agrees;
    hide QueueOk;
  }

  lemma KnownByte(s: State, k: nat)
    requires Shape(s) && Isolated(s) && s.hand.Answering? && InRead(s.hand.e, k) && Known(s.store, s.hand.buf, k)
    requires k / 4096 !in s.bypassed
    ensures k < |s.snap| && AnswerByte(s.store, s.hand.buf, k) == s.snap[k]
  {
    hide Shape;
    hide Isolated;
    if k / 4096 in s.store { CapturedByte(s, k); } else { FetchedByte(s, k); }
  }

  lemma ReadFits(s: State)
    requires Shape(s) && s.hand.Answering?
    ensures s.hand.e.Read? && 512 * (s.hand.e.sect + s.hand.e.len) <= |s.snap|
  {
  }

  lemma AnswerIsRight(s: State)
    requires Shape(s) && Isolated(s) && Enabled(s, ReadDone)
    ensures AnswerOk(AnswerNow(s), s.snap)
  {
    hide Shape;
    hide Isolated;
    ReadFits(s);
    var e, a := s.hand.e, AnswerNow(s);
    assert forall k: nat :: InRead(e, k) ==> Known(s.store, s.hand.buf, k);
    hide Enabled;
    hide Known;
    hide AnswerByte;
    forall i | 0 <= i < |a.data| && (512 * a.sect + i) / 4096 !in a.except ensures a.data[i] == s.snap[512 * a.sect + i] {
      var k := 512 * e.sect + i;
      assert InRead(e, k);
      KnownByte(s, k);
    }
  }

  lemma AnswersAdded(s: State)
    requires Shape(s) && Answers(s) && Isolated(s) && Enabled(s, ReadDone)
    ensures Answers(Apply(s, ReadDone))
  {
    AnswerIsRight(s);
    hide AnswerOk;
    hide AnswerOf;
    hide Isolated;
    hide Shape;
  }

  /** Apart from a completed read, a step leaves the answers alone. */
  ghost predicate AnswersLeft(s: State, s': State) {
    s'.answers == s.answers && s'.snap == s.snap && s.bypassed <= s'.bypassed && s'.past.epochs == s.past.epochs
  }

  lemma AnswersOfRequests(s: State, step: Step)
    requires Enabled(s, step) && AboutRequests(step)
    ensures AnswersLeft(s, Apply(s, step))
  {
    hide NeedsCow;
    hide Fetched;
    hide FreshWrite;
    hide Carries;
  }

  lemma AnswersOfQueue(s: State, step: Step)
    requires Enabled(s, step) && AboutQueue(step) && (!step.ReadDone? || s.failed)
    ensures Apply(s, step).answers == s.answers
  {
    hide Dequeue;
  }

  lemma AnswersOfRest(s: State, step: Step)
    requires Enabled(s, step) && !AboutRequests(step) && !AboutReferences(step) && !AboutQueue(step) && !step.ToSnapshot?
    ensures AnswersLeft(s, Apply(s, step))
  {
  }

  lemma AnswersArchived(s: State, step: Step)
    requires Answers(s) && Enabled(s, step) && step.ToSnapshot?
    ensures Answers(Apply(s, step))
  {
  }

  lemma AnswersStay(s: State, s': State)
    requires Answers(s) && AnswersLeft(s, s')
    ensures Answers(s')
  {
  }

  lemma AnswersKept(s: State, step: Step)
    requires Shape(s) && IsolationInv(s) && Enabled(s, step)
    ensures Answers(Apply(s, step))
  {
    hide Enabled;
    hide Apply;
    hide Answers;
    hide Isolated;
    hide Shape;
    if step.ReadDone? && !s.failed { AnswersAdded(s); }
    else if step.ToSnapshot? { AnswersArchived(s, step); }
    else {
      if AboutRequests(step) { AnswersOfRequests(s, step); }
      else if AboutReferences(step) { ReferencesFrame(s, step); }
      else if AboutQueue(step) { QueueFrame(s, step); AnswersOfQueue(s, step); }
      else { AnswersOfRest(s, step); }
      AnswersStay(s, Apply(s, step));
    }
  }

  // ----------------------------------------------------------------- the steps

  ghost predicate AllAgree(g: Guard, flights: map<nat, Flight>) {
    forall c :: c in flights && !flights[c].queued ==> Agrees(g, flights[c])
  }

  lemma AgreeUnder(g: Guard, g': Guard, flights: map<nat, Flight>)
    requires AllAgree(g, flights) && Extends(g, g')
    ensures AllAgree(g', flights)
  {
  }

  /** Promises that stay the same stay right. */
  lemma RightUnder(g: Guard, g': Guard)
    requires Right(g) && g'.snap == g.snap && g.bypassed <= g'.bypassed
    requires forall b: nat :: b !in g'.bypassed ==> Promise(g', b) == Promise(g, b)
    ensures Right(g')
  {
  }

  ghost predicate Quietly(step: Step) {
    !step.QueueClone? && !step.ArriveRead? && !step.TakeNext? && !step.StoreDone? && !step.TraceStart?
    && !step.FetchClone? && !step.TraceClone? && !step.FetchRead? && !step.DeviceWrite? && !step.ToSnapshot?
    && !step.MarkSet? && !step.TraceIncrement? && !step.ToIncremental?
  }

  /** In snapshot mode the device has not changed where queued reads will look;
      in incremental mode orderly steps see to it. */
  lemma QueueIsOk(s: State)
    requires Shape(s) && Tracked(s) && Isolated(s)
    ensures QueueOk(s)
  {
    hide Waiting;
    if s.mode == Snapshot {
      forall k: nat | AwaitedIn(s, k) && k < |s.base| && k / 4096 !in s.bypassed ensures s.base[k] == s.snap[k] {
        assert !Safe(GuardOf(s), k / 4096);
      }
    }
  }

  /** Clones are made and queued in snapshot mode only. */
  lemma ClonesOfSnapshot(s: State, step: Step)
    requires Shape(s) && Refs(s) && Enabled(s, step) && (step.QueueClone? || step.TraceClone? || step.FetchClone? || step.TraceStart?)
    ensures s.mode == Snapshot && (Apply(s, step).failed || Apply(s, step).mode == Snapshot)
  {
  }

  lemma IsolatedFlights(s: State, step: Step)
    requires Shape(s) && Tracked(s) && Isolated(s) && Enabled(s, step) && !s.failed && s.mode == Snapshot
    requires step.TraceClone? || step.FetchClone?
    ensures Isolated(Apply(s, step))
  {
  }

  /** A completely read clone holds snapshot contents for blocks not safe yet. */
  lemma PageIsRight(g: Guard, c: nat, f: Flight, b: nat)
    requires forall k :: 4096 * f.start <= k < 4096 * (f.start + f.count) ==> k in f.buf
    requires Agrees(g, f) && FlightFits(f, |g.snap|) && f.start <= b < f.start + f.count && !Safe(g, b)
    ensures EntryOf(c, f).pages[b - f.start] == BlockOf(g.snap, b)
  {
  }

  /** The queued clone holds snapshot contents for every block it is first for. */
  lemma QueuedIsRight(s: State, step: Step, b: nat)
    requires Shape(s) && Tracked(s) && Isolated(s) && Enabled(s, step) && s.mode == Snapshot && !s.failed && step.QueueClone?
    requires 4096 * b + 4096 <= |s.snap| && b !in s.bypassed
    ensures var p := Promise(GuardOf(Apply(s, step)), b); p.Some? ==> p.value == BlockOf(s.snap, b)
  {
    hide EntryOf;
    hide Agrees;
    var g, f, e := GuardOf(s), s.flights[step.c], EntryOf(step.c, s.flights[step.c]);
    assert Pending(s.hand, s.queue + [e]) == g.pending + [e];
    WaitingAppend(g.pending, [e], b);
    if !Promise(g, b).Some? && e.Covers(b) {
      assert [e][1..] == [];
      PageIsRight(g, step.c, f, b);
    }
  }

  lemma IsolatedQueue(s: State, step: Step)
    requires Shape(s) && Tracked(s) && Isolated(s) && Enabled(s, step) && s.mode == Snapshot && !s.failed && step.QueueClone?
    ensures Isolated(Apply(s, step))
  {
    var s' := Apply(s, step);
    forall b: nat | 4096 * b + 4096 <= |s.snap| && b !in s.bypassed && Promise(GuardOf(s'), b).Some?
      ensures Promise(GuardOf(s'), b).value == BlockOf(s.snap, b)
    {
      QueuedIsRight(s, step, b);
    }
    assert Right(GuardOf(s'));
    QueueExtends(s, step);
    AgreeUnder(GuardOf(s), GuardOf(s'), s.flights);
    hide Shape;
    hide GuardOf;
    hide Right;
    hide ReadOk;
    hide Safe;
    hide Agrees;
  }

  /** After a read has been queued in time, queued reads still find what they need. */
  lemma ArrivalQueueOk(s: State, step: Step)
    requires Shape(s) && Tracked(s) && Isolated(s) && Enabled(s, step) && !s.failed && step.ArriveRead? && Orderly(s, step)
    ensures s.mode == Incremental ==> QueueOk(Apply(s, step))
  {
    var s', p := Apply(s, step), Pending(s.hand, s.queue);
    assert Pending(s'.hand, s'.queue) == p + [step.r];
    if s.mode == Incremental {
      forall k: nat | AwaitedIn(s', k) && k < |s.base| && k / 4096 !in s.bypassed ensures s.base[k] == s.snap[k] {
        WaitingAppend(p, [step.r], k / 4096);
        if !AwaitedIn(s, k) { assert InRead(step.r, k) && !Safe(GuardOf(s), k / 4096); }
      }
    }
  }

  lemma IsolatedArrival(s: State, step: Step)
    requires Shape(s) && Tracked(s) && Isolated(s) && Enabled(s, step) && !s.failed && step.ArriveRead? && Orderly(s, step)
    ensures Isolated(Apply(s, step))
  {
    var s' := Apply(s, step);
    ArrivalQueueOk(s, step);
    hide QueueOk;
    hide Orderly;
    assert Pending(s'.hand, s'.queue) == Pending(s.hand, s.queue) + [step.r];
    forall b: nat ensures Promise(GuardOf(s'), b) == Promise(GuardOf(s), b) {
      WaitingAppend(Pending(s.hand, s.queue), [step.r], b);
      assert [step.r][1..] == [];
    }
    RightUnder(GuardOf(s), GuardOf(s'));
    QueueExtends(s, step);
    AgreeUnder(GuardOf(s), GuardOf(s'), s.flights);
    hide Shape;
    hide GuardOf;
    hide Right;
    hide ReadOk;
    hide Safe;
    hide Agrees;
  }

  lemma TakePromise(s: State, step: Step, b: nat)
    requires Enabled(s, step) && !s.failed && step.TakeNext? && Orderly(s, step)
    requires b !in s.bypassed
    ensures Promise(GuardOf(Apply(s, step)), b) == Promise(GuardOf(s), b)
  {
    TakenPending(s, step);
    if b !in s.store { DequeueKeepsWaiting(s.queue, b); }
    hide Apply;
    hide GuardOf;
    hide Dequeue;
  }

  /** A read in the queue, before or after the dequeue, is awaiting the same bytes. */
  lemma TakenAwaits(s: State, step: Step, e: Entry, k: nat)
    requires Enabled(s, step) && !s.failed && step.TakeNext? && Orderly(s, step)
    requires e in s.queue && InRead(e, k) && k / 4096 !in s.bypassed && !Held(GuardOf(Apply(s, step)), k / 4096)
    ensures AwaitedIn(s, k)
  {
    TakePromise(s, step, k / 4096);
    hide Dequeue;
    hide Waiting;
    hide Apply;
    hide Enabled;
    hide Orderly;
  }

  lemma TakenQueueOk(s: State, step: Step)
    requires Shape(s) && Enabled(s, step) && !s.failed && step.TakeNext? && Orderly(s, step) && QueueOk(s)
    ensures QueueOk(Apply(s, step))
  {
    var s' := Apply(s, step);
    DequeueElements(s.queue);
    hide Dequeue;
    hide Waiting;
    hide Orderly;
    forall k: nat | AwaitedIn(s', k) && k < |s.base| && k / 4096 !in s.bypassed ensures s.base[k] == s.snap[k] {
      var r :| r in s'.queue && InRead(r, k);
      TakenAwaits(s, step, r, k);
    }
  }

  /** A read taken from the queue finds every block it needs captured or unchanged. */
  lemma TakenReadOk(s: State, step: Step)
    requires Shape(s) && Enabled(s, step) && !s.failed && step.TakeNext? && Orderly(s, step) && QueueOk(s)
    ensures var s' := Apply(s, step); ReadOk(s'.hand, s'.store, s'.bypassed, s'.base, s'.snap)
  {
    var s' := Apply(s, step);
    var (e, rest) := Dequeue(s.queue);
    if e.Read? {
      forall k: nat | InRead(e, k) && k < |s.base| && k / 4096 !in s.store && k / 4096 !in s.bypassed ensures s.base[k] == s.snap[k] {
        assert e.Touches(k / 4096);
        ReadFindsNothingWaiting(s.queue, k / 4096);
        TakenPending(s, step);
        DequeueElements(s.queue);
        TakenAwaits(s, step, e, k);
      }
    }
  }

  lemma IsolatedTake(s: State, step: Step)
    requires Shape(s) && Tracked(s) && Isolated(s) && Enabled(s, step) && !s.failed && step.TakeNext? && Orderly(s, step)
    ensures Isolated(Apply(s, step))
  {
    var s' := Apply(s, step);
    QueueIsOk(s);
    TakenReadOk(s, step);
    TakenQueueOk(s, step);
    hide QueueOk;
    TakeExtends(s, step);
    forall b: nat | b !in s.bypassed { TakePromise(s, step, b); }
    hide Shape;
    hide Promise;
    hide Orderly;
    hide Dequeue;
    hide Safe;
    hide Agrees;
    hide ReadOk;
    RightUnder(GuardOf(s), GuardOf(s'));
    AgreeUnder(GuardOf(s), GuardOf(s'), s.flights);
    hide Right;
    hide GuardOf;
  }

  lemma StoredQueueOk(s: State, step: Step)
    requires Shape(s) && Isolated(s) && Enabled(s, step) && !s.failed
    requires step.StoreDone? || step.TraceStart? || step.TraceIncrement? || step.MarkSet?
    ensures Apply(s, step).mode == Incremental ==> QueueOk(Apply(s, step))
  {
    var s' := Apply(s, step);
    if s.mode == Incremental {
      if step.StoreDone? { StoreExtends(s, step); }
      hide Waiting;
      hide Capture;
      forall k: nat | AwaitedIn(s', k) && k < |s.base| && k / 4096 !in s'.bypassed ensures s.base[k] == s.snap[k] {
        assert Promise(GuardOf(s'), k / 4096) == Promise(GuardOf(s), k / 4096);
        assert AwaitedIn(s, k);
      }
    }
  }

  lemma IsolatedStore(s: State, step: Step)
    requires Shape(s) && Isolated(s) && Enabled(s, step) && !s.failed && step.StoreDone?
    ensures Isolated(Apply(s, step))
  {
    var s' := Apply(s, step);
    StoreExtends(s, step);
    StoredQueueOk(s, step);
    hide QueueOk;
    hide Shape;
    hide Safe;
    hide Agrees;
    hide Waiting;
    hide Capture;
    RightUnder(GuardOf(s), GuardOf(s'));
    AgreeUnder(GuardOf(s), GuardOf(s'), s.flights);
    hide Right;
    hide GuardOf;
  }

  lemma IsolatedMark(s: State, step: Step)
    requires Shape(s) && Isolated(s) && Enabled(s, step) && !s.failed && (step.TraceStart? || step.TraceIncrement? || step.MarkSet?)
    ensures Isolated(Apply(s, step))
  {
    var s' := Apply(s, step);
    MarkExtends(s, step);
    StoredQueueOk(s, step);
    hide QueueOk;
    hide Shape;
    hide Safe;
    hide Agrees;
    hide Waiting;
    RightUnder(GuardOf(s), GuardOf(s'));
    AgreeUnder(GuardOf(s), GuardOf(s'), s.flights);
    hide Right;
    hide GuardOf;
  }

  /** A write that stays clear of the bytes still to be fetched keeps a read right. */
  lemma ReadUndisturbed(s: State, base': seq<byte>)
    requires ReadOk(s.hand, s.store, s.bypassed, s.base, s.snap) && |base'| == |s.base| == |s.snap|
    requires forall k: nat :: k < |s.base| && StillToFetch(s, k) && k / 4096 !in s.bypassed ==> base'[k] == s.base[k]
    ensures ReadOk(s.hand, s.store, s.bypassed, base', s.snap)
  {
  }

  lemma IsolatedFetch(s: State, step: Step)
    requires Isolated(s) && Enabled(s, step) && step.FetchRead?
    ensures Isolated(Apply(s, step))
  {
  }

  lemma IsolatedWrite(s: State, step: Step)
    requires Shape(s) && Isolated(s) && Enabled(s, step) && !s.failed && step.DeviceWrite? && Orderly(s, step)
    ensures Isolated(Apply(s, step))
  {
  }

  lemma IsolatedQuietly(s: State, step: Step)
    requires Shape(s) && Isolated(s) && Enabled(s, step) && !s.failed && Quietly(step)
    requires !Apply(s, step).failed
    ensures Isolated(Apply(s, step))
  {
    GuardKept(s, step);
    hide Apply;
    hide Enabled;
    hide GuardOf;
    hide Shape;
    hide Right;
    if AboutReferences(step) {
      ReferencesFrame(s, step);
      FlightsQuietly(s, step);
      hide Agrees;
    } else if AboutQueue(step) {
      hide Agrees;
      QueueFrame(s, step);
      DoneQuietly(s, step);
    } else {
      hide Agrees;
      ElsewhereQuietly(s, step);
    }
  }

  lemma FlightsQuietly(s: State, step: Step)
    requires Enabled(s, step) && AboutReferences(step)
    ensures forall c :: c in Apply(s, step).flights ==> c in s.flights && Apply(s, step).flights[c] == s.flights[c]
  {
    var (p, t) := BeforePut(s, step);
    PutFrame(p, t);
    hide Put;
  }

  /** Of the steps of the COW thread only the end of a read is quiet. */
  lemma DoneQuietly(s: State, step: Step)
    requires Enabled(s, step) && AboutQueue(step) && Quietly(step) && !Apply(s, step).failed
    ensures var z := Apply(s, step);
      step.ReadDone? && z.hand == Idle && z.queue == s.queue && z.store == s.store && z.flights == s.flights
      && Pending(z.hand, z.queue) == Pending(s.hand, s.queue)
  {
    hide AnswerNow;
  }

  lemma ElsewhereQuietly(s: State, step: Step)
    requires Enabled(s, step) && !s.failed && Quietly(step) && !Apply(s, step).failed && !AboutReferences(step) && !AboutQueue(step)
    ensures var z := Apply(s, step);
      && z.mode == s.mode && z.flights == s.flights && z.queue == s.queue && z.hand == s.hand && z.store == s.store
      && z.base == s.base && z.snap == s.snap && z.bypassed == s.bypassed
  {
  }

  /** The change to incremental mode finds queued reads right. */
  lemma IsolatedChange(s: State, step: Step)
    requires Shape(s) && Tracked(s) && Isolated(s) && Enabled(s, step) && step.ToIncremental?
    ensures Isolated(Apply(s, step))
  {
    QueueIsOk(s);
    hide Tracked;
    hide Shape;
    hide Right;
    hide Agrees;
    hide Waiting;
  }

  lemma IsolatedFresh(s: State, step: Step)
    requires Shape(s) && Enabled(s, step) && step.ToSnapshot?
    ensures Isolated(Apply(s, step))
  {
  }

  lemma IsolationKept(s: State, step: Step)
    requires Inv(s) && IsolationInv(s) && Enabled(s, step) && Orderly(s, step)
    ensures IsolationInv(Apply(s, step))
  {
    InvParts(s);
    hide Inv;
    hide Shape;
    hide Tracked;
    hide Isolated;
    hide Orderly;
    hide Answers;
    AnswersKept(s, step);
    hide Enabled;
    hide Apply;
    if s.failed { FailedStays(s, step); }
    else if Apply(s, step).failed { }
    else if step.ToSnapshot? { IsolatedFresh(s, step); }
    else if step.ToIncremental? { IsolatedChange(s, step); }
    else if step.TraceClone? || step.FetchClone? { ClonesOfSnapshot(s, step); IsolatedFlights(s, step); }
    else if step.QueueClone? { ClonesOfSnapshot(s, step); IsolatedQueue(s, step); }
    else if step.ArriveRead? { IsolatedArrival(s, step); }
    else if step.TakeNext? { IsolatedTake(s, step); }
    else if step.StoreDone? { IsolatedStore(s, step); }
    else if step.TraceStart? || step.TraceIncrement? || step.MarkSet? { IsolatedMark(s, step); }
    else if step.FetchRead? { IsolatedFetch(s, step); }
    else if step.DeviceWrite? { IsolatedWrite(s, step); }
    else { IsolatedQuietly(s, step); }
  }

  // ------------------------------------------------------------------ theorems

  ghost predicate OrderlyRun(s: State, steps: seq<Step>)
    requires Possible(s, steps)
    decreases |steps|
  {
    steps == [] || (Orderly(s, steps[0]) && OrderlyRun(Apply(s, steps[0]), steps[1..]))
  }

  lemma {:induction false} IsolationAlways(s: State, steps: seq<Step>)
    requires Inv(s) && IsolationInv(s) && Possible(s, steps) && OrderlyRun(s, steps)
    ensures IsolationInv(After(s, steps))
    decreases |steps|
  {
    hide Inv;
    hide IsolationInv;
    hide Apply;
    hide Enabled;
    hide Orderly;
    if steps != [] {
      InvKept(s, steps[0]);
      IsolationKept(s, steps[0]);
      IsolationAlways(Apply(s, steps[0]), steps[1..]);
    }
  }

  lemma IsolationInit(base: seq<byte>, seqid: nat)
    ensures IsolationInv(Init(base, seqid))
  {
  }

  lemma AnswersInOk(s: State, n: nat)
    requires Answers(s) && n < PeriodCount(s)
    ensures AnswersOk(AnswersIn(s, n), SnapOf(s, n), BypassedIn(s, n))
  {
  }

  lemma AnsweredByte(a: Answer, answers: seq<Answer>, snap: seq<byte>, bypassed: set<nat>, i: nat)
    requires AnswersOk(answers, snap, bypassed) && a in answers && i < |a.data|
    requires (512 * a.sect + i) / 4096 !in a.except || (512 * a.sect + i) / 4096 !in bypassed
    ensures 512 * a.sect + i < |snap| && a.data[i] == snap[512 * a.sect + i]
  {
  }

  /** In every orderly run, every completed read of the snapshot device, also one
      that completes after the change to incremental mode, returns what the device
      held when the snapshot was taken; only blocks that some step of the period
      changes by pages of the COW file or by a discard are exempt. */
  lemma SnapshotIsolation(base: seq<byte>, seqid: nat, steps: seq<Step>, n: nat, a: Answer, i: nat)
    requires |base| % 4096 == 0 && Possible(Init(base, seqid), steps) && OrderlyRun(Init(base, seqid), steps)
    requires var s := After(Init(base, seqid), steps); n < PeriodCount(s) && a in AnswersIn(s, n) && i < |a.data|
    requires var b := (512 * a.sect + i) / 4096; b !in a.except || !Excused(steps, n, b)
    ensures var s := After(Init(base, seqid), steps);
      512 * a.sect + i < |SnapOf(s, n)| && a.data[i] == SnapOf(s, n)[512 * a.sect + i]
  {
    hide Possible;
    hide OrderlyRun;
    hide After;
    hide Excused;
    hide IsolationInv;
    hide Answers;
    hide AnswersIn;
    hide SnapOf;
    hide BypassedIn;
    hide AnswersOk;
    InvInit(base, seqid);
    IsolationInit(base, seqid);
    hide Inv;
    IsolationAlways(Init(base, seqid), steps);
    var s := After(Init(base, seqid), steps);
    AnswersHold(s);
    AnswersInOk(s, n);
    BypassedExactly(Init(base, seqid), steps, n, (512 * a.sect + i) / 4096);
    AnsweredByte(a, AnswersIn(s, n), SnapOf(s, n), BypassedIn(s, n), i);
  }

  lemma AnswersHold(s: State)
    requires IsolationInv(s)
    ensures Answers(s)
  {
  }

  /** In every orderly run, as long as the device has not failed, what is stored
      for a block is its snapshot contents, and so is what the first clone
      waiting for a block holds if nothing is stored yet, however many
      overlapping writes are under way. */
  lemma FirstCapture(base: seq<byte>, seqid: nat, steps: seq<Step>, b: nat)
    requires |base| % 4096 == 0 && Possible(Init(base, seqid), steps) && OrderlyRun(Init(base, seqid), steps)
    requires var s := After(Init(base, seqid), steps);
      !s.failed && 4096 * b + 4096 <= |s.snap| && !Excused(steps, |s.past.epochs|, b)
    ensures var s := After(Init(base, seqid), steps);
      && (b in s.store ==> s.store[b] == BlockOf(s.snap, b))
      && (b !in s.store && Waiting(Pending(s.hand, s.queue), b).Some? ==>
            Waiting(Pending(s.hand, s.queue), b).value == BlockOf(s.snap, b))
  {
    hide Apply;
    hide Enabled;
    hide Orderly;
    hide Inv;
    hide Waiting;
    InvInit(base, seqid);
    IsolationInit(base, seqid);
    IsolationAlways(Init(base, seqid), steps);
    var s := After(Init(base, seqid), steps);
    BypassedExactly(Init(base, seqid), steps, |s.past.epochs|, b);
    assert Right(GuardOf(s));
    assert Promise(GuardOf(s), b) == if b in s.store then Some(s.store[b]) else Waiting(Pending(s.hand, s.queue), b);
  }

  // -------------------------------------------------------- one block per clone

  ghost predicate OneBlockFlights(flights: map<nat, Flight>) { forall c :: c in flights ==> flights[c].count == 1 }
  ghost predicate OneBlockQueue(q: seq<Entry>) { forall e :: e in q && e.Clone? ==> |e.pages| == 1 }
  ghost predicate OneBlockEach(s: State) { OneBlockFlights(s.flights) && OneBlockQueue(s.queue) }

  /** Every clone takes one page, and no write races with a read in hand. */
  ghost predicate OneBlockRun(s: State, steps: seq<Step>)
    requires Possible(s, steps)
    decreases |steps|
  {
    steps == [] ||
      ((steps[0].TraceClone? ==> steps[0].n == 1) && (!steps[0].TakeNext? ==> Orderly(s, steps[0]))
       && OneBlockRun(Apply(s, steps[0]), steps[1..]))
  }

  lemma OneBlockTaken(s: State, step: Step)
    requires OneBlockEach(s) && Enabled(s, step) && (step.TakeNext? || step.QueueClone? || step.ArriveRead?)
    ensures OneBlockEach(Apply(s, step))
  {
  }

  lemma OneBlockReferences(s: State, step: Step)
    requires OneBlockEach(s) && Enabled(s, step) && AboutReferences(step)
    ensures OneBlockEach(Apply(s, step))
  {
  }

  lemma OneBlockRequests(s: State, step: Step)
    requires OneBlockEach(s) && Enabled(s, step) && AboutRequests(step)
    requires step.TraceClone? ==> step.n == 1
    ensures OneBlockEach(Apply(s, step))
  {
  }

  lemma OneBlockElsewhere(s: State, step: Step)
    requires OneBlockEach(s) && Enabled(s, step) && !step.TakeNext? && !step.QueueClone? && !step.ArriveRead?
    requires !AboutRequests(step) && !AboutReferences(step)
    ensures OneBlockEach(Apply(s, step))
  {
  }

  lemma OneBlockKept(s: State, step: Step)
    requires OneBlockEach(s) && Enabled(s, step) && (step.TraceClone? ==> step.n == 1)
    ensures OneBlockEach(Apply(s, step))
  {
    hide OneBlockEach;
    hide Enabled;
    hide Apply;
    if step.TakeNext? || step.QueueClone? || step.ArriveRead? { OneBlockTaken(s, step); }
    else if AboutReferences(step) { OneBlockReferences(s, step); }
    else if AboutRequests(step) { OneBlockRequests(s, step); }
    else { OneBlockElsewhere(s, step); }
  }

  lemma OneBlockOrderly(s: State, step: Step)
    requires OneBlockEach(s) && Enabled(s, step) && step.TakeNext?
    ensures Orderly(s, step)
  {
  }

  /** With one-block clones the queue discipline alone keeps order, so only the
      race between a read in hand and a released write is left to exclude. */
  lemma {:induction false} OneBlockRunsAreOrderly(s: State, steps: seq<Step>)
    requires OneBlockEach(s) && Possible(s, steps) && OneBlockRun(s, steps)
    ensures OrderlyRun(s, steps)
    decreases |steps|
  {
    hide OneBlockEach;
    hide Apply;
    hide Enabled;
    hide Orderly;
    if steps != [] {
      OneBlockKept(s, steps[0]);
      if steps[0].TakeNext? { OneBlockOrderly(s, steps[0]); }
      OneBlockRunsAreOrderly(Apply(s, steps[0]), steps[1..]);
    }
  }
}
