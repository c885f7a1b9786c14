/**
 The invariant of the snapshot protocol: well-formed requests, exact reference
 counts, the whereabouts of every traced write, request accounting, the record
 of finished periods, and (as long as the device has not failed) the data
 invariant that carries snapshot isolation and incremental tracking.
 */
module Invariants {
  import opened Blocks
  import opened BioQueues
  import opened Tracing
  import opened Promises
  import opened Protocol

  // ------------------------------------------------------ well-formed requests

  predicate EntryFits(e: Entry, size: nat) {
    if e.Clone? then 4096 * (e.start + |e.pages|) <= size else 512 * (e.sect + e.len) <= size
  }

  predicate TpFits(tp: Tp, t: nat, size: nat) {
    tp.w.id == t && tp.w.Fits(size) && tp.w.First() <= tp.next <= tp.w.End() && (!tp.tracing ==> tp.next == tp.w.End())
  }

  predicate FlightFits(f: Flight, size: nat) { 4096 * (f.start + f.count) <= size }

  ghost predicate EntriesFit(q: seq<Entry>, size: nat) { forall e :: e in q ==> EntryFits(e, size) }
  ghost predicate TpsFit(tps: map<nat, Tp>, size: nat) { forall t :: t in tps ==> TpFits(tps[t], t, size) }
  ghost predicate FlightsFit(flights: map<nat, Flight>, size: nat) { forall c :: c in flights ==> FlightFits(flights[c], size) }
  ghost predicate OrigsFit(ws: seq<Write>, size: nat) { forall w :: w in ws ==> w.Fits(size) }
  ghost predicate WritesFit(ws: set<Write>, size: nat) { forall w :: w in ws ==> w.Fits(size) }
  ghost predicate StoreFits(store: Store, size: nat) { forall b :: b in store ==> 4096 * b + 4096 <= size }

  predicate HandFits(hand: Hand, size: nat) {
    match hand
    case Idle => true
    case Storing(e) => e.Clone? && EntryFits(e, size)
    case Answering(e, _) => e.Read? && EntryFits(e, size)
  }

  /** What the two modes rule out. */
  ghost predicate ModeOk(s: State) {
    && (s.mode == Snapshot ==> s.filler == {} && s.sets == [])
    && (s.mode == Incremental ==> s.tps == map[] && s.flights == map[])
    && (s.noticed ==> s.failed)
  }

  ghost predicate Shape(s: State) {
    var size := |s.base|;
    && size == |s.snap| && size % 4096 == 0
    && StoreFits(s.store, size) && EntriesFit(s.queue, size) && HandFits(s.hand, size)
    && TpsFit(s.tps, size) && FlightsFit(s.flights, size)
    && OrigsFit(s.origs, size) && WritesFit(s.writing, size)
    && ModeOk(s)
  }

  // ---------------------------------------------------------- reference counts

  ghost function FlightsOf(flights: map<nat, Flight>, t: nat): set<nat> {
    set c | c in flights && flights[c].tp == t
  }

  /** What the count of record `t` has to be. */
  ghost function Owed(tps: map<nat, Tp>, flights: map<nat, Flight>, t: nat): nat
    requires t in tps
  {
    |FlightsOf(flights, t)| + (if tps[t].tracing then 1 else 0)
  }

  ghost predicate CountsExact(tps: map<nat, Tp>, flights: map<nat, Flight>) {
    forall t :: t in tps ==> tps[t].refs == Owed(tps, flights, t) && tps[t].refs > 0
  }

  ghost predicate FlightsOwned(tps: map<nat, Tp>, flights: map<nat, Flight>) {
    forall c :: c in flights ==> flights[c].tp in tps
  }

  ghost predicate Refs(s: State) { CountsExact(s.tps, s.flights) && FlightsOwned(s.tps, s.flights) }

  // -------------------------------------------------- where traced writes are

  ghost predicate Distinct(ws: seq<Write>) { forall i, j :: 0 <= i < j < |ws| ==> ws[i] != ws[j] }

  /** Every write that was ever given a record still has it, unchanged, or else
      has been released once. */
  ghost predicate Entered(tps: map<nat, Tp>, traced: map<nat, Write>, released: seq<Write>, ids: set<nat>) {
    && (forall t :: t in traced ==> t in ids && traced[t].id == t && (t in tps || traced[t] in released))
    && (forall t :: t in tps ==> t in traced && tps[t].w == traced[t] && traced[t] !in released)
    && (forall w :: w in released ==> w.id in traced && traced[w.id] == w)
    && Distinct(released)
  }

  /** A released write that has been submitted is at the device or completed. */
  ghost predicate Carried(sent: seq<Write>, writing: set<Write>, finished: set<Write>, traced: map<nat, Write>, ids: set<nat>) {
    && (forall w :: w in sent ==> w in writing || w in finished)
    && (forall w :: w in writing || w in finished ==> w.id in ids && (w.id in traced ==> w in sent))
    && writing !! finished
  }

  ghost predicate Ledger(s: State) {
    Entered(s.tps, s.traced, Released(s), s.ids) && Carried(s.sent, s.writing, s.finished, s.traced, s.ids)
  }

  // ---------------------------------------------------------------- accounting

  predicate IsClone(e: Entry) { e.Clone? }

  ghost function Unqueued(flights: map<nat, Flight>): set<nat> { set c | c in flights && !flights[c].queued }

  ghost predicate Counts(s: State) {
    && s.counts.submitted == |Unqueued(s.flights)| + s.counts.received + s.counts.lost
    && s.counts.received == Count(s.queue, IsClone) + (if s.hand.Storing? then 1 else 0) + s.counts.processed
  }

  // ---------------------------------------------------------------------- data

  /** What the answer for a block of the snapshot depends on. */
  datatype Guard = Guard(store: Store, pending: seq<Entry>, marks: set<nat>, bypassed: set<nat>, snap: seq<byte>)

  ghost function Pending(hand: Hand, queue: seq<Entry>): seq<Entry> {
    (if hand.Storing? then [hand.e] else []) + queue
  }

  ghost function GuardOf(s: State): Guard {
    Guard(s.store, Pending(s.hand, s.queue), s.filler + BlocksOfSets(s.sets), s.bypassed, s.snap)
  }

  /** The contents captured for block `b`, or about to be. */
  ghost function Promise(g: Guard, b: nat): Option<Block> {
    if b in g.store then Some(g.store[b]) else Waiting(g.pending, b)
  }

  /** The contents of block `b` have been captured, or wait to be. */
  ghost predicate Held(g: Guard, b: nat) { Promise(g, b).Some? }

  /** The live contents of block `b` may change. */
  ghost predicate Safe(g: Guard, b: nat) {
    Held(g, b) || b in g.marks || b in g.bypassed
  }

  ghost predicate Right(g: Guard) {
    forall b: nat :: 4096 * b + 4096 <= |g.snap| && b !in g.bypassed && Promise(g, b).Some?
      ==> Promise(g, b).value == BlockOf(g.snap, b)
  }

  ghost predicate Intact(g: Guard, base: seq<byte>) {
    |base| == |g.snap| && forall k :: 0 <= k < |base| && !Safe(g, k / 4096) ==> base[k] == g.snap[k]
  }

  ghost predicate Agrees(g: Guard, f: Flight) {
    forall k :: k in f.buf && 4096 * f.start <= k < 4096 * (f.start + f.count) <= |g.snap| && !Safe(g, k / 4096) ==> f.buf[k] == g.snap[k]
  }

  ghost predicate Covered(g: Guard, w: Write) {
    forall b :: w.First() <= b < w.End() ==> Safe(g, b)
  }

  ghost predicate InFlight(flights: map<nat, Flight>, t: nat, b: nat) {
    exists c :: c in flights && flights[c].tp == t && !flights[c].queued && flights[c].start <= b < flights[c].start + flights[c].count
  }

  ghost predicate TpCovered(g: Guard, flights: map<nat, Flight>, tp: Tp, t: nat) {
    forall b :: tp.w.First() <= b < tp.next ==> Held(g, b) || InFlight(flights, t, b)
  }

  ghost predicate ReadOk(hand: Hand, store: Store, bypassed: set<nat>, base: seq<byte>, snap: seq<byte>) {
    hand.Answering? ==>
      forall k: nat ::
        InRead(hand.e, k) && k < |base| == |snap| && k / 4096 !in store && k / 4096 !in bypassed
        ==> (if k in hand.buf then hand.buf[k] else base[k]) == snap[k]
  }

  /** A queued read will have to take byte `k` from the device. */
  ghost predicate Awaits(store: Store, pending: seq<Entry>, queue: seq<Entry>, k: nat) {
    k / 4096 !in store && Waiting(pending, k / 4096).None? && exists r :: r in queue && InRead(r, k)
  }

  ghost predicate AwaitedIn(s: State, k: nat) { Awaits(s.store, Pending(s.hand, s.queue), s.queue, k) }

  /** What queued reads will take from the device has not changed. */
  ghost predicate QueueOk(s: State) {
    forall k: nat :: AwaitedIn(s, k) && k < |s.base| == |s.snap| && k / 4096 !in s.bypassed ==> s.base[k] == s.snap[k]
  }

  ghost predicate AnswerOk(a: Answer, snap: seq<byte>) {
    && 512 * a.sect + |a.data| <= |snap|
    && forall i :: 0 <= i < |a.data| && (512 * a.sect + i) / 4096 !in a.except ==> a.data[i] == snap[512 * a.sect + i]
  }

  /** No block changes on the device before it is safe to change it. */
  ghost predicate Tracked(s: State) {
    var g := GuardOf(s);
    && Intact(g, s.base)
    && (forall t :: t in s.tps ==> TpCovered(g, s.flights, s.tps[t], t))
    && (forall w :: w in s.origs ==> Covered(g, w))
    && (forall w :: w in s.writing ==> Covered(g, w))
  }

  /** Whatever has been captured or fetched, or will be, are snapshot contents. */
  ghost predicate Isolated(s: State) {
    var g := GuardOf(s);
    && Right(g)
    && (forall c :: c in s.flights && !s.flights[c].queued ==> Agrees(g, s.flights[c]))
    && ReadOk(s.hand, s.store, s.bypassed, s.base, s.snap)
    && (s.mode == Incremental ==> QueueOk(s))
  }

  ghost predicate AnswersOk(answers: seq<Answer>, snap: seq<byte>, bypassed: set<nat>) {
    forall a :: a in answers ==> AnswerOk(a, snap) && a.except <= bypassed
  }

  /** All answers given so far are right, in this period and in the finished ones. */
  ghost predicate Answers(s: State) {
    && AnswersOk(s.answers, s.snap, s.bypassed)
    && forall e :: e in s.past.epochs ==> AnswersOk(e.answers, e.snap, e.bypassed)
  }

  // -------------------------------------------------------------------- epochs

  ghost predicate Explains(e: Epoch, next: seq<byte>) {
    |e.snap| == |next| && forall k :: 0 <= k < |next| && e.snap[k] != next[k] ==> k / 4096 in e.marks || k / 4096 in e.bypassed
  }

  /** The snapshot that ends period `i`. */
  ghost function SnapAfter(epochs: seq<Epoch>, snap: seq<byte>, i: nat): seq<byte>
    requires i < |epochs|
  {
    if i == |epochs| - 1 then snap else epochs[i + 1].snap
  }

  /** Periods are numbered up to the current snapshot, and each one's marks
      explain the change to the next snapshot. */
  ghost predicate Chained(epochs: seq<Epoch>, seqid: nat, snap: seq<byte>) {
    && |epochs| <= seqid
    && (forall i :: 0 <= i < |epochs| ==> epochs[i].seqid == seqid - |epochs| + i)
    && (forall i :: 0 <= i < |epochs| ==> Explains(epochs[i], SnapAfter(epochs, snap, i)))
  }

  /** The closed COW files hold only such marks, and the one being closed is to hold exactly them. */
  ghost predicate Filed(epochs: seq<Epoch>, files: seq<Option<set<nat>>>, closing: Option<Closing>) {
    && |files| + (if closing.Some? then 1 else 0) == |epochs|
    && (forall i :: 0 <= i < |files| && files[i].Some? ==> files[i].value <= epochs[i].marks)
    && (closing.Some? ==> epochs[|files|].marks == closing.value.marks + BlocksOfSets(closing.value.sets))
  }

  ghost predicate History(s: State) {
    Chained(s.past.epochs, s.past.seqid, s.snap) && Filed(s.past.epochs, s.past.files, s.past.closing)
  }

  /** Holds in every reachable state. */
  ghost predicate Inv(s: State) {
    Shape(s) && Refs(s) && Ledger(s) && Counts(s) && History(s) && (s.failed || Tracked(s))
  }

  /** Holds in every state that is reached in an orderly way. */
  ghost predicate IsolationInv(s: State) {
    Answers(s) && (s.failed || Isolated(s))
  }

  /** The bytes that some read must still take from the device as it was: the
      read in hand, and the reads left over by a change to incremental mode. */
  ghost predicate Needed(s: State, k: nat) {
    StillToFetch(s, k) || (s.mode == Incremental && AwaitedIn(s, k))
  }

  /** A read that arrives while the queue is being drained after a change to
      incremental mode is in time: what it will take from the device is not in a
      marked block, or is kept for another queued read anyway. */
  ghost predicate InTime(s: State, r: Entry) {
    forall k: nat :: InRead(r, k) ==>
      Held(GuardOf(s), k / 4096) || k / 4096 !in GuardOf(s).marks || k / 4096 in s.bypassed || AwaitedIn(s, k)
  }

  /** The orderings that nothing in the code enforces: no clone is dequeued ahead
      of an earlier one that has a block in common with it which is not captured
      yet; no write reaches bytes that a read must still take from the device; and
      no read of such a block arrives after a change to incremental mode. */
  ghost predicate Orderly(s: State, step: Step) {
    !s.failed ==>
      && (step.TakeNext? ==> forall b :: Overtakes(s.queue, b) ==> b in s.store || b in s.bypassed)
      && (step.DeviceWrite? ==> forall k: nat :: step.lo <= k < step.hi && Needed(s, k) ==> k / 4096 in s.bypassed)
      && (step.ArriveRead? && s.mode == Incremental ==> InTime(s, step.r))
  }
}
