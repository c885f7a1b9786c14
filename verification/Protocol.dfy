/**
 The snapshot protocol as a state machine: traced writes and their read clones,
 the queue of the COW thread, the queue of released originals, the base device
 that serves requests piecemeal and in any order, and the two mode changes.
 A `Step` names what happens next and resolves every choice left open by the
 kernel: how far a clone reaches, which bytes the device serves, what fails.
 */
module Protocol {
  import opened Blocks
  import opened BioQueues
  import opened Tracing

  /** A write to the device, at sector `sect`; `id` tells requests apart. */
  datatype Write = Write(id: nat, sect: nat, data: seq<byte>)
  {
    function Len(): nat { |data| / 512 }
    function First(): nat { FirstBlock(sect) }
    function End(): nat { EndBlock(sect, Len()) }
    predicate Fits(size: nat) { |data| > 0 && |data| % 512 == 0 && 512 * sect + |data| <= size }
  }

  /** Reference-counted record of a write being traced: blocks before `next`
      have been given to clones; `tracing` is the tracer's own reference. */
  datatype Tp = Tp(w: Write, refs: nat, tracing: bool, next: nat)

  /** A clone between its allocation and the drop of its reference: the bytes
      read so far by device address, and whether it has been queued. */
  datatype Flight = Flight(tp: nat, start: nat, count: nat, buf: map<nat, byte>, queued: bool)

  /** What the COW thread holds: nothing, a clone to store, or a read with the
      live bytes fetched so far. */
  datatype Hand = Idle | Storing(e: Entry) | Answering(e: Entry, buf: map<nat, byte>)

  /** A read completed without error, and the blocks it makes no promise for. */
  datatype Answer = Answer(id: nat, sect: nat, data: seq<byte>, except: set<nat>)

  datatype Mode = Snapshot | Incremental

  /** A finished snapshot-to-snapshot period: its snapshot, the blocks marked
      in its COW file, the blocks changed behind the tracer's back, and what
      reads of its snapshot returned. */
  datatype Epoch = Epoch(snap: seq<byte>, seqid: nat, marks: set<nat>, bypassed: set<nat>, answers: seq<Answer>)

  /** A COW file whose period is over but whose last sector sets are still being marked. */
  datatype Closing = Closing(marks: set<nat>, sets: seq<SectorSet>)

  /** Clones submitted, received and processed, and those lost to read errors. */
  datatype Counters = Counters(submitted: nat, received: nat, processed: nat, lost: nat)

  /** The current period's number, the finished periods, and the blocks marked
      in their COW files as far as these are closed; `None` for a file that was
      removed because an error was noticed. */
  datatype Past = Past(seqid: nat, epochs: seq<Epoch>, closing: Option<Closing>, files: seq<Option<set<nat>>>)

  datatype State = State(
    mode: Mode,
    base: seq<byte>, snap: seq<byte>,              // the device, and as it was at snapshot time
    tps: map<nat, Tp>, flights: map<nat, Flight>,
    queue: seq<Entry>, hand: Hand,                 // the COW thread
    traced: map<nat, Write>,                       // every write that was ever given a record
    sent: seq<Write>, origs: seq<Write>,           // released originals: already submitted, and still queued
    writing: set<Write>, finished: set<Write>,     // writes at the device, and those completed
    store: Store, filler: set<nat>,                // blocks captured, and blocks marked as changed
    sets: seq<SectorSet>,                          // sector sets not marked yet
    failed: bool, noticed: bool,                   // the fail code, and whether the COW thread saw it
    bypassed: set<nat>,                            // blocks changed without being traced
    ids: set<nat>,
    counts: Counters,
    answers: seq<Answer>, voided: multiset<Entry>, // reads answered, and those ended by an error or after a failure
    past: Past)

  function Init(base: seq<byte>, seqid: nat): State {
    State(Snapshot, base, base, map[], map[], [], Idle, map[], [], [], {}, {}, map[], {}, [], false, false, {}, {},
          Counters(0, 0, 0, 0), [], multiset{}, Past(seqid, [], None, []))
  }

  datatype Step =
    | TraceStart(w: Write, segs: seq<Segment>, kind: WriteKind, cowOnDevice: bool)
    | TraceClone(t: nat, c: nat, n: nat)
    | TraceFinish(t: nat)
    | FetchClone(c: nat, lo: nat, hi: nat)
    | QueueClone(c: nat)
    | DropClone(c: nat)
    | CloneError(c: nat)
    | SubmitOrig
    | DeviceWrite(w: Write, lo: nat, hi: nat)
    | WriteDone(w: Write)
    | ArriveRead(r: Entry)
    | TakeNext(notice: bool)
    | StoreDone
    | StoreError(left: Store)
    | FetchRead(lo: nat, hi: nat)
    | ReadDone
    | ReadError
    | Fail
    | Passthrough(w: Write)
    | ToIncremental
    | TraceIncrement(w: Write, segs: seq<Segment>, kind: WriteKind, cowOnDevice: bool, sets: seq<SectorSet>)
    | MarkSet
    | MarkError
    | ToSnapshot
    | CloseMark
    | CloseError(part: set<nat>, kept: bool)
    | CloseFile(kept: bool)

  /** Does a write carry anything but pages of the COW file? */
  predicate NeedsCow(segs: seq<Segment>, kind: WriteKind, cowOnDevice: bool) {
    !cowOnDevice || kind == WriteZeroes || exists i :: 0 <= i < |segs| && !segs[i].ownedByCow
  }

  /** Everything that was ever put on the queue of originals, in that order. */
  function Released(s: State): seq<Write> { s.sent + s.origs }

  /** No write is anywhere between the tracer and the device: what freezing the
      file system achieves for a mode change. */
  predicate Quiescent(s: State) { s.tps == map[] && s.origs == [] && s.writing == {} }

  /** Drop a reference; the last one releases the original. */
  function Put(s: State, t: nat): State
    requires t in s.tps && s.tps[t].refs > 0
  {
    var tp := s.tps[t];
    if tp.refs == 1 then s.(tps := s.tps - {t}, origs := s.origs + [tp.w])
    else s.(tps := s.tps[t := tp.(refs := tp.refs - 1)])
  }

  /** The entry that a completely read clone is queued as. */
  function EntryOf(c: nat, f: Flight): (e: Entry)
    requires forall k :: 4096 * f.start <= k < 4096 * (f.start + f.count) ==> k in f.buf
    ensures e.Clone? && e.start == f.start && |e.pages| == f.count
    ensures forall i, j :: 0 <= i < f.count && 0 <= j < 4096 ==> e.pages[i][j] == f.buf[4096 * (f.start + i) + j]
  {
    Clone(c, f.start, seq(f.count, i requires 0 <= i < f.count =>
      seq(4096, j requires 0 <= j < 4096 => f.buf[4096 * (f.start + i) + j])))
  }

  predicate InRead(r: Entry, k: nat) { r.Read? && 512 * r.sect <= k < 512 * (r.sect + r.len) }

  /** The bytes that a read still has to fetch from the base device. */
  predicate StillToFetch(s: State, k: nat) {
    s.hand.Answering? && InRead(s.hand.e, k) && k / 4096 !in s.store && k !in s.hand.buf
  }

  /** Byte `k` can be answered: its block is captured, or it has been fetched. */
  predicate Known(store: Store, buf: map<nat, byte>, k: nat) { k / 4096 in store || k in buf }

  function AnswerByte(store: Store, buf: map<nat, byte>, k: nat): byte
    requires Known(store, buf, k)
  {
    if k / 4096 in store then store[k / 4096][k % 4096] else buf[k]
  }

  /** The answer assembled from captured blocks and fetched bytes. */
  function AnswerOf(store: Store, buf: map<nat, byte>, sect: nat, len: nat): (r: seq<byte>)
    requires forall k: nat :: 512 * sect <= k < 512 * (sect + len) ==> Known(store, buf, k)
    ensures |r| == 512 * len
    ensures forall i :: 0 <= i < |r| ==> r[i] == AnswerByte(store, buf, 512 * sect + i)
  {
    seq(512 * len, i requires 0 <= i < 512 * len => AnswerByte(store, buf, 512 * sect + i))
  }

  /** The answer to the read in hand. */
  function AnswerNow(s: State): Answer
    requires s.hand.Answering? && s.hand.e.Read? && forall k: nat :: InRead(s.hand.e, k) ==> Known(s.store, s.hand.buf, k)
  {
    var e := s.hand.e;
    assert forall k: nat :: 512 * e.sect <= k < 512 * (e.sect + e.len) ==> InRead(e, k);
    Answer(e.id, e.sect, AnswerOf(s.store, s.hand.buf, e.sect, e.len), s.bypassed)
  }

  /** When the fetched bytes are those of one instant, that is the simple read. */
  lemma AnswerIsReadThrough(base: seq<byte>, store: Store, buf: map<nat, byte>, sect: nat, len: nat)
    requires 512 * (sect + len) <= |base|
    requires forall k: nat :: 512 * sect <= k < 512 * (sect + len) ==> Known(store, buf, k)
    requires forall k :: 512 * sect <= k < 512 * (sect + len) && k / 4096 !in store ==> k in buf && buf[k] == base[k]
    ensures AnswerOf(store, buf, sect, len) == ReadThrough(base, store, sect, len)
  {
  }

  function Fetched(base: seq<byte>, lo: nat, hi: nat): map<nat, byte>
    requires hi <= |base|
  {
    map k | k in Span(lo, if lo <= hi then hi - lo else 0) :: base[k]
  }

  /** The COW thread has not run dry.  After a change to incremental mode it goes
      on until it has, and only then is the marking of sector sets begun. */
  predicate Draining(s: State) { s.queue != [] || !s.hand.Idle? }

  predicate FreshWrite(s: State, w: Write) { w.id !in s.ids && w.Fits(|s.base|) }

  predicate Carries(w: Write, segs: seq<Segment>) { segs != [] && Sectors(segs) == w.Len() }

  ghost predicate Enabled(s: State, step: Step) {
    match step
    case TraceStart(w, segs, kind, dev) =>
      s.mode == Snapshot && !s.failed && FreshWrite(s, w) && Carries(w, segs) && kind != Discard
    case TraceClone(t, c, n) =>
      t in s.tps && s.tps[t].tracing && c !in s.flights && 1 <= n <= BIO_MAX_PAGES && s.tps[t].next + n <= s.tps[t].w.End()
    case TraceFinish(t) =>
      t in s.tps && s.tps[t].tracing && s.tps[t].next == s.tps[t].w.End() && s.tps[t].refs > 0
    case FetchClone(c, lo, hi) =>
      c in s.flights && !s.flights[c].queued
      && 4096 * s.flights[c].start <= lo <= hi <= 4096 * (s.flights[c].start + s.flights[c].count) && hi <= |s.base|
    case QueueClone(c) =>
      c in s.flights && !s.flights[c].queued
      && forall k :: 4096 * s.flights[c].start <= k < 4096 * (s.flights[c].start + s.flights[c].count) ==> k in s.flights[c].buf
    case DropClone(c) =>
      c in s.flights && s.flights[c].queued && s.flights[c].tp in s.tps && s.tps[s.flights[c].tp].refs > 0
    case CloneError(c) =>
      c in s.flights && !s.flights[c].queued && s.flights[c].tp in s.tps && s.tps[s.flights[c].tp].refs > 0
    case SubmitOrig => s.origs != []
    case DeviceWrite(w, lo, hi) =>
      w in s.writing && 512 * w.sect <= lo <= hi <= 512 * w.sect + |w.data| && hi <= |s.base|
    case WriteDone(w) => w in s.writing
    case ArriveRead(r) =>
      (s.mode == Snapshot || Draining(s)) && !s.failed && r.Read? && 512 * (r.sect + r.len) <= |s.base|
    case TakeNext(notice) => s.hand.Idle? && s.queue != [] && (notice ==> s.failed)
    case StoreDone => s.hand.Storing? && s.hand.e.Clone?
    case StoreError(left) => s.hand.Storing? && !s.noticed && forall b :: b in left ==> 4096 * b + 4096 <= |s.base|
    case FetchRead(lo, hi) => s.hand.Answering? && !s.noticed && lo <= hi <= |s.base|
    case ReadDone =>
      s.hand.Answering? && s.hand.e.Read? && !s.noticed
      && forall k: nat :: InRead(s.hand.e, k) ==> Known(s.store, s.hand.buf, k)
    case ReadError => s.hand.Answering?
    case Fail => true
    case Passthrough(w) => s.failed && FreshWrite(s, w)
    case ToIncremental =>
      s.mode == Snapshot && !s.failed && Quiescent(s) && s.past.closing.None?
    case TraceIncrement(w, segs, kind, dev, sets) =>
      s.mode == Incremental && !s.failed && FreshWrite(s, w) && Carries(w, segs)
      && Separated(sets) && SectorsOf(sets) == MustRecord(segs, w.sect, kind, dev)
    case MarkSet => s.mode == Incremental && !Draining(s) && s.sets != []
    case MarkError => s.mode == Incremental && !Draining(s) && s.sets != []
    case ToSnapshot =>
      s.mode == Incremental && !s.failed && Quiescent(s) && s.past.closing.None? && !Draining(s)
    case CloseMark => s.past.closing.Some? && s.past.closing.value.sets != []
    case CloseError(part, kept) =>
      s.past.closing.Some? && s.past.closing.value.sets != []
      && part <= BlocksOf(s.past.closing.value.sets[0].sect, s.past.closing.value.sets[0].len)
      && (kept ==> |s.past.closing.value.sets| == 1)
    case CloseFile(kept) => s.past.closing.Some? && s.past.closing.value.sets == []
  }

  /** The COW file of the last period is closed, or removed. */
  function Closed(s: State, file: Option<set<nat>>): State {
    s.(past := s.past.(closing := None, files := s.past.files + [file]))
  }

  ghost function Apply(s: State, step: Step): State
    requires Enabled(s, step)
  {
    match step
    case TraceStart(w, segs, kind, dev) =>
      if NeedsCow(segs, kind, dev)
      then s.(ids := s.ids + {w.id}, tps := s.tps[w.id := Tp(w, 1, true, w.First())], traced := s.traced[w.id := w])
      else s.(ids := s.ids + {w.id}, writing := s.writing + {w}, bypassed := s.bypassed + BlocksOf(w.sect, w.Len()))
    case TraceClone(t, c, n) =>
      var tp := s.tps[t];
      s.(tps := s.tps[t := tp.(refs := tp.refs + 1, next := tp.next + n)],
         flights := s.flights[c := Flight(t, tp.next, n, map[], false)], counts := s.counts.(submitted := s.counts.submitted + 1))
    case TraceFinish(t) => Put(s.(tps := s.tps[t := s.tps[t].(tracing := false)]), t)
    case FetchClone(c, lo, hi) =>
      var f := s.flights[c];
      s.(flights := s.flights[c := f.(buf := f.buf + Fetched(s.base, lo, hi))])
    case QueueClone(c) =>
      var f := s.flights[c];
      s.(queue := s.queue + [EntryOf(c, f)], flights := s.flights[c := f.(queued := true)],
         counts := s.counts.(received := s.counts.received + 1))
    case DropClone(c) => Put(s.(flights := s.flights - {c}), s.flights[c].tp)
    case CloneError(c) =>
      Put(s.(flights := s.flights - {c}, failed := true, counts := s.counts.(lost := s.counts.lost + 1)), s.flights[c].tp)
    case SubmitOrig => s.(origs := s.origs[1..], sent := s.sent + [s.origs[0]], writing := s.writing + {s.origs[0]})
    case DeviceWrite(w, lo, hi) =>
      s.(base := Splice(s.base, lo, w.data[lo - 512 * w.sect..hi - 512 * w.sect]))
    case WriteDone(w) => s.(writing := s.writing - {w}, finished := s.finished + {w})
    case ArriveRead(r) => s.(queue := s.queue + [r])
    case TakeNext(notice) =>
      var (e, rest) := Dequeue(s.queue);
      s.(queue := rest, hand := if e.Clone? then Storing(e) else Answering(e, map[]), noticed := s.noticed || notice)
    case StoreDone =>
      s.(hand := Idle, counts := s.counts.(processed := s.counts.processed + 1),
         store := if s.noticed then s.store else Capture(s.store, s.hand.e.start, s.hand.e.pages))
    case StoreError(left) => s.(hand := Idle, counts := s.counts.(processed := s.counts.processed + 1), store := left, failed := true)
    case FetchRead(lo, hi) => s.(hand := Answering(s.hand.e, Fetched(s.base, lo, hi) + s.hand.buf))
    case ReadDone =>
      if s.failed then s.(hand := Idle, voided := s.voided + multiset{s.hand.e})
      else s.(hand := Idle, answers := s.answers + [AnswerNow(s)])
    case ReadError => s.(hand := Idle, failed := true, voided := s.voided + multiset{s.hand.e})
    case Fail => s.(failed := true)
    case Passthrough(w) => s.(ids := s.ids + {w.id}, writing := s.writing + {w})
    case ToIncremental => s.(mode := Incremental)
    case TraceIncrement(w, segs, kind, dev, sets) =>
      s.(ids := s.ids + {w.id}, sets := s.sets + sets, writing := s.writing + {w},
         bypassed := s.bypassed + Unrecorded(segs, w.sect, kind, dev))
    case MarkSet => s.(filler := s.filler + BlocksOf(s.sets[0].sect, s.sets[0].len), sets := s.sets[1..])
    case MarkError => s.(sets := s.sets[1..], failed := true)
    case ToSnapshot =>
      var marks := s.store.Keys + s.filler;
      Init(s.base, 0).(ids := s.ids, traced := s.traced, sent := s.sent, finished := s.finished,
        past := Past(s.past.seqid + 1, s.past.epochs + [Epoch(s.snap, s.past.seqid, marks + BlocksOfSets(s.sets), s.bypassed, s.answers)],
                     Some(Closing(marks, s.sets)), s.past.files))
    case CloseMark =>
      var c := s.past.closing.value;
      s.(past := s.past.(closing := Some(Closing(c.marks + BlocksOf(c.sets[0].sect, c.sets[0].len), c.sets[1..]))))
    // an error on the last set passes unnoticed if the thread is told to stop first
    case CloseError(part, kept) => Closed(s, if kept then Some(s.past.closing.value.marks + part) else None)
    case CloseFile(kept) => Closed(s, if kept then Some(s.past.closing.value.marks) else None)
  }
}
