/**
 Whole sequences of operations on a COW manager: the cache behaves as one plain
 map, settles after its limit is changed, and leaves behind a file that marks
 what a snapshot period captured and recorded.
 */
module CowRuns {
  import opened Blocks
  import opened BioQueues
  import opened Promises
  import opened CowFiles
  import opened CowManagers
  import opened SnapIo
  import opened Tracing

  datatype Op = ReadOp(pos: nat) | WriteOp(pos: nat, val: nat) | ResizeOp(cacheSize: nat) | CloseReopenOp

  predicate Fits(op: Op, entries: nat) {
    match op
    case ReadOp(pos) => pos < entries
    case WriteOp(pos, val) => pos < entries && val != 0
    case _ => true
  }

  ghost predicate InRange(ops: seq<Op>, entries: nat) { forall i :: 0 <= i < |ops| ==> Fits(ops[i], entries) }

  /** The plain map after the operations. */
  ghost function Final(m: seq<nat>, ops: seq<Op>): (r: seq<nat>)
    requires InRange(ops, |m|)
    ensures |r| == |m|
  {
    if ops == [] then m
    else
      var before := Final(m, ops[..|ops| - 1]);
      var op := ops[|ops| - 1];
      if op.WriteOp? then before[op.pos := op.val] else before
  }

  /** What the reads among the operations return. */
  ghost function Outs(m: seq<nat>, ops: seq<Op>): seq<nat>
    requires InRange(ops, |m|)
  {
    if ops == [] then []
    else
      var n := |ops| - 1;
      Outs(m, ops[..n]) + if ops[n].ReadOp? then [Final(m, ops[..n])[ops[n].pos]] else []
  }

  ghost function LastWritten(ops: seq<Op>, pos: nat): Option<nat> {
    if ops == [] then None
    else
      var op := ops[|ops| - 1];
      if op.WriteOp? && op.pos == pos then Some(op.val) else LastWritten(ops[..|ops| - 1], pos)
  }

  /** An entry holds what was last written to it; once nonzero it stays so. */
  lemma {:induction false} LastWriteWins(m: seq<nat>, ops: seq<Op>, pos: nat)
    requires InRange(ops, |m|) && pos < |m|
    ensures Final(m, ops)[pos] == if LastWritten(ops, pos).Some? then LastWritten(ops, pos).value else m[pos]
    ensures m[pos] != 0 ==> Final(m, ops)[pos] != 0
  {
    if ops != [] { LastWriteWins(m, ops[..|ops| - 1], pos); }
  }

  predicate IsRead(op: Op) { op.ReadOp? }

  /** There is one result for each read, and it is what was last written there. */
  lemma {:induction false} ReadsReturnLastWritten(m: seq<nat>, ops: seq<Op>, i: nat)
    requires InRange(ops, |m|) && i < |ops| && ops[i].ReadOp?
    ensures |Outs(m, ops)| == Count(ops, IsRead) && Count(ops[..i], IsRead) < |Outs(m, ops)|
    ensures Outs(m, ops)[Count(ops[..i], IsRead)] ==
      if LastWritten(ops[..i], ops[i].pos).Some? then LastWritten(ops[..i], ops[i].pos).value else m[ops[i].pos]
  {
    var n := |ops| - 1;
    OutsPerRead(m, ops[..n]);
    if i < n {
      assert ops[..n][..i] == ops[..i];
      ReadsReturnLastWritten(m, ops[..n], i);
    } else {
      LastWriteWins(m, ops[..n], ops[n].pos);
    }
  }

  lemma {:induction false} OutsPerRead(m: seq<nat>, ops: seq<Op>)
    requires InRange(ops, |m|)
    ensures |Outs(m, ops)| == Count(ops, IsRead)
  {
    if ops != [] { OutsPerRead(m, ops[..|ops| - 1]); }
  }

  // ---------------------------------------------------------- settling down

  /** The sections that hold anything. */
  ghost function DataSections(cm: CowManager): set<nat>
    reads cm, cm.sects
  {
    set i: nat | i < cm.sects.Length && cm.sects[i].hasData
  }

  ghost function DataAfter(data: set<nat>, ops: seq<Op>): set<nat> {
    if ops == [] then data
    else
      var op := ops[|ops| - 1];
      DataAfter(data, ops[..|ops| - 1]) + if op.WriteOp? then {op.pos / 4096} else {}
  }

  /** The operation gets to the check of the cache limit. */
  ghost predicate ReachesCheck(op: Op, data: set<nat>) { op.WriteOp? || (op.ReadOp? && op.pos / 4096 in data) }

  /** How many operations have got to the check since the limit last changed;
      closing empties the cache, which settles it at once. */
  ghost function Checks(start: nat, ops: seq<Op>, data: set<nat>): nat {
    if ops == [] then start
    else
      var n := |ops| - 1;
      match ops[n]
      case ResizeOp(_) => 0
      case CloseReopenOp => 2
      case op => Checks(start, ops[..n], data) + if ReachesCheck(op, DataAfter(data, ops[..n])) then 1 else 0
  }

  /** The `i`-th operation is a write, or reads a section that held data to begin
      with or has been written to before. */
  ghost predicate Uses(ops: seq<Op>, data: set<nat>, i: nat) {
    && i < |ops|
    && (ops[i].WriteOp?
        || (ops[i].ReadOp?
            && (ops[i].pos / 4096 in data || exists k :: 0 <= k < i && ops[k].WriteOp? && ops[k].pos / 4096 == ops[i].pos / 4096)))
  }

  lemma {:induction false} DataAfterExactly(data: set<nat>, ops: seq<Op>, x: nat)
    ensures x in DataAfter(data, ops) <==> x in data || exists k :: 0 <= k < |ops| && ops[k].WriteOp? && ops[k].pos / 4096 == x
  {
    if ops != [] {
      var n := |ops| - 1;
      DataAfterExactly(data, ops[..n], x);
      assert forall k :: 0 <= k < n ==> ops[..n][k] == ops[k];
    }
  }

  lemma UsesReach(ops: seq<Op>, data: set<nat>, i: nat)
    requires Uses(ops, data, i)
    ensures ReachesCheck(ops[i], DataAfter(data, ops[..i]))
  {
    if ops[i].ReadOp? {
      DataAfterExactly(data, ops[..i], ops[i].pos / 4096);
      assert forall k :: 0 <= k < i ==> ops[..i][k] == ops[k];
    }
  }

  /** After any change of the limit, any two writes, or reads of sections with data,
      settle the cache, whatever else happens before, between and after them. */
  lemma ResizeSettles(start: nat, ops: seq<Op>, data: set<nat>, r: nat, i: nat, j: nat)
    requires r < i < j < |ops| && forall k :: r < k < |ops| ==> !ops[k].ResizeOp?
    requires Uses(ops, data, i) && Uses(ops, data, j)
    ensures Checks(start, ops, data) >= 2
  {
    UsesReach(ops, data, i);
    UsesReach(ops, data, j);
    ReachedTwice(start, ops, data, r, i, j);
  }

  lemma {:induction false} ReachedTwice(start: nat, ops: seq<Op>, data: set<nat>, r: nat, i: nat, j: nat)
    requires r < i < j < |ops| && forall k :: r < k < |ops| ==> !ops[k].ResizeOp?
    requires ReachesCheck(ops[i], DataAfter(data, ops[..i])) && ReachesCheck(ops[j], DataAfter(data, ops[..j]))
    ensures Checks(start, ops, data) >= 2
  {
    var n := |ops| - 1;
    assert ops[..n][..i] == ops[..i];
    if j == n {
      ReachedOnce(start, ops[..n], data, r, i);
    } else {
      assert ops[..n][..j] == ops[..j];
      ReachedTwice(start, ops[..n], data, r, i, j);
    }
  }

  lemma {:induction false} ReachedOnce(start: nat, ops: seq<Op>, data: set<nat>, r: nat, i: nat)
    requires r < i < |ops| && forall k :: r < k < |ops| ==> !ops[k].ResizeOp?
    requires ReachesCheck(ops[i], DataAfter(data, ops[..i]))
    ensures Checks(start, ops, data) >= 1
  {
    var n := |ops| - 1;
    if i < n {
      assert ops[..n][..i] == ops[..i];
      ReachedOnce(start, ops[..n], data, r, i);
    }
  }

  /** One operation on the real manager. */
  method RunOp(cm: CowManager, op: Op) returns (ret: int, out: seq<nat>)
    requires cm.Valid() && cm.isOpen && !cm.flags.clean && Fits(op, |cm.view|)
    modifies cm, cm.sects, cm.file
    ensures cm.Valid()
    ensures ret == 0 ==> cm.isOpen && !cm.flags.clean
    ensures ret == 0 ==> cm.view == if op.WriteOp? then old(cm.view)[op.pos := op.val] else old(cm.view)
    ensures ret == 0 ==> out == if op.ReadOp? then [old(cm.view)[op.pos]] else []
    ensures ret == 0 ==> DataSections(cm) == old(DataSections(cm)) + if op.WriteOp? then {op.pos / 4096} else {}
    // how far the cache has settled since the last change of the limit
    ensures ret == 0 && old(cm.Quiet()) && !op.ResizeOp? ==> cm.Quiet()
    ensures ret == 0 && old(cm.Bounded()) && !op.ResizeOp? ==> cm.Bounded()
    ensures ret == 0 && ReachesCheck(op, old(DataSections(cm))) ==> cm.Quiet() && (old(cm.Quiet()) ==> cm.Bounded())
    ensures ret == 0 && op.CloseReopenOp? ==> cm.Quiet() && cm.Bounded()
  {
    assert cm.sects.Length == cm.totalSects && |cm.view| == 4096 * cm.totalSects;
    hide CowManager.Valid;
    ret, out := 0, [];
    match op
    case ReadOp(pos) =>
      var v;
      ret, v := cm.ReadMapping(pos);
      out := [v];
    case WriteOp(pos, val) =>
      ret := cm.WriteMapping(pos, val);
    case ResizeOp(cacheSize) =>
      cm.ModifyCacheSize(cacheSize);
    case CloseReopenOp =>
      ret := cm.CloseAndReopen();
  }

  /** Any sequence of reads, writes, limit changes and close/reopen cycles, with
      whatever allocation, eviction and reloading they cause, behaves as the plain
      map; the cache keeps its bound, and is back within it as soon as two operations
      have got to the check since the limit last changed. */
  method RunOps(cm: CowManager, ops: seq<Op>) returns (ret: int, outs: seq<nat>)
    requires cm.Valid() && cm.isOpen && !cm.flags.clean && InRange(ops, |cm.view|)
    modifies cm, cm.sects, cm.file
    ensures cm.Valid()
    ensures ret == 0 ==> cm.view == Final(old(cm.view), ops) && outs == Outs(old(cm.view), ops)
    ensures ret == 0 && Checks(if old(cm.Bounded()) then 2 else 0, ops, old(DataSections(cm))) >= 2 ==> cm.Bounded()
  {
    hide CowManager.Valid;
    BoundedIsQuiet(cm);
    hide CowManager.Bounded;
    hide CowManager.Quiet;
    hide DataSections;
    ghost var start, data := if cm.Bounded() then 2 else 0, DataSections(cm);
    ret, outs := 0, [];
    var i := 0;
    while i < |ops|
      invariant 0 <= i <= |ops|
      invariant cm.Valid() && cm.isOpen && !cm.flags.clean
      invariant cm.view == Final(old(cm.view), ops[..i]) && outs == Outs(old(cm.view), ops[..i])
      invariant DataSections(cm) == DataAfter(data, ops[..i])
      invariant Checks(start, ops[..i], data) >= 1 ==> cm.Quiet()
      invariant Checks(start, ops[..i], data) >= 2 ==> cm.Bounded()
    {
      assert ops[..i + 1][..i] == ops[..i];
      var out;
      ret, out := RunOp(cm, ops[i]);
      if ret != 0 { return; }
      outs := outs + out;
      i := i + 1;
    }
    assert ops[..i] == ops;
  }

  lemma BoundedIsQuiet(cm: CowManager)
    ensures cm.Bounded() ==> cm.Quiet()
  {
  }

  // ------------------------------------------------------------- whole periods

  /** The blocks that a list of queue entries holds contents for. */
  function BlocksOfClones(clones: seq<Entry>): set<nat> {
    if clones == [] then {}
    else
      var n := |clones| - 1;
      BlocksOfClones(clones[..n]) + if clones[n].Clone? then Span(clones[n].start, |clones[n].pages|) else {}
  }

  ghost predicate ClonesFit(clones: seq<Entry>, entries: nat) {
    forall i :: 0 <= i < |clones| ==> clones[i].Clone? && clones[i].start + |clones[i].pages| <= entries
  }

  ghost predicate SetsFit(sets: seq<SectorSet>, entries: nat) {
    forall i :: 0 <= i < |sets| ==> sets[i].sect + sets[i].len <= 8 * entries
  }

  lemma MarkedIsCaptured(cm: CowManager)
    requires cm.StoreOk()
    ensures Marked(cm.view) == cm.captured.Keys
  {
  }

  /** Store clones one after the other: each block ends up with what the first
      clone that covers it holds, unless it was captured before. */
  method StoreAll(cm: CowManager, clones: seq<Entry>) returns (ret: int)
    requires cm.Valid() && cm.isOpen && cm.StoreOk() && ClonesFit(clones, |cm.view|)
    modifies cm`allocatedSects, cm`view, cm`nrChanged, cm`currPos, cm`captured, cm.sects, cm.file`index, cm.file`data
    ensures cm.Valid() && cm.isOpen && |cm.view| == |old(cm.view)|
    ensures ret == 0 ==> cm.StoreOk() && cm.captured.Keys == old(cm.captured).Keys + BlocksOfClones(clones)
    ensures ret == 0 ==> forall b :: b in cm.captured ==>
      Some(cm.captured[b]) == if b in old(cm.captured) then Some(old(cm.captured)[b]) else Waiting(clones, b)
  {
    hide CowManager.Valid;
    hide CowManager.StoreOk;
    hide Capture;
    hide WriteOnce;
    hide Holds;
    hide Injective;
    ret := 0;
    var i := 0;
    while i < |clones|
      invariant 0 <= i <= |clones|
      invariant cm.Valid() && cm.isOpen && cm.StoreOk() && |cm.view| == |old(cm.view)|
      invariant cm.captured.Keys == old(cm.captured).Keys + BlocksOfClones(clones[..i])
      invariant StoredFirst(old(cm.captured), clones[..i], cm.captured)
    {
      assert clones[..i + 1][..i] == clones[..i];
      ghost var before := cm.captured;
      ghost var done, good;
      ret, done, good := HandleWrite(cm, clones[i].start, clones[i].pages);
      if ret != 0 { return; }
      StoredNext(old(cm.captured), clones, i, before, cm.captured);
      i := i + 1;
    }
    assert clones[..i] == clones;
  }

  ghost predicate StoredFirst(was: Store, clones: seq<Entry>, now: Store) {
    && (forall b: nat :: b in now <==> b in was || Waiting(clones, b).Some?)
    && forall b :: b in now ==> Some(now[b]) == if b in was then Some(was[b]) else Waiting(clones, b)
  }

  lemma StoredNext(was: Store, clones: seq<Entry>, i: nat, before: Store, now: Store)
    requires i < |clones| && clones[i].Clone? && StoredFirst(was, clones[..i], before)
    requires now == Capture(before, clones[i].start, clones[i].pages)
    ensures StoredFirst(was, clones[..i + 1], now)
  {
    var e := clones[i];
    assert clones[..i + 1] == clones[..i] + [e] && [e][1..] == [];
    forall b: nat ensures Waiting(clones[..i + 1], b) ==
        if Waiting(clones[..i], b).Some? then Waiting(clones[..i], b)
        else if e.Covers(b) then Some(e.pages[b - e.start]) else None
    {
      WaitingAppend(clones[..i], [e], b);
    }
    hide Waiting;
  }

  method MarkAll(cm: CowManager, sets: seq<SectorSet>) returns (ret: int)
    requires cm.Valid() && cm.isOpen && SetsFit(sets, |cm.view|)
    modifies cm`allocatedSects, cm`view, cm`nrChanged, cm.sects, cm.file`index
    ensures cm.Valid() && cm.isOpen && |cm.view| == |old(cm.view)|
    ensures ret == 0 ==> Marked(cm.view) == Marked(old(cm.view)) + BlocksOfSets(sets)
  {
    hide CowManager.Valid;
    hide Marked;
    ret := 0;
    var i := 0;
    while i < |sets|
      invariant 0 <= i <= |sets|
      invariant cm.Valid() && cm.isOpen && |cm.view| == |old(cm.view)|
      invariant Marked(cm.view) == Marked(old(cm.view)) + BlocksOfSets(sets[..i])
    {
      assert sets[..i + 1][..i] == sets[..i];
      ret := HandleSet(cm, sets[i]);
      if ret != 0 { return; }
      i := i + 1;
    }
    assert sets[..i] == sets;
  }

  /** A snapshot period from start to end: clones are stored, the data area is
      given up, sector sets are marked, and the file is closed.  The index left
      on disk marks exactly the blocks of the clones and the sector sets, and
      the header counts them. */
  method RunPeriod(cm: CowManager, clones: seq<Entry>, sets: seq<SectorSet>) returns (ret: int)
    requires cm.Valid() && cm.isOpen && cm.StoreOk() && cm.captured == map[]
    requires ClonesFit(clones, |cm.view|) && SetsFit(sets, |cm.view|)
    modifies cm, cm.sects, cm.file
    ensures ret == 0 ==> Marked(cm.file.index) == BlocksOfClones(clones) + BlocksOfSets(sets)
    ensures ret == 0 ==> cm.file.header.flags.clean && cm.file.header.flags.indexOnly
    ensures ret == 0 ==> |cm.file.index| == |old(cm.view)| && cm.file.header.magic == COW_MAGIC
    // so that the file can be told to belong to this period of this series
    ensures ret == 0 ==> cm.file.header.seqid == old(cm.seqid) && cm.file.header.uuid == old(cm.uuid)
    ensures ret == 0 && cm.version >= COW_VERSION_CHANGED_BLOCKS ==> cm.file.header.nrChanged == Count(cm.file.index, NonZero)
  {
    hide Marked;
    hide CowManager.StoreOk;
    ret := StoreAll(cm, clones);
    if ret != 0 { return; }
    MarkedIsCaptured(cm);
    var truncated := cm.TruncateToIndex();
    ret := MarkAll(cm, sets);
    if ret != 0 { return; }
    ret := cm.SyncAndFree();
  }
}
