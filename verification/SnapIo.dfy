/**
 What the COW thread does with a dequeued request: store the old contents that
 a clone carries, or assemble the answer to a snapshot read out of the COW
 file and the base device.
 */
module SnapIo {
  import opened Blocks
  import opened CowFiles
  import opened CowManagers

  /** Offering pages one after the other is offering them together. */
  lemma CaptureNext(store: Store, start: nat, pages: seq<Block>, i: nat, page: Block, before: Store, after: Store)
    requires i < |pages| && pages[i] == page
    requires before == Capture(store, start, pages[..i])
    requires after == CaptureOne(before, start + i, page)
    ensures after == Capture(store, start, pages[..i + 1])
  {
  }

  lemma CaptureNothing(store: Store, start: nat, pages: seq<Block>)
    ensures Capture(store, start, pages[..0]) == store
  {
  }

  /** Store the pages of a clone that begins at block `start`.  After an error,
      `good` is the index with every page before `done` captured, and the real
      index differs from it in at most the mapping of block `start + done`. */
  method HandleWrite(cm: CowManager, start: nat, pages: seq<Block>) returns (ret: int, ghost done: nat, ghost good: seq<nat>)
    requires cm.Valid() && cm.isOpen && cm.StoreOk() && start + |pages| <= |cm.view|
    modifies cm`allocatedSects, cm`view, cm`nrChanged, cm`currPos, cm`captured, cm.sects, cm.file`index, cm.file`data
    ensures cm.Valid() && cm.isOpen
    ensures ret == 0 ==> cm.StoreOk() && cm.captured == Capture(old(cm.captured), start, pages)
    ensures |cm.view| == |old(cm.view)|
    ensures forall b :: 0 <= b < |cm.view| && old(cm.view)[b] != 0 ==> cm.view[b] == old(cm.view)[b]
    ensures old(Injective(cm.view)) ==> Injective(cm.view)
    ensures ret != 0 ==> done < |pages| && WriteOnce(good, cm.file.data, cm.dataStart, cm.currPos)
    ensures ret != 0 ==> Holds(Capture(old(cm.captured), start, pages[..done]), good, cm.file.data)
    ensures ret != 0 ==> |good| == |cm.view| && (cm.view == good || cm.view == good[start + done := cm.currPos])
  {
    hide CowManager.Valid;
    hide CowManager.StoreOk;
    hide Injective;
    hide WriteOnce;
    hide Holds;
    hide Capture;
    hide CaptureOne;
    ret, done, good := 0, 0, cm.view;
    CaptureNothing(cm.captured, start, pages);
    var i := 0;
    while i < |pages|
      invariant i == done <= |pages|
      invariant cm.Valid() && cm.isOpen && cm.StoreOk() && |cm.view| == |good| == |old(cm.view)|
      invariant forall b :: 0 <= b < |cm.view| && old(cm.view)[b] != 0 ==> cm.view[b] == old(cm.view)[b]
      invariant old(Injective(cm.view)) ==> Injective(cm.view)
      invariant cm.captured == Capture(old(cm.captured), start, pages[..i])
    {
      good := cm.view;
      var page := pages[i];
      ghost var before := cm.captured;
      ret := cm.WriteCurrent(start + i, page);
      if ret != 0 { return; }
      CaptureNext(old(cm.captured), start, pages, i, page, before, cm.captured);
      i, done := i + 1, done + 1;
    }
    assert pages[..i] == pages;
  }

  // ------------------------------------------------------------ snapshot read

  datatype Mode = Undecided | CowOnly | BaseOnly | Mixed

  /** Total of the segment lengths of a request, in bytes. */
  function Total(segs: seq<nat>): (n: nat) {
    if segs == [] then 0 else Total(segs[..|segs| - 1]) + segs[|segs| - 1]
  }

  lemma {:induction false} TotalPrefix(segs: seq<nat>, i: nat)
    requires i <= |segs|
    ensures Total(segs[..i]) <= Total(segs)
    decreases |segs|
  {
    if i < |segs| {
      assert segs[..|segs| - 1][..i] == segs[..i];
      TotalPrefix(segs[..|segs| - 1], i);
    } else {
      assert segs[..i] == segs;
    }
  }

  /** Every byte from `lo` to `hi` is in a captured block, or none is. */
  ghost predicate AllCaptured(store: Store, lo: nat, hi: nat) {
    forall b :: lo < 4096 * b + 4096 && 4096 * b < hi && 0 <= b && lo < hi ==> b in store
  }
  ghost predicate NoneCaptured(store: Store, lo: nat, hi: nat) {
    forall b :: lo < 4096 * b + 4096 && 4096 * b < hi && 0 <= b && lo < hi ==> b !in store
  }

  /** What a mode decided after looking at bytes `lo` to `hi` means. */
  ghost predicate ModeMeans(mode: Mode, store: Store, lo: nat, hi: nat) {
    match mode
    case Undecided => lo == hi
    case CowOnly => AllCaptured(store, lo, hi) && lo < hi
    case BaseOnly => NoneCaptured(store, lo, hi) && lo < hi
    case Mixed => !AllCaptured(store, lo, hi) && !NoneCaptured(store, lo, hi)
  }

  /** Look one block up: is it captured? */
  method Lookup(cm: CowManager, block: nat) returns (ret: int, mapping: nat)
    requires cm.Valid() && cm.isOpen && cm.StoreOk() && block < |cm.view|
    modifies cm`allocatedSects, cm.sects, cm.file`index
    ensures cm.Valid() && cm.StoreOk()
    ensures ret == 0 ==> (mapping != 0 <==> block in cm.captured)
    ensures ret == 0 && mapping != 0 ==> mapping in cm.file.data && cm.file.data[mapping] == cm.captured[block]
  {
    hide CowManager.Valid;
    ret, mapping := cm.ReadMapping(block);
  }

  /** Decide whether a read needs the COW file, the base device or both. */
  method ReadMode(cm: CowManager, sect: nat, segs: seq<nat>) returns (ret: int, mode: Mode)
    requires cm.Valid() && cm.isOpen && cm.StoreOk()
    requires 512 * sect + Total(segs) <= 4096 * |cm.view|
    modifies cm`allocatedSects, cm.sects, cm.file`index
    ensures cm.Valid() && cm.StoreOk()
    ensures ret == 0 ==> ModeMeans(mode, cm.captured, 512 * sect, 512 * sect + Total(segs))
  {
    hide CowManager.Valid;
    hide CowManager.StoreOk;
    ghost var lo := 512 * sect;
    var end := 512 * sect;
    ret, mode := 0, Undecided;
    var i := 0;
    while i < |segs|
      invariant 0 <= i <= |segs| && ret == 0
      invariant cm.Valid() && cm.StoreOk()
      invariant end == lo + Total(segs[..i])
      invariant mode != Mixed && ModeMeans(mode, cm.captured, lo, end)
    {
      TotalPrefix(segs, i + 1);
      assert segs[..i + 1][..i] == segs[..i];
      var bytes := 0;
      while bytes < segs[i]
        invariant 0 <= bytes <= segs[i]
        invariant cm.Valid() && cm.StoreOk()
        invariant end == lo + Total(segs[..i]) + bytes
        invariant mode != Mixed && ModeMeans(mode, cm.captured, lo, end)
      {
        var cur := end;
        end := end + Min(4096 - cur % 4096, segs[i] - bytes);
        var mapping;
        ret, mapping := Lookup(cm, cur / 4096);
        if ret != 0 { return; }
        if mode == Undecided {
          mode := if mapping != 0 then CowOnly else BaseOnly;
        } else if (mode == CowOnly && mapping == 0) || (mode == BaseOnly && mapping != 0) {
          assert lo / 4096 in cm.captured <==> cur / 4096 !in cm.captured;
          mode := Mixed;
          return;
        }
        bytes := bytes + (end - cur);
      }
      i := i + 1;
    }
    assert segs[..i] == segs;
  }

  method CopyInto(buf: array<byte>, at: nat, bytes: seq<byte>)
    requires at + |bytes| <= buf.Length
    modifies buf
    ensures forall k :: 0 <= k < buf.Length ==> buf[k] == if at <= k < at + |bytes| then bytes[k - at] else old(buf[k])
  {
    forall k | at <= k < at + |bytes| { buf[k] := bytes[k - at]; }
  }

  /** Submit the request to the base device and wait. */
  method ReadBase(base: seq<byte>, sect: nat, buf: array<byte>) returns (ret: int)
    requires 512 * sect + buf.Length <= |base|
    modifies buf
    ensures ret == 0 ==> buf[..] == base[512 * sect..512 * sect + buf.Length]
  {
    if * {
      CopyInto(buf, 0, base[512 * sect..512 * sect + buf.Length]);
      ret := 0;
    } else {
      var n: nat :| n <= buf.Length;
      CopyInto(buf, 0, base[512 * sect..512 * sect + n]);
      ret := -EIO;
    }
  }

  /** `buf` answers bytes before `done`, and elsewhere still has live data for
      blocks that were not captured. */
  ghost predicate Answered(buf: seq<byte>, base: seq<byte>, store: Store, lo: nat, done: nat) {
    && done <= |buf| && lo + |buf| <= |base|
    && forall k :: 0 <= k < |buf| && (k < done || (lo + k) / 4096 !in store) ==> buf[k] == SnapshotByte(base, store, lo + k)
  }

  /** Overlay one stretch of a segment that stays inside one block. */
  method OverlayPiece(cm: CowManager, ghost base: seq<byte>, ghost sect: nat, buf: array<byte>, at: nat, block: nat, off: nat, n: nat)
    returns (ret: int)
    requires cm.Valid() && cm.isOpen && cm.StoreOk() && block < |cm.view|
    requires Answered(buf[..], base, cm.captured, 512 * sect, at)
    requires 512 * sect + at == 4096 * block + off && n <= 4096 - off && off < 4096 && at + n <= buf.Length
    modifies cm`allocatedSects, cm.sects, cm.file`index, buf
    ensures cm.Valid() && cm.StoreOk()
    ensures ret == 0 ==> Answered(buf[..], base, cm.captured, 512 * sect, at + n)
  {
    hide CowManager.Valid;
    var mapping;
    ghost var before := buf[..];
    ret, mapping := Lookup(cm, block);
    if ret != 0 { return; }
    assert buf[..] == before;
    if mapping != 0 {
      var bytes;
      ret, bytes := cm.ReadData(mapping, off, n);
      if ret != 0 { return; }
      CopyInto(buf, at, bytes);
    }
  }

  /** Answer a snapshot read in place.  The base device is read at one instant. */
  method HandleRead(cm: CowManager, base: seq<byte>, sect: nat, segs: seq<nat>, len: nat, buf: array<byte>) returns (ret: int)
    requires cm.Valid() && cm.isOpen && cm.StoreOk()
    requires Total(segs) == buf.Length == 512 * len && forall i :: 0 <= i < |segs| ==> segs[i] % 512 == 0
    requires 512 * (sect + len) <= |base| && 512 * (sect + len) <= 4096 * |cm.view|
    modifies cm`allocatedSects, cm.sects, cm.file`index, buf
    ensures cm.Valid() && cm.StoreOk()
    ensures ret == 0 ==> buf[..] == ReadThrough(base, cm.captured, sect, len)
  {
    hide CowManager.Valid;
    hide CowManager.StoreOk;
    var mode;
    ret, mode := ReadMode(cm, sect, segs);
    if ret != 0 { return; }
    if mode != CowOnly {
      ret := ReadBase(base, sect, buf);
      if ret != 0 { return; }
    }
    assert Answered(buf[..], base, cm.captured, 512 * sect, 0);
    if mode != BaseOnly {
      ret := Overlay(cm, base, sect, segs, buf);
    } else {
      assert Answered(buf[..], base, cm.captured, 512 * sect, buf.Length);
    }
  }

  /** From sector `s` with `left` bytes to go, the next piece ends on a sector
      boundary inside the block. */
  lemma PieceArithmetic(s: nat, left: nat)
    requires left % 512 == 0
    ensures var n := Min(left, 4096 - 512 * s % 4096);
      n % 512 == 0 && (left - n) % 512 == 0 && 512 * (s + n / 512) == 512 * s + n
    ensures 512 * s == 4096 * (512 * s / 4096) + 512 * s % 4096
  {
    assert 512 * s == 4096 * (s / 8) + 512 * (s % 8);
    assert 512 * s % 4096 == 512 * (s % 8);
  }

  /** Overlay one segment, which begins at sector `first` and byte `start` of the buffer. */
  method OverlaySegment(cm: CowManager, ghost base: seq<byte>, ghost sect: nat, buf: array<byte>, start: nat, first: nat, size: nat)
    returns (ret: int)
    requires cm.Valid() && cm.isOpen && cm.StoreOk()
    requires 512 * first == 512 * sect + start && size % 512 == 0 && start + size <= buf.Length
    requires 512 * sect + buf.Length <= 4096 * |cm.view|
    requires Answered(buf[..], base, cm.captured, 512 * sect, start)
    modifies cm`allocatedSects, cm.sects, cm.file`index, buf
    ensures cm.Valid() && cm.StoreOk()
    ensures ret == 0 ==> Answered(buf[..], base, cm.captured, 512 * sect, start + size)
  {
    hide CowManager.Valid;
    hide CowManager.StoreOk;
    hide Answered;
    ret := 0;
    var curSect, off := first, 0;
    var block, blockOff := 512 * curSect / 4096, 512 * curSect % 4096;
    while off < size
      invariant off <= size && (size - off) % 512 == 0
      invariant cm.Valid() && cm.StoreOk()
      invariant 512 * curSect == 512 * sect + start + off
      invariant block == 512 * curSect / 4096 && blockOff == 512 * curSect % 4096
      invariant Answered(buf[..], base, cm.captured, 512 * sect, start + off)
    {
      PieceArithmetic(curSect, size - off);
      var n := Min(size - off, 4096 - blockOff);
      ret := OverlayPiece(cm, base, sect, buf, start + off, block, blockOff, n);
      if ret != 0 { return; }
      curSect, off := curSect + n / 512, off + n;
      block, blockOff := 512 * curSect / 4096, 512 * curSect % 4096;
    }
  }

  /** Walk the segments and overlay captured data. */
  method Overlay(cm: CowManager, ghost base: seq<byte>, sect: nat, segs: seq<nat>, buf: array<byte>) returns (ret: int)
    requires cm.Valid() && cm.isOpen && cm.StoreOk()
    requires Total(segs) == buf.Length && forall i :: 0 <= i < |segs| ==> segs[i] % 512 == 0
    requires 512 * sect + buf.Length <= 4096 * |cm.view|
    requires Answered(buf[..], base, cm.captured, 512 * sect, 0)
    modifies cm`allocatedSects, cm.sects, cm.file`index, buf
    ensures cm.Valid() && cm.StoreOk()
    ensures ret == 0 ==> Answered(buf[..], base, cm.captured, 512 * sect, buf.Length)
  {
    hide CowManager.Valid;
    hide CowManager.StoreOk;
    hide Answered;
    ret := 0;
    var i, start, curSect := 0, 0, sect;
    while i < |segs|
      invariant 0 <= i <= |segs|
      invariant cm.Valid() && cm.StoreOk()
      invariant start == Total(segs[..i]) && 512 * curSect == 512 * sect + start
      invariant Answered(buf[..], base, cm.captured, 512 * sect, start)
    {
      TotalPrefix(segs, i + 1);
      assert segs[..i + 1][..i] == segs[..i];
      ret := OverlaySegment(cm, base, sect, buf, start, curSect, segs[i]);
      if ret != 0 { return; }
      curSect := curSect + segs[i] / 512;
      i, start := i + 1, start + segs[i];
    }
    assert segs[..i] == segs;
  }
}
