/**
 What happens when a write to the traced device arrives: in snapshot mode the
 enclosing blocks are cut into read clones; in incremental mode the changed
 sectors are recorded as sector sets and marked in the index.
 */
module Tracing {
  import opened Blocks
  import opened CowFiles
  import opened CowManagers

  const BIO_MAX_PAGES := 256

  function RoundDown(x: nat, chunk: nat): nat requires chunk > 0 { x / chunk * chunk }
  function RoundUp(x: nat, chunk: nat): nat requires chunk > 0 { (x + chunk - 1) / chunk * chunk }

  // ------------------------------------------------------------ snapshot mode

  datatype ReadClone = ReadClone(sect: nat, pages: nat)

  /** First block that a run of sectors touches, and the block after the last. */
  function FirstBlock(sect: nat): nat { sect / 8 }
  function EndBlock(sect: nat, len: nat): nat { (sect + len + 7) / 8 }

  lemma BlocksAreSpan(sect: nat, len: nat)
    requires len > 0
    ensures BlocksOf(sect, len) == Span(FirstBlock(sect), EndBlock(sect, len) - FirstBlock(sect))
  {
  }

  /** Clones follow each other without gap or overlap from `start` to `end`. */
  ghost predicate Tiles(clones: seq<ReadClone>, start: nat, end: nat) {
    if clones == [] then start == end
    else
      var c := clones[|clones| - 1];
      c.pages > 0 && c.sect + 8 * c.pages == end && Tiles(clones[..|clones| - 1], start, c.sect)
  }

  /** Clone `c` of a device at sector `off` reads block `b`. */
  predicate Reads(c: ReadClone, off: nat, b: nat) { c.sect <= off + 8 * b && off + 8 * b + 8 <= c.sect + 8 * c.pages }

  /** In a tiling of blocks every block is read by exactly one clone. */
  lemma {:induction false} TilesOnce(clones: seq<ReadClone>, off: nat, first: nat, end: nat, b: nat) returns (i: nat)
    requires Tiles(clones, off + 8 * first, off + 8 * end) && first <= b < end
    ensures i < |clones| && Reads(clones[i], off, b)
    ensures forall j :: 0 <= j < |clones| && j != i ==> !Reads(clones[j], off, b)
  {
    var n := |clones| - 1;
    var mid := end - clones[n].pages;
    TilesBounds(clones[..n], off + 8 * first, off + 8 * mid);
    if b < mid { i := TilesOnce(clones[..n], off, first, mid, b); } else { i := n; }
  }

  lemma {:induction false} TilesBounds(clones: seq<ReadClone>, start: nat, end: nat)
    requires Tiles(clones, start, end)
    ensures start <= end
    ensures forall j :: 0 <= j < |clones| ==> start <= clones[j].sect && clones[j].sect + 8 * clones[j].pages <= end
  {
    if clones != [] {
      var n := |clones| - 1;
      TilesBounds(clones[..n], start, clones[n].sect);
      assert clones == clones[..n] + [clones[n]];
    }
  }

  /** Cut the block-rounded range of a write into clones.  How many pages a
      clone takes is up to the queue limits, but it takes at least one. */
  method MakeClones(off: nat, sect: nat, size: nat) returns (clones: seq<ReadClone>)
    requires off <= sect && size > 0 && size % 512 == 0
    ensures Tiles(clones, off + 8 * FirstBlock(sect - off), off + 8 * EndBlock(sect - off, size / 512))
    ensures forall c :: c in clones ==> 0 < c.pages <= BIO_MAX_PAGES
  {
    var start := RoundDown(sect - off, 8) + off;
    var end := RoundUp(sect + size / 512 - off, 8) + off;
    var pages := (end - start) / 8;
    assert end == off + 8 * EndBlock(sect - off, size / 512) && start == off + 8 * FirstBlock(sect - off);
    clones := [];
    while pages > 0
      invariant end == start + 8 * pages && pages >= 0
      invariant Tiles(clones, off + 8 * FirstBlock(sect - off), start)
      invariant forall c :: c in clones ==> 0 < c.pages <= BIO_MAX_PAGES
      decreases pages
    {
      var most := if pages > BIO_MAX_PAGES then BIO_MAX_PAGES else pages;
      var n: nat :| 1 <= n <= most;
      ghost var before := clones;
      clones := clones + [ReadClone(start, n)];
      assert clones[..|clones| - 1] == before;
      start, pages := start + 8 * n, pages - n;
    }
  }

  // --------------------------------------------------------- incremental mode

  datatype Segment = Segment(size: nat, ownedByCow: bool)
  datatype SectorSet = SectorSet(sect: nat, len: nat)
  datatype WriteKind = Data | WriteZeroes | Discard

  ghost predicate WellSized(segs: seq<Segment>) {
    forall i :: 0 <= i < |segs| ==> segs[i].size > 0 && segs[i].size % 512 == 0
  }

  function Sectors(segs: seq<Segment>): (n: nat) {
    if segs == [] then 0 else Sectors(segs[..|segs| - 1]) + segs[|segs| - 1].size / 512
  }

  /** Sectors, from `sect` on, of the segments that are not pages of the COW file. */
  function ForeignSectors(segs: seq<Segment>, sect: nat): set<nat> {
    if segs == [] then {}
    else
      var n := |segs| - 1;
      ForeignSectors(segs[..n], sect)
      + if segs[n].ownedByCow then {} else Span(sect + Sectors(segs[..n]), segs[n].size / 512)
  }

  function SectorsOf(sets: seq<SectorSet>): set<nat> {
    if sets == [] then {} else SectorsOf(sets[..|sets| - 1]) + Span(sets[|sets| - 1].sect, sets[|sets| - 1].len)
  }

  /** Nonempty, ascending, and separated by at least one sector. */
  ghost predicate Separated(sets: seq<SectorSet>) {
    if sets == [] then true
    else
      var n := |sets| - 1;
      && Separated(sets[..n]) && sets[n].len > 0
      && (n > 0 ==> sets[n - 1].sect + sets[n - 1].len < sets[n].sect)
  }

  lemma {:induction false} SeparatedPairs(sets: seq<SectorSet>, i: nat, j: nat)
    requires Separated(sets) && i < j < |sets|
    ensures sets[i].len > 0 && sets[i].sect + sets[i].len < sets[j].sect
    decreases |sets|
  {
    var n := |sets| - 1;
    if j < n { SeparatedPairs(sets[..n], i, j); }
    else if i < n - 1 { SeparatedPairs(sets[..n], i, n - 1); }
  }

  /** The sectors that a write of some kind must get recorded. */
  function MustRecord(segs: seq<Segment>, sect: nat, kind: WriteKind, cowOnDevice: bool): set<nat> {
    if !cowOnDevice || kind == WriteZeroes then Span(sect, Sectors(segs))
    else if kind == Discard then {}
    else ForeignSectors(segs, sect)
  }

  /** Some set covers sector `x`. */
  ghost predicate InSets(sets: seq<SectorSet>, x: nat) {
    exists i :: 0 <= i < |sets| && sets[i].sect <= x < sets[i].sect + sets[i].len
  }

  /** Segment `i` of a write at sector `sect` covers sector `x`. */
  ghost predicate InSegment(segs: seq<Segment>, sect: nat, i: nat, x: nat)
    requires i < |segs|
  {
    sect + Sectors(segs[..i]) <= x < sect + Sectors(segs[..i]) + segs[i].size / 512
  }

  /** Some segment covers sector `x`, and it counts: anything does if the COW file
      is elsewhere or zeros are written, data does unless it is a page of the COW
      file, and discards do not. */
  ghost predicate InSegments(segs: seq<Segment>, sect: nat, kind: WriteKind, cowOnDevice: bool, x: nat) {
    exists i :: 0 <= i < |segs| && InSegment(segs, sect, i, x)
      && (!cowOnDevice || kind == WriteZeroes || (kind == Data && !segs[i].ownedByCow))
  }

  lemma {:induction false} SectorsOfExactly(sets: seq<SectorSet>, x: nat)
    ensures x in SectorsOf(sets) <==> InSets(sets, x)
  {
    if sets != [] {
      var n := |sets| - 1;
      SectorsOfExactly(sets[..n], x);
      assert InSets(sets, x) <==> InSets(sets[..n], x) || sets[n].sect <= x < sets[n].sect + sets[n].len by {
        assert forall i :: 0 <= i < n ==> sets[..n][i] == sets[i];
      }
    }
  }

  lemma FirstSegments(segs: seq<Segment>, sect: nat, n: nat)
    requires n <= |segs|
    ensures forall i, x :: 0 <= i < n ==> (InSegment(segs[..n], sect, i, x) <==> InSegment(segs, sect, i, x))
  {
    assert forall i :: 0 <= i < n ==> segs[..n][i] == segs[i] && segs[..n][..i] == segs[..i];
  }

  lemma {:induction false} AllSectorsExactly(segs: seq<Segment>, sect: nat, x: nat)
    ensures x in Span(sect, Sectors(segs)) <==> exists i :: 0 <= i < |segs| && InSegment(segs, sect, i, x)
  {
    if segs != [] {
      var n := |segs| - 1;
      AllSectorsExactly(segs[..n], sect, x);
      FirstSegments(segs, sect, n);
      assert InSegment(segs, sect, n, x) <==> sect + Sectors(segs[..n]) <= x < sect + Sectors(segs);
      hide InSegment;
    }
  }

  lemma {:induction false} ForeignSectorsExactly(segs: seq<Segment>, sect: nat, x: nat)
    ensures x in ForeignSectors(segs, sect) <==> exists i :: 0 <= i < |segs| && InSegment(segs, sect, i, x) && !segs[i].ownedByCow
  {
    if segs != [] {
      var n := |segs| - 1;
      ForeignSectorsExactly(segs[..n], sect, x);
      FirstSegments(segs, sect, n);
      assert InSegment(segs, sect, n, x) <==> x in Span(sect + Sectors(segs[..n]), segs[n].size / 512);
      hide InSegment;
      hide Span;
      hide Sectors;
    }
  }

  /** What must be recorded are exactly the sectors of the segments that count. */
  lemma MustRecordExactly(segs: seq<Segment>, sect: nat, kind: WriteKind, cowOnDevice: bool, x: nat)
    ensures x in MustRecord(segs, sect, kind, cowOnDevice) <==> InSegments(segs, sect, kind, cowOnDevice, x)
  {
    AllSectorsExactly(segs, sect, x);
    ForeignSectorsExactly(segs, sect, x);
  }

  method MakeSet(off: nat, sect: nat, len: nat, sets: seq<SectorSet>) returns (ret: int, more: seq<SectorSet>)
    requires off <= sect && len > 0 && Separated(sets)
    requires sets != [] ==> sets[|sets| - 1].sect + sets[|sets| - 1].len < sect - off
    ensures ret == 0 ==> Separated(more) && SectorsOf(more) == SectorsOf(sets) + Span(sect - off, len)
    ensures ret == 0 ==> more != [] && more[|more| - 1] == SectorSet(sect - off, len)
    ensures ret != 0 ==> more == sets
  {
    if * { return -ENOMEM, sets; }
    more := sets + [SectorSet(sect - off, len)];
    assert more[..|more| - 1] == sets;
    ret := 0;
  }

  lemma NextSegment(segs: seq<Segment>, sect: nat, i: nat)
    requires i < |segs|
    ensures Sectors(segs[..i + 1]) == Sectors(segs[..i]) + segs[i].size / 512
    ensures ForeignSectors(segs[..i + 1], sect) == ForeignSectors(segs[..i], sect)
      + if segs[i].ownedByCow then {} else Span(sect + Sectors(segs[..i]), segs[i].size / 512)
  {
    assert segs[..i + 1][..i] == segs[..i];
  }

  lemma SpanJoin(a: nat, n: nat, m: nat)
    ensures Span(a, n) + Span(a + n, m) == Span(a, n + m)
  {
  }

  /** Merge neighbouring segments that do not belong to the COW file. */
  method Coalesce(off: nat, sect: nat, segs: seq<Segment>) returns (ret: int, sets: seq<SectorSet>)
    requires off <= sect && WellSized(segs)
    ensures ret == 0 ==> Separated(sets) && SectorsOf(sets) == ForeignSectors(segs, sect - off)
  {
    hide ForeignSectors;
    hide Sectors;
    hide SectorsOf;
    hide Span;
    ret, sets := 0, [];
    var initialized, start, end := false, 0, sect;
    var i := 0;
    EmptySpan(segs, sect - off);
    while i < |segs|
      invariant 0 <= i <= |segs|
      invariant end == sect + Sectors(segs[..i])
      invariant Separated(sets)
      invariant initialized ==> off <= start < end
      invariant sets != [] ==> sets[|sets| - 1].sect + sets[|sets| - 1].len < (if initialized then start else end) - off
      invariant SectorsOf(sets) + (if initialized then Span(start - off, end - start) else {}) == ForeignSectors(segs[..i], sect - off)
    {
      NextSegment(segs, sect - off, i);
      if !segs[i].ownedByCow {
        if !initialized { initialized, start := true, end; }
        SpanJoin(start - off, end - start, segs[i].size / 512);
        EmptySpan(segs, start - off);
      } else {
        if initialized && end - start > 0 {
          ret, sets := MakeSet(off, start, end - start, sets);
          if ret != 0 { return; }
        }
        initialized := false;
      }
      end := end + segs[i].size / 512;
      i := i + 1;
    }
    assert segs[..i] == segs;
    if initialized && end - start > 0 {
      ret, sets := MakeSet(off, start, end - start, sets);
    }
  }

  lemma EmptySpan(segs: seq<Segment>, a: nat)
    ensures Span(a, 0) == {} && SectorsOf([]) == {} && ForeignSectors(segs[..0], a) == {} && Sectors(segs[..0]) == 0
  {
  }

  /** Record a write of `segs` at sector `sect` (the device begins at `off`). */
  method TraceIncremental(off: nat, sect: nat, segs: seq<Segment>, kind: WriteKind, cowOnDevice: bool)
    returns (ret: int, sets: seq<SectorSet>)
    requires off <= sect && segs != [] && WellSized(segs)
    ensures ret == 0 ==> Separated(sets) && SectorsOf(sets) == MustRecord(segs, sect - off, kind, cowOnDevice)
    // which means, sector by sector and block by block:
    ensures ret == 0 ==> forall x: nat :: InSets(sets, x) <==> InSegments(segs, sect - off, kind, cowOnDevice, x)
    ensures ret == 0 ==> BlocksOfSets(sets) <= BlocksOf(sect - off, Sectors(segs))
  {
    ret, sets := 0, [];
    if !cowOnDevice || kind == WriteZeroes {
      ret, sets := MakeSet(off, sect, Sectors(segs), sets);
    } else if kind != Discard {
      ret, sets := Coalesce(off, sect, segs);
    }
    if ret == 0 {
      RecordedMeans(sets, segs, sect - off, kind, cowOnDevice);
      MarkedInside(sets, segs, sect - off, kind, cowOnDevice);
    }
  }

  lemma RecordedMeans(sets: seq<SectorSet>, segs: seq<Segment>, sect: nat, kind: WriteKind, cowOnDevice: bool)
    requires SectorsOf(sets) == MustRecord(segs, sect, kind, cowOnDevice)
    ensures forall x: nat :: InSets(sets, x) <==> InSegments(segs, sect, kind, cowOnDevice, x)
  {
    forall x: nat ensures InSets(sets, x) <==> InSegments(segs, sect, kind, cowOnDevice, x) {
      SectorsOfExactly(sets, x);
      MustRecordExactly(segs, sect, kind, cowOnDevice, x);
    }
  }

  /** Only blocks that the write touches get marked for it. */
  lemma MarkedInside(sets: seq<SectorSet>, segs: seq<Segment>, sect: nat, kind: WriteKind, cowOnDevice: bool)
    requires Separated(sets) && SectorsOf(sets) == MustRecord(segs, sect, kind, cowOnDevice)
    ensures BlocksOfSets(sets) <= BlocksOf(sect, Sectors(segs))
  {
    forall b | b in BlocksOfSets(sets) ensures b in BlocksOf(sect, Sectors(segs)) {
      MarkedExactly(sets, b);
      var x: nat :| x in SectorsOf(sets) && x / 8 == b;
      MustRecordExactly(segs, sect, kind, cowOnDevice, x);
      AllSectorsExactly(segs, sect, x);
      SpanRecords(sect, Sectors(segs), b);
    }
  }

  // ------------------------------------------------------------ index marking

  /** The blocks with a nonzero index entry. */
  ghost function Marked(view: seq<nat>): set<nat> { set b: nat | b < |view| && view[b] != 0 }

  /** The blocks that a list of sector sets asks to mark. */
  function BlocksOfSets(sets: seq<SectorSet>): (r: set<nat>) {
    if sets == [] then {} else BlocksOfSets(sets[..|sets| - 1]) + BlocksOf(sets[|sets| - 1].sect, sets[|sets| - 1].len)
  }

  /** Block `b` contains a recorded sector. */
  ghost predicate Recorded(sectors: set<nat>, b: nat) { exists s: nat :: s in sectors && s / 8 == b }

  /** A block gets marked exactly if one of its sectors was recorded. */
  lemma {:induction false} MarkedExactly(sets: seq<SectorSet>, b: nat)
    requires Separated(sets)
    ensures b in BlocksOfSets(sets) <==> Recorded(SectorsOf(sets), b)
  {
    if sets != [] {
      var n, x := |sets| - 1, sets[|sets| - 1];
      MarkedExactly(sets[..n], b);
      var s := if x.sect > 8 * b then x.sect else 8 * b;
      assert b in BlocksOf(x.sect, x.len) ==> s in Span(x.sect, x.len) && s / 8 == b;
      assert b in BlocksOf(x.sect, x.len) <==> Recorded(Span(x.sect, x.len), b);
    }
  }

  /** Segment `i` of a write at sector `sect` reaches into block `b`. */
  ghost predicate Reaches(segs: seq<Segment>, sect: nat, i: nat, b: nat)
    requires i < |segs|
  {
    segs[i].size >= 512 && b in BlocksOf(sect + Sectors(segs[..i]), segs[i].size / 512)
  }

  /** Nothing in block `b` is recorded for this write: it is a discard, or its
      data reaches into the block only from pages of the COW file. */
  ghost predicate Untraced(segs: seq<Segment>, sect: nat, kind: WriteKind, cowOnDevice: bool, b: nat) {
    cowOnDevice
    && (kind == Discard || (kind == Data && forall i :: 0 <= i < |segs| && Reaches(segs, sect, i, b) ==> segs[i].ownedByCow))
  }

  /** The blocks that a write touches without touching a sector to be recorded. */
  ghost function Unrecorded(segs: seq<Segment>, sect: nat, kind: WriteKind, cowOnDevice: bool): set<nat> {
    set b | b in BlocksOf(sect, Sectors(segs)) && !Recorded(MustRecord(segs, sect, kind, cowOnDevice), b)
  }

  lemma SpanRecords(sect: nat, len: nat, b: nat)
    requires len > 0
    ensures Recorded(Span(sect, len), b) <==> b in BlocksOf(sect, len)
  {
    var s := if sect > 8 * b then sect else 8 * b;
    assert b in BlocksOf(sect, len) ==> s in Span(sect, len) && s / 8 == b;
  }

  lemma {:induction false} ForeignRecords(segs: seq<Segment>, sect: nat, b: nat)
    ensures Recorded(ForeignSectors(segs, sect), b)
      <==> exists i :: 0 <= i < |segs| && Reaches(segs, sect, i, b) && !segs[i].ownedByCow
  {
    hide Span;
    hide Sectors;
    hide BlocksOf;
    if segs != [] {
      var n := |segs| - 1;
      var last := Span(sect + Sectors(segs[..n]), segs[n].size / 512);
      ForeignRecords(segs[..n], sect, b);
      assert segs[..|segs|] == segs;
      assert forall i :: 0 <= i < n ==> segs[..n][..i] == segs[..i];
      assert forall i :: 0 <= i < n ==> (Reaches(segs[..n], sect, i, b) <==> Reaches(segs, sect, i, b));
      if segs[n].size >= 512 { SpanRecords(sect + Sectors(segs[..n]), segs[n].size / 512, b); }
      if !segs[n].ownedByCow {
        assert Recorded(ForeignSectors(segs, sect), b) <==> Recorded(ForeignSectors(segs[..n], sect), b) || Recorded(last, b);
      }
    }
  }

  /** What goes unrecorded are exactly the blocks that only a discard or pages of
      the COW file reach into. */
  lemma UnrecordedExactly(segs: seq<Segment>, sect: nat, kind: WriteKind, cowOnDevice: bool, b: nat)
    requires Sectors(segs) > 0 && b in BlocksOf(sect, Sectors(segs))
    ensures b in Unrecorded(segs, sect, kind, cowOnDevice) <==> Untraced(segs, sect, kind, cowOnDevice, b)
  {
    SpanRecords(sect, Sectors(segs), b);
    ForeignRecords(segs, sect, b);
  }

  /** Mark every block that a sector set touches. */
  method HandleSet(cm: CowManager, s: SectorSet) returns (ret: int)
    requires cm.Valid() && cm.isOpen && s.sect + s.len <= 8 * |cm.view|
    modifies cm`allocatedSects, cm`view, cm`nrChanged, cm.sects, cm.file`index
    ensures cm.Valid() && |cm.view| == |old(cm.view)|
    ensures ret == 0 ==> Marked(cm.view) == Marked(old(cm.view)) + BlocksOf(s.sect, s.len)
    ensures forall b :: 0 <= b < |cm.view| && cm.view[b] != old(cm.view)[b] ==> b in BlocksOf(s.sect, s.len) && cm.view[b] == 1
  {
    hide CowManager.Valid;
    ret := 0;
    var b, end := s.sect / 8, (s.sect + s.len + 7) / 8;
    while b < end
      invariant s.sect / 8 <= b <= end
      invariant cm.Valid() && |cm.view| == |old(cm.view)|
      invariant forall k :: 0 <= k < |cm.view| ==> cm.view[k] == if s.sect / 8 <= k < b then 1 else old(cm.view)[k]
    {
      ret := cm.WriteMapping(b, 1);
      if ret != 0 { return; }
      b := b + 1;
    }
  }
}
