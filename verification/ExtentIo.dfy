/**
 Direct I/O on the COW file's extents while the file itself is closed: runs of
 physically consecutive sectors travel in one request.  `T` is the contents of
 one sector; offsets and extents are in bytes.
 */
module ExtentIo {
  import opened CowFiles

  const SECTOR_INVALID := 0xFFFF_FFFF_FFFF_FFFF
  const EFAULT := 14

  datatype Extent = Extent(logical: nat, physical: nat, length: nat)
  {
    predicate Holds(offset: nat) { logical <= offset < logical + length }
  }

  /** Sector-aligned extents inside a disk of `sectors` sectors, physically disjoint. */
  ghost predicate WellFormed(ext: seq<Extent>, sectors: nat) {
    && 512 * sectors < SECTOR_INVALID
    && (forall i :: 0 <= i < |ext| ==>
          ext[i].logical % 512 == 0 && ext[i].physical % 512 == 0 && ext[i].length % 512 == 0
          && ext[i].physical + ext[i].length <= 512 * sectors)
    && (forall i, j :: 0 <= i < j < |ext| ==>
          ext[i].physical + ext[i].length <= ext[j].physical || ext[j].physical + ext[j].length <= ext[i].physical)
  }

  /** Index of the first extent from `i` on that holds `offset`, or `|ext|`. */
  function FirstHolding(ext: seq<Extent>, i: nat, offset: nat): (j: nat)
    requires i <= |ext|
    ensures i <= j <= |ext|
    ensures j < |ext| ==> ext[j].Holds(offset)
    ensures forall k :: i <= k < j ==> !ext[k].Holds(offset)
    decreases |ext| - i
  {
    if i == |ext| || ext[i].Holds(offset) then i else FirstHolding(ext, i + 1, offset)
  }

  function SectorAt(ext: seq<Extent>, offset: nat): nat {
    var j := FirstHolding(ext, 0, offset);
    if j == |ext| then SECTOR_INVALID else (ext[j].physical + (offset - ext[j].logical)) / 512
  }

  /** Extent `j` is the first that holds byte `offset` of the file. */
  ghost predicate First(ext: seq<Extent>, j: nat, offset: nat) {
    && j < |ext| && ext[j].logical <= offset < ext[j].logical + ext[j].length
    && forall i :: 0 <= i < j ==> !(ext[i].logical <= offset < ext[i].logical + ext[i].length)
  }

  /** Sector `s` of the disk lies as far into the first extent that holds `offset`
      as `offset` itself does. */
  ghost predicate LiesAt(ext: seq<Extent>, offset: nat, s: nat) {
    exists j: nat :: First(ext, j, offset) && 512 * s - ext[j].physical == offset - ext[j].logical
  }

  /** No extent holds the byte. */
  ghost predicate Unmapped(ext: seq<Extent>, offset: nat) { forall j: nat :: !First(ext, j, offset) }

  lemma FirstIsFirst(ext: seq<Extent>, j: nat, offset: nat)
    requires First(ext, j, offset)
    ensures FirstHolding(ext, 0, offset) == j
  {
    var i := FirstHolding(ext, 0, offset);
    assert ext[j].Holds(offset);
    assert i <= j;
  }

  lemma FoundIsFirst(ext: seq<Extent>, offset: nat)
    ensures var j := FirstHolding(ext, 0, offset); j < |ext| ==> First(ext, j, offset)
  {
    var j := FirstHolding(ext, 0, offset);
    assert forall i :: 0 <= i < j ==> !ext[i].Holds(offset);
    if j < |ext| { assert ext[j].Holds(offset); }
  }

  lemma Aligned(physical: nat, offset: nat, logical: nat)
    requires physical % 512 == 0 && offset % 512 == 0 && logical % 512 == 0 && logical <= offset
    ensures 512 * ((physical + (offset - logical)) / 512) == physical + (offset - logical)
  {
    var a, b, c := physical / 512, offset / 512, logical / 512;
    assert physical + (offset - logical) == 512 * (a + b - c);
  }

  /** The sector found for a byte of the file is the one that lies there, and none
      is found exactly if no extent holds the byte. */
  lemma SectorAtExactly(ext: seq<Extent>, sectors: nat, offset: nat, s: nat)
    requires WellFormed(ext, sectors) && offset % 512 == 0
    ensures SectorAt(ext, offset) == s != SECTOR_INVALID <==> LiesAt(ext, offset, s)
    ensures SectorAt(ext, offset) == SECTOR_INVALID <==> Unmapped(ext, offset)
  {
    var j := FirstHolding(ext, 0, offset);
    FoundIsFirst(ext, offset);
    if j < |ext| {
      var a := ext[j].physical + (offset - ext[j].logical);
      assert a < 512 * sectors;
      assert 512 * SectorAt(ext, offset) == a by { Aligned(ext[j].physical, offset, ext[j].logical); }
    }
    hide SectorAt;
    hide WellFormed;
    forall i: nat | First(ext, i, offset) ensures i == j { FirstIsFirst(ext, i, offset); }
  }

  method SectorByOffset(ext: seq<Extent>, offset: nat) returns (s: nat)
    ensures s == SectorAt(ext, offset)
    ensures forall j: nat :: First(ext, j, offset) ==> s == (ext[j].physical + (offset - ext[j].logical)) / 512
    ensures Unmapped(ext, offset) ==> s == SECTOR_INVALID
  {
    forall j: nat | First(ext, j, offset) { FirstIsFirst(ext, j, offset); }
    FoundIsFirst(ext, offset);
    var i := 0;
    while i < |ext|
      invariant i <= |ext|
      invariant FirstHolding(ext, i, offset) == FirstHolding(ext, 0, offset)
    {
      if ext[i].logical <= offset && offset < ext[i].logical + ext[i].length {
        return (ext[i].physical + (offset - ext[i].logical)) / 512;
      }
      i := i + 1;
    }
    return SECTOR_INVALID;
  }

  /** Physical sector of the `k`-th sector of a transfer at `offset`. */
  function Nth(ext: seq<Extent>, offset: nat, k: nat): nat { SectorAt(ext, offset + 512 * k) }

  /** It lies at sector `s` of the disk. */
  ghost predicate NthLiesAt(ext: seq<Extent>, offset: nat, k: nat, s: nat) { LiesAt(ext, offset + 512 * k, s) }

  /** It lies on the disk, with contents `x`. */
  ghost predicate OnDisk<T>(ext: seq<Extent>, offset: nat, k: nat, disk: seq<T>, x: T) {
    exists s :: 0 <= s < |disk| && NthLiesAt(ext, offset, k, s) && disk[s] == x
  }

  ghost predicate NthUnmapped(ext: seq<Extent>, offset: nat, k: nat) { Unmapped(ext, offset + 512 * k) }

  lemma NthExactly(ext: seq<Extent>, sectors: nat, offset: nat, k: nat)
    requires WellFormed(ext, sectors) && offset % 512 == 0
    ensures forall s: nat :: NthLiesAt(ext, offset, k, s) <==> Nth(ext, offset, k) == s != SECTOR_INVALID
    ensures NthUnmapped(ext, offset, k) <==> Nth(ext, offset, k) == SECTOR_INVALID
  {
    forall s: nat ensures NthLiesAt(ext, offset, k, s) <==> Nth(ext, offset, k) == s != SECTOR_INVALID {
      SectorAtExactly(ext, sectors, offset + 512 * k, s);
    }
    SectorAtExactly(ext, sectors, offset + 512 * k, 0);
  }

  ghost predicate Mapped(ext: seq<Extent>, offset: nat, len: nat) {
    forall k :: 0 <= k < len ==> Nth(ext, offset, k) != SECTOR_INVALID
  }

  lemma ValidSector(ext: seq<Extent>, sectors: nat, offset: nat)
    requires WellFormed(ext, sectors) && offset % 512 == 0
    ensures SectorAt(ext, offset) == SECTOR_INVALID || SectorAt(ext, offset) < sectors
  {
    var j := FirstHolding(ext, 0, offset);
    if j < |ext| {
      assert ext[j].Holds(offset);
      assert ext[j].physical + (offset - ext[j].logical) < 512 * sectors;
    }
  }

  /** Different sectors of the file never share a physical sector. */
  lemma DistinctSectors(ext: seq<Extent>, sectors: nat, o: nat, p: nat)
    requires WellFormed(ext, sectors) && o % 512 == 0 && p % 512 == 0 && o != p
    requires SectorAt(ext, o) != SECTOR_INVALID && SectorAt(ext, p) != SECTOR_INVALID
    ensures SectorAt(ext, o) != SectorAt(ext, p)
  {
    var s := SectorAt(ext, o);
    SectorAtExactly(ext, sectors, o, s);
    SectorAtExactly(ext, sectors, p, s);
    hide SectorAt;
  }

  /** The first `n` sectors of the transfer carry `block`, the rest of the disk is as it was. */
  ghost predicate Transferred<T>(ext: seq<Extent>, offset: nat, n: nat, block: seq<T>, was: seq<T>, now: seq<T>) {
    && |was| == |now| && n <= |block|
    && (forall k :: 0 <= k < n ==> Nth(ext, offset, k) < |now| && now[Nth(ext, offset, k)] == block[k])
    && (forall s :: 0 <= s < |now| && (forall k :: 0 <= k < n ==> Nth(ext, offset, k) != s) ==> now[s] == was[s])
  }

  /** One request: `n` consecutive sectors from `start`; a failed one writes any prefix. */
  method SubmitWrite<T>(disk: array<T>, start: nat, page: seq<T>) returns (ret: int)
    requires start + |page| <= disk.Length
    modifies disk
    ensures forall s :: 0 <= s < disk.Length && !(start <= s < start + |page|) ==> disk[s] == old(disk[s])
    ensures ret == 0 ==> forall s :: start <= s < start + |page| ==> disk[s] == page[s - start]
    ensures ret == 0 || ret == -EIO
  {
    var n: nat := |page|;
    ret := 0;
    if * { n :| n <= |page|; ret := -EIO; }
    forall s | start <= s < start + n { disk[s] := page[s - start]; }
  }

  /** Sectors `p` to `p + n` of the transfer follow each other on the disk. */
  ghost predicate Consecutive(ext: seq<Extent>, offset: nat, p: nat, n: nat, sectors: nat) {
    forall k :: p <= k < p + n ==> Nth(ext, offset, k) == Nth(ext, offset, p) + (k - p) < sectors
  }

  /** The longest run from sector `p` on that stays physically consecutive. */
  method Run(ext: seq<Extent>, offset: nat, p: nat, len: nat, ghost sectors: nat) returns (n: nat)
    requires WellFormed(ext, sectors) && offset % 512 == 0 && p < len
    requires Nth(ext, offset, p) != SECTOR_INVALID
    ensures 1 <= n <= len - p
    ensures Consecutive(ext, offset, p, n, sectors) && Nth(ext, offset, p) + n <= sectors
    ensures p + n < len ==> Nth(ext, offset, p + n) != Nth(ext, offset, p) + n
  {
    hide SectorAt;
    hide WellFormed;
    ValidSector(ext, sectors, offset + 512 * p);
    var start := SectorByOffset(ext, offset + 512 * p);
    n := 1;
    while p + n < len
      invariant 1 <= n <= len - p
      invariant Consecutive(ext, offset, p, n, sectors) && start + n <= sectors
    {
      var s := SectorByOffset(ext, offset + 512 * (p + n));
      if s != start + n { return; }
      InvalidIsBig(ext, sectors);
      ValidSector(ext, sectors, offset + 512 * (p + n));
      n := n + 1;
    }
  }

  lemma InvalidIsBig(ext: seq<Extent>, sectors: nat)
    requires WellFormed(ext, sectors)
    ensures 512 * sectors < SECTOR_INVALID
  {
  }

  method WriteBlock<T>(ext: seq<Extent>, disk: array<T>, block: seq<T>, offset: nat, len: nat) returns (ret: int)
    requires WellFormed(ext, disk.Length) && offset % 512 == 0 && 1 <= len == |block|
    modifies disk
    // every sector of the transfer lies somewhere and carries its part of the block
    ensures ret == 0 ==> forall k :: 0 <= k < len ==> OnDisk(ext, offset, k, disk[..], block[k])
    // and a sector of the disk that none of them lies at is left alone, error or not
    ensures forall s :: 0 <= s < disk.Length && (forall k :: 0 <= k < len ==> !NthLiesAt(ext, offset, k, s)) ==> disk[s] == old(disk[s])
    ensures ret == -EFAULT ==> exists k :: 0 <= k < len && NthUnmapped(ext, offset, k)
  {
    ret := TransferOut(ext, disk, block, offset, len);
    forall k, s: nat | 0 <= k < len ensures NthLiesAt(ext, offset, k, s) <==> Nth(ext, offset, k) == s != SECTOR_INVALID {
      NthExactly(ext, disk.Length, offset, k);
    }
    forall k | 0 <= k < len ensures NthUnmapped(ext, offset, k) <==> Nth(ext, offset, k) == SECTOR_INVALID {
      NthExactly(ext, disk.Length, offset, k);
    }
    InvalidIsBig(ext, disk.Length);
    hide Nth;
    hide NthLiesAt;
    hide NthUnmapped;
    hide WellFormed;
    forall k | 0 <= k < len && ret == 0 ensures OnDisk(ext, offset, k, disk[..], block[k]) {
      assert NthLiesAt(ext, offset, k, Nth(ext, offset, k));
    }
    forall s | 0 <= s < disk.Length && (forall k :: 0 <= k < len ==> !NthLiesAt(ext, offset, k, s)) ensures disk[s] == old(disk[s]) {
      forall k | 0 <= k < len ensures Nth(ext, offset, k) != s { assert !NthLiesAt(ext, offset, k, s); }
    }
  }

  method TransferOut<T>(ext: seq<Extent>, disk: array<T>, block: seq<T>, offset: nat, len: nat) returns (ret: int)
    requires WellFormed(ext, disk.Length) && offset % 512 == 0 && 1 <= len == |block|
    modifies disk
    ensures ret == 0 ==> Mapped(ext, offset, len) && Transferred(ext, offset, len, block, old(disk[..]), disk[..])
    ensures forall s :: 0 <= s < disk.Length && (forall k :: 0 <= k < len ==> Nth(ext, offset, k) != s) ==> disk[s] == old(disk[s])
    ensures ret == -EFAULT ==> exists k :: 0 <= k < len && Nth(ext, offset, k) == SECTOR_INVALID
  {
    hide SectorAt;
    ret := 0;
    var p := 0;
    while p != len
      invariant p <= len
      invariant Mapped(ext, offset, p) && Transferred(ext, offset, p, block, old(disk[..]), disk[..])
      decreases len - p
    {
      var start := SectorByOffset(ext, offset + 512 * p);
      if start == SECTOR_INVALID {
        assert Nth(ext, offset, p) == SECTOR_INVALID;
        return -EFAULT;
      }
      if * { return -ENOMEM; }
      var n := Run(ext, offset, p, len, disk.Length);
      ghost var before := disk[..];
      ret := SubmitWrite(disk, start, block[p..p + n]);
      RunTransferred(ext, offset, p, n, block, old(disk[..]), before, disk[..], ret == 0);
      if ret != 0 { return; }
      p := p + n;
    }
  }

  lemma RunTransferred<T>(ext: seq<Extent>, offset: nat, p: nat, n: nat, block: seq<T>, was: seq<T>, before: seq<T>, now: seq<T>, ok: bool)
    requires WellFormed(ext, |was|) && offset % 512 == 0 && n > 0 && p + n <= |block| && |now| == |before|
    requires Transferred(ext, offset, p, block, was, before) && Mapped(ext, offset, p)
    requires Consecutive(ext, offset, p, n, |was|)
    requires forall s :: 0 <= s < |now| && !(Nth(ext, offset, p) <= s < Nth(ext, offset, p) + n) ==> now[s] == before[s]
    requires ok ==> forall k :: p <= k < p + n ==> now[Nth(ext, offset, k)] == block[k]
    ensures ok ==> Mapped(ext, offset, p + n) && Transferred(ext, offset, p + n, block, was, now)
    ensures forall s :: 0 <= s < |now| && (forall k :: 0 <= k < |block| ==> Nth(ext, offset, k) != s) ==> now[s] == was[s]
  {
    hide SectorAt;
    InvalidIsBig(ext, |was|);
    hide WellFormed;
    var start := Nth(ext, offset, p);
    forall k | 0 <= k < p ensures !(start <= Nth(ext, offset, k) < start + n) {
      var s := Nth(ext, offset, k);
      if start <= s < start + n {
        assert Nth(ext, offset, p + (s - start)) == s;
        DistinctSectors(ext, |was|, offset + 512 * k, offset + 512 * (p + (s - start)));
        assert false;
      }
    }
    forall s | 0 <= s < |now| && now[s] != was[s] ensures exists k :: 0 <= k < p + n && Nth(ext, offset, k) == s {
      if start <= s < start + n { assert Nth(ext, offset, p + (s - start)) == s; }
    }
  }

  method TransferIn<T>(ext: seq<Extent>, disk: array<T>, buf: array<T>, offset: nat, len: nat) returns (ret: int)
    requires WellFormed(ext, disk.Length) && offset % 512 == 0 && 1 <= len == buf.Length && buf != disk
    modifies buf
    ensures ret == 0 ==> forall k :: 0 <= k < len ==> Nth(ext, offset, k) < disk.Length && buf[k] == disk[Nth(ext, offset, k)]
    ensures ret == -EFAULT ==> exists k :: 0 <= k < len && Nth(ext, offset, k) == SECTOR_INVALID
  {
    hide SectorAt;
    ret := 0;
    var p := 0;
    while p != len
      invariant p <= len
      invariant forall k :: 0 <= k < p ==> Nth(ext, offset, k) < disk.Length && buf[k] == disk[Nth(ext, offset, k)]
      decreases len - p
    {
      var start := SectorByOffset(ext, offset + 512 * p);
      if start == SECTOR_INVALID {
        assert Nth(ext, offset, p) == SECTOR_INVALID;
        return -EFAULT;
      }
      if * { return -ENOMEM; }
      var n := Run(ext, offset, p, len, disk.Length);
      if * { return -EIO; }
      forall k | p <= k < p + n { buf[k] := disk[start + (k - p)]; }
      p := p + n;
    }
  }

  method ReadBlock<T>(ext: seq<Extent>, disk: array<T>, buf: array<T>, offset: nat, len: nat) returns (ret: int)
    requires WellFormed(ext, disk.Length) && offset % 512 == 0 && 1 <= len == buf.Length && buf != disk
    modifies buf
    // every sector of the transfer lies somewhere, and what lies there was read
    ensures ret == 0 ==> forall k :: 0 <= k < len ==> OnDisk(ext, offset, k, disk[..], buf[k])
    ensures ret == -EFAULT ==> exists k :: 0 <= k < len && NthUnmapped(ext, offset, k)
  {
    ret := TransferIn(ext, disk, buf, offset, len);
    forall k, s: nat | 0 <= k < len ensures NthLiesAt(ext, offset, k, s) <==> Nth(ext, offset, k) == s != SECTOR_INVALID {
      NthExactly(ext, disk.Length, offset, k);
    }
    forall k | 0 <= k < len ensures NthUnmapped(ext, offset, k) <==> Nth(ext, offset, k) == SECTOR_INVALID {
      NthExactly(ext, disk.Length, offset, k);
    }
    InvalidIsBig(ext, disk.Length);
    hide Nth;
    hide NthLiesAt;
    hide NthUnmapped;
    hide WellFormed;
    forall k | 0 <= k < len && ret == 0 ensures OnDisk(ext, offset, k, disk[..], buf[k]) {
      assert NthLiesAt(ext, offset, k, Nth(ext, offset, k));
    }
  }

  /** What was written is what a read of the same range returns. */
  method WriteThenRead<T>(ext: seq<Extent>, disk: array<T>, block: seq<T>, buf: array<T>, offset: nat) returns (ret: int)
    requires WellFormed(ext, disk.Length) && offset % 512 == 0 && 1 <= |block| == buf.Length && buf != disk
    modifies disk, buf
    ensures ret == 0 ==> buf[..] == block
  {
    forall k | 0 <= k < |block| { NthExactly(ext, disk.Length, offset, k); }
    hide NthLiesAt;
    hide Nth;
    hide WellFormed;
    ret := WriteBlock(ext, disk, block, offset, |block|);
    if ret != 0 { return; }
    ret := ReadBlock(ext, disk, buf, offset, |block|);
  }
}
