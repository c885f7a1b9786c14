/**
 The COW manager's index: sections of mappings that are allocated lazily,
 written back and evicted by usage, and reloaded on demand.  The ghost field
 `view` is the one total map from block to value that all of this stands for.
 */
module CowManagers {
  import opened Blocks
  import opened CowFiles
  import opened Eviction

  const SECTION_SIZE := 4096       // entries in a section
  const SECTION_STRUCT_SIZE := 24  // bytes of one in-memory section record

  predicate NonZero(v: nat) { v != 0 }

  /** Sections that fit in the cache next to the section table itself. */
  function AllowedSects(cacheSize: nat, totalSects: nat): (r: nat)
    ensures r > 0 ==> totalSects * 24 + r * 32768 <= cacheSize
    ensures totalSects * 24 + (r + 1) * 32768 > cacheSize
  {
    if cacheSize <= totalSects * 24 then 0 else (cacheSize - totalSects * 24) / 32768
  }

  /** Mapped blocks lie in the used part of the data area, which has as many
      positions as there are mapped blocks. */
  ghost predicate WriteOnce(view: seq<nat>, data: map<nat, Block>, dataStart: nat, currPos: nat) {
    && 0 < dataStart <= currPos
    && (forall b :: 0 <= b < |view| && view[b] != 0 ==> dataStart <= view[b] < currPos && view[b] in data)
    && currPos - dataStart == Count(view, NonZero)
  }

  /** No two blocks share a position. */
  ghost predicate Injective(view: seq<nat>) {
    forall a, b :: 0 <= a < b < |view| && view[a] != 0 && view[b] != 0 ==> view[a] != view[b]
  }

  /** `store` is what the data area holds for the mapped blocks. */
  ghost predicate Holds(store: Store, view: seq<nat>, data: map<nat, Block>) {
    && (forall b :: b in store <==> 0 <= b < |view| && view[b] != 0)
    && (forall b :: b in store ==> view[b] in data && store[b] == data[view[b]])
  }

  /** A block mapped to the write position shares it with no other block. */
  lemma InjectiveStep(view: seq<nat>, data: map<nat, Block>, dataStart: nat, currPos: nat, block: nat)
    requires Injective(view) && block < |view| && WriteOnce(view, data, dataStart, currPos)
    ensures Injective(view[block := currPos])
  {
  }

  /** Appending a block's data at the write position captures that block only. */
  lemma CaptureStep(store: Store, view: seq<nat>, data: map<nat, Block>, data': map<nat, Block>,
                    dataStart: nat, currPos: nat, block: nat, buf: Block)
    requires WriteOnce(view, data, dataStart, currPos) && Holds(store, view, data)
    requires block < |view| && view[block] == 0
    requires currPos in data' && data'[currPos] == buf
    requires forall k :: k in data && k != currPos ==> k in data' && data'[k] == data[k]
    ensures WriteOnce(view[block := currPos], data', dataStart, currPos + 1)
    ensures Holds(CaptureOne(store, block, buf), view[block := currPos], data')
  {
    CountUpdate(view, block, currPos, NonZero);
  }

  class CowManager {
    const file: CowFile
    const totalSects: nat
    const sects: array<Section>
    var allocatedSects: nat
    var allowedSects: nat
    var flags: Flags
    var currPos: nat
    const dataStart: nat   // first position of the data area
    var fileMax: nat
    var seqid: nat
    var uuid: seq<byte>
    var version: nat
    var nrChanged: nat
    var isOpen: bool
    ghost var view: seq<nat>
    ghost var captured: Store   // contents of the data area, by block

    /** Sizes, the residency count, and zeros on disk where nothing was ever stored. */
    ghost predicate Structure()
      reads this, file, sects
    {
      && sects.Length == totalSects
      && |view| == |file.index| == 4096 * totalSects
      && (forall i :: 0 <= i < totalSects && Resident(sects[i]) ==>
            sects[i].hasData && |sects[i].mappings.value| == 4096)
      && (forall p :: 0 <= p < |file.index| && !sects[p / 4096].hasData ==> file.index[p] == 0)
      && allocatedSects == Count(sects[..], Resident)
    }

    /** What the manager will answer for entry `p`. */
    ghost function Entry(p: nat): nat
      requires Structure() && p < |view|
      reads this, file, sects
    {
      var s := sects[p / 4096];
      if Resident(s) then s.mappings.value[p % 4096]
      else if s.hasData then file.index[p]
      else 0
    }

    /** The sections and the on-disk index together stand for `view`. */
    ghost predicate Represents()
      reads this, file, sects
    {
      Structure() && forall p :: 0 <= p < |view| ==> view[p] == Entry(p)
    }

    /** A clean header together with the on-disk index gives back everything. */
    ghost predicate Recoverable()
      reads this, file, sects
    {
      && file.index == view
      && (forall i :: 0 <= i < sects.Length ==> !Resident(sects[i]))
      && file.header == HeaderNow().(flags := flags.(clean := true))
    }

    function HeaderNow(): Header
      reads this
    {
      Header(COW_MAGIC, flags, currPos, fileMax, seqid, uuid, version, nrChanged)
    }

    ghost predicate Valid()
      reads this, file, sects
    {
      && Represents()
      && (version >= COW_VERSION_CHANGED_BLOCKS ==> nrChanged == Count(view, NonZero))
      && (isOpen ==> !file.header.flags.clean)
      && (file.header.flags.clean ==> Recoverable())
    }

    /** Resident sections that have not been used since the last sweep. */
    ghost predicate Idle()
      reads this, sects
    {
      forall i :: 0 <= i < sects.Length && Resident(sects[i]) ==> sects[i].usage == 0
    }

    ghost predicate Quiet() reads this, sects { allocatedSects <= allowedSects || Idle() }

    /** The cache limit that the eviction heuristic really guarantees. */
    ghost predicate Bounded()
      reads this, sects
    {
      allocatedSects <= allowedSects || (allocatedSects == allowedSects + 1 && Idle())
    }

    /** Create the file and its manager, and leave a dirty header in the file. */
    static method Create(elements: nat, cacheSize: nat, fileMax: nat, uuid: seq<byte>, seqid: nat) returns (ret: int, cm: CowManager?)
      ensures cm != null <==> ret == 0
      ensures cm != null ==> fresh(cm) && fresh(cm.file) && fresh(cm.sects) && cm.Valid() && cm.isOpen
      ensures cm != null ==> cm.totalSects == (elements + 4095) / 4096 && cm.view == Zeros(4096 * cm.totalSects)
      ensures cm != null ==> cm.StoreOk() && cm.captured == map[] && cm.dataStart == 1 + 8 * cm.totalSects
      ensures cm != null ==> cm.allocatedSects == 0 && cm.allowedSects == AllowedSects(cacheSize, cm.totalSects)
      ensures cm != null ==> !cm.flags.clean && !cm.flags.indexOnly
      ensures cm != null ==> cm.currPos == cm.dataStart && cm.fileMax == fileMax && cm.seqid == seqid && cm.uuid == uuid
      ensures cm != null ==> cm.version == COW_VERSION_CHANGED_BLOCKS && cm.nrChanged == 0
      ensures cm != null ==>
        cm.file.header == Header(COW_MAGIC, cm.flags, cm.dataStart, fileMax, seqid, uuid, COW_VERSION_CHANGED_BLOCKS, 0)
    {
      if * { return -ENOMEM, null; }   // no memory for the manager or its section table
      if * { return -EIO, null; }      // the file could not be created or allocated
      var vmalloc: bool := *;          // the section table may have needed the fallback allocator
      var m := new CowManager(elements, cacheSize, fileMax, uuid, seqid, vmalloc);
      cm := null;
      ret := m.WriteHeader(false);
      if ret == 0 { cm := m; }
    }

    constructor (elements: nat, cacheSize: nat, fileMax: nat, uuid: seq<byte>, seqid: nat, vmalloc: bool)
      ensures Valid() && isOpen && fresh(file) && fresh(sects)
      ensures totalSects == (elements + 4095) / 4096
      ensures view == Zeros(4096 * totalSects)
      ensures StoreOk() && captured == map[]
      ensures allocatedSects == 0 && allowedSects == AllowedSects(cacheSize, totalSects)
      ensures dataStart == 1 + 8 * totalSects
      ensures flags == Flags(false, false, vmalloc) && currPos == dataStart && this.fileMax == fileMax
      ensures this.seqid == seqid && this.uuid == uuid && version == COW_VERSION_CHANGED_BLOCKS && nrChanged == 0
    {
      var total := (elements + 4095) / 4096;
      totalSects := total;
      file := new CowFile(4096 * total);
      sects := new Section[total](_ => Section(false, 0, None));
      allocatedSects, allowedSects := 0, AllowedSects(cacheSize, total);
      flags := Flags(false, false, vmalloc);
      dataStart, currPos := 1 + 8 * total, 1 + 8 * total;
      this.fileMax, this.seqid, this.uuid := fileMax, seqid, uuid;
      version, nrChanged := COW_VERSION_CHANGED_BLOCKS, 0;
      isOpen := true;
      view := Zeros(4096 * total);
      captured := map[];
      new;
      hide Count;
      hide Zeros;
      hide AllowedSects;
      hide Valid;
      InitiallyValid();
    }

    /** An untouched section table over an all-zero file stands for the all-zero map. */
    lemma InitiallyValid()
      requires sects.Length == totalSects && forall i :: 0 <= i < totalSects ==> sects[i] == Section(false, 0, None)
      requires view == file.index == Zeros(4096 * totalSects)
      requires allocatedSects == nrChanged == 0 && !file.header.flags.clean
      ensures Valid() && Count(view, NonZero) == 0
    {
      hide Count;
      CountNone(view, NonZero);
      CountNone(sects[..], Resident);
    }

    method FreeSection(i: nat)
      requires Structure() && i < totalSects && Resident(sects[i])
      modifies this`allocatedSects, sects
      ensures Structure()
      ensures allocatedSects == old(allocatedSects) - 1
      ensures sects[..] == old(sects[..])[i := old(sects[i]).(mappings := None)]
    {
      ghost var before := sects[..];
      CountUpdate(before, i, sects[i].(mappings := None), Resident);
      sects[i] := sects[i].(mappings := None);
      allocatedSects := allocatedSects - 1;
      assert sects[..] == before[i := sects[i]];
    }

    method AllocSection(i: nat, zero: bool) returns (ret: int)
      requires Structure() && i < totalSects && !Resident(sects[i])
      modifies this`allocatedSects, sects
      ensures ret == 0 ==> Structure() && allocatedSects == old(allocatedSects) + 1
      ensures ret == 0 ==> Resident(sects[i])
      ensures ret == 0 ==> sects[..] == old(sects[..])[i := Section(true, old(sects[i].usage), sects[i].mappings)]
      ensures ret == 0 && zero ==> sects[i].mappings.value == Zeros(4096)
      ensures ret != 0 ==> allocatedSects == old(allocatedSects) && sects[..] == old(sects[..])
    {
      if * { return -ENOMEM; }
      var pages: seq<nat> := Zeros(4096);
      if !zero {
        assert |pages| == 4096;
        pages :| |pages| == 4096;
      }
      ghost var before := sects[..];
      CountUpdate(before, i, Section(true, sects[i].usage, Some(pages)), Resident);
      sects[i] := Section(true, sects[i].usage, Some(pages));
      allocatedSects := allocatedSects + 1;
      assert sects[..] == before[i := sects[i]];
      ret := 0;
    }

    method SetMappings(i: nat, m: seq<nat>)
      requires Structure() && i < totalSects && Resident(sects[i]) && |m| == 4096
      modifies sects
      ensures Structure()
      ensures sects[..] == old(sects[..])[i := old(sects[i]).(mappings := Some(m))]
    {
      ghost var before := sects[..];
      CountUpdate(before, i, sects[i].(mappings := Some(m)), Resident);
      sects[i] := sects[i].(mappings := Some(m));
      assert sects[..] == before[i := sects[i]];
    }

    /** Fill an allocated section from disk, 512 entries at a time. */
    method FillSection(i: nat) returns (ret: int)
      requires Structure() && i < totalSects && Resident(sects[i])
      modifies sects
      ensures Structure() && Resident(sects[i])
      ensures sects[..] == old(sects[..])[i := old(sects[i]).(mappings := sects[i].mappings)]
      ensures ret == 0 ==> sects[i].mappings.value == file.index[4096 * i..4096 * i + 4096]
    {
      ret := 0;
      var n := 0;
      while n < 8
        invariant 0 <= n <= 8
        invariant Structure() && Resident(sects[i])
        invariant sects[..] == old(sects[..])[i := old(sects[i]).(mappings := sects[i].mappings)]
        invariant sects[i].mappings.value[..512 * n] == file.index[4096 * i..4096 * i + 512 * n]
      {
        var chunk;
        ret, chunk := file.ReadIndex(4096 * i + 512 * n, 512);
        if ret != 0 { return; }
        var before := sects[i].mappings.value;
        SetMappings(i, Splice(before, 512 * n, chunk));
        assert sects[i].mappings.value[..512 * n + 512] == before[..512 * n] + chunk;
        n := n + 1;
      }
    }

    /** Read a section back; on error it is dropped again. */
    method LoadSection(i: nat) returns (ret: int)
      requires Represents() && i < totalSects && !Resident(sects[i]) && sects[i].hasData
      modifies this`allocatedSects, sects
      ensures Represents()
      ensures sects[..] == old(sects[..])[i := old(sects[i]).(mappings := sects[i].mappings)]
      ensures ret == 0 ==> Resident(sects[i]) && allocatedSects == old(allocatedSects) + 1
      ensures ret != 0 ==> !Resident(sects[i]) && allocatedSects == old(allocatedSects)
    {
      ret := AllocSection(i, false);
      if ret != 0 { return; }
      ret := FillSection(i);
      if ret != 0 { FreeSection(i); return; }
      forall p | 0 <= p < |view| ensures view[p] == Entry(p) {
        if p / 4096 == i { assert p == 4096 * i + p % 4096; }
      }
    }

    /** Write a section out, 512 entries at a time. */
    method WriteSection(i: nat) returns (ret: int)
      requires Represents() && i < totalSects && Resident(sects[i])
      modifies file`index
      ensures Represents()
      ensures ret == 0 ==> forall k :: 0 <= k < 4096 ==> file.index[4096 * i + k] == sects[i].mappings.value[k]
    {
      ghost var mem := sects[i].mappings.value;
      ret := 0;
      var n := 0;
      while n < 8
        invariant 0 <= n <= 8
        invariant Structure()
        invariant forall p :: 0 <= p < |view| && p / 4096 != i ==> file.index[p] == old(file.index)[p]
        invariant forall k :: 0 <= k < 512 * n ==> file.index[4096 * i + k] == mem[k]
      {
        var chunk := sects[i].mappings.value[512 * n..512 * n + 512];
        ret := file.WriteIndex(4096 * i + 512 * n, chunk);
        if ret != 0 { return; }
        n := n + 1;
      }
    }

    /** Write back and free one section. */
    method EvictSection(i: nat) returns (ret: int)
      requires Represents() && i < totalSects && Resident(sects[i])
      modifies this`allocatedSects, sects, file`index
      ensures Represents()
      ensures ret == 0 ==> allocatedSects == old(allocatedSects) - 1
      ensures ret == 0 ==> sects[..] == old(sects[..])[i := old(sects[i]).(mappings := None)]
      ensures ret != 0 ==> allocatedSects == old(allocatedSects) && sects[..] == old(sects[..])
    {
      ret := WriteSection(i);
      if ret != 0 { return; }
      FreeSection(i);
      forall p | 0 <= p < |view| ensures view[p] == Entry(p) {
        if p / 4096 == i { assert p == 4096 * i + p % 4096; }
      }
    }

    method SetUsage(i: nat, usage: nat)
      requires Represents() && i < totalSects
      modifies sects
      ensures Represents()
      ensures sects[..] == old(sects[..])[i := old(sects[i]).(usage := usage)]
    {
      ghost var before := sects[..];
      CountUpdate(before, i, sects[i].(usage := usage), Resident);
      sects[i] := sects[i].(usage := usage);
      assert sects[..] == before[i := sects[i]];
    }

    /** How section `s` may look after a sweep with threshold `thresh`. */
    ghost predicate Swept(was: Section, s: Section, thresh: nat) {
      && s.hasData == was.hasData
      && s.usage == 0
      && s.mappings == if Resident(was) && (thresh == 0 || was.usage <= thresh) then None else was.mappings
    }

    /** Evict in index order: everything for threshold 0, otherwise sections
        used at most `thresh` times until half the limit is free.  The first
        `swept` sections have been dealt with. */
    method SweepSections(thresh: nat) returns (ret: int, ghost swept: nat)
      requires Represents()
      modifies this`allocatedSects, sects, file`index
      ensures Represents() && allocatedSects <= old(allocatedSects) && swept <= totalSects
      ensures forall i :: 0 <= i < swept ==> Swept(old(sects[i]), sects[i], thresh)
      ensures forall i :: swept <= i < totalSects ==> sects[i] == old(sects[i])
      ensures ret == 0 && swept < totalSects ==>
        thresh > 0 && allocatedSects <= allowedSects / 2 && (swept > 0 ==> allocatedSects == allowedSects / 2)
    {
      ret, swept := 0, 0;
      var i := 0;
      while i < totalSects && (thresh == 0 || allocatedSects > allowedSects / 2)
        invariant 0 <= i == swept <= totalSects
        invariant Represents() && allocatedSects <= old(allocatedSects)
        invariant forall j :: 0 <= j < i ==> Swept(old(sects[j]), sects[j], thresh)
        invariant forall j :: i <= j < totalSects ==> sects[j] == old(sects[j])
        invariant i > 0 && thresh > 0 ==> allocatedSects >= allowedSects / 2
      {
        if Resident(sects[i]) && (thresh == 0 || sects[i].usage <= thresh) {
          ret := EvictSection(i);
          if ret != 0 { return; }
        }
        SetUsage(i, 0);
        i, swept := i + 1, swept + 1;
      }
    }

    /** Sweep, then prepare more of the file if asked to. */
    method SyncAndFreeSections(thresh: nat, fillAhead: bool) returns (ret: int, ghost swept: nat)
      requires Represents()
      modifies this`allocatedSects, sects, file`index, file`data
      ensures Represents() && allocatedSects <= old(allocatedSects) && swept <= totalSects
      ensures forall i :: 0 <= i < swept ==> Swept(old(sects[i]), sects[i], thresh)
      ensures forall i :: swept <= i < totalSects ==> sects[i] == old(sects[i])
      ensures ret == 0 && swept < totalSects ==>
        thresh > 0 && allocatedSects <= allowedSects / 2 && (swept > 0 ==> allocatedSects == allowedSects / 2)
      ensures !fillAhead ==> file.data == old(file.data)
      ensures ret == 0 && thresh == 0 ==> allocatedSects == 0 && file.index == view
      ensures ret == 0 && thresh == 0 ==> forall i :: 0 <= i < totalSects ==> !Resident(sects[i]) && sects[i].usage == 0
      ensures forall k :: k in old(file.data) && k < currPos ==> k in file.data && file.data[k] == old(file.data)[k]
    {
      ret, swept := SweepSections(thresh);
      if ret != 0 { return; }
      if thresh == 0 { CountNone(sects[..], Resident); }
      if fillAhead {
        var err := file.FillAhead(currPos);
        if err != 0 { ret := -EIO; }
      }
    }

    /** Bring the cache back under its limit. `target` is the section in use. */
    method CleanupMappings(ghost target: nat) returns (ret: int)
      requires Represents() && allocatedSects > allowedSects
      modifies this`allocatedSects, sects, file`index
      ensures Represents() && allocatedSects <= old(allocatedSects)
      ensures ret == 0 ==> Quiet()
      ensures ret == 0 && old(allocatedSects) <= allowedSects + 1 ==> Bounded()
      ensures ret == 0 && old(IdleExcept(target)) ==> Bounded()
      ensures DataKept()
      // a section of maximum usage goes only when no section was used more than once
      ensures forall i ::
          0 <= i < totalSects && Resident(old(sects[i])) && !Resident(sects[i]) && MaxUsage(old(sects[..])) > 1
          ==> old(sects[i]).usage < MaxUsage(old(sects[..]))
    {
      var thresh := Threshold(sects);
      ghost var swept;
      ret, swept := SweepSections(thresh);
      if ret == 0 && old(IdleExcept(target)) && allocatedSects > allowedSects / 2 {
        CountAtMostOne(sects[..], Resident, target);
      }
    }

    /** The same sections hold data as before. */
    twostate predicate DataKept()
      reads this, sects
    {
      forall j :: 0 <= j < sects.Length ==> sects[j].hasData == old(sects[j].hasData)
    }

    /** No section has changed. */
    twostate predicate Untouched()
      reads this, sects
    {
      allocatedSects == old(allocatedSects) && forall j :: 0 <= j < sects.Length ==> sects[j] == old(sects[j])
    }

    /** Within the limit, a use of section `i` is counted, no other counter changes,
        and no section is evicted. */
    twostate predicate UseCounted(i: nat)
      reads this, sects
    {
      forall j :: 0 <= j < sects.Length ==>
        && sects[j].usage == old(sects[j].usage) + (if j == i then 1 else 0)
        && (old(Resident(sects[j])) ==> Resident(sects[j]))
    }

    ghost predicate IdleExcept(target: nat)
      reads this, sects
    {
      forall i :: 0 <= i < sects.Length && i != target && Resident(sects[i]) ==> sects[i].usage == 0
    }

    /** Make section `i` resident, allocating zeros if it never held anything. */
    method BringIn(i: nat) returns (ret: int)
      requires Represents() && i < totalSects && !Resident(sects[i])
      modifies this`allocatedSects, sects
      ensures Represents()
      ensures forall j :: 0 <= j < totalSects && j != i ==> sects[j] == old(sects[j])
      ensures sects[i].usage == old(sects[i].usage)
      ensures ret == 0 ==> Resident(sects[i]) && allocatedSects == old(allocatedSects) + 1
      ensures ret != 0 ==> sects[i] == old(sects[i]) && allocatedSects == old(allocatedSects)
    {
      if !sects[i].hasData {
        ret := AllocSection(i, true);
      } else {
        ret := LoadSection(i);
      }
    }

    /** Store one entry in a resident section. */
    method PutEntry(pos: nat, val: nat)
      requires Represents() && pos < |view| && Resident(sects[pos / 4096]) && val != 0
      requires version >= COW_VERSION_CHANGED_BLOCKS ==> nrChanged == Count(view, NonZero)
      modifies sects, this`view, this`nrChanged
      ensures Represents() && view == old(view)[pos := val]
      ensures version >= COW_VERSION_CHANGED_BLOCKS ==> nrChanged == Count(view, NonZero)
      ensures nrChanged == old(nrChanged) || nrChanged == old(nrChanged) + 1
      ensures forall j :: 0 <= j < totalSects ==> sects[j] == old(sects[j]).(mappings := sects[j].mappings)
      ensures forall j :: 0 <= j < totalSects ==> Resident(sects[j]) == Resident(old(sects[j]))
    {
      hide Count;
      var i, k := pos / 4096, pos % 4096;
      var m := sects[i].mappings.value;
      assert m[k] == view[pos];
      CountUpdate(view, pos, val, NonZero);
      if version >= COW_VERSION_CHANGED_BLOCKS && m[k] == 0 { nrChanged := nrChanged + 1; }
      view := view[pos := val];
      SetMappings(i, m[k := val]);
      forall p | 0 <= p < |view| ensures view[p] == Entry(p) {
        assert p == 4096 * (p / 4096) + p % 4096;
      }
    }

    /** What a mapping operation does to the cache; `reached` tells whether it
        got to the limit check. */
    twostate predicate CacheKept(reached: bool)
      reads this, sects
    {
      && (old(Bounded()) ==> Bounded())
      && (reached ==> Quiet())
      && (reached && old(Quiet()) ==> Bounded())
      && (!reached ==> allocatedSects == old(allocatedSects) && (old(Quiet()) ==> Quiet()))
    }

    /** Using section `i` does not take the cache over its limit. */
    ghost predicate RoomFor(i: nat)
      reads this, sects
    {
      i < sects.Length && allocatedSects + (if Resident(sects[i]) then 0 else 1) <= allowedSects
    }

    /** Count a use of section `i` and, unless it is empty and `create` is
        false, make it resident. */
    method Touch(i: nat, create: bool) returns (ret: int, reached: bool)
      requires Represents() && i < totalSects
      modifies this`allocatedSects, sects
      ensures Represents()
      ensures reached == (create || old(sects[i].hasData))
      ensures allocatedSects <= old(allocatedSects) + 1
      ensures old(Bounded()) ==> allocatedSects <= allowedSects + 2
      ensures forall j :: 0 <= j < totalSects ==> sects[j].usage == old(sects[j]).usage + if j == i then 1 else 0
      ensures ret == 0 ==> (Resident(sects[i]) <==> reached)
      ensures ret == 0 ==> forall j :: 0 <= j < totalSects ==> sects[j].hasData == (old(sects[j].hasData) || (create && j == i))
      ensures forall j :: 0 <= j < totalSects && old(Resident(sects[j])) ==> Resident(sects[j])
      ensures old(Resident(sects[i])) ==> allocatedSects == old(allocatedSects)
      ensures ret == 0 && old(Quiet()) ==> allocatedSects <= allowedSects + 1 || IdleExcept(i)
      ensures !reached ==> ret == 0 && !sects[i].hasData && allocatedSects == old(allocatedSects) && (old(Idle()) ==> Idle())
    {
      ret, reached := 0, true;
      SetUsage(i, sects[i].usage + 1);
      if !Resident(sects[i]) {
        reached := create || sects[i].hasData;
        if reached { ret := BringIn(i); }
      }
    }

    method EnforceLimit(ghost target: nat) returns (ret: int)
      requires Represents()
      modifies this`allocatedSects, sects, file`index
      ensures Represents()
      ensures old(allocatedSects) <= allowedSects ==> ret == 0 && Untouched()
      ensures ret == 0 ==> Quiet()
      ensures ret == 0 && (old(allocatedSects) <= allowedSects + 1 || old(IdleExcept(target))) ==> Bounded()
      ensures DataKept()
    {
      ret := 0;
      if allocatedSects > allowedSects {
        ret := CleanupMappings(target);
      }
    }

    method ReadMapping(pos: nat) returns (ret: int, out: nat)
      requires Valid() && isOpen && pos < |view|
      modifies this`allocatedSects, sects, file`index
      ensures Valid()
      ensures ret == 0 ==> out == view[pos]
      ensures ret == 0 ==> CacheKept(old(sects[pos / 4096].hasData)) && DataKept()
      ensures ret == 0 && old(RoomFor(pos / 4096)) ==> UseCounted(pos / 4096)
    {
      var i := pos / 4096;
      out := 0;
      var reached;
      ret, reached := Touch(i, false);
      if ret != 0 || !reached { return; }
      out := sects[i].mappings.value[pos % 4096];
      ret := EnforceLimit(i);
    }

    method WriteMapping(pos: nat, val: nat) returns (ret: int)
      requires Valid() && isOpen && pos < |view| && val != 0
      modifies this`allocatedSects, this`view, this`nrChanged, sects, file`index
      ensures Valid()
      ensures view == old(view)[pos := val] || (ret != 0 && view == old(view))
      ensures ret == 0 ==> CacheKept(true)
      ensures ret == 0 ==> forall j :: 0 <= j < totalSects ==> sects[j].hasData == (old(sects[j].hasData) || j == pos / 4096)
      ensures ret == 0 && old(RoomFor(pos / 4096)) ==> UseCounted(pos / 4096)
    {
      var i := pos / 4096;
      var reached;
      ret, reached := Touch(i, true);
      if ret != 0 { return; }
      PutEntry(pos, val);
      ret := EnforceLimit(i);
    }

    method ModifyCacheSize(cacheSize: nat)
      requires Valid()
      modifies this`allowedSects
      ensures Valid() && allowedSects == AllowedSects(cacheSize, totalSects)
    {
      allowedSects := AllowedSects(cacheSize, totalSects);
    }

    // ---------------------------------------------------------------- header

    method WriteHeader(isClean: bool) returns (ret: int)
      modifies this`flags, file`header
      ensures flags == old(flags).(clean := isClean)
      ensures file.header == HeaderNow() || file.header == old(file.header)
      ensures ret == 0 ==> file.header == HeaderNow()
      // field by field, the header on disk is what the manager holds
      ensures ret == 0 ==> file.header.magic == COW_MAGIC && file.header.flags == flags
      ensures ret == 0 ==> file.header.fpos == currPos && file.header.fsize == fileMax && file.header.seqid == seqid
      ensures ret == 0 ==> file.header.uuid == uuid && file.header.version == version && file.header.nrChanged == nrChanged
    {
      flags := flags.(clean := isClean);
      ret := file.WriteHeader(HeaderNow());
    }

    /** Accept only a clean header of the expected kind, and mark it dirty. */
    method OpenHeader(indexOnly: bool) returns (ret: int)
      requires Valid()
      modifies this`flags, this`currPos, this`fileMax, this`seqid, this`uuid, this`version, this`nrChanged, file`header
      ensures Valid()
      ensures ret == 0 ==> old(file.header).flags.clean && old(file.header).flags.indexOnly == indexOnly
      // whatever the manager held when the file was closed is what it holds now
      ensures ret == 0 ==> flags == old(flags).(clean := false) && currPos == old(currPos) && fileMax == old(fileMax)
      ensures ret == 0 ==> seqid == old(seqid) && uuid == old(uuid) && version == old(version) && nrChanged == old(nrChanged)
      ensures ret == 0 ==> file.header == old(file.header).(flags := flags) && file.header.seqid == seqid && file.header.uuid == uuid
      ensures old(!file.header.flags.clean) ==> ret != 0 && file.header == old(file.header) && flags == old(flags)
      ensures old(!file.header.flags.clean) ==> currPos == old(currPos) && fileMax == old(fileMax) && seqid == old(seqid)
      ensures old(!file.header.flags.clean) ==> uuid == old(uuid) && version == old(version) && nrChanged == old(nrChanged)
    {
      hide Count;
      var h;
      ret, h := file.ReadHeader();
      if ret != 0 { return; }
      if h.magic != COW_MAGIC { return -EINVAL; }
      if !h.flags.clean { return -EINVAL; }
      if h.flags.indexOnly != indexOnly { return -EINVAL; }
      flags := h.flags;
      currPos, fileMax, seqid, uuid := h.fpos, h.fsize, h.seqid, h.uuid;
      version, nrChanged := h.version, h.nrChanged;
      ret := WriteHeader(false);
    }

    /** Write everything back and leave a clean header, for good; after an error
        the file is removed. */
    method SyncAndFree() returns (ret: int)
      requires Valid() && isOpen
      modifies this`allocatedSects, this`flags, this`isOpen, sects, file
      ensures Valid() && !isOpen && file.data == old(file.data)
      ensures ret == 0 ==> file.header.flags.clean && Recoverable() && allocatedSects == 0
      ensures ret == 0 ==> flags == file.header.flags == old(flags).(clean := true) && file.header.magic == COW_MAGIC
      ensures ret == 0 ==> file.header.fpos == currPos && file.header.fsize == fileMax && file.header.seqid == seqid
      ensures ret == 0 ==> file.header.uuid == uuid && file.header.version == version && file.header.nrChanged == nrChanged
    {
      isOpen := false;
      hide Count;
      ghost var swept;
      ret, swept := SyncAndFreeSections(0, false);
      if ret != 0 { return; }
      ret := WriteHeader(true);
    }

    /** Write everything back and leave a clean header. */
    method SyncAndClose() returns (ret: int)
      requires Valid() && isOpen
      modifies this`allocatedSects, this`flags, this`isOpen, sects, file
      ensures Valid() && !isOpen
      ensures ret == 0 ==> DataKept()
      ensures ret == 0 ==> file.header.flags.clean && Recoverable() && allocatedSects == 0
      ensures ret == 0 ==> flags == file.header.flags == old(flags).(clean := true) && file.header.magic == COW_MAGIC
      ensures ret == 0 ==> file.header.fpos == currPos && file.header.fsize == fileMax && file.header.seqid == seqid
      ensures ret == 0 ==> file.header.uuid == uuid && file.header.version == version && file.header.nrChanged == nrChanged
      ensures forall k :: k in old(file.data) && k < currPos ==> k in file.data && file.data[k] == old(file.data)[k]
    {
      isOpen := false;
      ghost var swept;
      hide Count;
      ret, swept := SyncAndFreeSections(0, true);
      if ret != 0 { return; }
      ret := WriteHeader(true);
      if ret != 0 { return; }
      if * { ret := -EIO; }   // the extent map of the file could not be obtained
    }

    method Reopen() returns (ret: int)
      requires Valid() && !isOpen
      modifies this`flags, this`currPos, this`fileMax, this`seqid, this`uuid, this`version, this`nrChanged, this`isOpen, file`header
      ensures Valid() && (isOpen <==> ret == 0)
      ensures ret == 0 ==> flags == old(flags).(clean := false) && currPos == old(currPos) && fileMax == old(fileMax)
      ensures ret == 0 ==> seqid == old(seqid) && uuid == old(uuid) && version == old(version) && nrChanged == old(nrChanged)
      ensures old(!file.header.flags.clean) ==> ret != 0
    {
      if * { return -EIO; }   // the file could not be opened
      ret := OpenHeader(flags.indexOnly);
      if ret == 0 { isOpen := true; }
    }

    /** Closing and reopening changes nothing that the manager stands for. */
    method CloseAndReopen() returns (ret: int)
      requires Valid() && isOpen && !flags.clean
      modifies this, sects, file
      ensures Valid()
      ensures ret == 0 ==> isOpen && view == old(view) && allocatedSects == 0
      ensures ret == 0 ==> flags == old(flags) && currPos == old(currPos) && fileMax == old(fileMax)
      ensures ret == 0 ==> seqid == old(seqid) && uuid == old(uuid) && version == old(version) && nrChanged == old(nrChanged)
      ensures ret == 0 ==> DataKept()
      ensures ret == 0 ==> forall k :: k in old(file.data) && k < currPos ==> k in file.data && file.data[k] == old(file.data)[k]
    {
      ret := SyncAndClose();
      if ret != 0 { return; }
      ret := Reopen();
    }

    /** Leave snapshot mode: only the index is kept. */
    method TruncateToIndex() returns (ret: int)
      requires Valid() && isOpen
      modifies this`flags, file`data
      ensures Valid() && flags == old(flags).(indexOnly := true)
      ensures file.data == if ret == 0 then map[] else old(file.data)
    {
      flags := flags.(indexOnly := true);
      ret := file.Truncate();
    }

    // ------------------------------------------------------------- data area

    ghost predicate StoreOk()
      reads this, file
    {
      && WriteOnce(view, file.data, dataStart, currPos)
      && Holds(captured, view, file.data)
    }

    method WriteData(buf: Block) returns (ret: int)
      requires Valid() && isOpen
      modifies this`currPos, file`data
      ensures Valid()
      ensures forall k :: k in old(file.data) && k != old(currPos) ==> k in file.data && file.data[k] == old(file.data)[k]
      ensures ret == 0 ==> currPos == old(currPos) + 1 && old(currPos) in file.data && file.data[old(currPos)] == buf
      ensures ret != 0 ==> currPos == old(currPos)
      ensures ret == -EFBIG <==> old(4096 * currPos >= fileMax)
    {
      if 4096 * currPos >= fileMax { return -EFBIG; }
      ret := file.WriteData(currPos, buf);
      if ret == 0 { currPos := currPos + 1; }
    }

    ghost method NoteCapture(block: nat, buf: Block)
      requires Valid()
      modifies this`captured
      ensures Valid() && captured == CaptureOne(old(captured), block, buf)
    {
      captured := CaptureOne(captured, block, buf);
    }

    /** Map a block to the write position, then write its data there. */
    method CaptureNew(block: nat, buf: Block) returns (ret: int)
      requires Valid() && isOpen && StoreOk() && block < |view| && view[block] == 0
      modifies this`allocatedSects, this`view, this`nrChanged, this`currPos, this`captured, sects, file`index, file`data
      ensures Valid()
      ensures ret == 0 ==> captured == CaptureOne(old(captured), block, buf)
      ensures ret == 0 ==> StoreOk()
      ensures view == old(view)[block := old(currPos)] || (ret != 0 && view == old(view))
      // after an error at most the mapping of `block` dangles; all captures survive
      ensures ret != 0 ==> currPos == old(currPos) && WriteOnce(old(view), file.data, dataStart, currPos)
      ensures ret != 0 ==> captured == old(captured) && Holds(captured, old(view), file.data)
    {
      hide Valid;
      ret := WriteMapping(block, currPos);
      if ret != 0 { return; }
      ret := WriteData(buf);
      if ret == 0 {
        CaptureStep(old(captured), old(view), old(file.data), file.data, dataStart, old(currPos), block, buf);
        NoteCapture(block, buf);
      }
    }

    /** Capture a block unless it has been captured before. */
    method WriteCurrent(block: nat, buf: Block) returns (ret: int)
      requires Valid() && isOpen && StoreOk() && block < |view|
      modifies this`allocatedSects, this`view, this`nrChanged, this`currPos, this`captured, sects, file`index, file`data
      ensures Valid()
      ensures ret == 0 ==> StoreOk() && captured == CaptureOne(old(captured), block, buf)
      ensures view == old(view) || (old(view)[block] == 0 && view == old(view)[block := old(currPos)])
      ensures old(Injective(view)) ==> Injective(view)
      // after an error at most the mapping of `block` dangles; all captures survive
      ensures ret != 0 ==> currPos == old(currPos) && WriteOnce(old(view), file.data, dataStart, currPos)
      ensures ret != 0 ==> captured == old(captured) && Holds(captured, old(view), file.data)
    {
      var mapping;
      ret, mapping := ReadMapping(block);
      if ret != 0 || mapping != 0 { return; }
      hide Valid;
      hide Injective;
      if old(Injective(view)) { InjectiveStep(view, file.data, dataStart, currPos, block); }
      ret := CaptureNew(block, buf);
    }

    method ReadData(pos: nat, off: nat, len: nat) returns (ret: int, bytes: seq<byte>)
      requires off < 4096 ==> off + len <= 4096
      ensures off >= 4096 ==> ret == -EINVAL
      ensures ret == 0 ==> |bytes| == len
      ensures ret == 0 && pos in file.data ==> bytes == file.data[pos][off..off + len]
    {
      bytes := [];
      if off >= 4096 { return -EINVAL, []; }
      var block;
      ret, block := file.ReadData(pos);
      if ret == 0 { bytes := block[off..off + len]; }
    }
  }
}
