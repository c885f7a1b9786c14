/**
 Incremental backup over any number of cycles: an image that starts as a copy
 of one snapshot and is updated from each later one, by the blocks marked in
 the COW file in between, equals the latest snapshot.
 */
module Cycles {
  import opened Blocks
  import opened BioQueues
  import opened CowFiles
  import opened CowManagers
  import opened CowRuns
  import opened Tracing
  import opened Protocol
  import opened Invariants
  import opened TrackingProof
  import opened Runs
  import opened Periods
  import opened Isolation
  import opened UpdateImg

  predicate Selected(blocks: Option<set<nat>>, b: nat) { blocks.None? || b in blocks.value }

  /** What a backup program assembled from reads of one snapshot: every byte of
      the given blocks (all of them for `None`) comes from some answer. */
  ghost predicate PiecedFrom(data: seq<byte>, answers: seq<Answer>, blocks: Option<set<nat>>) {
    forall k: nat :: k < |data| && Selected(blocks, k / 4096) ==>
      exists a :: a in answers && 512 * a.sect <= k < 512 * a.sect + |a.data| && data[k] == a.data[k - 512 * a.sect]
  }

  /** The first `n` periods are over and their COW files there; `copies[0]` is a
      full copy of the first snapshot, and each later one holds the blocks marked
      in the file before it, read from its snapshot. */
  ghost predicate Copied(s: State, copies: seq<seq<byte>>, n: nat) {
    && n <= |s.past.files| && n <= |s.past.epochs| && |copies| == n + 1
    && (forall i :: 0 <= i < n ==> s.past.files[i].Some?)
    && (forall i :: 0 <= i <= n ==> |copies[i]| == |s.snap|)
    && PiecedFrom(copies[0], AnswersIn(s, 0), None)
    && forall i :: 0 <= i < n ==> CopiedMarked(s, copies, i)
  }

  ghost predicate CopiedMarked(s: State, copies: seq<seq<byte>>, i: nat)
    requires i < |s.past.files| && i < |s.past.epochs| && i + 1 < |copies|
  {
    PiecedFrom(copies[i + 1], AnswersIn(s, i + 1), s.past.files[i])
  }

  /** The image after `i` updates. */
  ghost function Image(s: State, copies: seq<seq<byte>>, n: nat, i: nat): (r: seq<byte>)
    requires Copied(s, copies, n) && i <= n
    ensures |r| == |s.snap|
    decreases i
  {
    if i == 0 then copies[0] else Merge(Image(s, copies, n, i - 1), copies[i], s.past.files[i - 1].value)
  }

  /** Block `b` may have gone wrong by the `i`-th update: some step of the run
      changed it without tracing it, or its mark was missed while a file was being
      closed, and no file since had it marked. */
  ghost predicate MayDiffer(s: State, steps: seq<Step>, i: nat, b: nat)
    requires i <= |s.past.files| && i <= |s.past.epochs| && forall j :: 0 <= j < i ==> s.past.files[j].Some?
    decreases i
  {
    || Excused(steps, i, b)
    || (i > 0 && b !in s.past.files[i - 1].value && (b in s.past.epochs[i - 1].marks || MayDiffer(s, steps, i - 1, b)))
  }

  /** The exempt blocks of all periods are those that steps of the run excuse. */
  ghost predicate Bounded(s: State, steps: seq<Step>) {
    forall i, b :: 0 <= i < PeriodCount(s) && b in BypassedIn(s, i) ==> Excused(steps, i, b)
  }

  /** Pieced-together reads agree with the snapshot they were read from. */
  lemma PiecesAreRight(data: seq<byte>, answers: seq<Answer>, snap: seq<byte>, bypassed: set<nat>, blocks: Option<set<nat>>, k: nat)
    requires AnswersOk(answers, snap, bypassed) && PiecedFrom(data, answers, blocks)
    requires k < |data| && Selected(blocks, k / 4096) && k / 4096 !in bypassed
    ensures k < |snap| && data[k] == snap[k]
  {
  }

  lemma SnapLengths(s: State, i: nat)
    requires History(s) && i < PeriodCount(s)
    ensures |SnapOf(s, i)| == |s.snap|
    decreases PeriodCount(s) - i
  {
    if i < |s.past.epochs| {
      assert Explains(s.past.epochs[i], SnapAfter(s.past.epochs, s.snap, i));
      SnapLengths(s, i + 1);
    }
  }

  lemma FirstCopyIsRight(s: State, copies: seq<seq<byte>>, n: nat, k: nat)
    requires History(s) && Answers(s) && Copied(s, copies, n) && k < |s.snap| && k / 4096 !in BypassedIn(s, 0)
    ensures |SnapOf(s, 0)| == |s.snap| && copies[0][k] == SnapOf(s, 0)[k]
  {
    SnapLengths(s, 0);
    AnswersInOk(s, 0);
    hide History;
    hide Answers;
    hide AnswersOk;
    hide AnswersIn;
    hide SnapOf;
    hide BypassedIn;
    PiecesAreRight(copies[0], AnswersIn(s, 0), SnapOf(s, 0), BypassedIn(s, 0), None, k);
  }

  lemma MarkedCopyIsRight(s: State, copies: seq<seq<byte>>, n: nat, i: nat, k: nat)
    requires History(s) && Answers(s) && Copied(s, copies, n) && i < n && k < |s.snap|
    requires k / 4096 in s.past.files[i].value && k / 4096 !in BypassedIn(s, i + 1)
    ensures |SnapOf(s, i + 1)| == |s.snap| && copies[i + 1][k] == SnapOf(s, i + 1)[k]
  {
    SnapLengths(s, i + 1);
    AnswersInOk(s, i + 1);
    hide History;
    hide Answers;
    hide AnswersOk;
    hide AnswersIn;
    hide SnapOf;
    hide BypassedIn;
    assert CopiedMarked(s, copies, i);
    PiecesAreRight(copies[i + 1], AnswersIn(s, i + 1), SnapOf(s, i + 1), BypassedIn(s, i + 1), s.past.files[i], k);
  }

  lemma DifferenceIsMarked(s: State, i: nat, k: nat)
    requires History(s) && i < |s.past.epochs| && k < |s.snap|
    ensures |SnapOf(s, i)| == |SnapOf(s, i + 1)| == |s.snap|
    ensures SnapOf(s, i)[k] != SnapOf(s, i + 1)[k] ==> k / 4096 in s.past.epochs[i].marks || k / 4096 in BypassedIn(s, i)
  {
    SnapLengths(s, i);
    SnapLengths(s, i + 1);
    assert Explains(s.past.epochs[i], SnapAfter(s.past.epochs, s.snap, i));
  }

  lemma {:induction false} ImageFollowsSnapshots(s: State, steps: seq<Step>, copies: seq<seq<byte>>, n: nat, i: nat, k: nat)
    requires History(s) && Answers(s) && Bounded(s, steps) && Copied(s, copies, n)
    requires i <= n && k < |s.snap| && !MayDiffer(s, steps, i, k / 4096)
    ensures |SnapOf(s, i)| == |s.snap| && Image(s, copies, n, i)[k] == SnapOf(s, i)[k]
    decreases i
  {
    hide History;
    hide Answers;
    hide SnapOf;
    hide BypassedIn;
    hide PiecedFrom;
    hide Excused;
    if i == 0 {
      FirstCopyIsRight(s, copies, n, k);
    } else if k / 4096 in s.past.files[i - 1].value {
      MarkedCopyIsRight(s, copies, n, i - 1, k);
    } else {
      ImageFollowsSnapshots(s, steps, copies, n, i - 1, k);
      DifferenceIsMarked(s, i - 1, k);
    }
  }

  // ------------------------------------------------------------------ theorems

  /** In every run, orderly or not, a block that differs between two snapshots is
      marked, unless a step of the period changed it by pages of the COW file or by
      a discard. */
  lemma ChangedBlocksAreMarked(base: seq<byte>, seqid: nat, steps: seq<Step>, i: nat, k: nat)
    requires |base| % 4096 == 0 && Possible(Init(base, seqid), steps)
    requires var s := After(Init(base, seqid), steps); i < |s.past.epochs| && k < |s.snap|
    ensures var s := After(Init(base, seqid), steps);
      && |SnapOf(s, i)| == |SnapOf(s, i + 1)| == |s.snap|
      && (SnapOf(s, i)[k] != SnapOf(s, i + 1)[k] ==> k / 4096 in s.past.epochs[i].marks || Excused(steps, i, k / 4096))
  {
    hide Possible;
    hide After;
    hide Excused;
    hide Inv;
    hide History;
    hide BypassedIn;
    hide SnapOf;
    ReachableInv(base, seqid, steps);
    InvParts(After(Init(base, seqid), steps));
    BypassedExactly(Init(base, seqid), steps, i, k / 4096);
    DifferenceIsMarked(After(Init(base, seqid), steps), i, k);
  }

  lemma RunIsBounded(base: seq<byte>, seqid: nat, steps: seq<Step>)
    requires Possible(Init(base, seqid), steps)
    ensures Bounded(After(Init(base, seqid), steps), steps)
  {
    hide Possible;
    hide Excused;
    var s := After(Init(base, seqid), steps);
    forall i, b | 0 <= i < PeriodCount(s) && b in BypassedIn(s, i) ensures Excused(steps, i, b) {
      BypassedExactly(Init(base, seqid), steps, i, b);
    }
  }

  /** After any orderly run, for any number of cycles, the image kept up to date
      from the closed COW files equals the snapshot it was last updated from,
      outside the blocks that steps of the run changed without tracing and those
      whose marks were missed. */
  lemma IncrementalEqualsFull(base: seq<byte>, seqid: nat, steps: seq<Step>, copies: seq<seq<byte>>, n: nat, k: nat)
    requires |base| % 4096 == 0 && Possible(Init(base, seqid), steps) && OrderlyRun(Init(base, seqid), steps)
    requires var s := After(Init(base, seqid), steps);
      Copied(s, copies, n) && k < |s.snap| && !MayDiffer(s, steps, n, k / 4096)
    ensures var s := After(Init(base, seqid), steps);
      |SnapOf(s, n)| == |s.snap| && Image(s, copies, n, n)[k] == SnapOf(s, n)[k]
  {
    hide Possible;
    hide OrderlyRun;
    ReachableInv(base, seqid, steps);
    IsolationInit(base, seqid);
    InvInit(base, seqid);
    IsolationAlways(Init(base, seqid), steps);
    RunIsBounded(base, seqid, steps);
    hide After;
    hide MayDiffer;
    hide Bounded;
    hide Tracked;
    hide Isolated;
    hide Shape;
    hide Refs;
    hide Ledger;
    hide Counts;
    hide Copied;
    hide History;
    hide Answers;
    ImageFollowsSnapshots(After(Init(base, seqid), steps), steps, copies, n, n, k);
  }

  lemma {:induction false} NothingDiffers(base: seq<byte>, seqid: nat, steps: seq<Step>, i: nat, b: nat)
    requires |base| % 4096 == 0 && Possible(Init(base, seqid), steps) && ForeignRun(steps)
    requires var s := After(Init(base, seqid), steps);
      i <= |s.past.files| && i <= |s.past.epochs| && forall j :: 0 <= j < i ==> s.past.files[j].Some?
    requires forall j :: 0 <= j < i ==> !MissedIn(Init(base, seqid), steps, j)
    ensures !MayDiffer(After(Init(base, seqid), steps), steps, i, b)
    decreases i
  {
    hide Possible;
    hide After;
    hide Excused;
    hide MissedIn;
    hide ForeignRun;
    NothingExcused(Init(base, seqid), steps, i, b);
    if i > 0 {
      ClosedFilesHoldMarks(base, seqid, steps, i - 1);
      NothingDiffers(base, seqid, steps, i - 1, b);
    }
  }

  /** If the run writes no page of a COW file and discards nothing on a device that
      holds the COW file, and no mark was missed, it is equal byte for byte. */
  lemma IncrementalEqualsFullEverywhere(base: seq<byte>, seqid: nat, steps: seq<Step>, copies: seq<seq<byte>>, n: nat)
    requires |base| % 4096 == 0 && Possible(Init(base, seqid), steps) && OrderlyRun(Init(base, seqid), steps)
    requires ForeignRun(steps) && Copied(After(Init(base, seqid), steps), copies, n)
    requires forall j :: 0 <= j < n ==> !MissedIn(Init(base, seqid), steps, j)
    ensures var s := After(Init(base, seqid), steps); Image(s, copies, n, n) == SnapOf(s, n)
  {
    hide Possible;
    hide OrderlyRun;
    hide After;
    hide ForeignRun;
    hide MissedIn;
    var s := After(Init(base, seqid), steps);
    ReachableInv(base, seqid, steps);
    SnapLengths(s, n) by { hide Shape; hide Tracked; hide Refs; hide Ledger; hide Counts; }
    hide PiecedFrom;
    forall k | 0 <= k < |s.snap| ensures Image(s, copies, n, n)[k] == SnapOf(s, n)[k] {
      NothingDiffers(base, seqid, steps, n, k / 4096);
      IncrementalEqualsFull(base, seqid, steps, copies, n, k);
    }
  }

  // --------------------------------------------------------------- the updater

  /** The index has the blocks marked that the `i`-th file of the run is to hold. */
  ghost predicate MarksFile(index: seq<nat>, s: State, i: nat)
    requires i < |s.past.files| && s.past.files[i].Some?
  {
    |s.snap| / 4096 <= |index| && forall b :: 0 <= b < |s.snap| / 4096 ==> (index[b] != 0 <==> b in s.past.files[i].value)
  }

  lemma UpdaterMakesNextImage(s: State, copies: seq<seq<byte>>, n: nat, i: nat, index: seq<nat>, img: seq<byte>)
    requires Copied(s, copies, n) && i < n && |s.snap| % 4096 == 0 && MarksFile(index, s, i)
    requires |img| == |s.snap| && Merged(img, Image(s, copies, n, i), copies[i + 1], index, |s.snap| / 4096)
    ensures img == Image(s, copies, n, i + 1)
  {
  }

  /** Running the updater without errors on an image of one snapshot, with the COW
      file of that period and the next snapshot's copy, leaves the next image; if
      the file is not told to be of the period before, it leaves the image alone. */
  method NextImage(ghost s: State, ghost copies: seq<seq<byte>>, ghost n: nat, ghost i: nat,
                   cow: CowFile, snap: seq<byte>, img: array<byte>, seqid: nat, uuid: seq<byte>)
    returns (ret: int, done: bool, count: nat, errCount: nat)
    requires Copied(s, copies, n) && i < n && |s.snap| % 4096 == 0 && MarksFile(cow.index, s, i)
    requires snap == copies[i + 1] && img[..] == Image(s, copies, n, i)
    modifies img
    ensures done && errCount == 0 ==> img[..] == Image(s, copies, n, i + 1)
    ensures !Belongs(cow.header, seqid, uuid) ==> ret != 0 && !done && img[..] == old(img[..])
  {
    assert img.Length == |snap|;
    ret, done, count, errCount := UpdateImage(cow, snap, img, seqid, uuid);
    if done && errCount == 0 { UpdaterMakesNextImage(s, copies, n, i, cow.index, img[..]); }
  }

  /** A whole period on the real manager and the update that follows it: the file
      that the period leaves is accepted for the next snapshot, and an error-free
      walk replaces exactly the blocks of the clones and the sector sets. */
  method UpdateAfterPeriod(cm: CowManager, clones: seq<Entry>, sets: seq<SectorSet>, snap: seq<byte>, img: array<byte>)
    returns (ret: int, closed: bool, done: bool, errCount: nat)
    requires cm.Valid() && cm.isOpen && cm.StoreOk() && cm.captured == map[]
    requires ClonesFit(clones, |cm.view|) && SetsFit(sets, |cm.view|)
    requires img.Length == |snap| && |snap| % 4096 == 0 && |snap| / 4096 <= |cm.view|
    modifies cm, cm.sects, cm.file, img
    ensures closed ==> ret != EINVAL && Belongs(cm.file.header, old(cm.seqid) + 1, old(cm.uuid))
    ensures closed && done && errCount == 0 ==> forall k :: 0 <= k < img.Length ==>
      img[k] == if k / 4096 in BlocksOfClones(clones) + BlocksOfSets(sets) then snap[k] else old(img[k])
  {
    var seqid, uuid, count := cm.seqid + 1, cm.uuid, 0;
    closed, done, errCount := false, false, 0;
    ghost var was := img[..];
    ret := RunPeriod(cm, clones, sets);
    if ret != 0 { return; }
    closed := true;
    assert img[..] == was;
    ret, done, count, errCount := UpdateImage(cm.file, snap, img, seqid, uuid);
  }

  /** Of all files, the updater accepts for the current snapshot exactly those of
      the expected kind and series that were left by the period just before it. */
  lemma OnlyThePreviousFileIsAccepted(base: seq<byte>, seqid: nat, steps: seq<Step>, i: nat, h: Header, uuid: seq<byte>)
    requires |base| % 4096 == 0 && Possible(Init(base, seqid), steps)
    requires var s := After(Init(base, seqid), steps); i < |s.past.epochs| && h.seqid == s.past.epochs[i].seqid
    ensures var s := After(Init(base, seqid), steps);
      VerifyFiles(h, s.past.seqid, uuid) == 0 <==> h.magic == COW_MAGIC && h.uuid == uuid && i == |s.past.epochs| - 1
  {
    hide Possible;
    ReachableInv(base, seqid, steps);
    hide Tracked;
    hide Shape;
    hide Refs;
    hide Ledger;
    hide Counts;
    hide Filed;
    hide Explains;
    var s := After(Init(base, seqid), steps);
    assert s.past.epochs[i].seqid == s.past.seqid - |s.past.epochs| + i;
  }
}
