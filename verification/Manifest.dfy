/** Archive files, the manifest that lists them, and when a manifest describes an archive soundly. */
module Manifests {
  datatype Contents = Contents(data: seq<bv8>)

  /** The content digest is collision free, so it stands for the contents themselves. */
  datatype Summary = Summary(sequence: nat, epoch: nat, contentDigest: Contents)

  datatype Checkpoint = Checkpoint(summary: Summary, contents: Contents) {

    predicate Genuine() {
      summary.contentDigest == contents
    }
  }

  datatype FileType = CheckpointContent | CheckpointSummary

  datatype FileData = ContentData(contents: seq<Contents>) | SummaryData(summaries: seq<Summary>)

  /** Where a file lives: in the directory of its epoch, named after its first checkpoint. */
  datatype Path = Path(epoch: nat, start: nat, fileType: FileType)

  /** The digest is collision free, so it stands for the data itself. */
  datatype FileMetadata = FileMetadata(fileType: FileType, epoch: nat, start: nat, end: nat, digest: FileData) {

    function FilePath(): Path {
      Path(epoch, start, fileType)
    }
  }

  datatype Manifest = Manifest(epoch: nat, next: nat, files: seq<FileMetadata>) {

    function Update(epoch: nat, next: nat, content: FileMetadata, summary: FileMetadata): Manifest {
      Manifest(epoch, next, files + [content, summary])
    }
  }

  const EMPTY := Manifest(0, 0, [])

  /** What a cut sends to the uploader: the two files, and the manifest that lists them. */
  datatype CheckpointUpdates =
    CheckpointUpdates(content: FileMetadata, summary: FileMetadata, manifest: Manifest)

  // ----- The chain of checkpoints being archived -----

  type Chain = nat -> Checkpoint

  /** Genuine checkpoints numbered from 0 in epoch 0; an epoch lasts or is followed by the next one. */
  ghost predicate GoodChain(chain: Chain) {
    && (forall n: nat :: chain(n).summary.sequence == n && chain(n).Genuine())
    && chain(0).summary.epoch == 0
    && (forall n: nat :: EpochAt(chain, n) <= EpochAt(chain, n + 1) <= EpochAt(chain, n) + 1)
  }

  function EpochAt(chain: Chain, n: nat): nat {
    chain(n).summary.epoch
  }

  function Range(chain: Chain, start: nat, end: nat): (checkpoints: seq<Checkpoint>)
    ensures start <= end ==> |checkpoints| == end - start
    ensures forall i :: 0 <= i < |checkpoints| ==> checkpoints[i] == chain(start + i)
  {
    if start >= end then [] else seq(end - start, (i: nat) => chain(start + i))
  }

  function Summaries(checkpoints: seq<Checkpoint>): (s: seq<Summary>)
    ensures |s| == |checkpoints| && forall i :: 0 <= i < |s| ==> s[i] == checkpoints[i].summary
  {
    seq(|checkpoints|, i requires 0 <= i < |checkpoints| => checkpoints[i].summary)
  }

  function AllContents(checkpoints: seq<Checkpoint>): (s: seq<Contents>)
    ensures |s| == |checkpoints| && forall i :: 0 <= i < |s| ==> s[i] == checkpoints[i].contents
  {
    seq(|checkpoints|, i requires 0 <= i < |checkpoints| => checkpoints[i].contents)
  }

  lemma {:induction false} EpochsMonotone(chain: Chain, a: nat, b: nat)
    requires GoodChain(chain) && a <= b
    ensures EpochAt(chain, a) <= EpochAt(chain, b)
    decreases b - a
  {
    if a < b {
      EpochsMonotone(chain, a, b - 1);
      assert EpochAt(chain, b - 1) <= EpochAt(chain, b - 1 + 1);
    }
  }

  // ----- Sound manifests -----

  /** Consecutive checkpoints of one epoch. */
  datatype Segment = Segment(epoch: nat, start: nat, end: nat)

  ghost predicate IsSegment(chain: Chain, s: Segment) {
    s.start < s.end && forall n :: s.start <= n < s.end ==> EpochAt(chain, n) == s.epoch
  }

  function ContentFile(chain: Chain, s: Segment): FileMetadata {
    FileMetadata(CheckpointContent, s.epoch, s.start, s.end, ContentData(AllContents(Range(chain, s.start, s.end))))
  }

  function SummaryFile(chain: Chain, s: Segment): FileMetadata {
    FileMetadata(CheckpointSummary, s.epoch, s.start, s.end, SummaryData(Summaries(Range(chain, s.start, s.end))))
  }

  /** The files of a sequence of segments, in the order they are cut. */
  function FilesOf(chain: Chain, segments: seq<Segment>): seq<FileMetadata> {
    if segments == [] then []
    else
      var last := segments[|segments| - 1];
      FilesOf(chain, segments[..|segments| - 1]) + [ContentFile(chain, last), SummaryFile(chain, last)]
  }

  /** The segments lie end to end from 0 to `next`. */
  ghost predicate Tile(chain: Chain, segments: seq<Segment>, next: nat) {
    && (forall s :: s in segments ==> IsSegment(chain, s))
    && (segments == [] <==> next == 0)
    && (segments != [] ==> segments[0].start == 0 && segments[|segments| - 1].end == next)
    && (forall i, j :: 0 <= i && j == i + 1 < |segments| ==> segments[i].end == segments[j].start)
  }

  /** The manifest lists exactly the files of segments that tile the checkpoints below its next one. */
  ghost predicate SoundManifest(chain: Chain, m: Manifest, segments: seq<Segment>) {
    && Tile(chain, segments, m.next)
    && m.files == FilesOf(chain, segments)
    && m.epoch == if segments == [] then 0 else segments[|segments| - 1].epoch
  }

  /** A cut appends one segment. */
  lemma AppendSegment(chain: Chain, m: Manifest, segments: seq<Segment>, s: Segment)
    requires SoundManifest(chain, m, segments) && IsSegment(chain, s) && s.start == m.next
    ensures SoundManifest(chain, m.Update(s.epoch, s.end, ContentFile(chain, s), SummaryFile(chain, s)), segments + [s])
  {
    var more := segments + [s];
    assert more[..|more| - 1] == segments;
    forall i, j | 0 <= i && j == i + 1 < |more|
      ensures more[i].end == more[j].start
    {
      assert i < |segments| ==> more[i] == segments[i];
      assert j < |segments| ==> more[j] == segments[j];
    }
  }

  /** Segments are in order: an earlier one ends before a later one starts, and none before 0. */
  lemma {:induction false} SegmentsOrdered(chain: Chain, segments: seq<Segment>, next: nat, i: nat, j: nat)
    requires Tile(chain, segments, next) && i < j < |segments|
    ensures segments[i].end <= segments[j].start && segments[j].end <= next
    decreases |segments| - i
  {
    assert segments[i].end == segments[i + 1].start;
    assert segments[j] in segments;
    SegmentsBelow(chain, segments, next, j);
    if i + 1 < j {
      assert segments[i + 1] in segments;
      SegmentsOrdered(chain, segments, next, i + 1, j);
    }
  }

  lemma {:induction false} SegmentsBelow(chain: Chain, segments: seq<Segment>, next: nat, i: nat)
    requires Tile(chain, segments, next) && i < |segments|
    ensures segments[i].start < segments[i].end <= next
    decreases |segments| - i
  {
    assert segments[i] in segments;
    if i + 1 < |segments| {
      assert segments[i].end == segments[i + 1].start;
      SegmentsBelow(chain, segments, next, i + 1);
    }
  }

  /** The files listed for segments are theirs and no others. */
  lemma {:induction false} FilesOfMembers(chain: Chain, segments: seq<Segment>, f: FileMetadata)
    ensures f in FilesOf(chain, segments) <==>
              exists s :: s in segments && (f == ContentFile(chain, s) || f == SummaryFile(chain, s))
  {
    if segments != [] {
      var front, last := segments[..|segments| - 1], segments[|segments| - 1];
      assert segments == front + [last];
      FilesOfMembers(chain, front, f);
    }
  }

  /** Every listed file starts and ends within the manifest, in an epoch no later than its own. */
  lemma FilesWithin(chain: Chain, m: Manifest, segments: seq<Segment>, f: FileMetadata)
    requires GoodChain(chain) && SoundManifest(chain, m, segments) && f in m.files
    ensures f.start < f.end <= m.next && f.epoch <= m.epoch
  {
    FilesOfMembers(chain, segments, f);
    var s :| s in segments && (f == ContentFile(chain, s) || f == SummaryFile(chain, s));
    var i :| 0 <= i < |segments| && segments[i] == s;
    SegmentsBelow(chain, segments, m.next, i);
    var last := segments[|segments| - 1];
    assert last in segments;
    assert EpochAt(chain, s.start) == s.epoch && EpochAt(chain, last.end - 1) == last.epoch;
    EpochsMonotone(chain, s.start, last.end - 1);
  }

  /** Two listed files with the same path are the same file. */
  lemma PathsDistinct(chain: Chain, m: Manifest, segments: seq<Segment>, f: FileMetadata, g: FileMetadata)
    requires SoundManifest(chain, m, segments) && f in m.files && g in m.files && f.FilePath() == g.FilePath()
    ensures f == g
  {
    FilesOfMembers(chain, segments, f);
    FilesOfMembers(chain, segments, g);
    var s :| s in segments && (f == ContentFile(chain, s) || f == SummaryFile(chain, s));
    var t :| t in segments && (g == ContentFile(chain, t) || g == SummaryFile(chain, t));
    var i :| 0 <= i < |segments| && segments[i] == s;
    var j :| 0 <= j < |segments| && segments[j] == t;
    SegmentsBelow(chain, segments, m.next, i);
    SegmentsBelow(chain, segments, m.next, j);
    if i < j {
      SegmentsOrdered(chain, segments, m.next, i, j);
    } else if j < i {
      SegmentsOrdered(chain, segments, m.next, j, i);
    }
  }
}
