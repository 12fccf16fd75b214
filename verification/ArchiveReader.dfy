/** Reading a range of checkpoints back from the archive. */
module ArchiveReaders {
  import opened Outcomes
  import opened Manifests
  import opened CheckpointWriters
  import opened ArchiveSystems
  import opened ArchiveRuns

  const U64_MAX: nat := 0xFFFF_FFFF_FFFF_FFFF

  // ----- Sorting and checking the listed files -----

  function OfType(files: seq<FileMetadata>, t: FileType): seq<FileMetadata> {
    if files == [] then []
    else
      var rest := OfType(files[..|files| - 1], t);
      if files[|files| - 1].fileType == t then rest + [files[|files| - 1]] else rest
  }

  /** Inserts after the files that start no later, as a stable sort does. */
  function InsertByStart(files: seq<FileMetadata>, f: FileMetadata): seq<FileMetadata> {
    if files == [] || files[|files| - 1].start <= f.start then files + [f]
    else InsertByStart(files[..|files| - 1], f) + [files[|files| - 1]]
  }

  function SortByStart(files: seq<FileMetadata>): seq<FileMetadata> {
    if files == [] then []
    else InsertByStart(SortByStart(files[..|files| - 1]), files[|files| - 1])
  }

  ghost predicate ByStart(files: seq<FileMetadata>) {
    forall i, j :: 0 <= i < j < |files| ==> files[i].start <= files[j].start
  }

  predicate Contiguous(files: seq<FileMetadata>) {
    forall i, j | 0 <= i < |files| && 0 <= j < |files| && j == i + 1 :: files[j].start == files[i].end
  }

  predicate SameRanges(a: seq<FileMetadata>, b: seq<FileMetadata>)
    requires |a| == |b|
  {
    forall i | 0 <= i < |a| :: a[i].start == b[i].start && a[i].end == b[i].end
  }

  datatype FilePair = FilePair(summary: FileMetadata, content: FileMetadata)

  function Zip(a: seq<FileMetadata>, b: seq<FileMetadata>): (pairs: seq<FilePair>)
    requires |a| == |b|
    ensures |pairs| == |a| && forall i :: 0 <= i < |a| ==> pairs[i] == FilePair(a[i], b[i])
  {
    seq(|a|, i requires 0 <= i < |a| => FilePair(a[i], b[i]))
  }

  /** As many summary as content files, each kind end to end, both over the same ranges from 0. */
  predicate LinesUp(summaries: seq<FileMetadata>, contents: seq<FileMetadata>) {
    && |summaries| == |contents|
    && Contiguous(summaries) && Contiguous(contents) && SameRanges(summaries, contents)
    && summaries != [] && summaries[0].start == 0
  }

  /** The summary and content files in order, an error for an empty archive, or a panic when the
      files do not line up. */
  function VerifyManifest(m: Manifest): Outcome<Option<seq<FilePair>>> {
    if m.files == [] then Ok(None)
    else
      var summaries := SortByStart(OfType(m.files, CheckpointSummary));
      var contents := SortByStart(OfType(m.files, CheckpointContent));
      if LinesUp(summaries, contents) then Ok(Some(Zip(summaries, contents))) else Panic
  }

  /** The first checkpoint of the first file of a later epoch, or the greatest number. */
  function NextCheckpointAfterEpoch(m: Manifest, epoch: nat): Outcome<nat> {
    var summaries := SortByStart(OfType(m.files, CheckpointSummary));
    if !Contiguous(summaries) || summaries == [] || summaries[0].start != 0 then Panic
    else Ok(FirstAfter(summaries, epoch))
  }

  function FirstAfter(summaries: seq<FileMetadata>, epoch: nat): nat {
    if summaries == [] then U64_MAX
    else if summaries[0].epoch > epoch then summaries[0].start
    else FirstAfter(summaries[1..], epoch)
  }

  // ----- Sorting in general -----

  lemma {:induction false} InsertKeeps(files: seq<FileMetadata>, f: FileMetadata)
    ensures multiset(InsertByStart(files, f)) == multiset(files) + multiset{f}
  {
    if files != [] && files[|files| - 1].start > f.start {
      var front, last := files[..|files| - 1], files[|files| - 1];
      assert files == front + [last];
      InsertKeeps(front, f);
    }
  }

  lemma {:induction false} InsertSorted(files: seq<FileMetadata>, f: FileMetadata)
    requires ByStart(files)
    ensures ByStart(InsertByStart(files, f))
  {
    if files != [] && files[|files| - 1].start > f.start {
      var front, last := files[..|files| - 1], files[|files| - 1];
      InsertSorted(front, f);
      var inner := InsertByStart(front, f);
      forall i | 0 <= i < |inner|
        ensures inner[i].start <= last.start
      {
        InsertKeeps(front, f);
        hide InsertByStart;
        assert inner[i] in multiset(inner);
        assert inner[i] == f || inner[i] in front;
      }
    }
  }

  lemma {:induction false} SortSorted(files: seq<FileMetadata>)
    ensures ByStart(SortByStart(files)) && multiset(SortByStart(files)) == multiset(files)
  {
    if files != [] {
      var front, last := files[..|files| - 1], files[|files| - 1];
      assert files == front + [last];
      SortSorted(front);
      InsertSorted(SortByStart(front), last);
      InsertKeeps(SortByStart(front), last);
    }
  }

  /** Sorting files that are in order changes nothing. */
  lemma {:induction false} SortIdentity(files: seq<FileMetadata>)
    requires ByStart(files)
    ensures SortByStart(files) == files
  {
    if files != [] {
      var front, last := files[..|files| - 1], files[|files| - 1];
      assert files == front + [last];
      SortIdentity(front);
      hide ByStart, SortByStart;
      assert InsertByStart(front, last) == files;
    }
  }

  lemma {:induction false} OfTypeMembers(files: seq<FileMetadata>, t: FileType, f: FileMetadata)
    ensures f in OfType(files, t) <==> f in files && f.fileType == t
  {
    if files != [] {
      var front := files[..|files| - 1];
      assert files == front + [files[|files| - 1]];
      OfTypeMembers(front, t, f);
    }
  }

  ghost predicate PairedFrom(m: Manifest, p: FilePair) {
    && p.summary in m.files && p.summary.fileType == CheckpointSummary
    && p.content in m.files && p.content.fileType == CheckpointContent
    && p.summary.start == p.content.start && p.summary.end == p.content.end
  }

  /** Whatever the manifest, verified files are its own files, paired by range and end to end from 0. */
  lemma VerifySound(m: Manifest)
    requires VerifyManifest(m).Ok? && VerifyManifest(m).value.Some?
    ensures var pairs := VerifyManifest(m).value.value;
            && pairs != [] && pairs[0].summary.start == 0
            && (forall i :: 0 <= i < |pairs| ==> PairedFrom(m, pairs[i]))
            && (forall i, j :: 0 <= i && j == i + 1 < |pairs| ==> pairs[j].summary.start == pairs[i].summary.end)
            && (forall f :: f in m.files ==>
                  exists i :: 0 <= i < |pairs| && (pairs[i].summary == f || pairs[i].content == f))
  {
    var summaries := SortByStart(OfType(m.files, CheckpointSummary));
    var contents := SortByStart(OfType(m.files, CheckpointContent));
    assert LinesUp(summaries, contents) && VerifyManifest(m).value.value == Zip(summaries, contents);
    forall f
      ensures f in summaries <==> f in m.files && f.fileType == CheckpointSummary
      ensures f in contents <==> f in m.files && f.fileType == CheckpointContent
    {
      hide *;
      SortedMembers(m.files, CheckpointSummary, f);
      SortedMembers(m.files, CheckpointContent, f);
    }
    ZipSound(m, summaries, contents);
    hide *;
  }

  lemma ZipSound(m: Manifest, summaries: seq<FileMetadata>, contents: seq<FileMetadata>)
    requires LinesUp(summaries, contents)
    requires forall f :: f in summaries <==> f in m.files && f.fileType == CheckpointSummary
    requires forall f :: f in contents <==> f in m.files && f.fileType == CheckpointContent
    ensures var pairs := Zip(summaries, contents);
            && pairs != [] && pairs[0].summary.start == 0
            && (forall i :: 0 <= i < |pairs| ==> PairedFrom(m, pairs[i]))
            && (forall i, j :: 0 <= i && j == i + 1 < |pairs| ==> pairs[j].summary.start == pairs[i].summary.end)
            && (forall f :: f in m.files ==>
                  exists i :: 0 <= i < |pairs| && (pairs[i].summary == f || pairs[i].content == f))
  {
    var pairs := Zip(summaries, contents);
    forall f | f in m.files
      ensures exists i :: 0 <= i < |pairs| && (pairs[i].summary == f || pairs[i].content == f)
    {
      var same := if f.fileType == CheckpointSummary then summaries else contents;
      var i :| 0 <= i < |same| && same[i] == f;
      assert pairs[i].summary == f || pairs[i].content == f;
    }
  }

  lemma SortedMembers(files: seq<FileMetadata>, t: FileType, f: FileMetadata)
    ensures f in SortByStart(OfType(files, t)) <==> f in files && f.fileType == t
  {
    var picked := OfType(files, t);
    SortSorted(picked);
    OfTypeMembers(files, t, f);
    assert f in multiset(SortByStart(picked)) <==> f in multiset(picked);
  }

  ghost predicate StrictlyByStart(files: seq<FileMetadata>) {
    forall i, j :: 0 <= i < j < |files| ==> files[i].start < files[j].start
  }

  /** Files with different starts have only one order. */
  lemma {:induction false} OneOrder(a: seq<FileMetadata>, b: seq<FileMetadata>)
    requires StrictlyByStart(a) && ByStart(b) && multiset(a) == multiset(b)
    ensures a == b
  {
    SameLength(a, b);
    if a != [] {
      SameLast(a, b);
      assert StrictlyByStart(a[..|a| - 1]) && ByStart(b[..|b| - 1]);
      hide StrictlyByStart, ByStart;
      WithoutLast(a);
      WithoutLast(b);
      OneOrder(a[..|a| - 1], b[..|b| - 1]);
    }
  }

  lemma SameLength(a: seq<FileMetadata>, b: seq<FileMetadata>)
    requires multiset(a) == multiset(b)
    ensures |a| == |b|
  {
    assert |multiset(a)| == |a| && |multiset(b)| == |b|;
  }

  lemma SameLast(a: seq<FileMetadata>, b: seq<FileMetadata>)
    requires StrictlyByStart(a) && ByStart(b) && multiset(a) == multiset(b) && |a| == |b| > 0
    ensures a[|a| - 1] == b[|b| - 1]
  {
    var lastA, lastB := a[|a| - 1], b[|b| - 1];
    assert lastA in multiset(a) && lastB in multiset(b);
    assert lastA in b && lastB in a;
    var i :| 0 <= i < |a| && a[i] == lastB;
    var j :| 0 <= j < |b| && b[j] == lastA;
    assert lastA.start <= lastB.start;
  }

  lemma WithoutLast(a: seq<FileMetadata>)
    requires a != []
    ensures multiset(a[..|a| - 1]) == multiset(a) - multiset{a[|a| - 1]}
  {
    assert a == a[..|a| - 1] + [a[|a| - 1]];
  }

  /** Any manifest whose files, in the order of their starts, pair up end to end from 0 passes, and
      comes out in that order. */
  lemma VerifyAccepts(m: Manifest, summaries: seq<FileMetadata>, contents: seq<FileMetadata>)
    requires multiset(summaries) == multiset(OfType(m.files, CheckpointSummary)) && StrictlyByStart(summaries)
    requires multiset(contents) == multiset(OfType(m.files, CheckpointContent)) && StrictlyByStart(contents)
    requires |summaries| == |contents| > 0 && summaries[0].start == 0
    requires forall i :: 0 <= i < |summaries| ==>
               summaries[i].start == contents[i].start && summaries[i].end == contents[i].end
    requires forall i, j :: 0 <= i && j == i + 1 < |summaries| ==> summaries[j].start == summaries[i].end
    ensures VerifyManifest(m) == Ok(Some(Zip(summaries, contents)))
  {
    LinedUp(summaries, contents);
    assert m.files == [] ==> OfType(m.files, CheckpointSummary) == [];
    hide SortByStart, OfType, LinesUp, Zip, StrictlyByStart, ByStart;
    SortSorted(OfType(m.files, CheckpointSummary));
    SortSorted(OfType(m.files, CheckpointContent));
    OneOrder(summaries, SortByStart(OfType(m.files, CheckpointSummary)));
    OneOrder(contents, SortByStart(OfType(m.files, CheckpointContent)));
    SameLength(summaries, OfType(m.files, CheckpointSummary));
  }

  lemma LinedUp(summaries: seq<FileMetadata>, contents: seq<FileMetadata>)
    requires |summaries| == |contents| > 0 && summaries[0].start == 0
    requires forall i :: 0 <= i < |summaries| ==>
               summaries[i].start == contents[i].start && summaries[i].end == contents[i].end
    requires forall i, j :: 0 <= i && j == i + 1 < |summaries| ==> summaries[j].start == summaries[i].end
    ensures LinesUp(summaries, contents)
  {
  }

  // ----- Manifests the writer produces -----

  function SummaryFiles(chain: Chain, segments: seq<Segment>): (files: seq<FileMetadata>)
    ensures |files| == |segments| && forall i :: 0 <= i < |segments| ==> files[i] == SummaryFile(chain, segments[i])
  {
    seq(|segments|, i requires 0 <= i < |segments| => SummaryFile(chain, segments[i]))
  }

  function ContentFiles(chain: Chain, segments: seq<Segment>): (files: seq<FileMetadata>)
    ensures |files| == |segments| && forall i :: 0 <= i < |segments| ==> files[i] == ContentFile(chain, segments[i])
  {
    seq(|segments|, i requires 0 <= i < |segments| => ContentFile(chain, segments[i]))
  }

  lemma {:induction false} OfTypeFiles(chain: Chain, segments: seq<Segment>)
    ensures OfType(FilesOf(chain, segments), CheckpointSummary) == SummaryFiles(chain, segments)
    ensures OfType(FilesOf(chain, segments), CheckpointContent) == ContentFiles(chain, segments)
  {
    if segments != [] {
      var front, last := segments[..|segments| - 1], segments[|segments| - 1];
      OneMoreSegment(chain, segments);
      hide *;
      OfTypeFiles(chain, front);
      OfTypePair(FilesOf(chain, front), ContentFile(chain, last), SummaryFile(chain, last));
    }
  }

  lemma OneMoreSegment(chain: Chain, segments: seq<Segment>)
    requires segments != []
    ensures var front, last := segments[..|segments| - 1], segments[|segments| - 1];
            && FilesOf(chain, segments) == FilesOf(chain, front) + [ContentFile(chain, last), SummaryFile(chain, last)]
            && SummaryFiles(chain, segments) == SummaryFiles(chain, front) + [SummaryFile(chain, last)]
            && ContentFiles(chain, segments) == ContentFiles(chain, front) + [ContentFile(chain, last)]
            && ContentFile(chain, last).fileType == CheckpointContent
            && SummaryFile(chain, last).fileType == CheckpointSummary
  {
  }

  lemma OfTypePair(files: seq<FileMetadata>, content: FileMetadata, summary: FileMetadata)
    requires content.fileType == CheckpointContent && summary.fileType == CheckpointSummary
    ensures OfType(files + [content, summary], CheckpointSummary) == OfType(files, CheckpointSummary) + [summary]
    ensures OfType(files + [content, summary], CheckpointContent) == OfType(files, CheckpointContent) + [content]
  {
    var one, two := files + [content], files + [content, summary];
    assert two[..|two| - 1] == one && one[..|one| - 1] == files;
  }

  /** On a sound manifest no check fails, and the files come out in segment order. */
  lemma VerifyComplete(chain: Chain, m: Manifest, segments: seq<Segment>)
    requires SoundManifest(chain, m, segments)
    ensures VerifyManifest(m)
            == Ok(if segments == [] then None
                  else Some(Zip(SummaryFiles(chain, segments), ContentFiles(chain, segments))))
  {
    SortedFiles(chain, m, segments);
    assert m.files == [] <==> segments == [];
    if segments != [] {
      FilesLineUp(chain, segments, m.next);
    }
    hide LinesUp, SortByStart, OfType, SummaryFiles, ContentFiles, Zip, Tile, FilesOf;
  }

  lemma FilesLineUp(chain: Chain, segments: seq<Segment>, next: nat)
    requires Tile(chain, segments, next) && segments != []
    ensures LinesUp(SummaryFiles(chain, segments), ContentFiles(chain, segments))
  {
    var summaries, contents := SummaryFiles(chain, segments), ContentFiles(chain, segments);
    forall i, j | 0 <= i < |segments| && 0 <= j < |segments| && j == i + 1
      ensures summaries[j].start == summaries[i].end && contents[j].start == contents[i].end
    {
      assert segments[i].end == segments[j].start;
    }
  }

  lemma SortedFiles(chain: Chain, m: Manifest, segments: seq<Segment>)
    requires SoundManifest(chain, m, segments)
    ensures SortByStart(OfType(m.files, CheckpointSummary)) == SummaryFiles(chain, segments)
    ensures SortByStart(OfType(m.files, CheckpointContent)) == ContentFiles(chain, segments)
  {
    OfTypeFiles(chain, segments);
    StartsAscend(chain, segments, m.next);
    hide *;
    SortIdentity(SummaryFiles(chain, segments));
    SortIdentity(ContentFiles(chain, segments));
  }

  lemma StartsAscend(chain: Chain, segments: seq<Segment>, next: nat)
    requires Tile(chain, segments, next)
    ensures ByStart(SummaryFiles(chain, segments)) && ByStart(ContentFiles(chain, segments))
    ensures forall i, j :: 0 <= i < j < |segments| ==> segments[i].start < segments[i].end <= segments[j].start
  {
    forall i, j | 0 <= i < j < |segments|
      ensures segments[i].start < segments[i].end <= segments[j].start
    {
      SegmentsBelow(chain, segments, next, i);
      SegmentsOrdered(chain, segments, next, i, j);
    }
  }

  /** The first checkpoint of an epoch after `epoch`, if the manifest has one. */
  lemma AfterEpochExact(chain: Chain, m: Manifest, segments: seq<Segment>, epoch: nat)
    requires SoundManifest(chain, m, segments)
    ensures var r := NextCheckpointAfterEpoch(m, epoch);
            if m.next == 0 then r.Panic? else r.Ok? && IsFirstAfter(chain, 0, m.next, epoch, r.value)
  {
    SortedFiles(chain, m, segments);
    if segments == [] {
      return;
    }
    FilesLineUp(chain, segments, m.next);
    FirstAfterExact(chain, segments, m.next, epoch, 0);
    assert SummaryFiles(chain, segments)[0..] == SummaryFiles(chain, segments);
  }

  /** `r` is the first checkpoint of `from` to `next` in a later epoch, or the maximum if none is. */
  ghost predicate IsFirstAfter(chain: Chain, from: nat, next: nat, epoch: nat, r: nat) {
    if exists n :: from <= n < next && EpochAt(chain, n) > epoch
    then from <= r < next && EpochAt(chain, r) > epoch && forall n :: from <= n < r ==> EpochAt(chain, n) <= epoch
    else r == U64_MAX
  }

  lemma {:induction false} FirstAfterExact(chain: Chain, segments: seq<Segment>, next: nat, epoch: nat, i: nat)
    requires Tile(chain, segments, next) && i <= |segments|
    ensures var from := if i < |segments| then segments[i].start else next;
            IsFirstAfter(chain, from, next, epoch, FirstAfter(SummaryFiles(chain, segments)[i..], epoch))
    decreases |segments| - i
  {
    if i < |segments| {
      var s, rest := segments[i], SummaryFiles(chain, segments)[i..];
      assert s in segments && IsSegment(chain, s);
      assert i + 1 < |segments| ==> s.end == segments[i + 1].start;
      SegmentsBelow(chain, segments, next, i);
      assert i + 1 == |segments| ==> s.end == next;
      hide Tile, IsSegment, IsFirstAfter;
      assert rest[0] == SummaryFile(chain, s) && rest[1..] == SummaryFiles(chain, segments)[i + 1..];
      FirstAfterExact(chain, segments, next, epoch, i + 1);
      OneSegmentEarlier(chain, s, next, epoch, FirstAfter(rest[1..], epoch));
    }
  }

  lemma OneSegmentEarlier(chain: Chain, s: Segment, next: nat, epoch: nat, r: nat)
    requires IsSegment(chain, s) && s.end <= next && IsFirstAfter(chain, s.end, next, epoch, r)
    ensures IsFirstAfter(chain, s.start, next, epoch, if s.epoch > epoch then s.start else r)
  {
    if s.epoch > epoch {
      assert EpochAt(chain, s.start) > epoch;
    }
  }

  // ----- Selecting the files of a range -----

  ghost predicate Ascending(files: seq<FilePair>) {
    forall i, j :: 0 <= i < j < |files| ==> files[i].summary.start < files[j].summary.start
  }

  /** The file starting at `key`, or the place where it would be inserted. */
  method BinarySearch(files: seq<FilePair>, key: nat) returns (found: bool, index: nat)
    ensures index <= |files| && (found ==> index < |files| && files[index].summary.start == key)
    ensures Ascending(files) ==>
              && (forall i :: 0 <= i < index ==> files[i].summary.start < key)
              && (forall i :: index <= i < |files| ==> key <= files[i].summary.start)
              && (found <==> exists i :: 0 <= i < |files| && files[i].summary.start == key)
  {
    var low, high := 0, |files|;
    while low < high
      invariant 0 <= low <= high <= |files|
      invariant Ascending(files) ==> forall i :: 0 <= i < low ==> files[i].summary.start < key
      invariant Ascending(files) ==> forall i :: high <= i < |files| ==> key < files[i].summary.start
    {
      var middle := low + (high - low) / 2;
      if files[middle].summary.start == key {
        return true, middle;
      } else if files[middle].summary.start < key {
        low := middle + 1;
      } else {
        high := middle;
      }
    }
    return false, low;
  }

  /** `first` is the last file that starts no later than the range, `past` the first that starts at
      its end or later. */
  ghost predicate Selected(files: seq<FilePair>, start: nat, end: nat, first: int, past: nat) {
    && 0 <= first < |files| && past <= |files|
    && (forall i :: 0 <= i < |files| ==> (first < i <==> start < files[i].summary.start))
    && (forall i :: 0 <= i < |files| ==> (i < past <==> files[i].summary.start < end))
  }

  /** The files to read for a range: from `first` up to `past`. A first index below 0 underflows. */
  method SelectFiles(files: seq<FilePair>, start: nat, end: nat) returns (first: int, past: nat)
    ensures -1 <= first < |files| && past <= |files|
    ensures Ascending(files) && files != [] && files[0].summary.start <= start ==>
              Selected(files, start, end, first, past)
  {
    var found, index := BinarySearch(files, start);
    first := index;
    if !found {
      first := first - 1;
    }
    found, past := BinarySearch(files, end);
  }

  /** On verified files, the selection is what filtering by overlap with the range would give. */
  lemma SelectionIsFilter(files: seq<FilePair>, start: nat, end: nat, first: int, past: nat)
    requires Selected(files, start, end, first, past) && start < files[|files| - 1].summary.end
    requires forall i, j :: 0 <= i && j == i + 1 < |files| ==> files[j].summary.start == files[i].summary.end
    ensures forall i :: 0 <= i < |files| ==>
              (first <= i < past <==> start < files[i].summary.end && files[i].summary.start < end)
  {
    forall i | 0 <= i < |files|
      ensures first <= i <==> start < files[i].summary.end
    {
      if i + 1 < |files| {
        assert files[i + 1].summary.start == files[i].summary.end;
      }
    }
  }

  // ----- Reading them -----

  /** What a read put into the store, and whether it succeeded. */
  datatype Fetched = Fetched(inserted: seq<Checkpoint>, ok: bool)

  function Decode(summary: FileData, content: FileData): Option<seq<Checkpoint>> {
    if summary.SummaryData? && content.ContentData?
    then Some(ZipData(summary.summaries, content.contents))
    else None
  }

  function ZipData(summaries: seq<Summary>, contents: seq<Contents>): (c: seq<Checkpoint>)
    ensures |c| == if |summaries| <= |contents| then |summaries| else |contents|
    ensures forall i :: 0 <= i < |c| ==> c[i] == Checkpoint(summaries[i], contents[i])
  {
    var n := if |summaries| <= |contents| then |summaries| else |contents|;
    seq(n, i requires 0 <= i < n => Checkpoint(summaries[i], contents[i]))
  }

  function Within(checkpoints: seq<Checkpoint>, start: nat, end: nat): seq<Checkpoint> {
    if checkpoints == [] then []
    else
      var last := checkpoints[|checkpoints| - 1];
      Within(checkpoints[..|checkpoints| - 1], start, end)
      + if start <= last.summary.sequence < end then [last] else []
  }

  function FetchPair(remote: Files, pair: FilePair): Option<seq<Checkpoint>> {
    if pair.summary.FilePath() in remote && pair.content.FilePath() in remote
    then Decode(remote[pair.summary.FilePath()], remote[pair.content.FilePath()])
    else None
  }

  /** The outcome of reading the files from `first` up to `past` in order, stopping at the first error. */
  function Fetch(remote: Files, files: seq<FilePair>, first: nat, past: nat, start: nat, end: nat): Fetched
    requires past <= |files|
    decreases past
  {
    if past <= first then Fetched([], true)
    else
      var before := Fetch(remote, files, first, past - 1, start, end);
      var found := FetchPair(remote, files[past - 1]);
      if !before.ok then before
      else if found.None? then before.(ok := false)
      else Insert(before.inserted, Within(found.value, start, end))
  }

  /** Inserts checkpoints one by one, up to the first whose contents do not match its summary. */
  function Insert(inserted: seq<Checkpoint>, checkpoints: seq<Checkpoint>): Fetched
    decreases checkpoints
  {
    if checkpoints == [] then Fetched(inserted, true)
    else if !checkpoints[0].Genuine() then Fetched(inserted, false)
    else Insert(inserted + [checkpoints[0]], checkpoints[1..])
  }

  lemma {:induction false} InsertAll(inserted: seq<Checkpoint>, checkpoints: seq<Checkpoint>)
    requires forall c :: c in checkpoints ==> c.Genuine()
    ensures Insert(inserted, checkpoints) == Fetched(inserted + checkpoints, true)
    decreases checkpoints
  {
    if checkpoints != [] {
      InsertAll(inserted + [checkpoints[0]], checkpoints[1..]);
      assert inserted + [checkpoints[0]] + checkpoints[1..] == inserted + checkpoints;
    }
  }

  method FetchFiles(remote: Files, files: seq<FilePair>, first: nat, past: nat, start: nat, end: nat)
      returns (out: Fetched)
    requires past <= |files|
    ensures out == Fetch(remote, files, first, past, start, end)
  {
    out := Fetched([], true);
    var i := first;
    while i < past && out.ok
      invariant first <= i && (i <= past || i == first)
      invariant out == Fetch(remote, files, first, if i <= past then i else past, start, end)
    {
      var found := FetchPair(remote, files[i]);
      hide FetchPair, Within, Insert;
      out := if found.None? then out.(ok := false) else Insert(out.inserted, Within(found.value, start, end));
      i := i + 1;
    }
    if !out.ok {
      FetchStops(remote, files, first, i, past, start, end);
    }
  }

  ghost predicate AllWanted(checkpoints: seq<Checkpoint>, start: nat, end: nat) {
    forall c :: c in checkpoints ==> c.Genuine() && start <= c.summary.sequence < end
  }

  lemma {:induction false} InsertWanted(
      inserted: seq<Checkpoint>, checkpoints: seq<Checkpoint>, start: nat, end: nat)
    requires AllWanted(inserted, start, end)
    requires forall c :: c in checkpoints ==> start <= c.summary.sequence < end
    ensures AllWanted(Insert(inserted, checkpoints).inserted, start, end)
    decreases checkpoints
  {
    if checkpoints != [] && checkpoints[0].Genuine() {
      InsertWanted(inserted + [checkpoints[0]], checkpoints[1..], start, end);
    }
  }

  lemma {:induction false} WithinWanted(checkpoints: seq<Checkpoint>, start: nat, end: nat)
    ensures forall c :: c in Within(checkpoints, start, end) ==> start <= c.summary.sequence < end
  {
    if checkpoints != [] {
      WithinWanted(checkpoints[..|checkpoints| - 1], start, end);
    }
  }

  /** Whatever the files hold, only genuine checkpoints of the range are inserted. */
  lemma {:induction false} FetchWanted(
      remote: Files, files: seq<FilePair>, first: nat, past: nat, start: nat, end: nat)
    requires past <= |files|
    ensures AllWanted(Fetch(remote, files, first, past, start, end).inserted, start, end)
    decreases past
  {
    hide FetchPair, Within, Insert, AllWanted;
    if past <= first {
      NoneWanted(start, end);
    } else {
      var before := Fetch(remote, files, first, past - 1, start, end);
      var found := FetchPair(remote, files[past - 1]);
      FetchWanted(remote, files, first, past - 1, start, end);
      if before.ok && found.Some? {
        WithinWanted(found.value, start, end);
        InsertWanted(before.inserted, Within(found.value, start, end), start, end);
      }
    }
  }

  lemma NoneWanted(start: nat, end: nat)
    ensures AllWanted([], start, end)
  {
  }

  /** Both files are there, each of its kind, and the contents of every checkpoint of the range
      match its summary. */
  ghost predicate Intact(remote: Files, pair: FilePair, start: nat, end: nat) {
    && pair.summary.FilePath() in remote && remote[pair.summary.FilePath()].SummaryData?
    && pair.content.FilePath() in remote && remote[pair.content.FilePath()].ContentData?
    && var summaries := remote[pair.summary.FilePath()].summaries;
       var contents := remote[pair.content.FilePath()].contents;
       forall i :: 0 <= i < |summaries| && i < |contents| && start <= summaries[i].sequence < end ==>
         summaries[i].contentDigest == contents[i]
  }

  lemma {:induction false} InsertOkIff(inserted: seq<Checkpoint>, checkpoints: seq<Checkpoint>)
    ensures Insert(inserted, checkpoints).ok <==> forall c :: c in checkpoints ==> c.Genuine()
    decreases checkpoints
  {
    if checkpoints != [] {
      var rest := checkpoints[1..];
      assert checkpoints == [checkpoints[0]] + rest;
      InsertOkIff(inserted + [checkpoints[0]], rest);
    }
  }

  lemma {:induction false} WithinMembers(checkpoints: seq<Checkpoint>, start: nat, end: nat, c: Checkpoint)
    ensures c in Within(checkpoints, start, end) <==> c in checkpoints && start <= c.summary.sequence < end
  {
    if checkpoints != [] {
      var front, last := checkpoints[..|checkpoints| - 1], checkpoints[|checkpoints| - 1];
      assert checkpoints == front + [last];
      WithinMembers(front, start, end, c);
    }
  }

  lemma IntactIff(remote: Files, pair: FilePair, inserted: seq<Checkpoint>, start: nat, end: nat)
    ensures Intact(remote, pair, start, end)
            <==> var found := FetchPair(remote, pair);
                 found.Some? && Insert(inserted, Within(found.value, start, end)).ok
  {
    var found := FetchPair(remote, pair);
    if found.Some? {
      var all := found.value;
      InsertOkIff(inserted, Within(all, start, end));
      forall c
        ensures c in Within(all, start, end) <==> c in all && start <= c.summary.sequence < end
      {
        WithinMembers(all, start, end, c);
      }
      hide Within, Insert;
      assert forall i :: 0 <= i < |all| ==> all[i] in all;
    }
  }

  /** Reading succeeds exactly when all selected files are intact. */
  lemma {:induction false} FetchOkIff(
      remote: Files, files: seq<FilePair>, first: nat, past: nat, start: nat, end: nat)
    requires past <= |files|
    ensures Fetch(remote, files, first, past, start, end).ok
            <==> forall i :: first <= i < past ==> Intact(remote, files[i], start, end)
    decreases past
  {
    hide Intact, FetchPair, Within, Insert;
    if first < past {
      FetchOkIff(remote, files, first, past - 1, start, end);
      IntactIff(remote, files[past - 1], Fetch(remote, files, first, past - 1, start, end).inserted, start, end);
    }
  }

  /** Reads of a trustworthy archive return exactly the checkpoints of the range that it holds. */
  method Read(ghost chain: Chain, m: Manifest, remote: Files, start: nat, end: nat) returns (r: Outcome<Fetched>)
    ensures m.next == 0 || start >= m.next ==> r == Ok(Fetched([], false))
    ensures r.Ok? ==> AllWanted(r.value.inserted, start, end)
    ensures GoodChain(chain) && Trustworthy(chain, m, remote) && start < m.next ==>
              r == Ok(Fetched(Range(chain, start, Least(end, m.next)), true))
  {
    if m.next == 0 || start > m.next - 1 {
      return Ok(Fetched([], false));
    }
    var verified := VerifyManifest(m);
    ReadExact(chain, m, remote, start, end);
    hide GoodChain, Trustworthy, VerifyManifest, Range, Least, Fetch, Ascending, Selected;
    if verified.Panic? {
      return Panic;
    }
    if verified.value.None? {
      return Ok(Fetched([], false));
    }
    var files := verified.value.value;
    var first, past := SelectFiles(files, start, end);
    if first < 0 {
      return Panic;
    }
    var out := FetchFiles(remote, files, first, past, start, end);
    FetchWanted(remote, files, first, past, start, end);
    return Ok(out);
  }

  function Least(a: nat, b: nat): nat {
    if a <= b then a else b
  }

  lemma {:induction false} FetchStops(
      remote: Files, files: seq<FilePair>, first: nat, i: nat, past: nat, start: nat, end: nat)
    requires past <= |files| && i <= past && !Fetch(remote, files, first, i, start, end).ok
    ensures Fetch(remote, files, first, past, start, end) == Fetch(remote, files, first, i, start, end)
    decreases past
  {
    if i < past {
      FetchStops(remote, files, first, i, past - 1, start, end);
    }
  }

  /** For a trustworthy manifest, verification succeeds with ascending files, and fetching the
      selected ones returns the range. */
  lemma ReadExact(chain: Chain, m: Manifest, remote: Files, start: nat, end: nat)
    ensures GoodChain(chain) && Trustworthy(chain, m, remote) && start < m.next ==>
              && VerifyManifest(m).Ok? && VerifyManifest(m).value.Some?
              && var files := VerifyManifest(m).value.value;
                 && Ascending(files) && files != [] && files[0].summary.start == 0
                 && forall first, past :: Selected(files, start, end, first, past) ==>
                      Fetch(remote, files, first, past, start, end)
                      == Fetched(Range(chain, start, Least(end, m.next)), true)
  {
    if GoodChain(chain) && Trustworthy(chain, m, remote) && start < m.next {
      var segments: seq<Segment> :| SoundManifest(chain, m, segments);
      var files := Zip(SummaryFiles(chain, segments), ContentFiles(chain, segments));
      VerifyComplete(chain, m, segments);
      StartsAscend(chain, segments, m.next);
      FilesHoldSegments(chain, m, remote, segments);
      hide Fetch, FetchPair, Selected, Zip, HoldsSegments, SummaryFiles, ContentFiles;
      hide Trustworthy, GoodChain, VerifyManifest;
      forall first, past | Selected(files, start, end, first, past)
        ensures Fetch(remote, files, first, past, start, end)
                == Fetched(Range(chain, start, Least(end, m.next)), true)
      {
        FetchSelected(chain, m, remote, segments, files, start, end, first, past);
      }
    }
  }

  lemma FetchSegment(chain: Chain, m: Manifest, remote: Files, segments: seq<Segment>, i: nat)
    requires SoundManifest(chain, m, segments) && Trustworthy(chain, m, remote) && i < |segments|
    ensures FetchPair(remote, FilePair(SummaryFile(chain, segments[i]), ContentFile(chain, segments[i])))
            == Some(Range(chain, segments[i].start, segments[i].end))
  {
    var s := segments[i];
    assert s in segments;
    FilesOfMembers(chain, segments, SummaryFile(chain, s));
    FilesOfMembers(chain, segments, ContentFile(chain, s));
    var range := Range(chain, s.start, s.end);
    assert Staged(remote, SummaryFile(chain, s)) && Staged(remote, ContentFile(chain, s));
    assert ZipData(Summaries(range), AllContents(range)) == range;
  }

  ghost predicate HoldsSegments(chain: Chain, remote: Files, segments: seq<Segment>, files: seq<FilePair>) {
    && |files| == |segments|
    && forall i :: 0 <= i < |segments| ==>
         && files[i].summary.start == segments[i].start
         && FetchPair(remote, files[i]) == Some(Range(chain, segments[i].start, segments[i].end))
  }

  lemma FilesHoldSegments(chain: Chain, m: Manifest, remote: Files, segments: seq<Segment>)
    requires SoundManifest(chain, m, segments) && Trustworthy(chain, m, remote)
    ensures HoldsSegments(chain, remote, segments, Zip(SummaryFiles(chain, segments), ContentFiles(chain, segments)))
  {
    hide SoundManifest, Trustworthy, FetchPair, Zip, SummaryFiles, ContentFiles;
    forall i | 0 <= i < |segments| {
      FetchSegment(chain, m, remote, segments, i);
    }
  }

  lemma FetchSelected(
      chain: Chain, m: Manifest, remote: Files, segments: seq<Segment>, files: seq<FilePair>,
      start: nat, end: nat, first: int, past: nat)
    requires GoodChain(chain) && Tile(chain, segments, m.next) && start < m.next
    requires HoldsSegments(chain, remote, segments, files) && Selected(files, start, end, first, past)
    ensures Fetch(remote, files, first, past, start, end)
            == Fetched(Range(chain, start, Least(end, m.next)), true)
  {
    hide GoodChain, Fetch, FetchPair;
    assert files[first].summary.start == segments[first].start;
    SegmentsBelow(chain, segments, m.next, first);
    if first + 1 < |segments| {
      assert segments[first].end == segments[first + 1].start;
      assert start < files[first + 1].summary.start;
    }
    FetchUpTo(chain, m, remote, segments, files, start, end, first, past);
    hide Range;
    if first < past {
      SegmentsBelow(chain, segments, m.next, past - 1);
      if past < |segments| {
        assert segments[past - 1].end == segments[past].start;
        assert end <= files[past].summary.start;
        assert Least(end, segments[past - 1].end) == Least(end, m.next) == end;
      }
    } else {
      assert end <= files[first].summary.start;
      EmptyRange(chain, start, Least(end, start), Least(end, m.next));
    }
  }

  lemma EmptyRange(chain: Chain, start: nat, a: nat, b: nat)
    requires a <= start && b <= start
    ensures Range(chain, start, a) == Range(chain, start, b) == []
  {
  }

  /** Files from the one holding `start` up to `past` yield the range up to where the last one ends. */
  lemma {:induction false} FetchUpTo(
      chain: Chain, m: Manifest, remote: Files, segments: seq<Segment>, files: seq<FilePair>,
      start: nat, end: nat, first: nat, past: nat)
    requires GoodChain(chain) && Tile(chain, segments, m.next) && HoldsSegments(chain, remote, segments, files)
    requires first < |segments| && past <= |segments| && segments[first].start <= start < segments[first].end
    ensures var reached := if past <= first then start else segments[past - 1].end;
            Fetch(remote, files, first, past, start, end) == Fetched(Range(chain, start, Least(end, reached)), true)
    decreases past
  {
    hide GoodChain, Range, FetchPair, Within, Insert;
    if past <= first {
      EmptyRange(chain, start, Least(end, start), start);
    } else {
      FetchUpTo(chain, m, remote, segments, files, start, end, first, past - 1);
      var s := segments[past - 1];
      assert FetchPair(remote, files[past - 1]) == Some(Range(chain, s.start, s.end));
      SegmentsBelow(chain, segments, m.next, past - 1);
      if first < past - 1 {
        assert segments[past - 2].end == s.start;
        SegmentsOrdered(chain, segments, m.next, first, past - 1);
      }
      hide Tile, HoldsSegments;
      WithinRange(chain, s.start, s.end, start, end);
      RangeInserted(
        chain, Range(chain, start, Least(end, Most(s.start, start))), Most(s.start, start), Least(s.end, end));
      RangesJoin(chain, start, Most(s.start, start), s.end, end);
    }
  }

  lemma RangeInserted(chain: Chain, before: seq<Checkpoint>, start: nat, end: nat)
    requires GoodChain(chain)
    ensures Insert(before, Range(chain, start, end)) == Fetched(before + Range(chain, start, end), true)
  {
    forall c | c in Range(chain, start, end)
      ensures c.Genuine()
    {
      var i :| 0 <= i < |Range(chain, start, end)| && Range(chain, start, end)[i] == c;
      assert c == chain(start + i);
    }
    hide GoodChain;
    InsertAll(before, Range(chain, start, end));
  }

  /** Two ranges end to end, both cut off at `end`, make up the whole range cut off there. */
  lemma RangesJoin(chain: Chain, start: nat, middle: nat, past: nat, end: nat)
    requires start <= middle <= past
    ensures Range(chain, start, Least(end, middle)) + Range(chain, middle, Least(past, end))
            == Range(chain, start, Least(end, past))
  {
    var left, right := Range(chain, start, Least(end, middle)), Range(chain, middle, Least(past, end));
    var whole := Range(chain, start, Least(end, past));
    assert |whole| == |left| + |right|;
    hide Range, Least;
    forall i | 0 <= i < |whole|
      ensures whole[i] == (left + right)[i]
    {
      assert i < |left| || right[i - |left|] == chain(middle + (i - |left|));
    }
  }

  function Most(a: nat, b: nat): nat {
    if a <= b then b else a
  }

  /** Filtering a range of the chain by sequence number intersects the two ranges. */
  lemma {:induction false} WithinRange(chain: Chain, a: nat, b: nat, start: nat, end: nat)
    requires GoodChain(chain)
    ensures Within(Range(chain, a, b), start, end) == Range(chain, Most(a, start), Least(b, end))
    decreases b
  {
    hide GoodChain, Range, Within;
    if a < b {
      SequenceAt(chain, b - 1);
      RangeSnoc(chain, a, b);
      WithinSnoc(Range(chain, a, b - 1), chain(b - 1), start, end);
      WithinRange(chain, a, b - 1, start, end);
      if start <= b - 1 < end {
        RangeSnoc(chain, Most(a, start), b);
      } else if b <= start {
        EmptyRange(chain, Most(a, start), Least(b - 1, end), Least(b, end));
      }
    } else {
      EmptyRange(chain, a, b, b);
      WithinNone(start, end);
      EmptyRange(chain, Most(a, start), Least(b, end), 0);
    }
  }

  lemma SequenceAt(chain: Chain, n: nat)
    requires GoodChain(chain)
    ensures chain(n).summary.sequence == n
  {
  }

  lemma WithinNone(start: nat, end: nat)
    ensures Within([], start, end) == []
  {
  }

  lemma WithinSnoc(checkpoints: seq<Checkpoint>, last: Checkpoint, start: nat, end: nat)
    ensures Within(checkpoints + [last], start, end)
            == Within(checkpoints, start, end) + if start <= last.summary.sequence < end then [last] else []
  {
    var all := checkpoints + [last];
    assert all[..|all| - 1] == checkpoints;
  }

  lemma RangeSnoc(chain: Chain, a: nat, b: nat)
    requires a < b
    ensures Range(chain, a, b) == Range(chain, a, b - 1) + [chain(b - 1)]
  {
  }

  /** A reader that still holds the manifest of an earlier state of a run reads from the archive as
      it is in a later state: whatever crashed in between, it gets the original checkpoints. */
  method ReadBack(
      ghost chain: Chain, ghost commitFileSize: nat, ghost states: seq<Archive>, ghost actions: seq<Action>,
      ghost i: nat, ghost j: nat, m: Manifest, remote: Files, start: nat, end: nat) returns (r: Outcome<Fetched>)
    requires GoodChain(chain) && IsRun(chain, commitFileSize, states, actions) && i <= j < |states|
    requires m == Base(states[i]) && remote == states[j].remote
    ensures r == Ok(if start < m.next then Fetched(Range(chain, start, Least(end, m.next)), true)
                    else Fetched([], false))
  {
    CrashSafe(chain, commitFileSize, states, actions, i, j);
    r := Read(chain, m, remote, start, end);
  }
}
