/** Writing checkpoints to files of one epoch each, and cutting them for upload. */
module CheckpointWriters {
  import opened Outcomes
  import opened Manifests

  const MAGIC_BYTES: nat := 4

  type Files = map<Path, FileData>

  /** The writer's state: the file being written (its epoch, range and buffers), the manifest,
      the local staging files and the updates sent to the uploader. */
  datatype Desk = Desk(
    epoch: nat, start: nat, end: nat, contents: seq<Contents>, summaries: seq<Summary>, offset: nat,
    manifest: Manifest, local: Files, sent: seq<CheckpointUpdates>)

  function WithoutEpoch(local: Files, epoch: nat): Files {
    map p | p in local && p.epoch != epoch :: local[p]
  }

  /** Two new empty files, replacing any under the same names. */
  function CreateFiles(local: Files, epoch: nat, start: nat): Files {
    local[Path(epoch, start, CheckpointContent) := ContentData([])]
         [Path(epoch, start, CheckpointSummary) := SummaryData([])]
  }

  /** A writer that continues after a manifest. */
  function NewDesk(m: Manifest, local: Files): Desk {
    Desk(m.epoch, m.next, m.next, [], [], 0, m, CreateFiles(WithoutEpoch(local, m.epoch), m.epoch, m.next), [])
  }

  /** Finishes the two files, lists them and sends them off, unless they are empty. */
  function Cut(d: Desk): Desk {
    if d.start >= d.end then d
    else
      var content := FileMetadata(CheckpointContent, d.epoch, d.start, d.end, ContentData(d.contents));
      var summary := FileMetadata(CheckpointSummary, d.epoch, d.start, d.end, SummaryData(d.summaries));
      var m := d.manifest.Update(d.epoch, d.end, content, summary);
      d.(manifest := m,
         local := d.local[content.FilePath() := content.digest][summary.FilePath() := summary.digest],
         sent := d.sent + [CheckpointUpdates(content, summary, m)])
  }

  /** Starts new files where the last ones ended. */
  function Reset(d: Desk): Desk {
    d.(start := d.end, contents := [], summaries := [], offset := MAGIC_BYTES,
       local := CreateFiles(d.local, d.epoch, d.end))
  }

  /** Moves to the next epoch, in a clean directory. */
  function NextEpoch(d: Desk): Desk {
    d.(epoch := d.epoch + 1, local := WithoutEpoch(d.local, d.epoch + 1))
  }

  function Append(d: Desk, c: Checkpoint, size: nat): Desk {
    d.(contents := d.contents + [c.contents], summaries := d.summaries + [c.summary],
       offset := d.offset + size, end := d.end + 1)
  }

  /** The files after a possible change of epoch. */
  function EnterEpoch(d: Desk, c: Checkpoint): Desk {
    if c.summary.epoch == d.epoch + 1 then Reset(NextEpoch(Cut(d))) else d
  }

  /** One checkpoint: out of sequence, an epoch off by more than one, or contents that do not match
      the summary's digest are a panic. */
  function WriteAsBlob(d: Desk, commitFileSize: nat, c: Checkpoint, size: nat, elapsed: bool): Outcome<Desk> {
    if c.summary.sequence != d.end then Panic
    else
      var e := EnterEpoch(d, c);
      if c.summary.epoch != e.epoch || !c.Genuine() then Panic
      else
        var f := if e.offset + size > commitFileSize || elapsed then Reset(Cut(e)) else e;
        Ok(Append(f, c, size))
  }

  class CheckpointWriter {
    const commitFileSize: nat
    var epochNum: nat
    var rangeStart: nat
    var rangeEnd: nat
    var wbuf: seq<Contents>
    var summaryWbuf: seq<Summary>
    var bufferOffset: nat
    var manifest: Manifest
    var local: Files
    var sender: seq<CheckpointUpdates>

    ghost function State(): Desk
      reads this
    {
      Desk(epochNum, rangeStart, rangeEnd, wbuf, summaryWbuf, bufferOffset, manifest, local, sender)
    }

    constructor (manifest: Manifest, local: Files, commitFileSize: nat)
      ensures State() == NewDesk(manifest, local) && this.commitFileSize == commitFileSize
    {
      this.commitFileSize := commitFileSize;
      epochNum, rangeStart, rangeEnd := manifest.epoch, manifest.next, manifest.next;
      wbuf, summaryWbuf, bufferOffset, sender := [], [], 0, [];
      this.manifest := manifest;
      this.local := CreateFiles(WithoutEpoch(local, manifest.epoch), manifest.epoch, manifest.next);
    }

    /** `elapsed` tells whether the commit duration has passed. A panic leaves the state undefined. */
    method Write(c: Checkpoint, size: nat, elapsed: bool) returns (ok: bool)
      modifies this
      ensures ok <==> WriteAsBlob(old(State()), commitFileSize, c, size, elapsed).Ok?
      ensures ok ==> State() == WriteAsBlob(old(State()), commitFileSize, c, size, elapsed).value
    {
      hide Cut, Reset, EnterEpoch;
      if c.summary.sequence != rangeEnd {
        return false;
      }
      ChangeEpoch(c);
      if c.summary.epoch != epochNum || !c.Genuine() {
        return false;
      }
      if bufferOffset + size > commitFileSize || elapsed {
        CutFiles();
        ResetFiles();
      }
      wbuf, summaryWbuf := wbuf + [c.contents], summaryWbuf + [c.summary];
      bufferOffset := bufferOffset + size;
      rangeEnd := rangeEnd + 1;
      ok := true;
    }

    method ChangeEpoch(c: Checkpoint)
      modifies this
      ensures State() == EnterEpoch(old(State()), c)
    {
      hide Cut, Reset, WithoutEpoch;
      if c.summary.epoch == epochNum + 1 {
        CutFiles();
        epochNum := epochNum + 1;
        local := WithoutEpoch(local, epochNum);
        ResetFiles();
      }
    }

    method CutFiles()
      modifies this`manifest, this`local, this`sender
      ensures State() == Cut(old(State()))
    {
      if rangeStart < rangeEnd {
        var content := FileMetadata(CheckpointContent, epochNum, rangeStart, rangeEnd, ContentData(wbuf));
        local := local[content.FilePath() := content.digest];
        var summary := FileMetadata(CheckpointSummary, epochNum, rangeStart, rangeEnd, SummaryData(summaryWbuf));
        local := local[summary.FilePath() := summary.digest];
        manifest := manifest.Update(epochNum, rangeEnd, content, summary);
        sender := sender + [CheckpointUpdates(content, summary, manifest)];
      }
    }

    method ResetFiles()
      modifies this`rangeStart, this`wbuf, this`summaryWbuf, this`bufferOffset, this`local
      ensures State() == Reset(old(State()))
    {
      rangeStart := rangeEnd;
      local := CreateFiles(local, epochNum, rangeStart);
      wbuf, summaryWbuf, bufferOffset := [], [], MAGIC_BYTES;
    }
  }

  /** A write fails exactly when the checkpoint is not the next one, is neither of the open epoch nor
      of the one after, or its contents do not match its summary. */
  lemma WriteOkIff(d: Desk, commitFileSize: nat, c: Checkpoint, size: nat, elapsed: bool)
    ensures WriteAsBlob(d, commitFileSize, c, size, elapsed).Ok?
            <==> c.summary.sequence == d.end && d.epoch <= c.summary.epoch <= d.epoch + 1
                 && c.summary.contentDigest == c.contents
  {
    hide CreateFiles, WithoutEpoch;
  }

  /** Only the two files just opened are in the directory of the writer's epoch. */
  ghost predicate CleanDirectory(d: Desk) {
    forall p :: p in d.local && p.epoch == d.epoch ==>
      p == Path(d.epoch, d.start, CheckpointContent) || p == Path(d.epoch, d.start, CheckpointSummary)
  }

  /** Starting and entering an epoch clear its directory and no other. */
  lemma DirectoryCleared(m: Manifest, local: Files, d: Desk)
    ensures CleanDirectory(NewDesk(m, local)) && CleanDirectory(Reset(NextEpoch(d)))
    ensures forall p :: p in local && p.epoch != m.epoch ==> p in NewDesk(m, local).local
    ensures forall p :: p in d.local && p.epoch != d.epoch + 1 ==> p in Reset(NextEpoch(d)).local
  {
  }

  // ----- What every write keeps -----

  /** The buffers hold the chain from the manifest's next checkpoint on, all of the writer's epoch. */
  ghost predicate Buffered(chain: Chain, d: Desk, segments: seq<Segment>) {
    && SoundManifest(chain, d.manifest, segments)
    && d.start == d.manifest.next <= d.end
    && d.contents == AllContents(Range(chain, d.start, d.end))
    && d.summaries == Summaries(Range(chain, d.start, d.end))
    && (forall n :: d.start <= n < d.end ==> EpochAt(chain, n) == d.epoch)
    && d.manifest.epoch <= d.epoch
  }

  ghost predicate WriterInv(chain: Chain, d: Desk, segments: seq<Segment>) {
    Buffered(chain, d, segments) && (d.start == d.end ==> d.epoch == d.manifest.epoch)
  }

  function SegmentOf(d: Desk): Segment {
    Segment(d.epoch, d.start, d.end)
  }

  /** The segments after the pending one, if any, is cut. */
  function CutSegments(d: Desk, segments: seq<Segment>): seq<Segment> {
    if d.start < d.end then segments + [SegmentOf(d)] else segments
  }

  /** `sent` gained the update that a cut of `d` sends, if any. */
  function CutUpdates(d: Desk): seq<CheckpointUpdates> {
    if d.start < d.end then [Cut(d).sent[|d.sent|]] else []
  }

  /** Staged files from before `start` in epochs up to `epoch` are untouched. */
  ghost predicate KeepsStaged(before: Files, after: Files, epoch: nat, start: nat) {
    forall p :: p in before && p.epoch <= epoch && p.start < start ==> p in after && after[p] == before[p]
  }

  ghost predicate Staged(local: Files, f: FileMetadata) {
    f.FilePath() in local && local[f.FilePath()] == f.digest
  }

  lemma RangeGrows(chain: Chain, start: nat, end: nat)
    requires start <= end
    ensures Range(chain, start, end + 1) == Range(chain, start, end) + [chain(end)]
    ensures Summaries(Range(chain, start, end + 1)) == Summaries(Range(chain, start, end)) + [chain(end).summary]
    ensures AllContents(Range(chain, start, end + 1)) == AllContents(Range(chain, start, end)) + [chain(end).contents]
  {
  }

  /** A cut of a non-empty file lists and stages it. */
  lemma CutSound(chain: Chain, d: Desk, segments: seq<Segment>)
    requires Buffered(chain, d, segments)
    ensures SoundManifest(chain, Cut(d).manifest, CutSegments(d, segments)) && Cut(d).manifest.next == d.end
    ensures Cut(d).sent == d.sent + CutUpdates(d) && KeepsStaged(d.local, Cut(d).local, d.epoch, d.start)
    ensures Cut(d).manifest.epoch <= d.epoch
    ensures d.start < d.end ==> IsCutOf(chain, d, CutUpdates(d)[0]) && StagedUpdate(Cut(d).local, CutUpdates(d)[0])
  {
    if d.start < d.end {
      AppendSegment(chain, d.manifest, segments, SegmentOf(d));
    }
  }

  /** The update lists the open segment after the manifest so far. */
  ghost predicate IsCutOf(chain: Chain, d: Desk, u: CheckpointUpdates) {
    && u.content == ContentFile(chain, SegmentOf(d))
    && u.summary == SummaryFile(chain, SegmentOf(d))
    && u.manifest == d.manifest.Update(d.epoch, d.end, u.content, u.summary)
  }

  ghost predicate StagedUpdate(local: Files, u: CheckpointUpdates) {
    Staged(local, u.content) && Staged(local, u.summary)
  }

  /** New files never replace staged ones: they start later or lie in a later epoch. */
  lemma NewFilesKeep(local: Files, epoch: nat, start: nat, end: nat)
    requires start <= end
    ensures KeepsStaged(local, CreateFiles(local, epoch, end), epoch, start)
    ensures forall u: CheckpointUpdates :: StagedUpdate(local, u) && u.content.start < end && u.summary.start < end
              ==> StagedUpdate(CreateFiles(local, epoch, end), u)
  {
  }

  /** The next checkpoint is of the writer's epoch or of the one after. */
  lemma NextEpochClose(chain: Chain, d: Desk, segments: seq<Segment>)
    requires GoodChain(chain) && WriterInv(chain, d, segments)
    ensures d.epoch <= EpochAt(chain, d.end) <= d.epoch + 1
  {
    if d.end > 0 {
      assert EpochAt(chain, d.end - 1) <= EpochAt(chain, d.end - 1 + 1) <= EpochAt(chain, d.end - 1) + 1;
      if d.start == d.end {
        var last := segments[|segments| - 1];
        assert last in segments;
        assert EpochAt(chain, last.end - 1) == last.epoch;
      }
    }
  }

  /** Whether this write cuts the file that is open. */
  function CutsFile(d: Desk, commitFileSize: nat, c: Checkpoint, size: nat, elapsed: bool): bool {
    d.start < d.end && (c.summary.epoch == d.epoch + 1 || d.offset + size > commitFileSize || elapsed)
  }

  /** Ready to append the next checkpoint to the open file. */
  ghost predicate Ready(chain: Chain, d: Desk, segments: seq<Segment>) {
    Buffered(chain, d, segments) && EpochAt(chain, d.end) == d.epoch
  }

  lemma AppendSound(chain: Chain, d: Desk, segments: seq<Segment>, size: nat)
    requires Ready(chain, d, segments)
    ensures WriterInv(chain, Append(d, chain(d.end), size), segments)
  {
    RangeGrows(chain, d.start, d.end);
  }

  /** What the step from `d` to `e` did to the segments, the staged files and the updates. */
  ghost predicate Moved(d: Desk, e: Desk, cut: bool) {
    && e.end == d.end
    && KeepsStaged(d.local, e.local, d.epoch, d.start)
    && e.sent == (if cut then d.sent + CutUpdates(d) else d.sent)
    && e.manifest == (if cut then Cut(d).manifest else d.manifest)
    && (cut ==> d.start < d.end && StagedUpdate(e.local, CutUpdates(d)[0]))
  }

  lemma ResetSound(chain: Chain, d: Desk, segments: seq<Segment>)
    requires Ready(chain, d, segments)
    ensures Ready(chain, Reset(Cut(d)), CutSegments(d, segments)) && Moved(d, Reset(Cut(d)), d.start < d.end)
  {
    CutSound(chain, d, segments);
    NewFilesKeep(Cut(d).local, d.epoch, d.start, d.end);
  }

  lemma EpochSound(chain: Chain, d: Desk, segments: seq<Segment>)
    requires Buffered(chain, d, segments) && EpochAt(chain, d.end) == d.epoch + 1
    ensures Ready(chain, Reset(NextEpoch(Cut(d))), CutSegments(d, segments))
    ensures Moved(d, Reset(NextEpoch(Cut(d))), d.start < d.end)
  {
    CutSound(chain, d, segments);
    CutShape(d);
    EpochMoved(chain, d);
    hide Cut, SoundManifest, CreateFiles, WithoutEpoch, CutSegments, Moved, KeepsStaged, StagedUpdate, IsCutOf;
  }

  lemma CutShape(d: Desk)
    ensures Cut(d).start == d.start && Cut(d).end == d.end && Cut(d).epoch == d.epoch
    ensures d.start >= d.end ==> Cut(d) == d
    ensures |CutUpdates(d)| == if d.start < d.end then 1 else 0
  {
  }

  lemma EpochMoved(chain: Chain, d: Desk)
    requires KeepsStaged(d.local, Cut(d).local, d.epoch, d.start) && Cut(d).sent == d.sent + CutUpdates(d)
    requires d.start <= d.end
    requires d.start < d.end ==> IsCutOf(chain, d, CutUpdates(d)[0]) && StagedUpdate(Cut(d).local, CutUpdates(d)[0])
    ensures Moved(d, Reset(NextEpoch(Cut(d))), d.start < d.end)
  {
    hide Cut, CutUpdates, IsCutOf, CreateFiles, WithoutEpoch, KeepsStaged, StagedUpdate;
    CutShape(d);
    var e := Cut(d);
    EpochKeeps(e.local, d.epoch, d.start, d.end);
    KeepsTwice(d.local, e.local, Reset(NextEpoch(e)).local, d.epoch, d.start);
    if d.start < d.end {
      CutEpoch(chain, d, CutUpdates(d)[0]);
      UpdateKept(e.local, d.epoch, d.end, CutUpdates(d)[0]);
    }
  }

  lemma CutEpoch(chain: Chain, d: Desk, u: CheckpointUpdates)
    requires IsCutOf(chain, d, u)
    ensures u.content.epoch == d.epoch == u.summary.epoch
  {
  }

  lemma EpochKeeps(local: Files, epoch: nat, start: nat, end: nat)
    ensures KeepsStaged(local, CreateFiles(WithoutEpoch(local, epoch + 1), epoch + 1, end), epoch, start)
  {
  }

  lemma UpdateKept(local: Files, epoch: nat, end: nat, u: CheckpointUpdates)
    requires StagedUpdate(local, u) && u.content.epoch == epoch == u.summary.epoch
    ensures StagedUpdate(CreateFiles(WithoutEpoch(local, epoch + 1), epoch + 1, end), u)
  {
  }

  lemma KeepsTwice(a: Files, b: Files, c: Files, epoch: nat, start: nat)
    requires KeepsStaged(a, b, epoch, start) && KeepsStaged(b, c, epoch, start)
    ensures KeepsStaged(a, c, epoch, start)
  {
  }

  /** Resetting a file that was just opened changes nothing but its offset. */
  lemma ResetTwice(d: Desk)
    requires d.start == d.end && d.contents == [] && d.summaries == []
    requires d.local == CreateFiles(d.local, d.epoch, d.end)
    ensures Reset(Cut(d)) == d.(offset := MAGIC_BYTES)
  {
  }

  lemma AppendMoved(chain: Chain, d: Desk, f: Desk, segments: seq<Segment>, size: nat, cut: bool)
    requires Ready(chain, f, segments) && Moved(d, f, cut)
    ensures var e := Append(f, chain(d.end), size);
            WriterInv(chain, e, segments) && e.end == d.end + 1 && Moved(d, e.(end := d.end), cut)
  {
    AppendSound(chain, f, segments, size);
  }

  /** What a write from `d` to `e` achieves. */
  ghost predicate Written(chain: Chain, d: Desk, segments: seq<Segment>, e: Desk, cut: bool) {
    && WriterInv(chain, e, if cut then CutSegments(d, segments) else segments)
    && e.end == d.end + 1
    && Moved(d, e.(end := d.end), cut)
  }

  lemma WriteSameEpoch(
      chain: Chain, d: Desk, segments: seq<Segment>, commitFileSize: nat, size: nat, elapsed: bool)
    requires WriterInv(chain, d, segments) && EpochAt(chain, d.end) == d.epoch
    ensures var full := d.offset + size > commitFileSize || elapsed;
            var e := Append(if full then Reset(Cut(d)) else d, chain(d.end), size);
            Written(chain, d, segments, e, d.start < d.end && full)
  {
    if d.offset + size > commitFileSize || elapsed {
      ResetSound(chain, d, segments);
      AppendMoved(chain, d, Reset(Cut(d)), CutSegments(d, segments), size, d.start < d.end);
    } else {
      AppendMoved(chain, d, d, segments, size, false);
    }
  }

  lemma WriteNextEpoch(
      chain: Chain, d: Desk, segments: seq<Segment>, commitFileSize: nat, size: nat, elapsed: bool)
    requires WriterInv(chain, d, segments) && EpochAt(chain, d.end) == d.epoch + 1
    ensures var e := Reset(NextEpoch(Cut(d)));
            var full := e.offset + size > commitFileSize || elapsed;
            Written(chain, d, segments, Append(if full then Reset(Cut(e)) else e, chain(d.end), size), d.start < d.end)
  {
    var e := Reset(NextEpoch(Cut(d)));
    EpochSound(chain, d, segments);
    ResetTwice(e);
    AppendMoved(chain, d, e, CutSegments(d, segments), size, d.start < d.end);
  }

  /** A write of the next checkpoint succeeds, keeps the invariant, and cuts at most one segment,
      whose files are then staged. Staged files of earlier segments survive. */
  lemma WriteSound(
      chain: Chain, d: Desk, segments: seq<Segment>, commitFileSize: nat, size: nat, elapsed: bool)
    requires GoodChain(chain) && WriterInv(chain, d, segments)
    ensures WriteAsBlob(d, commitFileSize, chain(d.end), size, elapsed).Ok?
    ensures Written(chain, d, segments, WriteAsBlob(d, commitFileSize, chain(d.end), size, elapsed).value,
                    CutsFile(d, commitFileSize, chain(d.end), size, elapsed))
  {
    hide WriterInv, Written;
    NextEpochClose(chain, d, segments);
    assert chain(d.end).summary.sequence == d.end && chain(d.end).Genuine();
    if EpochAt(chain, d.end) == d.epoch + 1 {
      WriteNextEpoch(chain, d, segments, commitFileSize, size, elapsed);
    } else {
      WriteSameEpoch(chain, d, segments, commitFileSize, size, elapsed);
    }
  }
}
