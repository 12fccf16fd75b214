/**
 The archive as a whole: a writer, an uploader that publishes data before the manifest, and
 crashes of either at any time. Whatever happens, a published manifest is sound and its files
 are there.
 */
module ArchiveSystems {
  import opened Outcomes
  import opened Manifests
  import opened CheckpointWriters

  /** What the uploader has done with the update at hand. */
  datatype Uploader =
    | Idle
    | SummaryUploaded(update: CheckpointUpdates)
    | BothUploaded(update: CheckpointUpdates)
    | Stopped

  /** `writer` is the state of a running writer, `channel` the updates it sent, `local` the staging
      files, `remote` the archive's files and `published` its manifest. */
  datatype Archive = Archive(
    writer: Option<Desk>, local: Files, channel: seq<CheckpointUpdates>, uploader: Uploader,
    remote: Files, published: Option<Manifest>)

  const INITIAL := Archive(None, map[], [], Stopped, map[], None)

  datatype Action =
    | Write(size: nat, elapsed: bool)
    | UploadSummary
    | UploadContent
    | Publish
    | StopWriter
    | StopUploader
    | Restart(staging: Files)

  // ----- The steps -----

  /** Archives the next checkpoint. When a cut cannot be sent because the uploader is gone, the
      writer stops. */
  function WriteNext(chain: Chain, commitFileSize: nat, s: Archive, w: Desk, size: nat, elapsed: bool): Archive {
    match WriteAsBlob(w.(local := s.local, sent := []), commitFileSize, chain(w.end), size, elapsed)
    case Panic => s.(writer := None)
    case Ok(d) =>
      if s.uploader.Stopped? && d.sent != [] then s.(writer := None, local := d.local)
      else s.(writer := Some(d), local := d.local, channel := s.channel + d.sent)
  }

  /** Moves a staged file to the archive. A missing file makes the uploader panic. */
  function Upload(s: Archive, f: FileMetadata, after: Uploader): Archive {
    var p := f.FilePath();
    if p !in s.local then s.(uploader := Stopped, channel := [])
    else s.(remote := s.remote[p := s.local[p]], local := s.local - {p}, uploader := after)
  }

  /** Whether the source can start: it panics when there are files but no manifest. */
  predicate CanRestart(s: Archive) {
    s.writer.None? && s.uploader.Stopped? && (s.remote == map[] || s.published.Some?)
  }

  /** Continues from the archive's manifest, whatever a crash left in the staging directory. */
  function RestartFrom(s: Archive, staging: Files): Archive
    requires CanRestart(s)
  {
    var d := NewDesk(if s.remote == map[] then EMPTY else s.published.value, staging);
    s.(writer := Some(d), local := d.local, channel := [], uploader := Idle)
  }

  predicate Enabled(s: Archive, a: Action) {
    match a
    case Write(_, _) => s.writer.Some?
    case UploadSummary => s.uploader.Idle? && s.channel != []
    case UploadContent => s.uploader.SummaryUploaded?
    case Publish => s.uploader.BothUploaded?
    case StopWriter => s.writer.Some?
    case StopUploader => !s.uploader.Stopped?
    case Restart(_) => CanRestart(s)
  }

  function Step(chain: Chain, commitFileSize: nat, s: Archive, a: Action): Archive
    requires Enabled(s, a)
  {
    match a
    case Write(size, elapsed) => WriteNext(chain, commitFileSize, s, s.writer.value, size, elapsed)
    case UploadSummary =>
      var u := s.channel[0];
      Upload(s.(channel := s.channel[1..]), u.summary, SummaryUploaded(u))
    case UploadContent => Upload(s, s.uploader.update.content, BothUploaded(s.uploader.update))
    case Publish => s.(published := Some(s.uploader.update.manifest), uploader := Idle)
    case StopWriter => s.(writer := None)
    case StopUploader => s.(uploader := Stopped, channel := [])
    case Restart(staging) => RestartFrom(s, staging)
  }

  // ----- Segments and updates -----

  function End(segments: seq<Segment>): nat {
    if segments == [] then 0 else segments[|segments| - 1].end
  }

  function ManifestOf(chain: Chain, segments: seq<Segment>): Manifest {
    Manifest(if segments == [] then 0 else segments[|segments| - 1].epoch, End(segments), FilesOf(chain, segments))
  }

  /** The update for the segment at `n`. */
  function UpdateOf(chain: Chain, segments: seq<Segment>, n: nat): CheckpointUpdates
    requires n < |segments|
  {
    CheckpointUpdates(
      ContentFile(chain, segments[n]), SummaryFile(chain, segments[n]), ManifestOf(chain, segments[..n + 1]))
  }

  lemma TilePrefix(chain: Chain, segments: seq<Segment>, n: nat)
    requires Tile(chain, segments, End(segments)) && n <= |segments|
    ensures Tile(chain, segments[..n], End(segments[..n]))
  {
    var front := segments[..n];
    if n > 0 {
      assert front[n - 1] in segments && front[n - 1] == segments[n - 1];
    }
    forall i, j | 0 <= i && j == i + 1 < |front|
      ensures front[i].end == front[j].start
    {
      assert front[i] == segments[i] && front[j] == segments[j];
    }
  }

  lemma SoundIsManifestOf(chain: Chain, m: Manifest, segments: seq<Segment>)
    ensures SoundManifest(chain, m, segments)
            <==> Tile(chain, segments, End(segments)) && m == ManifestOf(chain, segments)
  {
  }

  /** Files of different segments have different paths. */
  lemma SegmentsApart(chain: Chain, segments: seq<Segment>, i: nat, j: nat)
    requires Tile(chain, segments, End(segments)) && i < |segments| && j < |segments| && i != j
    ensures segments[i].start != segments[j].start
  {
    SegmentsBelow(chain, segments, End(segments), i);
    SegmentsBelow(chain, segments, End(segments), j);
    if i < j {
      SegmentsOrdered(chain, segments, End(segments), i, j);
    } else {
      SegmentsOrdered(chain, segments, End(segments), j, i);
    }
  }

  // ----- The invariant -----

  function Base(s: Archive): Manifest {
    if s.published.Some? then s.published.value else EMPTY
  }

  /** The updates that are sent but not published, oldest first. */
  function InFlight(s: Archive): seq<CheckpointUpdates> {
    (match s.uploader
     case SummaryUploaded(u) => [u]
     case BothUploaded(u) => [u]
     case _ => []) + s.channel
  }

  /** Where the files of the unpublished update are. */
  ghost predicate AtHand(s: Archive) {
    match s.uploader
    case SummaryUploaded(u) => Staged(s.remote, u.summary) && Staged(s.local, u.content)
    case BothUploaded(u) => Staged(s.remote, u.summary) && Staged(s.remote, u.content)
    case _ => true
  }

  ghost predicate AllStaged(local: Files, updates: seq<CheckpointUpdates>) {
    forall u :: u in updates ==> StagedUpdate(local, u)
  }

  /** Every file of the segments is in the archive with its recorded content. */
  ghost predicate Archived(chain: Chain, remote: Files, segments: seq<Segment>) {
    forall t :: t in segments ==> Staged(remote, ContentFile(chain, t)) && Staged(remote, SummaryFile(chain, t))
  }

  /** The first `k` of `all` segments are published, the others in flight. */
  ghost predicate Published(chain: Chain, s: Archive, all: seq<Segment>, k: nat) {
    && Tile(chain, all, End(all))
    && k <= |all|
    && Base(s) == ManifestOf(chain, all[..k])
    && (s.published.Some? <==> k > 0)
    && Archived(chain, s.remote, all[..k])
  }

  ghost predicate Flying(chain: Chain, s: Archive, all: seq<Segment>, k: nat) {
    && k + |InFlight(s)| == |all|
    && (forall i :: k <= i < |all| ==> InFlight(s)[i - k] == UpdateOf(chain, all, i))
    && AtHand(s)
    && AllStaged(s.local, s.channel)
    && (s.uploader.Stopped? ==> s.channel == [])
  }

  /** The writer continues after what is in flight, unless the uploader is gone. */
  ghost predicate Writing(chain: Chain, s: Archive, all: seq<Segment>) {
    s.writer.Some? && !s.uploader.Stopped? ==> WriterInv(chain, s.writer.value, all)
  }

  /** A writer whose uploader is gone still archives a chain of its own. */
  ghost predicate WriterSound(chain: Chain, s: Archive) {
    s.writer.Some? ==> exists segments :: WriterInv(chain, s.writer.value, segments)
  }

  ghost predicate Inv(chain: Chain, s: Archive, all: seq<Segment>, k: nat) {
    && Published(chain, s, all, k)
    && Flying(chain, s, all, k)
    && Writing(chain, s, all)
    && WriterSound(chain, s)
  }
}
