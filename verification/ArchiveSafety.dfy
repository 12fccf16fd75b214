/** Every step of the archive keeps its invariant, so every published manifest can be trusted. */
module ArchiveSafety {
  import opened Outcomes
  import opened Manifests
  import opened CheckpointWriters
  import opened ArchiveSystems

  // ----- Uploading -----

  /** The segment of the oldest unpublished update is the one after the published ones. */
  lemma Oldest(chain: Chain, s: Archive, all: seq<Segment>, k: nat)
    requires Inv(chain, s, all, k) && InFlight(s) != []
    ensures k < |all| && InFlight(s)[0] == UpdateOf(chain, all, k)
  {
  }

  /** Adding a file of an unpublished segment leaves the published ones alone. */
  lemma ArchivedKept(chain: Chain, remote: Files, all: seq<Segment>, k: nat, p: Path, data: FileData)
    requires Tile(chain, all, End(all)) && k < |all| && p.start == all[k].start
    requires Archived(chain, remote, all[..k])
    ensures Archived(chain, remote[p := data], all[..k])
  {
    forall t | t in all[..k]
      ensures t.start != p.start
    {
      var i :| 0 <= i < k && all[i] == t;
      SegmentsApart(chain, all, i, k);
    }
  }

  /** Removing a staged file of one segment leaves those of the other segments alone. */
  lemma StagedKept(chain: Chain, local: Files, all: seq<Segment>, k: nat, updates: seq<CheckpointUpdates>, p: Path)
    requires Tile(chain, all, End(all)) && k < |all| && p.start == all[k].start
    requires AllStaged(local, updates)
    requires forall u :: u in updates ==> exists i :: k < i < |all| && u == UpdateOf(chain, all, i)
    ensures AllStaged(local - {p}, updates)
  {
    forall u | u in updates
      ensures StagedUpdate(local - {p}, u)
    {
      var i :| k < i < |all| && u == UpdateOf(chain, all, i);
      SegmentsApart(chain, all, i, k);
    }
  }

  lemma LaterUpdates(chain: Chain, s: Archive, all: seq<Segment>, k: nat, rest: seq<CheckpointUpdates>)
    requires Inv(chain, s, all, k) && InFlight(s) != [] && rest == InFlight(s)[1..]
    ensures forall u :: u in rest ==> exists i :: k < i < |all| && u == UpdateOf(chain, all, i)
  {
    forall u | u in rest
      ensures exists i :: k < i < |all| && u == UpdateOf(chain, all, i)
    {
      var j :| 0 <= j < |rest| && rest[j] == u;
      assert InFlight(s)[k + j + 1 - k] == UpdateOf(chain, all, k + j + 1);
    }
  }

  /** Moving files of the oldest update keeps everything else. */
  lemma HandedOver(chain: Chain, s: Archive, after: Archive, all: seq<Segment>, k: nat)
    requires Inv(chain, s, all, k) && !s.uploader.Stopped? && !after.uploader.Stopped?
    requires after.writer == s.writer && after.published == s.published && InFlight(after) == InFlight(s)
    requires Archived(chain, after.remote, all[..k]) && AtHand(after) && AllStaged(after.local, after.channel)
    ensures Inv(chain, after, all, k)
  {
    hide Tile, ManifestOf, WriterInv, Archived, InFlight, AtHand, AllStaged;
  }

  /** Taking an update from the channel keeps it in flight. */
  lemma TakenInFlight(s: Archive, after: Archive)
    requires s.uploader.Idle? && s.channel != [] && after.channel == s.channel[1..]
    requires after.uploader == SummaryUploaded(s.channel[0])
    ensures InFlight(s) == s.channel && InFlight(after) == s.channel
  {
  }

  lemma FirstStaged(local: Files, updates: seq<CheckpointUpdates>)
    requires AllStaged(local, updates) && updates != []
    ensures StagedUpdate(local, updates[0]) && AllStaged(local, updates[1..])
  {
  }

  lemma UploadSummaryKeeps(chain: Chain, s: Archive, all: seq<Segment>, k: nat)
    requires Inv(chain, s, all, k) && s.uploader.Idle? && s.channel != []
    ensures var u := s.channel[0];
            Inv(chain, Upload(s.(channel := s.channel[1..]), u.summary, SummaryUploaded(u)), all, k)
  {
    var u, p := s.channel[0], s.channel[0].summary.FilePath();
    assert AllStaged(s.local, s.channel);
    hide Inv, InFlight, AllStaged;
    FirstStaged(s.local, s.channel);
    var after := Upload(s.(channel := s.channel[1..]), u.summary, SummaryUploaded(u));
    TakenInFlight(s, after);
    Oldest(chain, s, all, k);
    LaterUpdates(chain, s, all, k, s.channel[1..]);
    UploadKeepsFiles(chain, s, all, k, s.channel[1..], p);
    HandedOver(chain, s, after, all, k);
  }

  /** A moved file of the oldest update disturbs neither published nor later ones. */
  lemma UploadKeepsFiles(chain: Chain, s: Archive, all: seq<Segment>, k: nat, rest: seq<CheckpointUpdates>, p: Path)
    requires Inv(chain, s, all, k) && k < |all| && p.start == all[k].start && p in s.local
    requires AllStaged(s.local, rest)
    requires forall u :: u in rest ==> exists i :: k < i < |all| && u == UpdateOf(chain, all, i)
    ensures Archived(chain, s.remote[p := s.local[p]], all[..k]) && AllStaged(s.local - {p}, rest)
  {
    ArchivedKept(chain, s.remote, all, k, p, s.local[p]);
    StagedKept(chain, s.local, all, k, rest, p);
  }

  lemma UploadContentKeeps(chain: Chain, s: Archive, all: seq<Segment>, k: nat)
    requires Inv(chain, s, all, k) && s.uploader.SummaryUploaded?
    ensures Inv(chain, Upload(s, s.uploader.update.content, BothUploaded(s.uploader.update)), all, k)
  {
    var u, p := s.uploader.update, s.uploader.update.content.FilePath();
    Oldest(chain, s, all, k);
    var after := Upload(s, u.content, BothUploaded(u));
    assert InFlight(s)[1..] == s.channel && InFlight(after) == InFlight(s);
    LaterUpdates(chain, s, all, k, s.channel);
    assert AllStaged(s.local, s.channel);
    hide Inv, InFlight, AllStaged;
    UploadKeepsFiles(chain, s, all, k, s.channel, p);
    HandedOver(chain, s, after, all, k);
  }

  /** Publishing only after both files are there. */
  lemma PublishKeeps(chain: Chain, s: Archive, all: seq<Segment>, k: nat)
    requires Inv(chain, s, all, k) && s.uploader.BothUploaded?
    ensures k + 1 <= |all|
    ensures Inv(chain, s.(published := Some(s.uploader.update.manifest), uploader := Idle), all, k + 1)
  {
    var after := s.(published := Some(s.uploader.update.manifest), uploader := Idle);
    BothThere(chain, s, all, k);
    hide Published, Flying, WriterInv, UpdateOf, ContentFile, SummaryFile, Staged;
    PublishedOneMore(chain, s, after, all, k);
    FlyingOneLess(chain, s, after, all, k);
  }

  /** The update at hand is the oldest one, and its files are in the archive. */
  lemma BothThere(chain: Chain, s: Archive, all: seq<Segment>, k: nat)
    requires Inv(chain, s, all, k) && s.uploader.BothUploaded?
    ensures k < |all| && s.uploader.update == UpdateOf(chain, all, k)
    ensures Staged(s.remote, ContentFile(chain, all[k])) && Staged(s.remote, SummaryFile(chain, all[k]))
  {
    Oldest(chain, s, all, k);
    hide Published, Tile, WriterInv, Staged, ManifestOf;
  }

  lemma FlyingOneLess(chain: Chain, s: Archive, after: Archive, all: seq<Segment>, k: nat)
    requires Flying(chain, s, all, k) && s.uploader.BothUploaded? && after.uploader.Idle? && k < |all|
    requires after.channel == s.channel && after.local == s.local
    ensures Flying(chain, after, all, k + 1)
  {
    hide UpdateOf, StagedUpdate;
    assert InFlight(after) == InFlight(s)[1..];
    FirstTaken(chain, all, k, InFlight(s));
  }

  lemma PublishedOneMore(chain: Chain, s: Archive, after: Archive, all: seq<Segment>, k: nat)
    requires Published(chain, s, all, k) && k < |all| && after.remote == s.remote
    requires after.published == Some(UpdateOf(chain, all, k).manifest)
    requires Staged(s.remote, ContentFile(chain, all[k])) && Staged(s.remote, SummaryFile(chain, all[k]))
    ensures Published(chain, after, all, k + 1)
  {
    assert all[..k + 1] == all[..k] + [all[k]];
    hide Tile, ManifestOf, ContentFile, SummaryFile, Staged;
  }

  lemma FirstTaken(chain: Chain, all: seq<Segment>, k: nat, flying: seq<CheckpointUpdates>)
    requires k < |all| && k + |flying| == |all|
    requires forall i :: k <= i < |all| ==> flying[i - k] == UpdateOf(chain, all, i)
    ensures forall i :: k + 1 <= i < |all| ==> flying[1..][i - (k + 1)] == UpdateOf(chain, all, i)
  {
    hide *;
    forall i | k + 1 <= i < |all|
      ensures flying[1..][i - (k + 1)] == UpdateOf(chain, all, i)
    {
      assert flying[1..][i - (k + 1)] == flying[i - k];
    }
  }

  // ----- Writing -----

  lemma {:induction false} UpdateOfPrefix(chain: Chain, all: seq<Segment>, t: Segment, i: nat)
    requires i < |all|
    ensures UpdateOf(chain, all + [t], i) == UpdateOf(chain, all, i)
  {
    assert (all + [t])[..i + 1] == all[..i + 1];
  }

  /** The update a cut sends is the one for the segment it appends. */
  lemma CutIsUpdate(chain: Chain, d: Desk, all: seq<Segment>)
    requires WriterInv(chain, d, all) && d.start < d.end
    ensures var more := all + [SegmentOf(d)];
            Tile(chain, more, End(more)) && CutUpdates(d) == [UpdateOf(chain, more, |all|)]
  {
    var more := all + [SegmentOf(d)];
    CutSound(chain, d, all);
    SoundIsManifestOf(chain, Cut(d).manifest, more);
    assert more[..|all| + 1] == more;
  }

  /** Files in flight belong to segments before the writer's, in epochs up to its own. */
  lemma FlightBelowWriter(chain: Chain, d: Desk, all: seq<Segment>, i: nat)
    requires GoodChain(chain) && WriterInv(chain, d, all) && i < |all|
    ensures all[i].start < d.start && all[i].epoch <= d.epoch
  {
    FilesOfMembers(chain, all, ContentFile(chain, all[i]));
    FilesWithin(chain, d.manifest, all, ContentFile(chain, all[i]));
  }

  lemma FlightStaged(chain: Chain, s: Archive, all: seq<Segment>, k: nat, d: Desk, local: Files)
    requires GoodChain(chain) && Inv(chain, s, all, k) && WriterInv(chain, d, all)
    requires KeepsStaged(s.local, local, d.epoch, d.start)
    ensures AllStaged(local, s.channel) && AtHand(s.(local := local))
  {
    forall j | 0 <= j < |InFlight(s)|
      ensures InFlight(s)[j].content.start < d.start && InFlight(s)[j].content.epoch <= d.epoch
      ensures InFlight(s)[j].summary.start < d.start && InFlight(s)[j].summary.epoch <= d.epoch
    {
      assert InFlight(s)[k + j - k] == UpdateOf(chain, all, k + j);
      FlightBelowWriter(chain, d, all, k + j);
    }
    forall u | u in InFlight(s)
      ensures Staged(s.local, u.content) ==> Staged(local, u.content)
      ensures Staged(s.local, u.summary) ==> Staged(local, u.summary)
    {
      var j :| 0 <= j < |InFlight(s)| && InFlight(s)[j] == u;
    }
    assert forall u :: u in s.channel ==> u in InFlight(s);
    if s.uploader.SummaryUploaded? {
      assert InFlight(s)[0] == s.uploader.update;
    }
  }

  ghost predicate IsWrite(chain: Chain, commitFileSize: nat, s: Archive, after: Archive, size: nat, elapsed: bool) {
    s.writer.Some? && after == WriteNext(chain, commitFileSize, s, s.writer.value, size, elapsed)
  }

  /** The invariant of the writer does not depend on what is staged or sent. */
  lemma WriterInvShared(chain: Chain, w: Desk, segments: seq<Segment>, local: Files, sent: seq<CheckpointUpdates>)
    requires WriterInv(chain, w, segments)
    ensures WriterInv(chain, w.(local := local, sent := sent), segments)
  {
  }

  lemma WriteConnectedKeeps(
      chain: Chain, commitFileSize: nat, s: Archive, all: seq<Segment>, k: nat, after: Archive,
      size: nat, elapsed: bool)
      returns (more: seq<Segment>)
    requires GoodChain(chain) && Inv(chain, s, all, k) && !s.uploader.Stopped?
    requires IsWrite(chain, commitFileSize, s, after, size, elapsed)
    ensures Inv(chain, after, more, k) && all <= more
  {
    hide WriterInv, Tile, GoodChain, AllStaged, AtHand;
    var d := s.writer.value.(local := s.local, sent := []);
    WriterInvShared(chain, s.writer.value, all, s.local, []);
    WriteSound(chain, d, all, commitFileSize, size, elapsed);
    var e := WriteAsBlob(d, commitFileSize, chain(d.end), size, elapsed).value;
    var cut := CutsFile(d, commitFileSize, chain(d.end), size, elapsed);
    more := if cut then CutSegments(d, all) else all;
    assert after == s.(writer := Some(e), local := e.local, channel := s.channel + e.sent);
    WrittenKeeps(chain, s, all, k, d, e, after, cut);
  }

  /** The archive after a write that the uploader can still see. */
  lemma WrittenKeeps(
      chain: Chain, s: Archive, all: seq<Segment>, k: nat, d: Desk, e: Desk, after: Archive, cut: bool)
    requires GoodChain(chain) && Inv(chain, s, all, k) && !s.uploader.Stopped?
    requires d.local == s.local && d.sent == [] && WriterInv(chain, d, all) && Written(chain, d, all, e, cut)
    requires after == s.(writer := Some(e), local := e.local, channel := s.channel + e.sent)
    ensures Inv(chain, after, if cut then CutSegments(d, all) else all, k)
  {
    FlightStaged(chain, s, all, k, d, e.local);
    if cut {
      CutIsUpdate(chain, d, all);
      CutFlying(chain, s, all, k, d, e, after);
    } else {
      NoCutFlying(chain, s, all, k, e, after);
    }
  }

  lemma NoCutFlying(chain: Chain, s: Archive, all: seq<Segment>, k: nat, e: Desk, after: Archive)
    requires Inv(chain, s, all, k) && WriterInv(chain, e, all) && e.sent == []
    requires AllStaged(e.local, s.channel) && AtHand(s.(local := e.local)) && !s.uploader.Stopped?
    requires after == s.(writer := Some(e), local := e.local, channel := s.channel + e.sent)
    ensures Inv(chain, after, all, k)
  {
    hide WriterInv, Tile, AllStaged;
    assert after.channel == s.channel && InFlight(after) == InFlight(s);
  }

  lemma CutFlying(chain: Chain, s: Archive, all: seq<Segment>, k: nat, d: Desk, e: Desk, after: Archive)
    requires Inv(chain, s, all, k) && !s.uploader.Stopped?
    requires AllStaged(e.local, s.channel) && AtHand(s.(local := e.local))
    requires e.sent == [UpdateOf(chain, all + [SegmentOf(d)], |all|)] && StagedUpdate(e.local, e.sent[0])
    requires Tile(chain, all + [SegmentOf(d)], End(all + [SegmentOf(d)])) && WriterInv(chain, e, all + [SegmentOf(d)])
    requires after == s.(writer := Some(e), local := e.local, channel := s.channel + e.sent)
    ensures Inv(chain, after, all + [SegmentOf(d)], k)
  {
    hide WriterInv, Tile, ManifestOf;
    assert InFlight(after) == InFlight(s) + e.sent;
    AppendFlying(chain, s, all, k, after, SegmentOf(d));
  }

  lemma AppendFlying(chain: Chain, s: Archive, all: seq<Segment>, k: nat, after: Archive, t: Segment)
    requires Published(chain, s, all, k) && Flying(chain, s, all, k)
    requires Tile(chain, all + [t], End(all + [t]))
    requires InFlight(after) == InFlight(s) + [UpdateOf(chain, all + [t], |all|)]
    requires after.remote == s.remote && after.published == s.published
    ensures Published(chain, after, all + [t], k)
    ensures k + |InFlight(after)| == |all + [t]|
    ensures forall i :: k <= i < |all + [t]| ==> InFlight(after)[i - k] == UpdateOf(chain, all + [t], i)
  {
    assert (all + [t])[..k] == all[..k];
    assert Published(chain, after, all + [t], k);
    assert k + |InFlight(s)| == |all| && forall i :: k <= i < |all| ==> InFlight(s)[i - k] == UpdateOf(chain, all, i);
    hide *;
    AppendUpdate(chain, all, k, InFlight(s), t);
  }

  lemma AppendUpdate(chain: Chain, all: seq<Segment>, k: nat, flying: seq<CheckpointUpdates>, t: Segment)
    requires k + |flying| == |all| && forall i :: k <= i < |all| ==> flying[i - k] == UpdateOf(chain, all, i)
    ensures var more := flying + [UpdateOf(chain, all + [t], |all|)];
            forall i :: k <= i < |all + [t]| ==> more[i - k] == UpdateOf(chain, all + [t], i)
  {
    hide *;
    var more := flying + [UpdateOf(chain, all + [t], |all|)];
    forall i | k <= i < |all + [t]|
      ensures more[i - k] == UpdateOf(chain, all + [t], i)
    {
      if i < |all| {
        UpdateOfPrefix(chain, all, t, i);
        assert more[i - k] == flying[i - k];
      }
    }
  }

  /** A writer that lost its uploader archives locally until it tries to send. */
  lemma WriteAloneKeeps(
      chain: Chain, commitFileSize: nat, s: Archive, all: seq<Segment>, k: nat, after: Archive,
      size: nat, elapsed: bool)
    requires GoodChain(chain) && Inv(chain, s, all, k) && s.uploader.Stopped?
    requires IsWrite(chain, commitFileSize, s, after, size, elapsed)
    ensures Inv(chain, after, all, k)
  {
    var segments :| WriterInv(chain, s.writer.value, segments);
    hide Inv, GoodChain, WriterInv;
    var d := s.writer.value.(local := s.local, sent := []);
    WriterInvShared(chain, s.writer.value, segments, s.local, []);
    WriteSound(chain, d, segments, commitFileSize, size, elapsed);
    var e := WriteAsBlob(d, commitFileSize, chain(d.end), size, elapsed).value;
    hide WriteAsBlob;
    if e.sent != [] {
      AloneKeeps(chain, s, all, k, after, None);
    } else {
      AloneKeeps(chain, s, all, k, after, Some(e));
    }
  }

  lemma AloneKeeps(chain: Chain, s: Archive, all: seq<Segment>, k: nat, after: Archive, w: Option<Desk>)
    requires Inv(chain, s, all, k) && s.uploader.Stopped? && after == s.(writer := w, local := after.local)
    requires w.Some? ==> exists segments :: WriterInv(chain, w.value, segments)
    ensures Inv(chain, after, all, k)
  {
    hide WriterInv, Tile, UpdateOf, ManifestOf;
    assert InFlight(after) == InFlight(s) == [];
  }

  // ----- Crashes -----

  lemma StopWriterKeeps(chain: Chain, s: Archive, all: seq<Segment>, k: nat)
    requires Inv(chain, s, all, k)
    ensures Inv(chain, s.(writer := None), all, k)
  {
    hide Tile, ManifestOf, WriterInv;
    assert InFlight(s.(writer := None)) == InFlight(s);
  }

  lemma StopUploaderKeeps(chain: Chain, s: Archive, all: seq<Segment>, k: nat)
    requires Inv(chain, s, all, k)
    ensures Inv(chain, s.(uploader := Stopped, channel := []), all[..k], k)
  {
    TilePrefix(chain, all, k);
    assert all[..k][..k] == all[..k];
    assert InFlight(s.(uploader := Stopped, channel := [])) == [];
  }

  lemma ArchivedInhabited(chain: Chain, remote: Files, segments: seq<Segment>)
    requires Archived(chain, remote, segments) && segments != []
    ensures remote != map[]
  {
    assert Staged(remote, ContentFile(chain, segments[0]));
  }

  lemma RestartKeeps(chain: Chain, s: Archive, all: seq<Segment>, k: nat, staging: Files)
    requires Inv(chain, s, all, k) && CanRestart(s)
    ensures Inv(chain, RestartFrom(s, staging), all, k)
  {
    assert InFlight(s) == [];
    assert all[..k] == all;
    if k > 0 {
      ArchivedInhabited(chain, s.remote, all[..k]);
    }
    SoundIsManifestOf(chain, Base(s), all);
    var after := RestartFrom(s, staging);
    assert WriterInv(chain, after.writer.value, all);
    assert InFlight(after) == [];
  }

  // ----- Every step, every run -----

  lemma StepKeeps(chain: Chain, commitFileSize: nat, s: Archive, all: seq<Segment>, k: nat, a: Action)
      returns (all': seq<Segment>, k': nat)
    requires GoodChain(chain) && Inv(chain, s, all, k) && Enabled(s, a)
    ensures Inv(chain, Step(chain, commitFileSize, s, a), all', k')
    ensures k <= k' <= |all'| && k <= |all| && all'[..k] == all[..k]
  {
    assert k <= |all|;
    hide Inv, GoodChain, CanRestart, WriteNext, Upload, RestartFrom;
    all', k' := all, k;
    match a
    case Write(size, elapsed) =>
      var after := Step(chain, commitFileSize, s, a);
      if s.uploader.Stopped? {
        WriteAloneKeeps(chain, commitFileSize, s, all, k, after, size, elapsed);
      } else {
        all' := WriteConnectedKeeps(chain, commitFileSize, s, all, k, after, size, elapsed);
      }
    case UploadSummary => UploadSummaryKeeps(chain, s, all, k);
    case UploadContent => UploadContentKeeps(chain, s, all, k);
    case Publish =>
      PublishKeeps(chain, s, all, k);
      k' := k + 1;
    case StopWriter => StopWriterKeeps(chain, s, all, k);
    case StopUploader =>
      StopUploaderKeeps(chain, s, all, k);
      all' := all[..k];
    case Restart(staging) => RestartKeeps(chain, s, all, k, staging);
  }
}
