/** Whole runs of the archive, crashes and restarts included. */
module ArchiveRuns {
  import opened Outcomes
  import opened Manifests
  import opened CheckpointWriters
  import opened ArchiveSystems
  import opened ArchiveSafety

  ghost predicate IsRun(chain: Chain, commitFileSize: nat, states: seq<Archive>, actions: seq<Action>) {
    && |states| == |actions| + 1
    && states[0] == INITIAL
    && forall i :: 0 <= i < |actions| ==> Steps(chain, commitFileSize, states, actions, i)
  }

  ghost predicate Steps(chain: Chain, commitFileSize: nat, states: seq<Archive>, actions: seq<Action>, i: nat)
    requires |states| == |actions| + 1 && i < |actions|
  {
    Enabled(states[i], actions[i]) && states[i + 1] == Step(chain, commitFileSize, states[i], actions[i])
  }

  lemma InitiallySafe(chain: Chain)
    ensures Inv(chain, INITIAL, [], 0)
  {
    var none: seq<Segment> := [];
    assert Tile(chain, none, End(none)) && none[..0] == none;
    assert InFlight(INITIAL) == [];
  }

  /** From one state of a run to a later one: the invariant, and the published segments kept. */
  lemma {:induction false} RunFrom(
      chain: Chain, commitFileSize: nat, states: seq<Archive>, actions: seq<Action>,
      i: nat, j: nat, all: seq<Segment>, k: nat)
      returns (all': seq<Segment>, k': nat)
    requires GoodChain(chain) && IsRun(chain, commitFileSize, states, actions) && i <= j < |states|
    requires Inv(chain, states[i], all, k)
    ensures Inv(chain, states[j], all', k') && k <= k' <= |all'| && k <= |all| && all'[..k] == all[..k]
    decreases j - i
  {
    assert k <= |all|;
    hide Inv, GoodChain;
    if i == j {
      all', k' := all, k;
    } else {
      assert Steps(chain, commitFileSize, states, actions, i);
      var more, m := StepKeeps(chain, commitFileSize, states[i], all, k, actions[i]);
      all', k' := RunFrom(chain, commitFileSize, states, actions, i + 1, j, more, m);
      assert all'[..m][..k] == all'[..k] && more[..m][..k] == more[..k];
    }
  }

  lemma {:induction false} FilesOfPrefix(chain: Chain, segments: seq<Segment>, n: nat)
    requires n <= |segments|
    ensures FilesOf(chain, segments[..n]) <= FilesOf(chain, segments)
  {
    if n < |segments| {
      var front := segments[..|segments| - 1];
      assert front[..n] == segments[..n];
      FilesOfPrefix(chain, front, n);
    } else {
      assert segments[..n] == segments;
    }
  }

  /** What the archive promises its readers about a manifest, given the files that are there. */
  ghost predicate Trustworthy(chain: Chain, m: Manifest, remote: Files) {
    && (exists segments :: SoundManifest(chain, m, segments))
    && (forall f, g :: f in m.files && g in m.files && f.FilePath() == g.FilePath() ==> f == g)
    && (forall f :: f in m.files ==> Staged(remote, f))
  }

  lemma ArchivedTrustworthy(chain: Chain, m: Manifest, remote: Files, segments: seq<Segment>)
    requires Tile(chain, segments, End(segments)) && m == ManifestOf(chain, segments)
    requires Archived(chain, remote, segments)
    ensures Trustworthy(chain, m, remote)
  {
    SoundIsManifestOf(chain, m, segments);
    forall f, g | f in m.files && g in m.files && f.FilePath() == g.FilePath()
      ensures f == g
    {
      PathsDistinct(chain, m, segments, f, g);
    }
    forall f | f in m.files
      ensures Staged(remote, f)
    {
      FilesOfMembers(chain, segments, f);
    }
  }

  /** Crash safety: in every state of every run, the published manifest tiles the checkpoints
      below its next one with non-empty single-epoch files under distinct paths, and all of them
      are in the archive with their recorded content. What was published before is a prefix of
      it, so older manifests stay just as readable. */
  lemma CrashSafe(
      chain: Chain, commitFileSize: nat, states: seq<Archive>, actions: seq<Action>, i: nat, j: nat)
    requires GoodChain(chain) && IsRun(chain, commitFileSize, states, actions) && i <= j < |states|
    ensures Trustworthy(chain, Base(states[j]), states[j].remote)
    ensures Base(states[i]).files <= Base(states[j]).files
    ensures Trustworthy(chain, Base(states[i]), states[j].remote)
  {
    InitiallySafe(chain);
    var all, k := RunFrom(chain, commitFileSize, states, actions, 0, i, [], 0);
    var all', k' := RunFrom(chain, commitFileSize, states, actions, i, j, all, k);
    Readable(chain, states[i], all, k, states[j], all', k');
  }

  lemma Readable(
      chain: Chain, s: Archive, all: seq<Segment>, k: nat, t: Archive, all': seq<Segment>, k': nat)
    requires Inv(chain, s, all, k) && Inv(chain, t, all', k')
    requires k <= k' <= |all'| && k <= |all| && all'[..k] == all[..k]
    ensures Trustworthy(chain, Base(t), t.remote) && Trustworthy(chain, Base(s), t.remote)
    ensures Base(s).files <= Base(t).files
  {
    hide Trustworthy;
    TilePrefix(chain, all, k);
    TilePrefix(chain, all', k');
    assert all'[..k'][..k] == all'[..k];
    FilesOfPrefix(chain, all'[..k'], k);
    assert forall x :: x in all[..k] ==> x in all'[..k'];
    ArchivedTrustworthy(chain, Base(t), t.remote, all'[..k']);
    ArchivedTrustworthy(chain, Base(s), t.remote, all[..k]);
  }

  // ----- The one window that cannot be recovered from -----

  /** Both processes are down, files are in the archive, but no manifest is. */
  predicate Stuck(s: Archive) {
    s.writer.None? && s.uploader.Stopped? && s.published.None? && s.remote != map[]
  }

  predicate Down(s: Archive) {
    s.writer.None? && s.uploader.Stopped?
  }

  /** The archive has files once a first one was uploaded, and a manifest once one was published. */
  ghost predicate Traces(s: Archive, done: seq<Action>) {
    && (s.published.Some? <==> Publish in done)
    && (s.remote != map[] <==> UploadSummary in done)
    && (Uploading(s) ==> UploadSummary in done)
  }

  lemma StepTraces(
      chain: Chain, commitFileSize: nat, s: Archive, all: seq<Segment>, k: nat, a: Action, done: seq<Action>)
    requires Inv(chain, s, all, k) && Enabled(s, a) && Traces(s, done)
    ensures Traces(Step(chain, commitFileSize, s, a), done + [a])
  {
    if a.UploadSummary? {
      NextStaged(chain, s, all, k);
    }
    hide Inv, Enabled, Step;
    StepEffects(chain, commitFileSize, s, a);
    assert a.Publish? <==> a == Publish;
    assert a.UploadSummary? <==> a == UploadSummary;
  }

  predicate Uploading(s: Archive) {
    s.uploader.SummaryUploaded? || s.uploader.BothUploaded?
  }

  lemma StepEffects(chain: Chain, commitFileSize: nat, s: Archive, a: Action)
    requires Enabled(s, a) && (Uploading(s) ==> s.remote != map[])
    requires a.UploadSummary? ==> s.channel != [] && s.channel[0].summary.FilePath() in s.local
    ensures var t := Step(chain, commitFileSize, s, a);
            && (t.published.Some? <==> s.published.Some? || a.Publish?)
            && (t.remote != map[] <==> s.remote != map[] || a.UploadSummary?)
            && (Uploading(t) ==> Uploading(s) || a.UploadSummary?)
  {
    hide Upload, WriteAsBlob, NewDesk;
    match a
    case UploadSummary =>
      var u := s.channel[0];
      UploadLeaves(s.(channel := s.channel[1..]), u.summary, SummaryUploaded(u));
    case UploadContent =>
      UploadLeaves(s, s.uploader.update.content, BothUploaded(s.uploader.update));
    case _ =>
  }

  lemma NextStaged(chain: Chain, s: Archive, all: seq<Segment>, k: nat)
    requires Inv(chain, s, all, k) && s.channel != []
    ensures s.channel[0].summary.FilePath() in s.local
  {
    FirstStaged(s.local, s.channel);
  }

  lemma UploadLeaves(s: Archive, f: FileMetadata, after: Uploader)
    ensures var t := Upload(s, f, after);
            && t.published == s.published
            && (f.FilePath() in s.local ==> t.remote != map[] && t.uploader == after)
            && (f.FilePath() !in s.local ==> t.remote == s.remote && t.uploader == Stopped)
  {
    var t := Upload(s, f, after);
    if f.FilePath() in s.local {
      assert f.FilePath() in t.remote;
    }
  }

  lemma {:induction false} RunTraces(
      chain: Chain, commitFileSize: nat, states: seq<Archive>, actions: seq<Action>, i: nat)
    requires GoodChain(chain) && IsRun(chain, commitFileSize, states, actions) && i < |states|
    ensures Traces(states[i], actions[..i])
  {
    hide GoodChain, Inv;
    if i > 0 {
      RunTraces(chain, commitFileSize, states, actions, i - 1);
      InitiallySafe(chain);
      var all, k := RunFrom(chain, commitFileSize, states, actions, 0, i - 1, [], 0);
      assert Steps(chain, commitFileSize, states, actions, i - 1);
      StepTraces(chain, commitFileSize, states[i - 1], all, k, actions[i - 1], actions[..i - 1]);
      assert actions[..i] == actions[..i - 1] + [actions[i - 1]];
    }
  }

  /** After any run that ends with both processes down, the archive can go on if and only if a
      manifest was published or no upload was ever begun. */
  lemma ResumableIff(chain: Chain, commitFileSize: nat, states: seq<Archive>, actions: seq<Action>)
    requires GoodChain(chain) && IsRun(chain, commitFileSize, states, actions) && Down(states[|actions|])
    ensures (exists a :: Enabled(states[|actions|], a)) <==> Publish in actions || UploadSummary !in actions
  {
    var s := states[|actions|];
    RunTraces(chain, commitFileSize, states, actions, |actions|);
    assert actions[..|actions|] == actions;
    if !Stuck(s) {
      assert Enabled(s, Restart(map[]));
    }
  }

  /** Once a manifest was published no later state of the run is stuck. */
  lemma PublishedNeverStuck(
      chain: Chain, commitFileSize: nat, states: seq<Archive>, actions: seq<Action>, i: nat, j: nat)
    requires GoodChain(chain) && IsRun(chain, commitFileSize, states, actions) && i < j < |states|
    requires actions[i] == Publish
    ensures !Stuck(states[j])
  {
    RunTraces(chain, commitFileSize, states, actions, j);
    assert actions[..j][i] == Publish;
  }

  lemma RunOne(
      chain: Chain, commitFileSize: nat, states: seq<Archive>, actions: seq<Action>, a: Action)
      returns (more: seq<Archive>, all: seq<Action>)
    requires IsRun(chain, commitFileSize, states, actions) && Enabled(states[|actions|], a)
    ensures IsRun(chain, commitFileSize, more, all) && |all| == |actions| + 1
    ensures more[|all|] == Step(chain, commitFileSize, states[|actions|], a)
  {
    more := states + [Step(chain, commitFileSize, states[|actions|], a)];
    all := actions + [a];
    forall i | 0 <= i < |all|
      ensures Steps(chain, commitFileSize, more, all, i)
    {
      assert i < |actions| ==> Steps(chain, commitFileSize, states, actions, i);
    }
  }

  /** A crash between the first upload and the first manifest leaves the archive stuck. */
  lemma StuckReachable(chain: Chain, commitFileSize: nat) returns (states: seq<Archive>, actions: seq<Action>)
    requires GoodChain(chain)
    ensures IsRun(chain, commitFileSize, states, actions) && Stuck(states[|actions|])
  {
    InitiallySafe(chain);
    states, actions := [INITIAL], [];
    states, actions := RunOne(chain, commitFileSize, states, actions, Restart(map[]));
    FirstWrites(chain, commitFileSize, states[1]);
    states, actions := RunOne(chain, commitFileSize, states, actions, Write(0, false));
    states, actions := RunOne(chain, commitFileSize, states, actions, Write(0, true));
    states, actions := RunOne(chain, commitFileSize, states, actions, UploadSummary);
    states, actions := RunOne(chain, commitFileSize, states, actions, StopWriter);
    states, actions := RunOne(chain, commitFileSize, states, actions, StopUploader);
  }

  /** Two writes, the second after the commit duration, send the first file. */
  lemma FirstWrites(chain: Chain, commitFileSize: nat, s: Archive)
    requires GoodChain(chain) && s == Step(chain, commitFileSize, INITIAL, Restart(map[]))
    ensures s.writer.Some?
    ensures var t := Step(chain, commitFileSize, s, Write(0, false));
            && t.writer.Some?
            && var v := Step(chain, commitFileSize, t, Write(0, true));
               && v.writer.Some? && v.uploader.Idle? && v.channel != [] && v.published.None?
               && v.channel[0].summary.FilePath() in v.local
  {
    var none: seq<Segment> := [];
    assert Tile(chain, none, End(none));
    assert WriterInv(chain, s.writer.value, none);
    var t := Step(chain, commitFileSize, s, Write(0, false));
    assert s.uploader.Idle? && s.published.None? && s.writer.value.start == s.writer.value.end && s.channel == [];
    hide GoodChain, WriterInv, Step;
    OneWrite(chain, commitFileSize, s, none, false);
    OneWrite(chain, commitFileSize, t, none, true);
  }

  /** A write to an empty file only opens it; a later one after the commit duration sends it. */
  lemma OneWrite(chain: Chain, commitFileSize: nat, s: Archive, segments: seq<Segment>, elapsed: bool)
    requires GoodChain(chain) && s.writer.Some? && WriterInv(chain, s.writer.value, segments)
    requires s.uploader.Idle? && s.published.None? && s.channel == []
    ensures var t, d := Step(chain, commitFileSize, s, Write(0, elapsed)), s.writer.value;
            && t.writer.Some? && t.uploader.Idle? && t.published.None?
            && (d.start == d.end ==> t.channel == [] && WriterInv(chain, t.writer.value, segments)
                                     && t.writer.value.start < t.writer.value.end)
            && (d.start < d.end && elapsed ==> t.channel != [] && t.channel[0].summary.FilePath() in t.local)
  {
    var d := s.writer.value.(local := s.local, sent := []);
    WriterInvShared(chain, s.writer.value, segments, s.local, []);
    WriteSound(chain, d, segments, commitFileSize, 0, elapsed);
    hide WriteAsBlob, GoodChain;
  }
}
