/** The staging directory: an upload moves a file to the archive, it does not copy it. */
module ArchiveStaging {
  import opened Outcomes
  import opened Manifests
  import opened CheckpointWriters
  import opened ArchiveSystems
  import opened ArchiveSafety
  import opened ArchiveRuns

  /** A write only adds files from its own start on. */
  lemma WriteAdds(d: Desk, commitFileSize: nat, c: Checkpoint, size: nat, elapsed: bool)
    requires d.start <= d.end && WriteAsBlob(d, commitFileSize, c, size, elapsed).Ok?
    ensures var e := WriteAsBlob(d, commitFileSize, c, size, elapsed).value;
            && d.start <= e.start <= e.end
            && forall p :: p in e.local ==> p in d.local || p.start >= d.start
  {
  }

  /** The file is out of the staging directory, and the writer is past it. */
  ghost predicate Gone(s: Archive, p: Path) {
    && p !in s.local
    && (s.writer.Some? ==> p.start < s.writer.value.start <= s.writer.value.end)
  }

  lemma WriteGone(chain: Chain, commitFileSize: nat, s: Archive, size: nat, elapsed: bool, p: Path)
    requires s.writer.Some? && Gone(s, p)
    ensures Gone(WriteNext(chain, commitFileSize, s, s.writer.value, size, elapsed), p)
  {
    var w := s.writer.value;
    var d := w.(local := s.local, sent := []);
    if WriteAsBlob(d, commitFileSize, chain(w.end), size, elapsed).Ok? {
      WriteAdds(d, commitFileSize, chain(w.end), size, elapsed);
    }
    hide WriteAsBlob;
  }

  lemma StepGone(chain: Chain, commitFileSize: nat, s: Archive, a: Action, p: Path)
    requires Enabled(s, a) && !a.Restart? && Gone(s, p)
    ensures Gone(Step(chain, commitFileSize, s, a), p)
  {
    match a
    case Write(size, elapsed) =>
      hide WriteNext, Gone;
      WriteGone(chain, commitFileSize, s, size, elapsed, p);
    case _ =>
  }

  /** The file that an upload moves. */
  function Moved(s: Archive, a: Action): FileMetadata
    requires Enabled(s, a) && (a.UploadSummary? || a.UploadContent?)
  {
    if a.UploadSummary? then s.channel[0].summary else s.uploader.update.content
  }

  lemma UploadMoves(chain: Chain, commitFileSize: nat, s: Archive, all: seq<Segment>, k: nat, a: Action)
    requires GoodChain(chain) && Inv(chain, s, all, k) && Enabled(s, a) && (a.UploadSummary? || a.UploadContent?)
    ensures var t, p := Step(chain, commitFileSize, s, a), Moved(s, a).FilePath();
            Gone(t, p) && Staged(t.remote, Moved(s, a))
  {
    Oldest(chain, s, all, k);
    var p := Moved(s, a).FilePath();
    assert p.start == all[k].start;
    if a.UploadSummary? {
      FirstStaged(s.local, s.channel);
    }
    assert Staged(s.local, Moved(s, a));
    if s.writer.Some? {
      assert WriterInv(chain, s.writer.value, all);
      assert s.writer.value.start <= s.writer.value.end;
      hide Inv, WriterInv, GoodChain;
      FlightBelowWriter(chain, s.writer.value, all, k);
    }
    hide Inv, WriterInv, GoodChain;
  }

  lemma {:induction false} StaysGone(
      chain: Chain, commitFileSize: nat, states: seq<Archive>, actions: seq<Action>, i: nat, j: nat, p: Path)
    requires IsRun(chain, commitFileSize, states, actions) && i <= j < |states| && Gone(states[i], p)
    requires forall n :: i <= n < j ==> !actions[n].Restart?
    ensures Gone(states[j], p)
    decreases j - i
  {
    hide Gone;
    if i < j {
      StaysGone(chain, commitFileSize, states, actions, i, j - 1, p);
      assert Steps(chain, commitFileSize, states, actions, j - 1);
      StepGone(chain, commitFileSize, states[j - 1], actions[j - 1], p);
    }
  }

  /** In every run, an uploaded file is in the archive with its content and not in the staging
      directory, and until the next start nothing is staged under its name again. */
  lemma UploadedGone(
      chain: Chain, commitFileSize: nat, states: seq<Archive>, actions: seq<Action>, i: nat, j: nat)
    requires GoodChain(chain) && IsRun(chain, commitFileSize, states, actions) && i < j < |states|
    requires actions[i].UploadSummary? || actions[i].UploadContent?
    requires forall n :: i < n < j ==> !actions[n].Restart?
    ensures Enabled(states[i], actions[i])
    ensures Staged(states[i + 1].remote, Moved(states[i], actions[i]))
    ensures Moved(states[i], actions[i]).FilePath() !in states[j].local
  {
    assert Steps(chain, commitFileSize, states, actions, i);
    InitiallySafe(chain);
    hide GoodChain, Inv, IsRun;
    var all, k := RunFrom(chain, commitFileSize, states, actions, 0, i, [], 0);
    UploadMoves(chain, commitFileSize, states[i], all, k, actions[i]);
    hide Step, Moved;
    StaysGone(chain, commitFileSize, states, actions, i + 1, j, Moved(states[i], actions[i]).FilePath());
  }
}
