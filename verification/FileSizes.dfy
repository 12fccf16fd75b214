/** How much goes into a file: exactly when the writer cuts one and starts the next. */
module FileSizes {
  import opened Outcomes
  import opened Manifests
  import opened CheckpointWriters

  /** The encoded size of every checkpoint, and whether the commit duration had passed when it came. */
  type Sizes = nat -> nat
  type Timer = nat -> bool

  /** The writer's circumstances: the chain, its limit, and the manifest it started from. */
  datatype Job = Job(chain: Chain, sizes: Sizes, timer: Timer, limit: nat, from: Manifest)

  /** The bytes of the checkpoints from `start` up to `end`. */
  function Total(sizes: Sizes, start: nat, end: nat): nat {
    if start >= end then 0 else Total(sizes, start, end - 1) + sizes(end - 1)
  }

  /** Where the first checkpoint of a file goes: after the magic bytes, except that a writer which
      just started does not count those of its first file. */
  function FirstOffset(j: Job, start: nat): nat {
    if start == j.from.next && EpochAt(j.chain, start) == j.from.epoch && !j.timer(start) && j.sizes(start) <= j.limit
    then 0 else MAGIC_BYTES
  }

  /** A file that starts at `start` may not hold checkpoint `n`. */
  predicate EndsBefore(j: Job, start: nat, n: nat) {
    || EpochAt(j.chain, n) != EpochAt(j.chain, start)
    || j.timer(n)
    || FirstOffset(j, start) + Total(j.sizes, start, n + 1) > j.limit
  }

  /** A file holds its first checkpoint and then all that it may. */
  ghost predicate Filled(j: Job, start: nat, end: nat) {
    start < end && forall n :: start < n < end ==> !EndsBefore(j, start, n)
  }

  /** The desk after writing the checkpoints up to `n`. */
  function WriteUpTo(j: Job, d: Desk, n: nat): Outcome<Desk> {
    if n <= d.end then Ok(d)
    else
      var before :- WriteUpTo(j, d, n - 1);
      WriteAsBlob(before, j.limit, j.chain(n - 1), j.sizes(n - 1), j.timer(n - 1))
  }

  /** The open file is filled and its size accounted for. */
  ghost predicate OpenFile(j: Job, d: Desk) {
    if d.start < d.end
    then Filled(j, d.start, d.end) && d.offset == FirstOffset(j, d.start) + Total(j.sizes, d.start, d.end)
         && j.from.next <= d.start
    else d.start == j.from.next && d.offset == 0 && d.epoch == j.from.epoch
  }

  /** Every file sent off is filled and ends where it had to. */
  ghost predicate SentFiles(j: Job, sent: seq<CheckpointUpdates>) {
    forall u :: u in sent ==>
      && Filled(j, u.content.start, u.content.end) && EndsBefore(j, u.content.start, u.content.end)
      && u.summary.start == u.content.start && u.summary.end == u.content.end
  }

  lemma SentMore(j: Job, d: Desk)
    requires SentFiles(j, d.sent) && OpenFile(j, d) && (d.start < d.end ==> EndsBefore(j, d.start, d.end))
    ensures SentFiles(j, Cut(d).sent)
  {
    hide EndsBefore, Filled;
    if d.start < d.end {
      var u := Cut(d).sent[|d.sent|];
      assert Cut(d).sent == d.sent + [u];
      assert u.content.start == d.start && u.content.end == d.end;
      assert Filled(j, u.content.start, u.content.end) && EndsBefore(j, u.content.start, u.content.end);
    }
  }

  lemma NewFile(j: Job, d: Desk, e: Desk)
    requires e.start == d.end && e.end == d.end + 1 && e.offset == MAGIC_BYTES + j.sizes(d.end)
    requires j.from.next <= d.end && FirstOffset(j, d.end) == MAGIC_BYTES
    ensures OpenFile(j, e)
  {
    assert Total(j.sizes, d.end, d.end) == 0;
    assert Total(j.sizes, d.end, d.end + 1) == j.sizes(d.end);
  }

  lemma SameFile(j: Job, d: Desk, e: Desk)
    requires OpenFile(j, d) && d.start < d.end && !EndsBefore(j, d.start, d.end)
    requires e.start == d.start && e.end == d.end + 1 && e.offset == d.offset + j.sizes(d.end)
    ensures OpenFile(j, e)
  {
    assert Total(j.sizes, d.start, d.end + 1) == Total(j.sizes, d.start, d.end) + j.sizes(d.end);
    hide EndsBefore, FirstOffset, Total;
  }

  /** What a write does to the files: it continues the open one or starts a new one. */
  lemma WriteShape(d: Desk, limit: nat, c: Checkpoint, size: nat, elapsed: bool)
    requires WriteAsBlob(d, limit, c, size, elapsed).Ok?
    ensures var e := WriteAsBlob(d, limit, c, size, elapsed).value;
            && e.end == d.end + 1
            && (c.summary.epoch == d.epoch && d.offset + size <= limit && !elapsed ==>
                  e.start == d.start && e.offset == d.offset + size && e.sent == d.sent)
            && (c.summary.epoch == d.epoch && (d.offset + size > limit || elapsed) ==>
                  e.start == d.end && e.offset == MAGIC_BYTES + size && e.sent == Cut(d).sent)
            && (c.summary.epoch != d.epoch ==>
                  c.summary.epoch == d.epoch + 1
                  && e.start == d.end && e.offset == MAGIC_BYTES + size && e.sent == Cut(d).sent)
  {
  }

  /** One write. */
  lemma WriteFills(j: Job, d: Desk, segments: seq<Segment>)
    requires WriterInv(j.chain, d, segments) && OpenFile(j, d) && SentFiles(j, d.sent)
    requires WriteAsBlob(d, j.limit, j.chain(d.end), j.sizes(d.end), j.timer(d.end)).Ok?
    ensures var e := WriteAsBlob(d, j.limit, j.chain(d.end), j.sizes(d.end), j.timer(d.end)).value;
            e.end == d.end + 1 && OpenFile(j, e) && SentFiles(j, e.sent)
  {
    var k, c := d.end, j.chain(d.end);
    var e := WriteAsBlob(d, j.limit, c, j.sizes(k), j.timer(k)).value;
    WriteShape(d, j.limit, c, j.sizes(k), j.timer(k));
    assert d.start < d.end ==> EpochAt(j.chain, d.start) == d.epoch;
    assert d.start < d.end ==> Total(j.sizes, d.start, k + 1) == Total(j.sizes, d.start, k) + j.sizes(k);
    hide WriteAsBlob, WriterInv;
    if c.summary.epoch == d.epoch && d.offset + j.sizes(k) <= j.limit && !j.timer(k) {
      if d.start < d.end {
        SameFile(j, d, e);
      } else {
        FirstFile(j, d, e);
      }
    } else {
      SentMore(j, d);
      NewFile(j, d, e);
    }
  }

  lemma FirstFile(j: Job, d: Desk, e: Desk)
    requires OpenFile(j, d) && d.start == d.end
    requires EpochAt(j.chain, d.end) == d.epoch && j.sizes(d.end) <= j.limit && !j.timer(d.end)
    requires e.start == d.start && e.end == d.end + 1 && e.offset == d.offset + j.sizes(d.end)
    ensures OpenFile(j, e)
  {
    assert Total(j.sizes, d.end, d.end) == 0;
    assert Total(j.sizes, d.end, d.end + 1) == j.sizes(d.end);
  }

  lemma {:induction false} WritesFill(j: Job, segments: seq<Segment>, local: Files, n: nat)
      returns (more: seq<Segment>)
    requires GoodChain(j.chain) && SoundManifest(j.chain, j.from, segments) && j.from.next <= n
    ensures var d := WriteUpTo(j, NewDesk(j.from, local), n);
            d.Ok? && d.value.end == n && WriterInv(j.chain, d.value, more)
            && OpenFile(j, d.value) && SentFiles(j, d.value.sent)
    decreases n
  {
    var desk := NewDesk(j.from, local);
    if n == j.from.next {
      more := segments;
      assert WriterInv(j.chain, desk, segments);
    } else {
      var before := WritesFill(j, segments, local, n - 1);
      var d := WriteUpTo(j, desk, n - 1).value;
      hide GoodChain, WriterInv, NewDesk, WriteAsBlob, OpenFile, SentFiles;
      WriteSound(j.chain, d, before, j.limit, j.sizes(n - 1), j.timer(n - 1));
      WriteFills(j, d, before);
      more := WrittenSegments(
        j.chain, d, before, WriteAsBlob(d, j.limit, j.chain(n - 1), j.sizes(n - 1), j.timer(n - 1)).value,
        CutsFile(d, j.limit, j.chain(n - 1), j.sizes(n - 1), j.timer(n - 1)));
      assert desk.end == j.from.next;
    }
  }

  lemma WrittenSegments(chain: Chain, d: Desk, segments: seq<Segment>, e: Desk, cut: bool) returns (more: seq<Segment>)
    requires Written(chain, d, segments, e, cut)
    ensures WriterInv(chain, e, more)
  {
    more := if cut then CutSegments(d, segments) else segments;
  }

  /** A writer fills its files greedily: starting from any sound manifest, every file it sends ends
      exactly at the first checkpoint that is of another epoch, comes after the commit duration, or
      would exceed the limit. So a file holds one checkpoint or stays within the limit. */
  lemma FilesFilled(j: Job, segments: seq<Segment>, local: Files, n: nat)
    requires GoodChain(j.chain) && SoundManifest(j.chain, j.from, segments) && j.from.next <= n
    ensures WriteUpTo(j, NewDesk(j.from, local), n).Ok?
    ensures var d := WriteUpTo(j, NewDesk(j.from, local), n).value;
            && d.end == n && OpenFile(j, d) && SentFiles(j, d.sent)
            && forall u :: u in d.sent ==>
                 || u.content.end == u.content.start + 1
                 || FirstOffset(j, u.content.start) + Total(j.sizes, u.content.start, u.content.end) <= j.limit
  {
    var more := WritesFill(j, segments, local, n);
    var d := WriteUpTo(j, NewDesk(j.from, local), n).value;
    hide WriteUpTo, NewDesk, OpenFile;
    forall u | u in d.sent
      ensures u.content.end == u.content.start + 1
              || FirstOffset(j, u.content.start) + Total(j.sizes, u.content.start, u.content.end) <= j.limit
    {
      WithinLimit(j, u.content.start, u.content.end);
    }
  }

  lemma WithinLimit(j: Job, start: nat, end: nat)
    requires Filled(j, start, end)
    ensures end == start + 1 || FirstOffset(j, start) + Total(j.sizes, start, end) <= j.limit
  {
    if end > start + 1 {
      assert !EndsBefore(j, start, end - 1);
    }
  }
}
