/** Transactions on their way into blocks: a queue that every proposal drains in batches. */
module Transactions {
  import opened Outcomes
  import opened Blocks

  /** The size a client may submit, and the size and number of transactions of one batch. */
  datatype Limits = Limits(transactionBytes: nat, batchBytes: nat, batchCount: nat) {

    predicate Fits() {
      transactionBytes <= batchBytes
    }

    predicate Accepts(t: Transaction) {
      |t.data| <= transactionBytes
    }
  }

  /** A transaction taken from the queue but not delivered yet, and the queue. */
  datatype Waiting = Waiting(pending: Option<Transaction>, queue: seq<Transaction>) {

    function All(): seq<Transaction> {
      Held() + queue
    }

    function Held(): seq<Transaction> {
      if pending.Some? then [pending.value] else []
    }
  }

  function Bytes(batch: seq<Transaction>): nat {
    if batch == [] then 0 else Bytes(batch[..|batch| - 1]) + |batch[|batch| - 1].data|
  }

  /** Adds queued transactions to a batch until a limit is met. The one that exceeds the byte
      limit is set aside; the count is only checked after adding one. */
  function Drain(limits: Limits, batch: seq<Transaction>, queue: seq<Transaction>): (seq<Transaction>, Waiting)
    decreases queue
  {
    if queue == [] then (batch, Waiting(None, []))
    else
      var t, rest := queue[0], queue[1..];
      if Bytes(batch) + |t.data| > limits.batchBytes then (batch, Waiting(Some(t), rest))
      else if |batch| + 1 >= limits.batchCount then (batch + [t], Waiting(None, rest))
      else Drain(limits, batch + [t], rest)
  }

  /** One pull: what was set aside comes first. */
  function Pull(limits: Limits, w: Waiting): (seq<Transaction>, Waiting) {
    Drain(limits, w.Held(), w.queue)
  }

  class TransactionsChannel {
    var queue: seq<Transaction>

    constructor ()
      ensures queue == []
    {
      queue := [];
    }
  }

  /** Rejects oversized transactions and queues the others. */
  method Submit(channel: TransactionsChannel, limits: Limits, data: seq<bv8>) returns (accepted: bool)
    modifies channel
    ensures accepted <==> limits.Accepts(Transaction(data))
    ensures channel.queue == old(channel.queue) + if accepted then [Transaction(data)] else []
  {
    accepted := |data| <= limits.transactionBytes;
    if accepted {
      channel.queue := channel.queue + [Transaction(data)];
    }
  }

  class TransactionsConsumer {
    const channel: TransactionsChannel
    const limits: Limits
    var pendingTransaction: Option<Transaction>

    ghost function State(): Waiting
      reads this, channel
    {
      Waiting(pendingTransaction, channel.queue)
    }

    constructor (channel: TransactionsChannel, limits: Limits)
      ensures this.channel == channel && this.limits == limits
      ensures State() == Waiting(None, channel.queue)
    {
      this.channel := channel;
      this.limits := limits;
      pendingTransaction := None;
    }

    method Next() returns (transactions: seq<Transaction>)
      modifies this, channel
      ensures (transactions, State()) == Pull(limits, old(State()))
    {
      transactions := [];
      var totalSize := 0;
      if pendingTransaction.Some? {
        transactions := [pendingTransaction.value];
        totalSize := |pendingTransaction.value.data|;
        pendingTransaction := None;
        assert transactions[..0] == [];
      }
      while channel.queue != []
        invariant pendingTransaction.None? && totalSize == Bytes(transactions)
        invariant Drain(limits, transactions, channel.queue) == Pull(limits, old(State()))
        decreases |channel.queue|
      {
        var t := channel.queue[0];
        channel.queue := channel.queue[1..];
        totalSize := totalSize + |t.data|;
        if totalSize > limits.batchBytes {
          pendingTransaction := Some(t);
          break;
        }
        assert (transactions + [t])[..|transactions|] == transactions;
        transactions := transactions + [t];
        if |transactions| >= limits.batchCount {
          break;
        }
      }
    }
  }

  // ----- One pull -----

  /** Delivers in order and loses nothing. */
  lemma {:induction false} DrainConserves(limits: Limits, batch: seq<Transaction>, queue: seq<Transaction>)
    ensures var (out, w) := Drain(limits, batch, queue); out + w.All() == batch + queue && batch <= out
    decreases queue
  {
    if queue != [] {
      var t, rest := queue[0], queue[1..];
      assert queue == [t] + rest && batch <= batch + [t];
      assert batch + [t] + rest == batch + queue;
      hide Bytes;
      DrainConserves(limits, batch + [t], rest);
    }
  }

  ghost predicate AllAccepted(limits: Limits, transactions: seq<Transaction>) {
    forall t :: t in transactions ==> limits.Accepts(t)
  }

  /** A batch that is within the byte limit stays there. */
  lemma {:induction false} DrainBytes(limits: Limits, batch: seq<Transaction>, queue: seq<Transaction>)
    requires Bytes(batch) <= limits.batchBytes
    ensures Bytes(Drain(limits, batch, queue).0) <= limits.batchBytes
    decreases queue
  {
    if queue != [] {
      var t := queue[0];
      assert (batch + [t])[..|batch|] == batch;
      if Bytes(batch) + |t.data| <= limits.batchBytes {
        DrainBytes(limits, batch + [t], queue[1..]);
      }
    }
  }

  function MaxCount(limits: Limits): nat {
    if limits.batchCount == 0 then 1 else limits.batchCount
  }

  /** Exceeding the count needs a batch that was already full. */
  lemma {:induction false} DrainCount(limits: Limits, batch: seq<Transaction>, queue: seq<Transaction>)
    requires batch == [] || |batch| < limits.batchCount
    ensures |Drain(limits, batch, queue).0| <= MaxCount(limits)
    decreases queue
  {
    if queue != [] && |batch| + 1 < limits.batchCount {
      DrainCount(limits, batch + [queue[0]], queue[1..]);
    }
  }

  /** With a count limit of 0 or 1, nothing that fits is ever set aside. */
  lemma PullHolds(limits: Limits, w: Waiting)
    requires limits.Fits() && limits.batchCount <= 1 && w.pending.None? && AllAccepted(limits, w.queue)
    ensures Pull(limits, w).1.pending.None?
  {
    if w.queue != [] {
      assert limits.Accepts(w.queue[0]);
    }
  }

  // ----- Whole runs -----

  // ----- Why a batch ends -----

  /** `out` and `rest` share out what waits: what is held comes first, further transactions are
      taken in order while they fit and the count allows it, and no earlier end was possible. */
  ghost predicate Greedy(limits: Limits, w: Waiting, out: seq<Transaction>, rest: Waiting) {
    && out + rest.All() == w.All() && w.Held() <= out
    && (|out| > |w.Held()| ==> Bytes(out) <= limits.batchBytes)
    && (|out| > |w.Held()| + 1 ==> |out| <= limits.batchCount)
    && (rest.pending.None? && rest.queue != [] ==> |out| > |w.Held()| && |out| >= limits.batchCount)
    && (rest.pending.Some? ==>
          && Bytes(out) + |rest.pending.value.data| > limits.batchBytes
          && (|out| == |w.Held()| || |out| < limits.batchCount))
  }

  lemma BytesAdded(batch: seq<Transaction>, t: Transaction)
    ensures Bytes(batch + [t]) == Bytes(batch) + |t.data|
  {
    assert (batch + [t])[..|batch|] == batch;
  }

  lemma {:induction false} BytesPrefix(a: seq<Transaction>, b: seq<Transaction>)
    requires a <= b
    ensures Bytes(a) <= Bytes(b)
  {
    if |a| < |b| {
      BytesPrefix(a, b[..|b| - 1]);
    } else {
      assert a == b;
    }
  }

  lemma {:induction false} DrainGreedy(
      limits: Limits, w: Waiting, batch: seq<Transaction>, queue: seq<Transaction>)
    requires batch + queue == w.All() && w.Held() <= batch
    requires |batch| > |w.Held()| ==> Bytes(batch) <= limits.batchBytes && |batch| < limits.batchCount
    ensures Greedy(limits, w, Drain(limits, batch, queue).0, Drain(limits, batch, queue).1)
    decreases queue
  {
    if queue != [] {
      var t, rest := queue[0], queue[1..];
      BytesAdded(batch, t);
      Requeue(batch, queue);
      hide Bytes;
      if Bytes(batch) + |t.data| > limits.batchBytes {
        assert Waiting(Some(t), rest).All() == queue;
      } else if |batch| + 1 < limits.batchCount {
        hide Greedy;
        DrainGreedy(limits, w, batch + [t], rest);
      }
    }
  }

  lemma Requeue<T>(batch: seq<T>, queue: seq<T>)
    requires queue != []
    ensures [queue[0]] + queue[1..] == queue && batch + [queue[0]] + queue[1..] == batch + queue
  {
  }

  /** A pull delivers the greedy batch... */
  lemma PullGreedy(limits: Limits, w: Waiting)
    ensures Greedy(limits, w, Pull(limits, w).0, Pull(limits, w).1)
  {
    DrainGreedy(limits, w, w.Held(), w.queue);
  }

  lemma GreedyNotShorter(
      limits: Limits, w: Waiting, a: seq<Transaction>, restA: Waiting, b: seq<Transaction>, restB: Waiting)
    requires Greedy(limits, w, a, restA) && Greedy(limits, w, b, restB)
    ensures |a| >= |b|
  {
    if |a| < |b| {
      var all := w.All();
      assert a <= all && b <= all && restA.All() == all[|a|..];
      hide Bytes;
      if restA.pending.Some? {
        var t := restA.pending.value;
        assert all[|a|] == restA.All()[0] == t && b[..|a| + 1] == a + [t];
        BytesAdded(a, t);
        BytesPrefix(a + [t], b);
      }
    }
  }

  /** ... and that batch is the only greedy one. */
  lemma PullUnique(limits: Limits, w: Waiting, out: seq<Transaction>, rest: Waiting)
    ensures Greedy(limits, w, out, rest) <==> (out, rest) == Pull(limits, w)
  {
    PullGreedy(limits, w);
    if Greedy(limits, w, out, rest) {
      var (batch, waiting) := Pull(limits, w);
      hide Pull, Bytes;
      GreedyNotShorter(limits, w, out, rest, batch, waiting);
      GreedyNotShorter(limits, w, batch, waiting, out, rest);
      SameSplit(w.All(), out, rest.All(), batch, waiting.All());
      assert rest.pending.Some? ==> rest.All()[0] == rest.pending.value && rest.All()[1..] == rest.queue;
      assert waiting.pending.Some? ==> waiting.All()[0] == waiting.pending.value && waiting.All()[1..] == waiting.queue;
      assert rest.pending.None? ==> rest.All() == rest.queue;
      assert waiting.pending.None? ==> waiting.All() == waiting.queue;
    }
  }

  lemma SameSplit<T>(all: seq<T>, a: seq<T>, restA: seq<T>, b: seq<T>, restB: seq<T>)
    requires a + restA == all == b + restB && |a| == |b|
    ensures a == b && restA == restB
  {
    assert a == all[..|a|] && restA == all[|a|..];
    assert b == all[..|b|] && restB == all[|b|..];
  }

  datatype Event = Submitted(transaction: Transaction) | Proposed

  /** The batches delivered so far, and what is waiting. */
  datatype Progress = Progress(batches: seq<seq<Transaction>>, waiting: Waiting)

  function Step(limits: Limits, p: Progress, e: Event): Progress {
    match e
    case Submitted(t) =>
      if limits.Accepts(t) then p.(waiting := p.waiting.(queue := p.waiting.queue + [t])) else p
    case Proposed =>
      var (batch, w) := Pull(limits, p.waiting);
      Progress(p.batches + [batch], w)
  }

  function Run(limits: Limits, events: seq<Event>): Progress {
    if events == [] then Progress([], Waiting(None, []))
    else Step(limits, Run(limits, events[..|events| - 1]), events[|events| - 1])
  }

  function AcceptedNow(limits: Limits, e: Event): seq<Transaction> {
    if e.Submitted? && limits.Accepts(e.transaction) then [e.transaction] else []
  }

  /** The transactions the client let through, in order. */
  function Accepted(limits: Limits, events: seq<Event>): seq<Transaction> {
    if events == [] then []
    else Accepted(limits, events[..|events| - 1]) + AcceptedNow(limits, events[|events| - 1])
  }

  function Flatten(batches: seq<seq<Transaction>>): seq<Transaction> {
    if batches == [] then [] else Flatten(batches[..|batches| - 1]) + batches[|batches| - 1]
  }

  /** Conservation: over every run, the batches followed by what is still waiting are exactly
      the accepted transactions, in the order they were submitted. */
  lemma {:induction false} RunConserves(limits: Limits, events: seq<Event>)
    ensures var p := Run(limits, events); Flatten(p.batches) + p.waiting.All() == Accepted(limits, events)
  {
    if events != [] {
      var front, last := events[..|events| - 1], events[|events| - 1];
      RunConserves(limits, front);
      StepConserves(limits, Run(limits, front), last);
      hide Flatten, Step;
    }
  }

  lemma StepConserves(limits: Limits, p: Progress, e: Event)
    ensures var q := Step(limits, p, e);
            Flatten(q.batches) + q.waiting.All() == Flatten(p.batches) + p.waiting.All() + AcceptedNow(limits, e)
  {
    var q := Step(limits, p, e);
    match e
    case Submitted(t) =>
      assert q.batches == p.batches && q.waiting.All() == p.waiting.All() + AcceptedNow(limits, e);
      hide *;
      Regroup(Flatten(p.batches), p.waiting.All(), AcceptedNow(limits, e));
    case Proposed =>
      var (batch, waiting) := Pull(limits, p.waiting);
      DrainConserves(limits, p.waiting.Held(), p.waiting.queue);
      assert batch + waiting.All() == p.waiting.All() && AcceptedNow(limits, e) == [];
      assert q.batches == p.batches + [batch] && q.waiting == waiting;
      hide *;
      FlattenOneMore(p.batches, batch);
      Regroup(Flatten(p.batches), batch, waiting.All());
  }

  lemma Regroup<T>(a: seq<T>, b: seq<T>, c: seq<T>)
    ensures a + b + c == a + (b + c)
  {
  }

  lemma FlattenOneMore(batches: seq<seq<Transaction>>, batch: seq<Transaction>)
    ensures Flatten(batches + [batch]) == Flatten(batches) + batch
  {
    assert (batches + [batch])[..|batches|] == batches;
  }

  /** Everything waiting was accepted by the client, and fits when the limits do. */
  lemma {:induction false} RunWaiting(limits: Limits, events: seq<Event>)
    ensures AllAccepted(limits, Run(limits, events).waiting.All())
    ensures limits.Fits() && limits.batchCount <= 1 ==> Run(limits, events).waiting.pending.None?
  {
    if events != [] {
      var front := events[..|events| - 1];
      RunWaiting(limits, front);
      var before := Run(limits, front).waiting;
      DrainConserves(limits, before.Held(), before.queue);
      var (batch, after) := Pull(limits, before);
      assert forall t :: t in after.All() ==> t in batch + after.All();
      assert forall t :: t in before.queue ==> t in before.All();
      if limits.Fits() && limits.batchCount <= 1 {
        PullHolds(limits, before);
      }
    }
  }

  /** In every run, every proposal delivers the greedy batch of what waits then. */
  lemma RunGreedy(limits: Limits, events: seq<Event>)
    ensures var p, q := Run(limits, events), Run(limits, events + [Proposed]);
            && |q.batches| == |p.batches| + 1 && p.batches <= q.batches
            && Greedy(limits, p.waiting, q.batches[|p.batches|], q.waiting)
  {
    RunOnce(limits, events, Proposed);
    PullGreedy(limits, Run(limits, events).waiting);
  }

  ghost predicate BytesRespected(limits: Limits) {
    forall events, b :: b in Run(limits, events).batches ==> Bytes(b) <= limits.batchBytes
  }

  ghost predicate CountRespected(limits: Limits) {
    forall events, b :: b in Run(limits, events).batches ==> |b| <= MaxCount(limits)
  }

  lemma {:induction false} RunBytes(limits: Limits, events: seq<Event>)
    requires limits.Fits()
    ensures forall b :: b in Run(limits, events).batches ==> Bytes(b) <= limits.batchBytes
  {
    if events != [] {
      var front := events[..|events| - 1];
      RunBytes(limits, front);
      RunWaiting(limits, front);
      var w := Run(limits, front).waiting;
      HeldBytes(limits, w);
      DrainBytes(limits, w.Held(), w.queue);
    }
  }

  lemma HeldBytes(limits: Limits, w: Waiting)
    requires limits.Fits() && AllAccepted(limits, w.All())
    ensures Bytes(w.Held()) <= limits.batchBytes
  {
    if w.pending.Some? {
      assert w.All()[0] == w.pending.value;
      assert limits.Accepts(w.pending.value);
      assert w.Held()[..0] == [];
    }
  }

  lemma {:induction false} RunCount(limits: Limits, events: seq<Event>)
    requires limits.Fits() || limits.batchCount >= 2
    ensures forall b :: b in Run(limits, events).batches ==> |b| <= MaxCount(limits)
  {
    if events != [] {
      var front := events[..|events| - 1];
      RunCount(limits, front);
      RunWaiting(limits, front);
      var w := Run(limits, front).waiting;
      DrainCount(limits, w.Held(), w.queue);
    }
  }

  function Sized(n: nat): Transaction {
    Transaction(seq(n, _ => 0))
  }

  lemma RunOnce(limits: Limits, events: seq<Event>, e: Event)
    ensures Run(limits, events + [e]) == Step(limits, Run(limits, events), e)
  {
    assert (events + [e])[..|events|] == events;
  }

  lemma SingleBytes(t: Transaction)
    ensures Bytes([t]) == |t.data| && Bytes([]) == 0
  {
    assert [t][..0] == [];
  }

  /** An oversized transaction is set aside once and then delivered alone, over the limit. */
  lemma OversizedRun(limits: Limits) returns (events: seq<Event>)
    requires !limits.Fits()
    ensures var t := Sized(limits.transactionBytes);
            && Run(limits, events) == Progress([[]], Waiting(Some(t), []))
            && Run(limits, events + [Proposed]) == Progress([[], [t]], Waiting(None, []))
            && Bytes([t]) > limits.batchBytes
  {
    var t := Sized(limits.transactionBytes);
    SingleBytes(t);
    events := [];
    RunOnce(limits, events, Submitted(t));
    events := events + [Submitted(t)];
    assert Run(limits, events) == Progress([], Waiting(None, [t]));
    RunOnce(limits, events, Proposed);
    events := events + [Proposed];
    assert [t][1..] == [];
    assert Pull(limits, Waiting(None, [t])) == ([], Waiting(Some(t), []));
    RunOnce(limits, events, Proposed);
    assert Pull(limits, Waiting(Some(t), [])) == ([t], Waiting(None, []));
  }

  /** After that, with a count limit of 0 or 1, a batch of two can follow. */
  lemma OvercountedRun(limits: Limits) returns (events: seq<Event>)
    requires !limits.Fits() && limits.batchCount <= 1
    ensures [Sized(0), Sized(0)] in Run(limits, events).batches
  {
    var t, z := Sized(limits.transactionBytes), Sized(0);
    SingleBytes(t);
    SingleBytes(z);
    events := OversizedRun(limits);
    RunOnce(limits, events, Submitted(z));
    events := events + [Submitted(z)];
    RunOnce(limits, events, Submitted(z));
    events := events + [Submitted(z)];
    assert Run(limits, events) == Progress([[]], Waiting(Some(t), [z, z]));
    PullsOver(limits, t, z);
    hide Pull, Run;
    RunOnce(limits, events, Proposed);
    events := events + [Proposed];
    assert Run(limits, events) == Progress([[]] + [[t]], Waiting(Some(z), [z]));
    RunOnce(limits, events, Proposed);
    events := events + [Proposed];
    assert Run(limits, events).batches[2] == [z, z];
  }

  /** What is held counts neither against the byte limit nor against the count. */
  lemma PullsOver(limits: Limits, t: Transaction, z: Transaction)
    requires |t.data| > limits.batchBytes && z.data == [] && limits.batchCount <= 1
    ensures Pull(limits, Waiting(Some(t), [z, z])) == ([t], Waiting(Some(z), [z]))
    ensures Pull(limits, Waiting(Some(z), [z])) == ([z, z], Waiting(None, []))
  {
    SingleBytes(t);
    SingleBytes(z);
    assert [z, z][1..] == [z] && [z][1..] == [] && [z] + [z] == [z, z];
  }

  /** Batches respect the byte limit in every run exactly when a transaction that clients may
      submit fits in a batch. */
  lemma BytesRespectedIff(limits: Limits)
    ensures BytesRespected(limits) <==> limits.Fits()
  {
    if limits.Fits() {
      forall events
        ensures forall b :: b in Run(limits, events).batches ==> Bytes(b) <= limits.batchBytes
      {
        RunBytes(limits, events);
      }
    } else {
      var events := OversizedRun(limits);
      assert Run(limits, events + [Proposed]).batches[1] == [Sized(limits.transactionBytes)];
    }
  }

  /** Batches respect the count limit in every run exactly when that holds or the limit is at
      least 2. */
  lemma CountRespectedIff(limits: Limits)
    ensures CountRespected(limits) <==> limits.Fits() || limits.batchCount >= 2
  {
    if limits.Fits() || limits.batchCount >= 2 {
      forall events
        ensures forall b :: b in Run(limits, events).batches ==> |b| <= MaxCount(limits)
      {
        RunCount(limits, events);
      }
    } else {
      var events := OvercountedRun(limits);
    }
  }
}
