/**
 * `ChunkQueue` of `src/@tandem/mesh/streams/duplex.ts`: a rendezvous between
 * pending readers and pending writes. The promises it creates are not
 * modelled; their resolve and reject functions are opaque `Callback`
 * tokens, the promise a call returns is an outcome value, and every call of
 * one of those functions is an `Event` in a ghost log.
 */
module Duplex {

  /** An opaque resolve or reject function. */
  type Callback = nat

  /** An entry of `_writes`: the value and its writer's resolve and reject. */
  datatype PendingWrite<T> = PendingWrite(value: T, resolve: Callback, reject: Callback)

  datatype Event<T, R> =
    | ReaderCalled(reader: Callback, value: T)
    | WriterResolved(resolve: Callback)
    | WriterRejected(reject: Callback, reason: R)

  /** The promise `push` returns: already resolved, or pending until a reader takes the value. */
  datatype PushOutcome = Delivered | Queued

  /** The promise `shift` returns: resolved with a value, or pending until a writer comes. */
  datatype ShiftOutcome<T> = Ready(value: T) | Waiting

  /** `_reads` (as `readers`) and `_writes`, oldest first. */
  datatype QueueState<T> = QueueState(readers: seq<Callback>, writes: seq<PendingWrite<T>>)

  /** The queue never holds pending readers and pending writes at once. */
  predicate Inv<T>(q: QueueState<T>)
  {
    q.readers == [] || q.writes == []
  }

  /** What `size` reports for a state. */
  function QueueSize<T>(q: QueueState<T>): nat
  {
    |q.writes|
  }

  /** `push(value)`, with `resolve` and `reject` the functions of the promise it would create. */
  function PushStep<T, R>(q: QueueState<T>, value: T, resolve: Callback, reject: Callback)
    : (r: (QueueState<T>, PushOutcome, seq<Event<T, R>>))
    ensures Inv(q) ==> Inv(r.0)
    ensures q.readers != [] ==>
      && r.1 == Delivered && r.2 == [ReaderCalled(q.readers[0], value)]
      && r.0.readers == q.readers[1..] && r.0.writes == q.writes
    ensures q.readers == [] ==>
      && r.1 == Queued && r.2 == []
      && r.0.readers == q.readers && r.0.writes == q.writes + [PendingWrite(value, resolve, reject)]
      && QueueSize(r.0) == QueueSize(q) + 1
  {
    if |q.readers| > 0 then (QueueState(q.readers[1..], q.writes), Delivered, [ReaderCalled(q.readers[0], value)])
    else (QueueState(q.readers, q.writes + [PendingWrite(value, resolve, reject)]), Queued, [])
  }

  /** `shift()`, with `reader` the resolve function of the promise it would create. */
  function ShiftStep<T, R>(q: QueueState<T>, reader: Callback): (r: (QueueState<T>, ShiftOutcome<T>, seq<Event<T, R>>))
    ensures Inv(q) ==> Inv(r.0)
    ensures q.writes != [] ==>
      && r.1 == Ready(q.writes[0].value) && r.2 == [WriterResolved(q.writes[0].resolve)]
      && r.0.readers == q.readers && r.0.writes == q.writes[1..] && QueueSize(r.0) == QueueSize(q) - 1
    ensures q.writes == [] ==>
      && r.1 == Waiting && r.2 == [] && r.0.readers == q.readers + [reader] && r.0.writes == q.writes
  {
    if |q.writes| > 0 then (QueueState(q.readers, q.writes[1..]), Ready(q.writes[0].value), [WriterResolved(q.writes[0].resolve)])
    else (QueueState(q.readers + [reader], q.writes), Waiting, [])
  }

  /** One rejection per pending write, in queue order. */
  function Rejections<T, R>(writes: seq<PendingWrite<T>>, reason: R): (events: seq<Event<T, R>>)
    ensures |events| == |writes|
    ensures forall i :: 0 <= i < |writes| ==> events[i] == WriterRejected(writes[i].reject, reason)
  {
    if writes == [] then [] else [WriterRejected(writes[0].reject, reason)] + Rejections(writes[1..], reason)
  }

  /** `cancel(reason)`. */
  function CancelStep<T, R>(q: QueueState<T>, reason: R): (r: (QueueState<T>, seq<Event<T, R>>))
    ensures Inv(r.0) && r.0.writes == [] && r.0.readers == q.readers && QueueSize(r.0) == 0
    ensures |r.1| == |q.writes|
    ensures forall i :: 0 <= i < |q.writes| ==> r.1[i] == WriterRejected(q.writes[i].reject, reason)
  {
    (QueueState(q.readers, []), Rejections(q.writes, reason))
  }

  // ---------------------------------------------------------------------------
  // Runs of calls

  /** `push` each of `ws` in turn: the final state and every event. */
  function PushAll<T, R>(q: QueueState<T>, ws: seq<PendingWrite<T>>): (QueueState<T>, seq<Event<T, R>>)
    decreases |ws|
  {
    if ws == [] then (q, [])
    else
      var s := PushStep<T, R>(q, ws[0].value, ws[0].resolve, ws[0].reject);
      var rest := PushAll<T, R>(s.0, ws[1..]);
      (rest.0, s.2 + rest.1)
  }

  /** `shift` once per token: the final state, the outcomes and every event. */
  function ShiftAll<T, R>(q: QueueState<T>, tokens: seq<Callback>): (QueueState<T>, seq<ShiftOutcome<T>>, seq<Event<T, R>>)
    decreases |tokens|
  {
    if tokens == [] then (q, [], [])
    else
      var s := ShiftStep<T, R>(q, tokens[0]);
      var rest := ShiftAll<T, R>(s.0, tokens[1..]);
      (rest.0, [s.1] + rest.1, s.2 + rest.2)
  }

  function Values<T>(ws: seq<PendingWrite<T>>): (vs: seq<ShiftOutcome<T>>)
    ensures |vs| == |ws|
    ensures forall i :: 0 <= i < |ws| ==> vs[i] == Ready(ws[i].value)
  {
    if ws == [] then [] else [Ready(ws[0].value)] + Values(ws[1..])
  }

  function Resolutions<T, R>(ws: seq<PendingWrite<T>>): (es: seq<Event<T, R>>)
    ensures |es| == |ws|
    ensures forall i :: 0 <= i < |ws| ==> es[i] == WriterResolved(ws[i].resolve)
  {
    if ws == [] then [] else [WriterResolved(ws[0].resolve)] + Resolutions(ws[1..])
  }

  function Deliveries<T, R>(tokens: seq<Callback>, ws: seq<PendingWrite<T>>): (es: seq<Event<T, R>>)
    requires |tokens| == |ws|
    ensures |es| == |ws|
    ensures forall i :: 0 <= i < |ws| ==> es[i] == ReaderCalled(tokens[i], ws[i].value)
  {
    if ws == [] then [] else [ReaderCalled(tokens[0], ws[0].value)] + Deliveries(tokens[1..], ws[1..])
  }

  /** With no reader waiting, pushes append to the writes in order and call nothing. */
  lemma {:induction false} PushAllQueues<T, R>(q: QueueState<T>, ws: seq<PendingWrite<T>>)
    requires q.readers == []
    ensures PushAll<T, R>(q, ws) == (QueueState([], q.writes + ws), [])
    decreases |ws|
  {
    if ws == [] {
      assert q.writes + ws == q.writes;
    } else {
      var s := PushStep<T, R>(q, ws[0].value, ws[0].resolve, ws[0].reject);
      assert s.0 == QueueState([], q.writes + [ws[0]]) && s.2 == [];
      var rest := PushAll<T, R>(s.0, ws[1..]);
      PushAllQueues<T, R>(s.0, ws[1..]);
      assert PushAll<T, R>(q, ws) == (rest.0, s.2 + rest.1);
      assert q.writes + [ws[0]] + ws[1..] == q.writes + ws;
      assert s.2 + rest.1 == [];
    }
  }

  /** With no write pending, pushes feed the waiting readers oldest first. */
  lemma {:induction false} PushAllFeedsReaders<T, R>(q: QueueState<T>, ws: seq<PendingWrite<T>>)
    requires q.writes == [] && |ws| <= |q.readers|
    ensures PushAll<T, R>(q, ws) == (QueueState(q.readers[|ws|..], []), Deliveries(q.readers[..|ws|], ws))
    decreases |ws|
  {
    if ws != [] {
      var s := PushStep<T, R>(q, ws[0].value, ws[0].resolve, ws[0].reject);
      PushAllFeedsReaders<T, R>(s.0, ws[1..]);
      assert q.readers[1..][|ws| - 1..] == q.readers[|ws|..];
      assert q.readers[..|ws|][1..] == q.readers[1..][..|ws| - 1];
    }
  }

  /** Shifts take the oldest writes first, yield their values and resolve their writers in order. */
  lemma {:induction false} ShiftAllTakesOldest<T, R>(q: QueueState<T>, tokens: seq<Callback>)
    requires |tokens| <= |q.writes|
    ensures var n := |tokens|;
      ShiftAll<T, R>(q, tokens) == (QueueState(q.readers, q.writes[n..]), Values(q.writes[..n]), Resolutions(q.writes[..n]))
    decreases |tokens|
  {
    var n := |tokens|;
    if tokens != [] {
      var s := ShiftStep<T, R>(q, tokens[0]);
      ShiftAllTakesOldest<T, R>(s.0, tokens[1..]);
      assert q.writes[1..][n - 1..] == q.writes[n..];
      assert q.writes[..n][1..] == q.writes[1..][..n - 1];
    }
  }

  /** With no write pending, shifts queue their readers in order and yield nothing yet. */
  lemma {:induction false} ShiftAllWaits<T, R>(q: QueueState<T>, tokens: seq<Callback>)
    requires q.writes == []
    ensures var r := ShiftAll<T, R>(q, tokens);
      && r.0 == QueueState(q.readers + tokens, []) && r.2 == []
      && |r.1| == |tokens| && forall i :: 0 <= i < |tokens| ==> r.1[i] == Waiting
    decreases |tokens|
  {
    if tokens != [] {
      var s := ShiftStep<T, R>(q, tokens[0]);
      assert s == (QueueState(q.readers + [tokens[0]], []), Waiting, []);
      var rest := ShiftAll<T, R>(s.0, tokens[1..]);
      ShiftAllWaits<T, R>(s.0, tokens[1..]);
      assert ShiftAll<T, R>(q, tokens) == (rest.0, [Waiting] + rest.1, [] + rest.2);
      assert q.readers + [tokens[0]] + tokens[1..] == q.readers + tokens;
    }
  }

  /**
   * First in, first out: on a queue with no waiting reader, pushing `ws` and
   * then shifting once per pending write yields the values of the writes
   * that were pending, then those of `ws`, and resolves their writers in the
   * same order, leaving the queue empty.
   */
  lemma FifoRoundTrip<T, R>(q: QueueState<T>, ws: seq<PendingWrite<T>>, tokens: seq<Callback>)
    requires q.readers == [] && |tokens| == |q.writes| + |ws|
    ensures var pushed := PushAll<T, R>(q, ws);
            var shifted := ShiftAll<T, R>(pushed.0, tokens);
      && shifted.0 == QueueState([], [])
      && shifted.1 == Values(q.writes + ws)
      && shifted.2 == Resolutions(q.writes + ws)
  {
    PushAllQueues<T, R>(q, ws);
    ShiftAllTakesOldest<T, R>(QueueState([], q.writes + ws), tokens);
    assert (q.writes + ws)[..|tokens|] == q.writes + ws;
  }

  /**
   * Readers are served in the order they asked: shifting `tokens` on a
   * queue with no pending write and then pushing as many writes hands the
   * i-th value to the i-th reader.
   */
  lemma ReadersServedInOrder<T, R>(q: QueueState<T>, tokens: seq<Callback>, ws: seq<PendingWrite<T>>)
    requires q.readers == [] && q.writes == [] && |ws| == |tokens|
    ensures var shifted := ShiftAll<T, R>(q, tokens);
            var pushed := PushAll<T, R>(shifted.0, ws);
      pushed == (QueueState([], []), Deliveries(tokens, ws))
  {
    var shifted := ShiftAll<T, R>(q, tokens);
    ShiftAllWaits<T, R>(q, tokens);
    assert q.readers + tokens == tokens;
    assert shifted.0 == QueueState(tokens, []);
    PushAllFeedsReaders<T, R>(QueueState(tokens, []), ws);
    assert tokens[..|ws|] == tokens && tokens[|ws|..] == [];
  }

  /** The queue of `duplex.ts`. */
  class ChunkQueue<T, R> {
    var readers: seq<Callback>
    var writes: seq<PendingWrite<T>>
    /** Every call of a reader's or writer's resolve or reject, in order. */
    ghost var log: seq<Event<T, R>>

    function State(): QueueState<T>
      reads this
    {
      QueueState(readers, writes)
    }

    ghost predicate Valid()
      reads this
    {
      Inv(State())
    }

    constructor()
      ensures Valid() && readers == [] && writes == [] && log == []
    {
      readers := [];
      writes := [];
      log := [];
    }

    /** `push(value)`. */
    method Push(value: T, resolve: Callback, reject: Callback) returns (outcome: PushOutcome)
      requires Valid()
      modifies this
      ensures Valid()
      ensures var s := PushStep<T, R>(old(State()), value, resolve, reject);
        State() == s.0 && outcome == s.1 && log == old(log) + s.2
    {
      if |readers| > 0 {
        var reader := readers[0];
        readers := readers[1..];
        log := log + [ReaderCalled(reader, value)];
        outcome := Delivered;
      } else {
        writes := writes + [PendingWrite(value, resolve, reject)];
        outcome := Queued;
      }
    }

    /** The `size` getter. */
    function Size(): (n: nat)
      reads this
      ensures n == QueueSize(State())
      ensures Valid() && n > 0 ==> readers == []
    {
      |writes|
    }

    /** `shift()`. */
    method Shift(reader: Callback) returns (outcome: ShiftOutcome<T>)
      requires Valid()
      modifies this
      ensures Valid()
      ensures var s := ShiftStep<T, R>(old(State()), reader);
        State() == s.0 && outcome == s.1 && log == old(log) + s.2
    {
      if |writes| > 0 {
        var w := writes[0];
        writes := writes[1..];
        log := log + [WriterResolved(w.resolve)];
        outcome := Ready(w.value);
      } else {
        readers := readers + [reader];
        outcome := Waiting;
      }
    }

    /** `cancel(reason)`: empty the writes, then reject the copied ones in order. */
    method Cancel(reason: R)
      requires Valid()
      modifies this
      ensures Valid()
      ensures var s := CancelStep(old(State()), reason);
        State() == s.0 && log == old(log) + s.1
    {
      var pending := writes;
      writes := [];
      var i := 0;
      while i < |pending|
        invariant i <= |pending|
        invariant readers == old(readers) && writes == []
        invariant log == old(log) + Rejections(pending[..i], reason)
      {
        assert pending[..i + 1] == pending[..i] + [pending[i]];
        RejectionsAppend(pending[..i], pending[i], reason);
        log := log + [WriterRejected(pending[i].reject, reason)];
        i := i + 1;
      }
      assert pending[..i] == pending;
    }
  }

  lemma RejectionsAppend<T, R>(ws: seq<PendingWrite<T>>, w: PendingWrite<T>, reason: R)
    ensures Rejections(ws + [w], reason) == Rejections(ws, reason) + [WriterRejected(w.reject, reason)]
  {
    var a := Rejections(ws + [w], reason);
    var b := Rejections(ws, reason) + [WriterRejected(w.reject, reason)];
    assert |a| == |b|;
    forall i | 0 <= i < |a| ensures a[i] == b[i] {
      if i < |ws| { assert (ws + [w])[i] == ws[i]; }
    }
  }
}
