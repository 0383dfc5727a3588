/** The single-writer queue in front of the database (RunWriter, Enqueue and Close in
    internal/storage/db.go): which operations reach the writer, and in which order. What becomes
    of an operation's transaction is not part of this. */
module WriteQueue {
  const CAPACITY: nat := 1024

  // ---------------------------------------------------------------- the queue

  class Queue<T> {
    var queue: seq<T>
    var closed: bool
    var handed: seq<T>  // the operations given to run, in order

    constructor ()
      ensures queue == [] && handed == [] && !closed
    {
      queue, closed, handed := [], false, [];
    }

    /** Whether the operation was queued. A full queue makes the caller wait until it is not, or
        is closed; a closed queue that is not full may go either way. */
    method Enqueue(op: T, prefersQueue: bool) returns (queued: bool)
      requires |queue| < CAPACITY || closed
      modifies this`queue
      ensures queued == (|old(queue)| < CAPACITY && (!closed || prefersQueue))
      ensures queue == if queued then old(queue) + [op] else old(queue)
    {
      queued := |queue| < CAPACITY && (!closed || prefersQueue);
      if queued {
        queue := queue + [op];
      }
    }

    /** The writer after cancellation: runs what is there, then stops. */
    method Drain()
      modifies this`queue, this`handed
      ensures queue == [] && handed == old(handed) + old(queue)
    {
      while queue != []
        invariant handed + queue == old(handed) + old(queue)
        decreases |queue|
      {
        handed := handed + [queue[0]];
        queue := queue[1..];
      }
    }
  }

  // --------------------------------------------- producers and the one writer

  datatype Writer = Running | Draining | Stopped

  /** `accepted` and `dropped` are history. Callers that wait take no step. */
  datatype State<T> = State(queue: seq<T>, closed: bool, writer: Writer, handed: seq<T>, accepted: seq<T>, dropped: nat)

  datatype Label<T> =
    | Accept(op: T)  // Enqueue sends
    | Drop           // Enqueue finds the queue closed
    | Close
    | Cancel         // the writer sees that its context is done
    | Take           // the writer receives an operation and runs it
    | Stop           // the draining writer finds the queue empty

  predicate Enabled<T>(s: State<T>, l: Label<T>) {
    match l
    case Accept(_) => |s.queue| < CAPACITY
    case Drop => s.closed
    case Close => true
    case Cancel => s.writer.Running?
    case Take => !s.writer.Stopped? && s.queue != []
    case Stop => s.writer.Draining? && s.queue == []
  }

  function Apply<T>(s: State<T>, l: Label<T>): State<T>
    requires Enabled(s, l)
  {
    match l
    case Accept(op) => s.(queue := s.queue + [op], accepted := s.accepted + [op])
    case Drop => s.(dropped := s.dropped + 1)
    case Close => s.(closed := true)
    case Cancel => s.(writer := Draining)
    case Take => s.(queue := s.queue[1..], handed := s.handed + [s.queue[0]])
    case Stop => s.(writer := Stopped)
  }

  ghost predicate IsRun<T>(states: seq<State<T>>, labels: seq<Label<T>>) {
    && |states| == |labels| + 1
    && states[0] == State([], false, Running, [], [], 0)
    && forall i {:trigger StepAt(states, labels, i)} :: 0 <= i < |labels| ==> StepAt(states, labels, i)
  }

  ghost predicate StepAt<T>(states: seq<State<T>>, labels: seq<Label<T>>, i: int) {
    0 <= i < |labels| && i + 1 < |states| && Enabled(states[i], labels[i]) && states[i + 1] == Apply(states[i], labels[i])
  }

  ghost predicate Inv<T>(s: State<T>) {
    && s.handed + s.queue == s.accepted && |s.queue| <= CAPACITY
    && (s.dropped > 0 ==> s.closed)
  }

  lemma StepInv<T>(s: State<T>, l: Label<T>)
    requires Inv(s) && Enabled(s, l)
    ensures Inv(Apply(s, l))
  {
    if l.Take? { assert s.handed + s.queue == (s.handed + [s.queue[0]]) + s.queue[1..]; }
  }

  lemma {:induction false} RunInv<T>(states: seq<State<T>>, labels: seq<Label<T>>, n: nat)
    requires IsRun(states, labels) && n < |states|
    ensures Inv(states[n])
  {
    if n > 0 {
      RunInv(states, labels, n - 1);
      assert StepAt(states, labels, n - 1);
      StepInv(states[n - 1], labels[n - 1]);
    }
  }

  /** The writer runs operations in the order in which they were accepted, each at most once and
      without gaps; the rest is still queued, and nothing is turned away before Close. */
  lemma HandedInOrder<T>(states: seq<State<T>>, labels: seq<Label<T>>, n: nat)
    requires IsRun(states, labels) && n < |states|
    ensures var s := states[n];
            && s.handed <= s.accepted && s.queue == s.accepted[|s.handed|..]
            && |s.queue| <= CAPACITY && (s.dropped > 0 ==> s.closed)
  {
    RunInv(states, labels, n);
  }

  lemma {:induction false} AcceptedGrows<T>(states: seq<State<T>>, labels: seq<Label<T>>, m: nat, n: nat)
    requires IsRun(states, labels) && m <= n < |states|
    ensures states[m].accepted <= states[n].accepted
    ensures states[m].writer.Stopped? ==> states[n].writer.Stopped? && states[n].handed == states[m].handed
    decreases n - m
  {
    if m < n {
      AcceptedGrows(states, labels, m, n - 1);
      assert StepAt(states, labels, n - 1);
    }
  }

  /** An accepted operation is run if and only if it was accepted before the writer stopped. */
  lemma RunIffInTime<T>(states: seq<State<T>>, labels: seq<Label<T>>, m: nat, n: nat, i: nat)
    requires IsRun(states, labels) && m < n < |states| && labels[m].Stop? && i < |states[n].accepted|
    ensures states[n].handed == states[m].accepted <= states[n].accepted
    ensures i < |states[n].handed| <==> i < |states[m].accepted|
  {
    assert StepAt(states, labels, m);
    RunInv(states, labels, m);
    AcceptedGrows(states, labels, m + 1, n);
    AcceptedGrows(states, labels, m, n);
  }

  /** What is queued before the writer stops is run, in its turn. */
  lemma QueuedIsRun<T>(states: seq<State<T>>, labels: seq<Label<T>>, i: nat, m: nat, op: T)
    requires IsRun(states, labels) && i < m < |labels| && labels[i] == Accept(op) && labels[m].Stop?
    ensures |states[i].accepted| < |states[m].handed| && states[m].handed[|states[i].accepted|] == op
  {
    assert StepAt(states, labels, i) && StepAt(states, labels, m);
    assert states[i + 1].accepted == states[i].accepted + [op];
    AcceptedGrows(states, labels, i + 1, m);
    RunInv(states, labels, m);
    assert states[m].handed == states[m].handed + states[m].queue == states[m].accepted;
    assert states[i + 1].accepted[|states[i].accepted|] == op;
  }

  /** A queued operation can always be run by a writer that has not stopped; an operation can always be
      queued unless the queue is full, and dropped only if it is closed. */
  lemma QueueMoves<T>(s: State<T>, op: T)
    ensures s.queue != [] && !s.writer.Stopped? ==>
              Enabled(s, Take) && Apply(s, Take).handed == s.handed + [s.queue[0]] && Apply(s, Take).queue == s.queue[1..]
    ensures Enabled(s, Accept(op)) <==> |s.queue| < 1024
    ensures Enabled(s, Drop) <==> s.closed
  {
  }

  lemma RunExtends<T>(states: seq<State<T>>, labels: seq<Label<T>>, l: Label<T>)
    requires IsRun(states, labels) && Enabled(states[|states| - 1], l)
    ensures IsRun(states + [Apply(states[|states| - 1], l)], labels + [l])
  {
    var s' := states + [Apply(states[|states| - 1], l)];
    var l' := labels + [l];
    forall i | 0 <= i < |l'| ensures StepAt(s', l', i) {
      if i < |labels| { assert StepAt(states, labels, i); }
    }
  }

  /** From wherever a run has come, the database can be closed and the writer cancelled; once its
      context is done, it can run all that is queued and stop. Nothing accepted is then left out. */
  lemma {:induction false} ShutdownCompletes<T>(states: seq<State<T>>, labels: seq<Label<T>>)
      returns (states': seq<State<T>>, labels': seq<Label<T>>)
    requires IsRun(states, labels) && !states[|states| - 1].writer.Stopped?
    ensures IsRun(states', labels') && states <= states' && labels <= labels'
    ensures var s, t := states[|states| - 1], states'[|states'| - 1];
            t.writer.Stopped? && t.queue == [] && t.handed == s.handed + s.queue && t.accepted == s.accepted
    decreases states[|states| - 1].writer.Running?, |states[|states| - 1].queue|
  {
    var s := states[|states| - 1];
    var l := if s.writer.Running? then Cancel else if s.queue != [] then Take else Stop;
    RunExtends(states, labels, l);
    states', labels' := states + [Apply(s, l)], labels + [l];
    if !l.Stop? {
      assert l.Take? ==> s.handed + s.queue == (s.handed + [s.queue[0]]) + s.queue[1..];
      states', labels' := ShutdownCompletes(states', labels');
    }
  }

  /** Closing lasts: from then on an operation that waits can be dropped. */
  lemma {:induction false} ClosedForGood<T>(states: seq<State<T>>, labels: seq<Label<T>>, m: nat, n: nat)
    requires IsRun(states, labels) && m < n < |states| && labels[m].Close?
    ensures states[n].closed && Enabled(states[n], Drop)
    decreases n
  {
    assert StepAt(states, labels, n - 1);
    if m < n - 1 { ClosedForGood(states, labels, m, n - 1); }
  }
}
