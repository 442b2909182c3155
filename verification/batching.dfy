/** The batching queue and the inference executor on top of it. A blocking wait
    releases the lock, so PopBatch is cut at its two waits and every cut is a
    step that may interleave with Push, Submit and Shutdown from other threads.
    There is a single consumer. */
module Batching {

  function Flatten<T>(batches: seq<seq<T>>): seq<T> {
    if batches == [] then [] else batches[0] + Flatten(batches[1..])
  }

  lemma {:induction false} FlattenAppend<T>(batches: seq<seq<T>>, last: seq<T>)
    ensures Flatten(batches + [last]) == Flatten(batches) + last
    decreases |batches|
  {
    if batches == [] {
      assert batches + [last] == [last];
      assert Flatten([last]) == last + Flatten<T>([]);
    } else {
      assert (batches + [last])[1..] == batches[1..] + [last];
      FlattenAppend(batches[1..], last);
    }
  }

  lemma MoveFront<T>(s: seq<T>, t: seq<T>)
    requires t != []
    ensures (s + [t[0]]) + t[1..] == s + t
  {
  }

  lemma Regroup<T>(s: seq<T>, t: seq<T>, u: seq<T>)
    ensures s + t + u == s + (t + u)
  {
  }

  /** Where the consumer's PopBatch call stands. */
  datatype Wait = Blocked | Coalescing | Finished

  class BatchedBlockingQueue<T> {
    const maxBatchSize: int
    var queue: seq<T>
    var shutdown: bool
    /** The consumer has left its first wait and sits in the second. */
    var coalescing: bool
    ghost var pushed: seq<T>
    ghost var delivered: seq<seq<T>>

    /** Nothing is lost, duplicated or reordered, and the item that ended the
        first wait is still there. */
    ghost predicate Valid()
      reads this
    {
      && Flatten(delivered) + queue == pushed
      && (coalescing ==> queue != [])
      && forall i :: 0 <= i < |delivered| ==> 0 < |delivered[i]| <= maxBatchSize
    }

    constructor (maxBatchSize: int)
      ensures Valid() && this.maxBatchSize == maxBatchSize
      ensures queue == pushed == [] && delivered == [] && !shutdown && !coalescing
    {
      this.maxBatchSize := maxBatchSize;
      queue, pushed, delivered := [], [], [];
      shutdown, coalescing := false, false;
    }

    method Push(item: T)
      requires Valid()
      modifies this`queue, this`pushed
      ensures Valid()
      ensures queue == old(queue) + [item] && pushed == old(pushed) + [item]
    {
      queue := queue + [item];
      pushed := pushed + [item];
    }

    method Shutdown()
      requires Valid()
      modifies this`shutdown
      ensures Valid() && shutdown
    {
      shutdown := true;
    }

    /** The first wait wakes up: it goes back to sleep, or goes on to coalesce,
        or ends the call with an empty batch, which happens exactly when the
        queue is shut down and drained. */
    method AwaitItem() returns (wait: Wait)
      requires Valid() && !coalescing
      modifies this`coalescing
      ensures Valid() && coalescing == (wait == Coalescing)
      ensures wait == Finished <==> shutdown && queue == []
      ensures wait == Blocked <==> !shutdown && queue == []
    {
      if queue == [] && !shutdown {
        return Blocked;
      }
      if shutdown && queue == [] {
        return Finished;
      }
      coalescing := true;
      return Coalescing;
    }

    /** The coalescing window closes, by filling up, by shutdown or by time-out
        at any moment, and the oldest items leave as one batch. It is empty
        exactly when the cap admits nothing. */
    method DrainBatch() returns (batch: seq<T>)
      requires Valid() && coalescing
      modifies this
      ensures Valid() && !coalescing && shutdown == old(shutdown) && pushed == old(pushed)
      ensures batch + queue == old(queue)
      ensures |batch| <= maxBatchSize || batch == []
      ensures queue == [] || |batch| >= maxBatchSize
      ensures batch == [] <==> maxBatchSize <= 0
      ensures delivered == if batch == [] then old(delivered) else old(delivered) + [batch]
    {
      hide Flatten;
      batch := [];
      while queue != [] && |batch| < maxBatchSize
        invariant batch + queue == old(queue)
        invariant |batch| <= maxBatchSize || batch == []
        invariant delivered == old(delivered) && pushed == old(pushed) && shutdown == old(shutdown)
        decreases |queue|
      {
        MoveFront(batch, queue);
        batch := batch + [queue[0]];
        queue := queue[1..];
      }
      coalescing := false;
      if batch != [] {
        FlattenAppend(delivered, batch);
        Regroup(Flatten(delivered), batch, queue);
        delivered := delivered + [batch];
      }
    }
  }

  // ----- One forward pass for many requests ---------------------------

  type Row = seq<real>
  type Tensor = seq<Row>
  datatype Output = Output(policy: Tensor, values: Tensor)
  datatype Result<T> = Ok(value: T) | Err

  function MapRows(f: Row -> Row, t: Tensor): (r: Tensor)
    ensures |r| == |t|
  {
    seq(|t|, i requires 0 <= i < |t| => f(t[i]))
  }

  /** The model treats the rows of its input one by one. */
  ghost predicate RowWise(run: Tensor -> seq<Tensor>, policy: Row -> Row, value: Row -> Row) {
    forall t :: run(t) == [MapRows(policy, t), MapRows(value, t)]
  }

  /** What a request gets when it is run alone. */
  function Alone(policy: Row -> Row, value: Row -> Row, t: Tensor): Output {
    Output(MapRows(policy, t), MapRows(value, t))
  }

  /** Row by row, the first output is the policy and the second the value. */
  ghost predicate RowsAnswered(o: Output, policy: Row -> Row, value: Row -> Row, t: Tensor) {
    && |o.policy| == |o.values| == |t|
    && forall j :: 0 <= j < |t| ==> o.policy[j] == policy(t[j]) && o.values[j] == value(t[j])
  }

  /** A slice clamps its bounds to the tensor. */
  function Slice(t: Tensor, lo: nat, hi: nat): Tensor {
    if lo > |t| || hi < lo then [] else if hi > |t| then t[lo..] else t[lo..hi]
  }

  /** The rows of request i within the concatenation of all requests. */
  function RowsOf(inputs: seq<Tensor>, t: Tensor, i: nat): Tensor
    requires i < |inputs|
  {
    Slice(t, |Flatten(inputs[..i])|, |Flatten(inputs[..i])| + |inputs[i]|)
  }

  lemma {:induction false} OwnRows(f: Row -> Row, inputs: seq<Tensor>, i: nat)
    requires i < |inputs|
    ensures RowsOf(inputs, MapRows(f, Flatten(inputs)), i) == MapRows(f, inputs[i])
  {
    FlattenSplit(inputs, i);
    SliceOfMap(f, Flatten(inputs[..i]), inputs[i], Flatten(inputs[i + 1..]));
  }

  lemma SliceOfMap(f: Row -> Row, before: Tensor, t: Tensor, after: Tensor)
    ensures Slice(MapRows(f, before + t + after), |before|, |before| + |t|) == MapRows(f, t)
  {
  }

  lemma {:induction false} FlattenSplit<T>(batches: seq<seq<T>>, k: nat)
    requires k < |batches|
    ensures Flatten(batches) == Flatten(batches[..k]) + batches[k] + Flatten(batches[k + 1..])
    decreases k
  {
    if k > 0 {
      assert batches[1..][..k - 1] == batches[..k][1..];
      assert batches[1..][k..] == batches[k + 1..];
      FlattenSplit(batches[1..], k - 1);
    }
  }

  method SliceOutputs(inputs: seq<Tensor>, policy: Tensor, values: Tensor) returns (results: seq<Output>)
    ensures |results| == |inputs|
    ensures forall i :: 0 <= i < |inputs| ==>
              results[i] == Output(RowsOf(inputs, policy, i), RowsOf(inputs, values, i))
  {
    hide Flatten, Slice;
    results := [];
    var offset := 0;
    assert offset == |Flatten(inputs[..0])| by { EmptyFlatten(inputs); }
    for i := 0 to |inputs|
      invariant |results| == i && offset == |Flatten(inputs[..i])|
      invariant forall k :: 0 <= k < i ==> results[k] == Output(RowsOf(inputs, policy, k), RowsOf(inputs, values, k))
    {
      var rows := |inputs[i]|;
      results := results + [Output(Slice(policy, offset, offset + rows), Slice(values, offset, offset + rows))];
      FlattenAppend(inputs[..i], inputs[i]);
      assert inputs[..i + 1] == inputs[..i] + [inputs[i]];
      offset := offset + rows;
    }
  }

  lemma EmptyFlatten<T>(s: seq<seq<T>>)
    ensures Flatten(s[..0]) == []
  {
  }

  /** Concatenates the inputs, runs the model once and slices the outputs. With
      a row-wise model every request receives what it would have got alone. */
  method RunBatch(run: Tensor -> seq<Tensor>, inputs: seq<Tensor>,
                  ghost policy: Row -> Row, ghost value: Row -> Row) returns (results: Result<seq<Output>>)
    ensures results.Ok? ==> |results.value| == |inputs|
    ensures results.Err? ==> inputs != [] && |run(Flatten(inputs))| != 2
    ensures RowWise(run, policy, value) ==>
              results.Ok? && forall i :: 0 <= i < |inputs| ==> results.value[i] == Alone(policy, value, inputs[i])
    ensures RowWise(run, policy, value) ==>
              forall i :: 0 <= i < |inputs| ==> RowsAnswered(results.value[i], policy, value, inputs[i])
  {
    if inputs == [] {
      return Ok([]);
    }
    var batch := if |inputs| == 1 then inputs[0] else Flatten(inputs);
    if |inputs| == 1 {
      assert Flatten(inputs) == inputs[0] + Flatten(inputs[1..]) == inputs[0];
    }
    var outputs := run(batch);
    if |outputs| != 2 {
      return Err;
    }
    if |inputs| == 1 {
      return Ok([Output(outputs[0], outputs[1])]);
    }
    var sliced := SliceOutputs(inputs, outputs[0], outputs[1]);
    if RowWise(run, policy, value) {
      forall i | 0 <= i < |inputs| ensures sliced[i] == Alone(policy, value, inputs[i]) {
        OwnRows(policy, inputs, i);
        OwnRows(value, inputs, i);
      }
    }
    return Ok(sliced);
  }

  // ----- The executor -------------------------------------------------

  datatype Request = Request(id: nat, input: Tensor)

  /** What the inference thread is doing: inside PopBatch, running the model on
      a batch with the lock released, or gone. */
  datatype Stage = Popping | Running(batch: seq<Request>) | Stopped

  datatype Event = Submit(input: Tensor) | Shutdown | InferenceStep

  /** Every request so far is answered, in flight or waiting, in order of
      submission, and each answer is the one for its own input. */
  ghost predicate Accounted(policy: Row -> Row, value: Row -> Row, pushed: seq<Request>, served: seq<Request>,
                            inFlight: seq<Request>, waiting: seq<Request>, answers: map<nat, Output>)
  {
    && pushed == served + inFlight + waiting
    && (forall i :: 0 <= i < |pushed| ==> pushed[i].id == i)
    && (forall i: nat :: i in answers <==> i < |served|)
    && forall i :: 0 <= i < |served| ==> answers[i] == Alone(policy, value, served[i].input)
  }

  lemma {:induction false} AccountSubmit(policy: Row -> Row, value: Row -> Row, pushed: seq<Request>,
                                         served: seq<Request>,
                      inFlight: seq<Request>, waiting: seq<Request>, answers: map<nat, Output>, r: Request)
    requires Accounted(policy, value, pushed, served, inFlight, waiting, answers) && r.id == |pushed|
    ensures Accounted(policy, value, pushed + [r], served, inFlight, waiting + [r], answers)
  {
  }

  lemma {:induction false} AccountDrain(policy: Row -> Row, value: Row -> Row, pushed: seq<Request>,
                                        served: seq<Request>,
                     batch: seq<Request>, waiting: seq<Request>, answers: map<nat, Output>)
    requires Accounted(policy, value, pushed, served, [], batch + waiting, answers)
    ensures Accounted(policy, value, pushed, served, batch, waiting, answers)
  {
    assert served + [] + (batch + waiting) == served + batch + waiting;
  }

  lemma {:induction false} AccountAnswer(policy: Row -> Row, value: Row -> Row, pushed: seq<Request>,
                                         served: seq<Request>,
                      inFlight: seq<Request>, waiting: seq<Request>, answers: map<nat, Output>)
    requires Accounted(policy, value, pushed, served, inFlight, waiting, answers) && inFlight != []
    ensures inFlight[0].id == |served| && inFlight[0].id !in answers
    ensures Accounted(policy, value, pushed, served + [inFlight[0]], inFlight[1..], waiting,
                      answers[inFlight[0].id := Alone(policy, value, inFlight[0].input)])
  {
    assert pushed[|served|] == inFlight[0];
    assert served + [inFlight[0]] + inFlight[1..] == served + inFlight;
  }

  class BatchInferenceExecutor {
    const run: Tensor -> seq<Tensor>
    ghost const policy: Row -> Row
    ghost const value: Row -> Row
    const queue: BatchedBlockingQueue<Request>
    var stage: Stage
    var submitted: nat
    /** The promises that have been set, by request. */
    var answers: map<nat, Output>
    ghost var served: seq<Request>

    ghost function InFlight(): seq<Request>
      reads this
    {
      if stage.Running? then stage.batch else []
    }

    ghost predicate Valid()
      reads this, queue
    {
      && queue.Valid() && queue.maxBatchSize >= 1
      && RowWise(run, policy, value)
      && submitted == |queue.pushed|
      && Accounted(policy, value, queue.pushed, served, InFlight(), queue.queue, answers)
      && (queue.coalescing ==> stage == Popping)
      && (stage.Running? ==> stage.batch != [])
      && (stage == Stopped ==> queue.shutdown)
    }

    constructor (run: Tensor -> seq<Tensor>, ghost policy: Row -> Row, ghost value: Row -> Row, maxRequests: int)
      requires maxRequests >= 1 && RowWise(run, policy, value)
      ensures Valid() && fresh(queue) && this.run == run && this.policy == policy && this.value == value
      ensures submitted == 0 && answers == map[] && stage == Popping && !queue.shutdown
    {
      this.run, this.policy, this.value := run, policy, value;
      queue := new BatchedBlockingQueue(maxRequests);
      stage, submitted, answers, served := Popping, 0, map[], [];
    }

    method SubmitRequest(input: Tensor) returns (id: nat)
      requires Valid()
      modifies this`submitted, queue
      ensures Valid() && id == old(submitted) && submitted == id + 1
      ensures queue.pushed == old(queue.pushed) + [Request(id, input)]
      ensures queue.shutdown == old(queue.shutdown)
    {
      hide Accounted, RowWise, BatchedBlockingQueue.Valid;
      id := submitted;
      AccountSubmit(policy, value, queue.pushed, served, InFlight(), queue.queue, answers, Request(id, input));
      queue.Push(Request(id, input));
      submitted := submitted + 1;
    }

    /** Steps left to a thread whose queue no longer grows. */
    ghost function Work(): nat
      reads this, queue
    {
      3 * |queue.queue| + match stage
                          case Stopped => 0
                          case Popping => if queue.coalescing then 0 else 1
                          case Running(_) => 2
    }

    /** The inference thread runs on to its next release of the lock. */
    method InferenceLoopStep()
      requires Valid()
      modifies this`stage, this`answers, this`served, queue
      ensures Valid() && queue.pushed == old(queue.pushed) && queue.shutdown == old(queue.shutdown)
      ensures forall id :: id in old(answers) ==> id in answers && answers[id] == old(answers)[id]
      ensures stage == Stopped && old(stage) != Stopped ==> forall id: nat :: id < submitted ==> id in answers
      ensures queue.shutdown && old(stage) != Stopped ==> Work() < old(Work())
      ensures old(stage) == Stopped ==> stage == Stopped && answers == old(answers)
    {
      hide RowWise, BatchedBlockingQueue.Valid;
      if stage == Stopped {
        return;
      }
      if stage.Running? {
        AnswerBatch();
      } else if queue.coalescing {
        var batch := queue.DrainBatch();
        AccountDrain(policy, value, queue.pushed, served, batch, queue.queue, answers);
        stage := Running(batch);
      } else {
        var wait := queue.AwaitItem();
        if wait == Finished {
          stage := Stopped;
        }
      }
    }

    /** Runs the model on the batch and sets every promise of it, each of them
        for the first time. */
    method AnswerBatch()
      requires Valid() && stage.Running?
      modifies this`stage, this`answers, this`served
      ensures Valid() && stage == Popping
      ensures forall id :: id in old(answers) ==> id in answers && answers[id] == old(answers)[id]
    {
      hide Accounted, BatchedBlockingQueue.Valid, RowWise, Alone;
      var batch := stage.batch;
      var inputs := seq(|batch|, i requires 0 <= i < |batch| => batch[i].input);
      var results := RunBatch(run, inputs, policy, value);
      var i := 0;
      assert batch[0..] == batch;
      while i < |batch|
        invariant i <= |batch| && stage == old(stage)
        invariant Accounted(policy, value, queue.pushed, served, batch[i..], queue.queue, answers)
        invariant forall id :: id in old(answers) ==> id in answers && answers[id] == old(answers)[id]
      {
        AccountAnswer(policy, value, queue.pushed, served, batch[i..], queue.queue, answers);
        assert batch[i..][1..] == batch[i + 1..];
        assert results.value[i] == Alone(policy, value, inputs[i]);
        served := served + [batch[i]];
        answers := answers[batch[i].id := results.value[i]];
        i := i + 1;
      }
      assert batch[i..] == [];
      stage := Popping;
    }

    /** The requests that a schedule submits, numbered from first on. */
    static function Submissions(schedule: seq<Event>, first: nat): seq<Request> {
      if schedule == [] then []
      else
        var before, last := Submissions(schedule[..|schedule| - 1], first), schedule[|schedule| - 1];
        if last.Submit? then before + [Request(first + |before|, last.input)] else before
    }

    /** Any interleaving of submitters, the destructor's shutdown and the
        inference thread: a promise is only ever set to the answer for its own
        request, in the order of submission, and never changes. */
    method Serve(schedule: seq<Event>)
      requires Valid()
      modifies this`stage, this`answers, this`served, this`submitted, queue
      ensures Valid() && queue.pushed == old(queue.pushed) + Submissions(schedule, old(submitted))
      ensures queue.shutdown <==> old(queue.shutdown) || Shutdown in schedule
      ensures forall id :: id in old(answers) ==> id in answers && answers[id] == old(answers)[id]
      ensures forall id: nat :: id in answers ==>
        id < submitted && answers[id] == Alone(policy, value, queue.pushed[id].input)
      ensures forall j: nat, k: nat :: j < k && k in answers ==> j in answers
    {
      hide Valid, Accounted, RowWise, BatchedBlockingQueue.Valid, Alone;
      for n := 0 to |schedule|
        invariant Valid() && queue.pushed == old(queue.pushed) + Submissions(schedule[..n], old(submitted))
        invariant queue.shutdown <==> old(queue.shutdown) || Shutdown in schedule[..n]
        invariant submitted == old(submitted) + |Submissions(schedule[..n], old(submitted))|
        invariant forall id :: id in old(answers) ==> id in answers && answers[id] == old(answers)[id]
      {
        assert schedule[..n + 1][..n] == schedule[..n];
        Perform(schedule[n]);
      }
      assert schedule[..|schedule|] == schedule;
      AnswersInOrder();
    }

    /** Answers go to a prefix of the requests, each to its own. */
    lemma AnswersInOrder()
      requires Valid()
      ensures forall id: nat :: id in answers ==>
        id < submitted == |queue.pushed| && answers[id] == Alone(policy, value, queue.pushed[id].input)
      ensures forall j: nat, k: nat :: j < k && k in answers ==> j in answers
    {
    }

    method Perform(event: Event)
      requires Valid()
      modifies this`stage, this`answers, this`served, this`submitted, queue
      ensures Valid() && (queue.shutdown <==> old(queue.shutdown) || event == Shutdown)
      ensures queue.pushed == old(queue.pushed) + if event.Submit? then [Request(old(submitted), event.input)] else []
      ensures submitted == old(submitted) + if event.Submit? then 1 else 0
      ensures forall id :: id in old(answers) ==> id in answers && answers[id] == old(answers)[id]
    {
      hide Valid, Accounted, RowWise, BatchedBlockingQueue.Valid;
      match event
      case Submit(input) =>
        var _ := SubmitRequest(input);
      case Shutdown =>
        StartShutdown();
      case InferenceStep =>
        InferenceLoopStep();
    }

    method StartShutdown()
      requires Valid()
      modifies queue`shutdown
      ensures Valid() && queue.shutdown
    {
      hide Accounted, RowWise, BatchedBlockingQueue.Valid;
      queue.Shutdown();
    }

    /** Shuts the queue down and joins the thread. Whatever was submitted before
        is answered by then, and the thread does end. */
    method Destroy()
      requires Valid() && stage != Stopped
      modifies this`stage, this`answers, this`served, queue
      ensures Valid() && stage == Stopped && queue.pushed == old(queue.pushed)
      ensures forall id: nat :: id in answers <==> id < submitted
      ensures forall id: nat :: id < submitted ==> answers[id] == Alone(policy, value, queue.pushed[id].input)
    {
      hide Valid, Accounted, RowWise, BatchedBlockingQueue.Valid, Alone, Work;
      StartShutdown();
      while stage != Stopped
        invariant Valid() && queue.shutdown && queue.pushed == old(queue.pushed)
        invariant stage == Stopped ==> forall id: nat :: id < submitted ==> id in answers
        decreases Work()
      {
        InferenceLoopStep();
      }
      AnswersInOrder();
    }
  }
}
