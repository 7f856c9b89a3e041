/** `MessageQueue`: a retrying batch sender over the priority queue, as a state
    machine whose steps are the code's runs between two awaits. */
module MessageQueue {
  import opened Text
  import opened PQ = PriorityQueue

  /** Identity of a message object. */
  type Id = nat

  datatype Config = Config(maxBatchSize: int, maxRetries: int)

  datatype Owner = Timer | Shutdown

  /** A suspended `processBatch` call: who started it, its batch, and the index
      of the message being sent. An empty batch has been dealt with and only its
      promise is left to settle. */
  datatype Flight = Flight(owner: Owner, batch: seq<Id>, next: nat)

  datatype State = State(
    queue: seq<Entry<Id>>,
    processing: bool,
    paused: bool,
    timers: nat,            // intervals created so far
    waiting: nat,           // shutdown calls polling `processing`
    flights: seq<Flight>,
    retry: map<Id, int>,    // retryCount of each message object
    processedCount: nat,
    errorCount: nat,
    accepted: seq<Id>,      // history: every enqueue call
    attempts: seq<Id>,      // history: every processMessage call
    completed: seq<Id>,     // history: messages of batches sent to the end
    failed: seq<Id>)        // history: messageFailed events

  datatype Step =
    | Enqueue(id: Id, priority: int)
    | Tick
    | SendOk(flight: nat)
    | SendFail(flight: nat)
    | Settle(flight: nat)
    | Pause
    | Resume
    | CallShutdown
    | Poll

  // ------------------------------------------------------------- the steps

  /** `retryCount || 0` */
  function Retries(retry: map<Id, int>, id: Id): int {
    if id in retry then retry[id] else 0
  }

  function Items(q: seq<Entry<Id>>): (r: seq<Id>)
    ensures |r| == |q| && forall i :: 0 <= i < |q| ==> r[i] == q[i].item
  {
    if q == [] then [] else [q[0].item] + Items(q[1..])
  }

  function BatchSize(c: Config, size: nat): nat {
    if c.maxBatchSize <= 0 then 0 else if size < c.maxBatchSize then size else c.maxBatchSize
  }

  /** `processBatch` up to its first await. */
  function Start(c: Config, s: State, owner: Owner): State {
    var k := BatchSize(c, |s.queue|);
    s.(queue := s.queue[k..], flights := s.flights + [Flight(owner, Items(s.queue[..k]), 0)])
  }

  datatype Requeued = Requeued(queue: seq<Entry<Id>>, retry: map<Id, int>, failed: seq<Id>)

  /** `handleSendError` for one message. */
  function RequeueOne(c: Config, id: Id, r: Requeued): Requeued {
    var n := Retries(r.retry, id);
    if n <= c.maxRetries then
      r.(queue := Insert(r.queue, Entry(id, n + 1)), retry := r.retry[id := n + 1])
    else r.(failed := r.failed + [id])
  }

  /** `handleSendError` over the messages of a batch. */
  function Requeue(c: Config, batch: seq<Id>, r: Requeued): Requeued
    decreases |batch|
  {
    if batch == [] then r else Requeue(c, batch[1..], RequeueOne(c, batch[0], r))
  }

  function ReplaceAt(fs: seq<Flight>, i: nat, gs: seq<Flight>): seq<Flight>
    requires i < |fs|
  {
    fs[..i] + (gs + fs[i + 1..])
  }

  predicate Sending(s: State, i: nat) {
    i < |s.flights| && s.flights[i].next < |s.flights[i].batch|
  }

  function Sent(s: State, i: nat): State
    requires Sending(s, i)
  {
    var f := s.flights[i];
    var s1 := s.(attempts := s.attempts + [f.batch[f.next]], processedCount := s.processedCount + 1);
    if f.next + 1 < |f.batch| then
      s1.(flights := ReplaceAt(s.flights, i, [f.(next := f.next + 1)]))
    else
      s1.(flights := ReplaceAt(s.flights, i, [Flight(f.owner, [], 0)]), completed := s.completed + f.batch)
  }

  function SendError(c: Config, s: State, i: nat): State
    requires Sending(s, i)
  {
    var f := s.flights[i];
    var r := Requeue(c, f.batch, Requeued(s.queue, s.retry, []));
    s.(attempts := s.attempts + [f.batch[f.next]],
    flights := ReplaceAt(s.flights, i, [Flight(f.owner, [], 0)]),
    queue := r.queue, retry := r.retry, failed := s.failed + r.failed,
    errorCount := s.errorCount + 1 + |r.failed|)
  }

  /** One poll of a waiting `shutdown` call. */
  function PollOnce(c: Config, s: State): State {
    if s.waiting == 0 || s.processing then s
    else
      var s1 := s.(waiting := s.waiting - 1);
      if s.queue == [] then s1 else Start(c, s1, Shutdown)
  }

  function Apply(c: Config, s: State, step: Step): State {
    match step
    case Enqueue(id, p) => s.(queue := Insert(s.queue, Entry(id, p)), accepted := s.accepted + [id])
    case Tick => if s.timers == 0 || s.paused || s.processing || s.queue == [] then s
                 else Start(c, s.(processing := true), Timer)
    case SendOk(i) => if Sending(s, i) then Sent(s, i) else s
    case SendFail(i) => if Sending(s, i) then SendError(c, s, i) else s
    case Settle(i) =>
      if i < |s.flights| && s.flights[i].batch == [] then
        s.(flights := ReplaceAt(s.flights, i, []),
        processing := s.processing && s.flights[i].owner != Timer)
      else s
    case Pause => s.(paused := true)
    case Resume => s.(paused := false, timers := s.timers + 1)
    case CallShutdown => PollOnce(c, s.(paused := true, waiting := s.waiting + 1))
    case Poll => PollOnce(c, s)
  }

  function Run(c: Config, s: State, steps: seq<Step>): State
    decreases |steps|
  {
    if steps == [] then s else Run(c, Apply(c, s, steps[0]), steps[1..])
  }

  /** The state after construction; messages may carry a retryCount already. */
  function Init(retry: map<Id, int>): State {
    State([], false, false, 1, 0, [], retry, 0, 0, [], [], [], [])
  }

  // ------------------------------------------------------------ the class

  lemma {:induction false} RequeueFrom(c: Config, batch: seq<Id>, i: nat, r: Requeued)
    requires i < |batch|
    ensures Requeue(c, batch[i..], r) == Requeue(c, batch[i + 1..], RequeueOne(c, batch[i], r))
  {
    assert batch[i..][1..] == batch[i + 1..];
  }

  lemma ItemsNext(q: seq<Entry<Id>>, k: nat)
    requires k < |q|
    ensures Items(q[..k + 1]) == Items(q[..k]) + [q[k].item]
    ensures q[k..] != [] && q[k..][0] == q[k] && q[k..][1..] == q[k + 1..]
  {
  }

  class MessageQueue {
    const config: Config
    const queue: PriorityQueue<Id>
    var processing: bool
    var paused: bool
    var timers: nat
    var waiting: nat
    /** The suspended asynchronous calls. */
    var flights: seq<Flight>
    var retry: map<Id, int>
    var processedCount: nat
    var errorCount: nat
    ghost var accepted: seq<Id>
    ghost var attempts: seq<Id>
    ghost var completed: seq<Id>
    ghost var failed: seq<Id>

    ghost predicate Valid()
      reads this, queue
    {
      queue.Valid()
    }

    ghost function View(): State
      reads this, queue
    {
      State(queue.items, processing, paused, timers, waiting, flights, retry, processedCount, errorCount,
            accepted, attempts, completed, failed)
    }

    constructor (config: Config, retry: map<Id, int>)
      ensures Valid() && fresh(queue) && this.config == config && View() == Init(retry)
    {
      this.config := config;
      queue := new PriorityQueue<Id>();
      processing, paused, timers, waiting := false, false, 1, 0;
      flights, this.retry, processedCount, errorCount := [], retry, 0, 0;
      accepted, attempts, completed, failed := [], [], [], [];
    }

    method EnqueueMessage(id: Id, priority: int)
      requires Valid()
      modifies this, queue
      ensures Valid() && View() == Apply(config, old(View()), Enqueue(id, priority))
    {
      queue.Enqueue(id, priority);
      accepted := accepted + [id];
    }

    /** The callback of any interval. */
    method TimerTick()
      requires Valid()
      modifies this, queue
      ensures Valid() && View() == Apply(config, old(View()), Tick)
    {
      if timers == 0 || paused || processing || queue.IsEmpty() {
        return;
      }
      processing := true;
      ProcessBatch(Timer);
    }

    /** `processBatch` up to its first await. */
    method ProcessBatch(owner: Owner)
      requires Valid()
      modifies this`flights, queue
      ensures Valid() && View() == Start(config, old(View()), owner)
    {
      var batch: seq<Id> := [];
      while !queue.IsEmpty() && |batch| < config.maxBatchSize
        invariant Valid() && flights == old(flights) && |batch| <= |old(queue.items)|
        invariant queue.items == old(queue.items)[|batch|..]
        invariant batch == Items(old(queue.items)[..|batch|])
        invariant batch != [] ==> |batch| <= config.maxBatchSize
        decreases |queue.items|
      {
        ItemsNext(old(queue.items), |batch|);
        var message := queue.Dequeue();
        batch := batch + message;
      }
      flights := flights + [Flight(owner, batch, 0)];
    }

    /** A send of a flight's current message succeeds. */
    method MessageSent(i: nat)
      requires Valid() && Sending(View(), i)
      modifies this
      ensures Valid() && View() == Apply(config, old(View()), SendOk(i))
    {
      var f := flights[i];
      attempts := attempts + [f.batch[f.next]];
      processedCount := processedCount + 1;
      if f.next + 1 < |f.batch| {
        flights := ReplaceAt(flights, i, [f.(next := f.next + 1)]);
      } else {
        flights := ReplaceAt(flights, i, [Flight(f.owner, [], 0)]);
        completed := completed + f.batch;
      }
    }

    /** A send fails, which ends the batch. */
    method MessageFailed(i: nat)
      requires Valid() && Sending(View(), i)
      modifies this, queue
      ensures Valid() && View() == Apply(config, old(View()), SendFail(i))
    {
      var f := flights[i];
      attempts := attempts + [f.batch[f.next]];
      errorCount := errorCount + 1;
      flights := ReplaceAt(flights, i, [Flight(f.owner, [], 0)]);
      HandleSendError(f.batch);
    }

    method HandleSendError(messages: seq<Id>)
      requires Valid()
      modifies this`retry, this`errorCount, this`failed, queue
      ensures Valid()
      ensures var r := Requeue(config, messages, Requeued(old(queue.items), old(retry), []));
              && queue.items == r.queue && retry == r.retry && failed == old(failed) + r.failed
              && errorCount == old(errorCount) + |r.failed|
      ensures PutBack(config, Requeued(old(queue.items), old(retry), old(failed)), messages,
                      Requeued(queue.items, retry, failed))
    {
      RequeuePutsBack(config, Requeued(queue.items, retry, []), messages);
      ghost var reported: seq<Id> := [];
      for i := 0 to |messages|
        invariant Valid()
        invariant Requeue(config, messages[i..], Requeued(queue.items, retry, reported))
                  == Requeue(config, messages, Requeued(old(queue.items), old(retry), []))
        invariant failed == old(failed) + reported && errorCount == old(errorCount) + |reported|
      {
        RequeueFrom(config, messages, i, Requeued(queue.items, retry, reported));
        var retryCount := Retries(retry, messages[i]);
        if retryCount <= config.maxRetries {
          retry := retry[messages[i] := retryCount + 1];
          queue.Enqueue(messages[i], retryCount + 1);
        } else {
          reported := reported + [messages[i]];
          failed := failed + [messages[i]];
          errorCount := errorCount + 1;
        }
      }
    }

    /** The promise of a finished batch settles. */
    method BatchSettled(i: nat)
      requires Valid() && i < |flights| && flights[i].batch == []
      modifies this
      ensures Valid() && View() == Apply(config, old(View()), Settle(i))
    {
      if flights[i].owner == Timer {
        processing := false;
      }
      flights := ReplaceAt(flights, i, []);
    }

    method PauseQueue()
      requires Valid()
      modifies this
      ensures Valid() && View() == Apply(config, old(View()), Pause)
    {
      paused := true;
    }

    method ResumeQueue()
      requires Valid()
      modifies this
      ensures Valid() && View() == Apply(config, old(View()), Resume)
    {
      paused := false;
      timers := timers + 1;
    }

    method ShutdownQueue()
      requires Valid()
      modifies this, queue
      ensures Valid() && View() == Apply(config, old(View()), CallShutdown)
    {
      paused := true;
      waiting := waiting + 1;
      PollProcessing();
    }

    /** One check of `while (this.processing)` by a waiting shutdown call. */
    method PollProcessing()
      requires Valid()
      modifies this, queue
      ensures Valid() && View() == PollOnce(config, old(View()))
    {
      if waiting > 0 && !processing {
        waiting := waiting - 1;
        if !queue.IsEmpty() {
          ProcessBatch(Shutdown);
        }
      }
    }
  }

  // --------------------------------------------------- facts about batches

  lemma {:induction false} ItemsConcat(a: seq<Entry<Id>>, b: seq<Entry<Id>>)
    ensures Items(a + b) == Items(a) + Items(b)
  {
  }

  /** Restricts the sums to one message, or to none. */
  predicate Counts(focus: Option<Id>, id: Id) {
    focus == None || focus == Some(id)
  }

  function Count(focus: Option<Id>, ids: seq<Id>): nat {
    if ids == [] then 0 else (if Counts(focus, ids[0]) then 1 else 0) + Count(focus, ids[1..])
  }

  lemma {:induction false} CountConcat(focus: Option<Id>, a: seq<Id>, b: seq<Id>)
    ensures Count(focus, a + b) == Count(focus, a) + Count(focus, b)
  {
    if a == [] {
      assert a + b == b;
    } else {
      assert (a + b)[1..] == a[1..] + b;
      CountConcat(focus, a[1..], b);
    }
  }

  lemma CountOne(focus: Option<Id>, id: Id)
    ensures Count(focus, [id]) == if Counts(focus, id) then 1 else 0
  {
    assert [id][1..] == [];
  }

  lemma InsertCount(focus: Option<Id>, q: seq<Entry<Id>>, e: Entry<Id>)
    requires Sorted(q)
    ensures Count(focus, Items(Insert(q, e))) == Count(focus, Items(q)) + Count(focus, [e.item])
  {
    var k := InsertSplits(q, e);
    var a, b := Items(q[..k]), Items(q[k..]);
    ItemsConcat(q[..k] + [e], q[k..]);
    ItemsConcat(q[..k], [e]);
    ItemsConcat(q[..k], q[k..]);
    assert q == q[..k] + q[k..];
    assert Items([e]) == [e.item];
    CountConcat(focus, a + [e.item], b);
    CountConcat(focus, a, [e.item]);
    CountConcat(focus, a, b);
  }

  /** Messages in flight. */
  function InFlight(focus: Option<Id>, fs: seq<Flight>): nat {
    if fs == [] then 0 else Count(focus, fs[0].batch) + InFlight(focus, fs[1..])
  }

  lemma {:induction false} InFlightConcat(focus: Option<Id>, a: seq<Flight>, b: seq<Flight>)
    ensures InFlight(focus, a + b) == InFlight(focus, a) + InFlight(focus, b)
  {
    if a == [] {
      assert a + b == b;
    } else {
      assert (a + b)[1..] == a[1..] + b;
      InFlightConcat(focus, a[1..], b);
    }
  }

  lemma InFlightReplace(focus: Option<Id>, fs: seq<Flight>, i: nat, gs: seq<Flight>)
    requires i < |fs|
    ensures InFlight(focus, ReplaceAt(fs, i, gs)) + Count(focus, fs[i].batch) == InFlight(focus, fs) + InFlight(focus, gs)
  {
    assert fs == fs[..i] + ([fs[i]] + fs[i + 1..]);
    InFlightConcat(focus, fs[..i], [fs[i]] + fs[i + 1..]);
    InFlightConcat(focus, [fs[i]], fs[i + 1..]);
    InFlightConcat(focus, fs[..i], gs + fs[i + 1..]);
    InFlightConcat(focus, gs, fs[i + 1..]);
    OneInFlight(focus, fs[i]);
  }

  lemma OneInFlight(focus: Option<Id>, f: Flight)
    ensures InFlight(focus, [f]) == Count(focus, f.batch)
  {
    assert [f][1..] == [];
  }

  // ----------------------------------------------------------- conservation

  /** The message (or, for `None`, any) is as often in the queue, in flight,
      completed or reported failed, taken together, as it was enqueued. */
  predicate Balanced(s: State, focus: Option<Id>) {
    Count(focus, s.accepted) ==
    Count(focus, Items(s.queue)) + InFlight(focus, s.flights) + Count(focus, s.completed) + Count(focus, s.failed)
  }

  lemma RequeueOneKeeps(c: Config, id: Id, r: Requeued, focus: Option<Id>)
    requires Sorted(r.queue)
    ensures var r' := RequeueOne(c, id, r);
            && Sorted(r'.queue)
            && Count(focus, Items(r'.queue)) + Count(focus, r'.failed)
               == Count(focus, Items(r.queue)) + Count(focus, r.failed) + Count(focus, [id])
  {
    var e := Entry(id, Retries(r.retry, id) + 1);
    InsertIsStable(r.queue, e);
    InsertCount(focus, r.queue, e);
    CountConcat(focus, r.failed, [id]);
  }

  lemma {:induction false} RequeueKeeps(c: Config, batch: seq<Id>, r: Requeued, focus: Option<Id>)
    requires Sorted(r.queue)
    ensures var r' := Requeue(c, batch, r);
            && Sorted(r'.queue)
            && Count(focus, Items(r'.queue)) + Count(focus, r'.failed)
               == Count(focus, Items(r.queue)) + Count(focus, r.failed) + Count(focus, batch)
    decreases |batch|
  {
    if batch != [] {
      RequeueOneKeeps(c, batch[0], r, focus);
      CountOne(focus, batch[0]);
      RequeueKeeps(c, batch[1..], RequeueOne(c, batch[0], r), focus);
    }
  }

  lemma StartKeeps(c: Config, s: State, owner: Owner, focus: Option<Id>)
    requires Balanced(s, focus)
    ensures Balanced(Start(c, s, owner), focus)
  {
    var k := BatchSize(c, |s.queue|);
    assert s.queue == s.queue[..k] + s.queue[k..];
    ItemsConcat(s.queue[..k], s.queue[k..]);
    var f := Flight(owner, Items(s.queue[..k]), 0);
    CountConcat(focus, f.batch, Items(s.queue[k..]));
    InFlightConcat(focus, s.flights, [f]);
    OneInFlight(focus, f);
  }

  lemma SentKeeps(s: State, i: nat, focus: Option<Id>)
    requires Balanced(s, focus) && Sending(s, i)
    ensures Balanced(Sent(s, i), focus)
  {
    var f := s.flights[i];
    var g := if f.next + 1 < |f.batch| then f.(next := f.next + 1) else Flight(f.owner, [], 0);
    InFlightReplace(focus, s.flights, i, [g]);
    OneInFlight(focus, g);
    CountConcat(focus, s.completed, f.batch);
  }

  lemma ErrorKeeps(c: Config, s: State, i: nat, focus: Option<Id>)
    requires Balanced(s, focus) && Sorted(s.queue) && Sending(s, i)
    ensures Balanced(SendError(c, s, i), focus)
  {
    var f := s.flights[i];
    var g := Flight(f.owner, [], 0);
    InFlightReplace(focus, s.flights, i, [g]);
    OneInFlight(focus, g);
    RequeueKeeps(c, f.batch, Requeued(s.queue, s.retry, []), focus);
    CountConcat(focus, s.failed, Requeue(c, f.batch, Requeued(s.queue, s.retry, [])).failed);
  }

  lemma PollKeeps(c: Config, s: State, focus: Option<Id>)
    requires Balanced(s, focus)
    ensures Balanced(PollOnce(c, s), focus)
  {
    if s.waiting > 0 {
      StartKeeps(c, s.(waiting := s.waiting - 1), Shutdown, focus);
    }
  }

  lemma EnqueueKeeps(c: Config, s: State, id: Id, p: int, focus: Option<Id>)
    requires Balanced(s, focus) && Sorted(s.queue)
    ensures Balanced(Apply(c, s, Enqueue(id, p)), focus)
  {
    InsertCount(focus, s.queue, Entry(id, p));
    CountConcat(focus, s.accepted, [id]);
  }

  lemma SettleKeeps(c: Config, s: State, i: nat, focus: Option<Id>)
    requires Balanced(s, focus)
    ensures Balanced(Apply(c, s, Settle(i)), focus)
  {
    if i < |s.flights| {
      InFlightReplace(focus, s.flights, i, []);
    }
  }

  lemma StepBalances(c: Config, s: State, step: Step, focus: Option<Id>)
    requires Balanced(s, focus) && Sorted(s.queue)
    ensures Balanced(Apply(c, s, step), focus)
  {
    match step
    case Enqueue(id, p) => EnqueueKeeps(c, s, id, p, focus);
    case Tick => StartKeeps(c, s.(processing := true), Timer, focus);
    case SendOk(i) => if Sending(s, i) { SentKeeps(s, i, focus); }
    case SendFail(i) => if Sending(s, i) { ErrorKeeps(c, s, i, focus); }
    case Settle(i) => SettleKeeps(c, s, i, focus);
    case Pause =>
    case Resume =>
    case CallShutdown => PollKeeps(c, s.(paused := true, waiting := s.waiting + 1), focus);
    case Poll => PollKeeps(c, s, focus);
  }

  lemma StepSorted(c: Config, s: State, step: Step)
    requires Sorted(s.queue)
    ensures Sorted(Apply(c, s, step).queue)
  {
    if step.Enqueue? {
      InsertIsStable(s.queue, Entry(step.id, step.priority));
    } else if step.SendFail? && Sending(s, step.flight) {
      RequeueKeeps(c, s.flights[step.flight].batch, Requeued(s.queue, s.retry, []), None);
    }
  }

  /** QUEUE CONSERVATION over every run, for each message and for all together:
      one error in a batch loses nothing and duplicates nothing. */
  lemma {:induction false} RunBalances(c: Config, s: State, steps: seq<Step>, focus: Option<Id>)
    requires Balanced(s, focus) && Sorted(s.queue)
    ensures Balanced(Run(c, s, steps), focus) && Sorted(Run(c, s, steps).queue)
    decreases |steps|
  {
    if steps != [] {
      StepBalances(c, s, steps[0], focus);
      StepSorted(c, s, steps[0]);
      RunBalances(c, Apply(c, s, steps[0]), steps[1..], focus);
    }
  }

  // ------------------------------------------------- one batch at a time

  function Owned(fs: seq<Flight>, o: Owner): nat {
    if fs == [] then 0 else (if fs[0].owner == o then 1 else 0) + Owned(fs[1..], o)
  }

  lemma {:induction false} OwnedConcat(a: seq<Flight>, b: seq<Flight>, o: Owner)
    ensures Owned(a + b, o) == Owned(a, o) + Owned(b, o)
  {
    if a == [] {
      assert a + b == b;
    } else {
      assert (a + b)[1..] == a[1..] + b;
      OwnedConcat(a[1..], b, o);
    }
  }

  lemma OwnedOne(f: Flight, o: Owner)
    ensures Owned([f], o) == if f.owner == o then 1 else 0
  {
    assert [f][1..] == [];
  }

  lemma OwnedReplace(fs: seq<Flight>, i: nat, gs: seq<Flight>, o: Owner)
    requires i < |fs|
    ensures Owned(ReplaceAt(fs, i, gs), o) + (if fs[i].owner == o then 1 else 0) == Owned(fs, o) + Owned(gs, o)
  {
    assert fs == fs[..i] + ([fs[i]] + fs[i + 1..]);
    OwnedConcat(fs[..i], [fs[i]] + fs[i + 1..], o);
    OwnedConcat([fs[i]], fs[i + 1..], o);
    OwnedConcat(fs[..i], gs + fs[i + 1..], o);
    OwnedConcat(gs, fs[i + 1..], o);
    OwnedOne(fs[i], o);
  }

  lemma {:induction false} OwnedTotal(fs: seq<Flight>)
    ensures Owned(fs, Timer) + Owned(fs, Shutdown) == |fs|
  {
    if fs != [] {
      OwnedTotal(fs[1..]);
    }
  }

  /** `processing` is set exactly while one timer-started batch is in flight. */
  ghost predicate SingleTimer(s: State) {
    Owned(s.flights, Timer) == if s.processing then 1 else 0
  }

  /** A shutdown call finds `processing` clear and the queue non-empty. */
  predicate ShutdownProceeds(s: State, step: Step) {
    (step == CallShutdown || (step == Poll && s.waiting > 0)) && !s.processing && s.queue != []
  }

  predicate TickProceeds(s: State, step: Step) {
    step == Tick && s.timers > 0 && !s.paused && !s.processing && s.queue != []
  }

  predicate Settles(s: State, step: Step, o: Owner) {
    step.Settle? && step.flight < |s.flights| && s.flights[step.flight] == Flight(o, [], s.flights[step.flight].next)
  }

  lemma StartOwned(c: Config, s: State, owner: Owner, o: Owner)
    ensures Owned(Start(c, s, owner).flights, o) == Owned(s.flights, o) + if o == owner then 1 else 0
  {
    var f := Flight(owner, Items(s.queue[..BatchSize(c, |s.queue|)]), 0);
    OwnedConcat(s.flights, [f], o);
    OwnedOne(f, o);
  }

  lemma FlightStepOwned(c: Config, s: State, step: Step, o: Owner)
    requires step.SendOk? || step.SendFail? || step.Settle?
    ensures Owned(Apply(c, s, step).flights, o) == Owned(s.flights, o) - if Settles(s, step, o) then 1 else 0
  {
    var i := step.flight;
    if i < |s.flights| {
      var f := s.flights[i];
      var g, h := f.(next := f.next + 1), Flight(f.owner, [], 0);
      OwnedReplace(s.flights, i, [g], o);
      OwnedReplace(s.flights, i, [h], o);
      OwnedReplace(s.flights, i, [], o);
      OwnedOne(g, o);
      OwnedOne(h, o);
    }
  }

  /** Batches of an owner start and end exactly so. */
  lemma StepOwned(c: Config, s: State, step: Step, o: Owner)
    ensures Owned(Apply(c, s, step).flights, o) ==
            Owned(s.flights, o)
            + (if o == Timer && TickProceeds(s, step) then 1 else 0)
            + (if o == Shutdown && ShutdownProceeds(s, step) then 1 else 0)
            - (if Settles(s, step, o) then 1 else 0)
  {
    match step
    case Tick => StartOwned(c, s.(processing := true), Timer, o);
    case CallShutdown => StartOwned(c, s.(paused := true), Shutdown, o);
    case Poll => if s.waiting > 0 { StartOwned(c, s.(waiting := s.waiting - 1), Shutdown, o); }
    case SendOk(i) => FlightStepOwned(c, s, step, o);
    case SendFail(i) => FlightStepOwned(c, s, step, o);
    case Settle(i) => FlightStepOwned(c, s, step, o);
    case Enqueue(_, _) =>
    case Pause =>
    case Resume =>
  }

  lemma StepSingleTimer(c: Config, s: State, step: Step)
    requires SingleTimer(s)
    ensures SingleTimer(Apply(c, s, step))
  {
    StepOwned(c, s, step, Timer);
    if Settles(s, step, Timer) {
      OwnedReplace(s.flights, step.flight, [], Timer);
    }
  }

  /** SINGLE BATCH IN FLIGHT. However many intervals `resume` has created, every
      run has at most one timer-started batch; one starts only on a tick with
      the queue neither paused nor processing. */
  lemma {:induction false} RunSingleTimer(c: Config, s: State, steps: seq<Step>)
    requires SingleTimer(s)
    ensures SingleTimer(Run(c, s, steps)) && Owned(Run(c, s, steps).flights, Timer) <= 1
    decreases |steps|
  {
    if steps != [] {
      StepSingleTimer(c, s, steps[0]);
      RunSingleTimer(c, Apply(c, s, steps[0]), steps[1..]);
    }
  }

  predicate NoShutdown(steps: seq<Step>) {
    forall i :: 0 <= i < |steps| ==> steps[i] != CallShutdown
  }

  predicate NoResume(steps: seq<Step>) {
    forall i :: 0 <= i < |steps| ==> steps[i] != Resume
  }

  /** Before any shutdown call. */
  ghost predicate Untouched(s: State) {
    SingleTimer(s) && s.waiting == 0 && Owned(s.flights, Shutdown) == 0
  }

  /** After the only shutdown call, and no resume since. */
  ghost predicate Closing(s: State) {
    && SingleTimer(s) && s.paused
    && (s.waiting == 1 ==> Owned(s.flights, Shutdown) == 0)
    && (s.waiting == 0 ==> !s.processing && Owned(s.flights, Shutdown) <= 1)
    && s.waiting <= 1
  }

  lemma {:induction false} RunUntouched(c: Config, s: State, steps: seq<Step>)
    requires Untouched(s) && NoShutdown(steps)
    ensures Untouched(Run(c, s, steps))
    decreases |steps|
  {
    if steps != [] {
      StepSingleTimer(c, s, steps[0]);
      StepOwned(c, s, steps[0], Shutdown);
      RunUntouched(c, Apply(c, s, steps[0]), steps[1..]);
    }
  }

  lemma StepClosing(c: Config, s: State, step: Step)
    requires Closing(s) && step != CallShutdown && step != Resume
    ensures Closing(Apply(c, s, step))
  {
    StepSingleTimer(c, s, step);
    StepOwned(c, s, step, Shutdown);
  }

  lemma {:induction false} RunClosing(c: Config, s: State, steps: seq<Step>)
    requires Closing(s) && NoShutdown(steps) && NoResume(steps)
    ensures Closing(Run(c, s, steps)) && |Run(c, s, steps).flights| <= 1
    decreases |steps|
  {
    OwnedTotal(s.flights);
    if steps != [] {
      StepClosing(c, s, steps[0]);
      RunClosing(c, Apply(c, s, steps[0]), steps[1..]);
    }
  }

  /** EXCLUSIVE SHUTDOWN. With one shutdown call and no resume after it, the
      shutdown's own batch never overlaps another batch. */
  lemma ShutdownIsExclusive(c: Config, s: State, before: seq<Step>, after: seq<Step>)
    requires Untouched(s) && NoShutdown(before) && NoShutdown(after) && NoResume(after)
    ensures |Run(c, Apply(c, Run(c, s, before), CallShutdown), after).flights| <= 1
  {
    var s1 := Run(c, s, before);
    RunUntouched(c, s, before);
    StepSingleTimer(c, s1, CallShutdown);
    StepOwned(c, s1, CallShutdown, Shutdown);
    RunClosing(c, Apply(c, s1, CallShutdown), after);
  }

  /** A batch starts at this step. */
  predicate Starts(s: State, step: Step) {
    TickProceeds(s, step) || ShutdownProceeds(s, step)
  }

  lemma StepFlights(c: Config, s: State, step: Step)
    ensures |Apply(c, s, step).flights| ==
            |s.flights| + (if Starts(s, step) then 1 else 0)
            - (if Settles(s, step, Timer) || Settles(s, step, Shutdown) then 1 else 0)
  {
    StepOwned(c, s, step, Timer);
    StepOwned(c, s, step, Shutdown);
    OwnedTotal(s.flights);
    OwnedTotal(Apply(c, s, step).flights);
  }

  /** A single batch is overlapped exactly when the queue is not processing and a
      tick or a shutdown call goes on; the batch overlapped is then one that a
      shutdown started, since `processing` stands for the others. */
  lemma OverlapStep(c: Config, s: State, step: Step)
    requires SingleTimer(s) && |s.flights| <= 1
    ensures |Apply(c, s, step).flights| > 1 <==> |s.flights| == 1 && Starts(s, step)
    ensures |s.flights| == 1 && Starts(s, step) ==> s.flights[0].owner == Shutdown
  {
    StepFlights(c, s, step);
    OwnedTotal(s.flights);
    if |s.flights| == 1 {
      assert s.flights == [s.flights[0]];
      OwnedOne(s.flights[0], Timer);
    }
  }

  /** At most one batch is in flight at every moment of the run. */
  predicate NeverOverlaps(c: Config, s: State, steps: seq<Step>)
    decreases |steps|
  {
    |s.flights| <= 1 && (steps != [] ==> NeverOverlaps(c, Apply(c, s, steps[0]), steps[1..]))
  }

  /** No batch starts while one is in flight. */
  predicate NoStartInFlight(c: Config, s: State, steps: seq<Step>)
    decreases |steps|
  {
    steps != [] ==> (s.flights != [] ==> !Starts(s, steps[0])) && NoStartInFlight(c, Apply(c, s, steps[0]), steps[1..])
  }

  /** OVERLAP. A run keeps its batches apart if and only if no tick and no
      shutdown call goes on while a batch is in flight. */
  lemma {:induction false} OverlapsIff(c: Config, s: State, steps: seq<Step>)
    requires SingleTimer(s) && |s.flights| <= 1
    ensures NeverOverlaps(c, s, steps) <==> NoStartInFlight(c, s, steps)
    decreases |steps|
  {
    if steps != [] {
      OverlapStep(c, s, steps[0]);
      StepSingleTimer(c, s, steps[0]);
      if |Apply(c, s, steps[0]).flights| <= 1 {
        OverlapsIff(c, Apply(c, s, steps[0]), steps[1..]);
      }
    }
  }

  predicate Overlap(s: State) {
    |s.flights| == 2 && s.flights[0].batch != [] && s.flights[1].batch != []
  }

  /** Two such runs: a resume and a tick during the shutdown's batch, and a second
      shutdown call. */
  lemma OverlapWitnesses(c: Config)
    requires c.maxBatchSize == 1
    ensures Overlap(Run(c, Init(map[]), [Enqueue(0, 1), Enqueue(1, 1), CallShutdown, Resume, Tick]))
    ensures Overlap(Run(c, Init(map[]), [Enqueue(0, 1), Enqueue(1, 1), CallShutdown, CallShutdown]))
  {
    var s1 := Apply(c, Init(map[]), Enqueue(0, 1));
    var s2 := Apply(c, s1, Enqueue(1, 1));
    assert s1.queue == [Entry(0, 1)] && s1.queue[1..] == [];
    assert Insert(s1.queue, Entry(1, 1)) == [Entry(0, 1)] + Insert(s1.queue[1..], Entry(1, 1));
    assert s2.queue == [Entry(0, 1), Entry(1, 1)];
    var s3 := Apply(c, s2, CallShutdown);
    assert s3.queue == [Entry(1, 1)] && |s3.flights| == 1 && |s3.flights[0].batch| == 1 && !s3.processing;
    var s4 := Apply(c, s3, Resume);
    assert Overlap(Apply(c, s4, Tick));
    assert Overlap(Apply(c, s3, CallShutdown));
    RunSteps(c, Init(map[]), [Enqueue(0, 1), Enqueue(1, 1), CallShutdown, Resume, Tick]);
    RunSteps(c, s1, [Enqueue(1, 1), CallShutdown, Resume, Tick]);
    RunSteps(c, s2, [CallShutdown, Resume, Tick]);
    RunSteps(c, s3, [Resume, Tick]);
    RunSteps(c, s4, [Tick]);
    RunSteps(c, Init(map[]), [Enqueue(0, 1), Enqueue(1, 1), CallShutdown, CallShutdown]);
    RunSteps(c, s1, [Enqueue(1, 1), CallShutdown, CallShutdown]);
    RunSteps(c, s2, [CallShutdown, CallShutdown]);
    RunSteps(c, s3, [CallShutdown]);
  }

  lemma RunSteps(c: Config, s: State, steps: seq<Step>)
    requires steps != []
    ensures Run(c, s, steps) == Run(c, Apply(c, s, steps[0]), steps[1..])
    ensures |steps| == 1 ==> Run(c, s, steps) == Apply(c, s, steps[0])
    ensures |steps| > 1 ==> steps[1..] == [steps[1]] + steps[2..]
  {
  }

  /** Each batch is the first min(maxBatchSize, size) messages in queue order,
      and the rest stays. */
  lemma BatchIsThePrefix(c: Config, s: State)
    requires s.timers > 0 && !s.paused && !s.processing && s.queue != [] && c.maxBatchSize > 0
    ensures var s' := Apply(c, s, Tick);
            && |s'.flights| == |s.flights| + 1 && s'.flights[..|s.flights|] == s.flights
            && var f := s'.flights[|s.flights|];
            && 0 < |f.batch| <= c.maxBatchSize
            && (s'.queue != [] ==> |f.batch| == c.maxBatchSize)
            && f.batch + Items(s'.queue) == Items(s.queue)
  {
    var k := BatchSize(c, |s.queue|);
    assert s.queue == s.queue[..k] + s.queue[k..];
    ItemsConcat(s.queue[..k], s.queue[k..]);
  }

  // -------------------------------------------------- retries terminate

  /** How often a message can still be sent before it is reported failed. */
  function Weight(c: Config, retry: map<Id, int>, id: Id): int {
    var n := Retries(retry, id);
    if n <= c.maxRetries then c.maxRetries + 2 - n else 1
  }

  function Load(c: Config, retry: map<Id, int>, focus: Option<Id>, ids: seq<Id>): int {
    if ids == [] then 0
    else (if Counts(focus, ids[0]) then Weight(c, retry, ids[0]) else 0) + Load(c, retry, focus, ids[1..])
  }

  lemma {:induction false} LoadConcat(c: Config, retry: map<Id, int>, focus: Option<Id>, a: seq<Id>, b: seq<Id>)
    ensures Load(c, retry, focus, a + b) == Load(c, retry, focus, a) + Load(c, retry, focus, b)
  {
    if a == [] {
      assert a + b == b;
    } else {
      assert (a + b)[1..] == a[1..] + b;
      LoadConcat(c, retry, focus, a[1..], b);
    }
  }

  /** Retry counts only grow. */
  ghost predicate Grown(retry: map<Id, int>, retry': map<Id, int>) {
    forall id :: Retries(retry, id) <= Retries(retry', id)
  }

  lemma {:induction false} LoadShrinks(c: Config, retry: map<Id, int>, retry': map<Id, int>, focus: Option<Id>, ids: seq<Id>)
    requires Grown(retry, retry')
    ensures Count(focus, ids) <= Load(c, retry', focus, ids) <= Load(c, retry, focus, ids)
  {
    if ids != [] {
      assert Retries(retry, ids[0]) <= Retries(retry', ids[0]);
      LoadShrinks(c, retry, retry', focus, ids[1..]);
    }
  }

  lemma InsertLoad(c: Config, retry: map<Id, int>, focus: Option<Id>, q: seq<Entry<Id>>, e: Entry<Id>)
    requires Sorted(q)
    ensures Load(c, retry, focus, Items(Insert(q, e))) ==
            Load(c, retry, focus, Items(q)) + (if Counts(focus, e.item) then Weight(c, retry, e.item) else 0)
  {
    var k := InsertSplits(q, e);
    var a, b := Items(q[..k]), Items(q[k..]);
    ItemsConcat(q[..k] + [e], q[k..]);
    ItemsConcat(q[..k], [e]);
    ItemsConcat(q[..k], q[k..]);
    assert q == q[..k] + q[k..];
    assert Items([e]) == [e.item];
    LoadConcat(c, retry, focus, a + [e.item], b);
    LoadConcat(c, retry, focus, a, [e.item]);
    LoadConcat(c, retry, focus, a, b);
    assert [e.item][1..] == [];
  }

  lemma RequeueOneLightens(c: Config, id: Id, r: Requeued, focus: Option<Id>)
    requires Sorted(r.queue)
    ensures var r' := RequeueOne(c, id, r);
            && Sorted(r'.queue) && Grown(r.retry, r'.retry)
            && Load(c, r'.retry, focus, Items(r'.queue)) + (if Counts(focus, id) then 1 else 0)
               <= Load(c, r.retry, focus, Items(r.queue)) + (if Counts(focus, id) then Weight(c, r.retry, id) else 0)
  {
    var r' := RequeueOne(c, id, r);
    assert Grown(r.retry, r'.retry);
    var e := Entry(id, Retries(r.retry, id) + 1);
    InsertIsStable(r.queue, e);
    InsertLoad(c, r'.retry, focus, r.queue, e);
    LoadShrinks(c, r.retry, r'.retry, focus, Items(r.queue));
  }

  /** A failed batch goes back lighter by at least one per message. */
  lemma {:induction false} RequeueLightens(c: Config, batch: seq<Id>, r: Requeued, focus: Option<Id>)
    requires Sorted(r.queue)
    ensures var r' := Requeue(c, batch, r);
            && Grown(r.retry, r'.retry)
            && Load(c, r'.retry, focus, Items(r'.queue)) + Count(focus, batch)
               <= Load(c, r.retry, focus, Items(r.queue)) + Load(c, r.retry, focus, batch)
    decreases |batch|
  {
    if batch != [] {
      var r1 := RequeueOne(c, batch[0], r);
      RequeueOneLightens(c, batch[0], r, focus);
      LoadShrinks(c, r.retry, r1.retry, focus, batch[1..]);
      RequeueLightens(c, batch[1..], r1, focus);
      GrownTwice(r.retry, r1.retry, Requeue(c, batch, r).retry);
    }
  }

  lemma GrownTwice(a: map<Id, int>, b: map<Id, int>, d: map<Id, int>)
    requires Grown(a, b) && Grown(b, d)
    ensures Grown(a, d)
  {
    forall id ensures Retries(a, id) <= Retries(d, id) {
      assert Retries(a, id) <= Retries(b, id) <= Retries(d, id);
    }
  }

  /** What the flights can still send: a message already sent in this batch has
      used up one. */
  function FlightLoad(c: Config, retry: map<Id, int>, focus: Option<Id>, fs: seq<Flight>): int {
    if fs == [] then 0 else OneLoad(c, retry, focus, fs[0]) + FlightLoad(c, retry, focus, fs[1..])
  }

  function OneLoad(c: Config, retry: map<Id, int>, focus: Option<Id>, f: Flight): int {
    Load(c, retry, focus, f.batch) - (if f.next <= |f.batch| then Count(focus, f.batch[..f.next]) else 0)
  }

  lemma {:induction false} FlightConcat(c: Config, retry: map<Id, int>, focus: Option<Id>, a: seq<Flight>, b: seq<Flight>)
    ensures FlightLoad(c, retry, focus, a + b) == FlightLoad(c, retry, focus, a) + FlightLoad(c, retry, focus, b)
  {
    if a == [] {
      assert a + b == b;
    } else {
      assert (a + b)[1..] == a[1..] + b;
      FlightConcat(c, retry, focus, a[1..], b);
    }
  }

  lemma FlightOne(c: Config, retry: map<Id, int>, focus: Option<Id>, f: Flight)
    ensures FlightLoad(c, retry, focus, [f]) == OneLoad(c, retry, focus, f)
  {
    assert [f][1..] == [];
  }

  lemma FlightReplace(c: Config, retry: map<Id, int>, focus: Option<Id>, fs: seq<Flight>, i: nat, gs: seq<Flight>)
    requires i < |fs|
    ensures FlightLoad(c, retry, focus, ReplaceAt(fs, i, gs)) + OneLoad(c, retry, focus, fs[i])
            == FlightLoad(c, retry, focus, fs) + FlightLoad(c, retry, focus, gs)
  {
    assert fs == fs[..i] + ([fs[i]] + fs[i + 1..]);
    FlightConcat(c, retry, focus, fs[..i], [fs[i]] + fs[i + 1..]);
    FlightConcat(c, retry, focus, [fs[i]], fs[i + 1..]);
    FlightConcat(c, retry, focus, fs[..i], gs + fs[i + 1..]);
    FlightConcat(c, retry, focus, gs, fs[i + 1..]);
    FlightOne(c, retry, focus, fs[i]);
  }

  lemma {:induction false} FlightShrinks(c: Config, retry: map<Id, int>, retry': map<Id, int>, focus: Option<Id>, fs: seq<Flight>)
    requires Grown(retry, retry')
    ensures FlightLoad(c, retry', focus, fs) <= FlightLoad(c, retry, focus, fs)
  {
    if fs != [] {
      LoadShrinks(c, retry, retry', focus, fs[0].batch);
      FlightShrinks(c, retry, retry', focus, fs[1..]);
    }
  }

  /** The number of sends still possible without a new enqueue. */
  function Potential(c: Config, s: State, focus: Option<Id>): int {
    Load(c, s.retry, focus, Items(s.queue)) + FlightLoad(c, s.retry, focus, s.flights)
  }

  /** Sends done plus sends still possible. */
  function Spent(c: Config, s: State, focus: Option<Id>): int {
    Count(focus, s.attempts) + Potential(c, s, focus)
  }

  lemma StartSpends(c: Config, s: State, owner: Owner, focus: Option<Id>)
    ensures Spent(c, Start(c, s, owner), focus) == Spent(c, s, focus)
  {
    var k := BatchSize(c, |s.queue|);
    assert s.queue == s.queue[..k] + s.queue[k..];
    ItemsConcat(s.queue[..k], s.queue[k..]);
    var f := Flight(owner, Items(s.queue[..k]), 0);
    LoadConcat(c, s.retry, focus, f.batch, Items(s.queue[k..]));
    FlightConcat(c, s.retry, focus, s.flights, [f]);
    FlightOne(c, s.retry, focus, f);
    assert f.batch[..0] == [];
  }

  lemma CountNext(focus: Option<Id>, ids: seq<Id>, k: nat)
    requires k < |ids|
    ensures Count(focus, ids[..k + 1]) == Count(focus, ids[..k]) + Count(focus, [ids[k]])
    ensures Count(focus, ids[..k + 1]) <= Count(focus, ids)
  {
    assert ids[..k + 1] == ids[..k] + [ids[k]];
    CountConcat(focus, ids[..k], [ids[k]]);
    assert ids == ids[..k + 1] + ids[k + 1..];
    CountConcat(focus, ids[..k + 1], ids[k + 1..]);
  }

  lemma EmptyLoad(c: Config, retry: map<Id, int>, focus: Option<Id>, o: Owner)
    ensures FlightLoad(c, retry, focus, [Flight(o, [], 0)]) == 0
  {
    FlightOne(c, retry, focus, Flight(o, [], 0));
  }

  lemma SentSpends(c: Config, s: State, i: nat, focus: Option<Id>)
    requires Sending(s, i)
    ensures Spent(c, Sent(s, i), focus) <= Spent(c, s, focus)
  {
    var f := s.flights[i];
    CountConcat(focus, s.attempts, [f.batch[f.next]]);
    CountNext(focus, f.batch, f.next);
    if f.next + 1 < |f.batch| {
      var g := f.(next := f.next + 1);
      FlightReplace(c, s.retry, focus, s.flights, i, [g]);
      FlightOne(c, s.retry, focus, g);
    } else {
      FlightReplace(c, s.retry, focus, s.flights, i, [Flight(f.owner, [], 0)]);
      EmptyLoad(c, s.retry, focus, f.owner);
      LoadShrinks(c, s.retry, s.retry, focus, f.batch);
      assert f.batch[..|f.batch|] == f.batch;
    }
  }

  lemma ErrorSpends(c: Config, s: State, i: nat, focus: Option<Id>)
    requires Sending(s, i) && Sorted(s.queue)
    ensures Spent(c, SendError(c, s, i), focus) <= Spent(c, s, focus)
  {
    var f := s.flights[i];
    var r := Requeue(c, f.batch, Requeued(s.queue, s.retry, []));
    CountConcat(focus, s.attempts, [f.batch[f.next]]);
    CountNext(focus, f.batch, f.next);
    RequeueLightens(c, f.batch, Requeued(s.queue, s.retry, []), focus);
    var fs := ReplaceAt(s.flights, i, [Flight(f.owner, [], 0)]);
    FlightReplace(c, s.retry, focus, s.flights, i, [Flight(f.owner, [], 0)]);
    EmptyLoad(c, s.retry, focus, f.owner);
    FlightShrinks(c, s.retry, r.retry, focus, fs);
  }

  /** The budget a step may add: only an enqueue adds one. */
  function Added(c: Config, s: State, step: Step, focus: Option<Id>): int {
    if step.Enqueue? && Counts(focus, step.id) then Weight(c, s.retry, step.id) else 0
  }

  lemma StepSpends(c: Config, s: State, step: Step, focus: Option<Id>)
    requires Sorted(s.queue)
    ensures Spent(c, Apply(c, s, step), focus) <= Spent(c, s, focus) + Added(c, s, step, focus)
  {
    match step
    case Enqueue(id, p) => InsertLoad(c, s.retry, focus, s.queue, Entry(id, p));
    case Tick => StartSpends(c, s.(processing := true), Timer, focus);
    case SendOk(i) => if Sending(s, i) { SentSpends(c, s, i, focus); }
    case SendFail(i) => if Sending(s, i) { ErrorSpends(c, s, i, focus); }
    case Settle(i) =>
      if i < |s.flights| {
        FlightReplace(c, s.retry, focus, s.flights, i, []);
      }
    case Pause =>
    case Resume =>
    case CallShutdown => StartSpends(c, s.(paused := true), Shutdown, focus);
    case Poll => if s.waiting > 0 { StartSpends(c, s.(waiting := s.waiting - 1), Shutdown, focus); }
  }

  predicate NoEnqueue(steps: seq<Step>) {
    forall i :: 0 <= i < |steps| ==> !steps[i].Enqueue?
  }

  lemma {:induction false} PotentialNonNegative(c: Config, s: State, focus: Option<Id>)
    ensures Potential(c, s, focus) >= 0
  {
    LoadShrinks(c, s.retry, s.retry, focus, Items(s.queue));
    FlightNonNegative(c, s.retry, focus, s.flights);
  }

  lemma {:induction false} FlightNonNegative(c: Config, retry: map<Id, int>, focus: Option<Id>, fs: seq<Flight>)
    ensures FlightLoad(c, retry, focus, fs) >= 0
  {
    if fs != [] {
      var f := fs[0];
      LoadShrinks(c, retry, retry, focus, f.batch);
      if f.next <= |f.batch| {
        assert f.batch == f.batch[..f.next] + f.batch[f.next..];
        CountConcat(focus, f.batch[..f.next], f.batch[f.next..]);
      }
      FlightNonNegative(c, retry, focus, fs[1..]);
    }
  }

  lemma {:induction false} RunSpends(c: Config, s: State, steps: seq<Step>)
    requires Sorted(s.queue) && NoEnqueue(steps)
    ensures Spent(c, Run(c, s, steps), None) <= Spent(c, s, None)
    decreases |steps|
  {
    if steps != [] {
      StepSpends(c, s, steps[0], None);
      StepSorted(c, s, steps[0]);
      RunSpends(c, Apply(c, s, steps[0]), steps[1..]);
    }
  }

  lemma {:induction false} CountAll(ids: seq<Id>)
    ensures Count(None, ids) == |ids|
  {
    if ids != [] {
      CountAll(ids[1..]);
    }
  }

  /** RETRY TERMINATION. From any state, a run without new enqueues performs at
      most `Potential` further sends, however sends fail and steps interleave. */
  lemma SendsAreBounded(c: Config, s: State, steps: seq<Step>)
    requires Sorted(s.queue) && NoEnqueue(steps)
    ensures |Run(c, s, steps).attempts| <= |s.attempts| + Potential(c, s, None)
  {
    RunSpends(c, s, steps);
    PotentialNonNegative(c, Run(c, s, steps), None);
    CountAll(s.attempts);
    CountAll(Run(c, s, steps).attempts);
  }

  // -------------------------------------------------- a batch to its end

  /** Flight i is sending or done. */
  predicate Flying(s: State, i: nat) {
    i < |s.flights| && (s.flights[i].batch == [] || Sending(s, i))
  }

  /** Flight i to its end with nothing in between; `outcomes(k)` says whether the
      k-th send of the whole run succeeds. */
  ghost function Finish(c: Config, s: State, i: nat, outcomes: nat -> bool): State
    requires Flying(s, i)
    decreases |s.flights[i].batch| - s.flights[i].next
  {
    if !Sending(s, i) then s
    else if outcomes(|s.attempts|) then Finish(c, Apply(c, s, SendOk(i)), i, outcomes)
    else Apply(c, s, SendFail(i))
  }

  lemma ReplaceOne(fs: seq<Flight>, i: nat, f: Flight)
    requires i < |fs|
    ensures ReplaceAt(fs, i, [f]) == fs[i := f]
  {
  }

  lemma SentAt(c: Config, s: State, i: nat)
    requires Sending(s, i)
    ensures var f, r := s.flights[i], Apply(c, s, SendOk(i));
            && r.flights == s.flights[i := if f.next + 1 < |f.batch| then f.(next := f.next + 1) else Flight(f.owner, [], 0)]
            && r.queue == s.queue && r.retry == s.retry && |r.attempts| == |s.attempts| + 1
  {
    var f := s.flights[i];
    ReplaceOne(s.flights, i, Flight(f.owner, [], 0));
    ReplaceOne(s.flights, i, f.(next := f.next + 1));
  }

  lemma FailedAt(c: Config, s: State, i: nat)
    requires Sending(s, i)
    ensures var f, r := s.flights[i], Apply(c, s, SendFail(i));
            && r.flights == s.flights[i := Flight(f.owner, [], 0)]
            && r.queue == Requeue(c, f.batch, Requeued(s.queue, s.retry, [])).queue
  {
    ReplaceOne(s.flights, i, Flight(s.flights[i].owner, [], 0));
  }

  /** How often a message may still go back into the queue. */
  function Allowance(c: Config, retry: map<Id, int>, id: Id): nat {
    var n := Retries(retry, id);
    if n <= c.maxRetries then c.maxRetries + 1 - n else 0
  }

  function Min(a: nat, b: nat): nat {
    if a < b then a else b
  }

  /** What a failed batch puts back: each message as often as the batch holds it,
      but no more often than its retries allow. */
  lemma {:induction false} RequeueCounts(c: Config, batch: seq<Id>, r: Requeued, id: Id)
    requires Sorted(r.queue)
    ensures Count(Some(id), Items(Requeue(c, batch, r).queue)) ==
            Count(Some(id), Items(r.queue)) + Min(Count(Some(id), batch), Allowance(c, r.retry, id))
    decreases |batch|
  {
    if batch != [] {
      RequeueOneCounts(c, batch[0], r, id);
      RequeueCounts(c, batch[1..], RequeueOne(c, batch[0], r), id);
    }
  }

  /** One message goes back unless its retries are used up. */
  lemma RequeueOneCounts(c: Config, one: Id, r: Requeued, id: Id)
    requires Sorted(r.queue)
    ensures var r' := RequeueOne(c, one, r);
            var back := if one == id && Allowance(c, r.retry, id) > 0 then 1 else 0;
            && Sorted(r'.queue)
            && Count(Some(id), Items(r'.queue)) == Count(Some(id), Items(r.queue)) + back
            && Allowance(c, r'.retry, id) == Allowance(c, r.retry, id) - back
  {
    if Retries(r.retry, one) <= c.maxRetries {
      var e := Entry(one, Retries(r.retry, one) + 1);
      InsertCount(Some(id), r.queue, e);
      CountOne(Some(id), one);
      InsertIsStable(r.queue, e);
      RaisedAllowance(c, r.retry, one, id);
    }
  }

  lemma RaisedAllowance(c: Config, retry: map<Id, int>, one: Id, id: Id)
    requires Retries(retry, one) <= c.maxRetries
    ensures Allowance(c, retry[one := Retries(retry, one) + 1], id) ==
            if one == id then Allowance(c, retry, id) - 1 else Allowance(c, retry, id)
  {
  }

  lemma InsertNotEmpty(q: seq<Entry<Id>>, e: Entry<Id>)
    ensures Insert(q, e) != []
  {
  }

  lemma {:induction false} RequeueEmptyIff(c: Config, batch: seq<Id>, r: Requeued)
    ensures Requeue(c, batch, r).queue == [] <==>
            r.queue == [] && forall id :: id in batch ==> Retries(r.retry, id) > c.maxRetries
    decreases |batch|
  {
    if batch != [] {
      InsertNotEmpty(r.queue, Entry(batch[0], Retries(r.retry, batch[0]) + 1));
      RequeueEmptyIff(c, batch[1..], RequeueOne(c, batch[0], r));
      assert batch[0] in batch;
      assert batch == [batch[0]] + batch[1..];
    }
  }

  /** An enqueued message stands behind every entry of at least its priority and before
      every entry of lower priority; the order of the others stays. */
  lemma EnqueueRanks(c: Config, s: State, id: Id, priority: int) returns (k: nat)
    requires Sorted(s.queue)
    ensures k <= |s.queue| && Apply(c, s, Enqueue(id, priority)).queue == s.queue[..k] + [Entry(id, priority)] + s.queue[k..]
    ensures forall i :: 0 <= i < |s.queue| ==> (i < k <==> s.queue[i].priority >= priority)
  {
    k := InsertSplits(s.queue, Entry(id, priority));
  }

  // ------------------------------------------------- what a failure puts back

  /** How often the message has been retried when the batch holds it again: its count
      before the batch, and its earlier places in the batch. */
  function RetriesAt(retry: map<Id, int>, batch: seq<Id>, id: Id): int {
    Retries(retry, id) + Count(Some(id), batch)
  }

  /** The entries that go back: each place of the batch whose message may be retried, in
      order, with the number of the retry as its priority. */
  function Returned(c: Config, retry: map<Id, int>, batch: seq<Id>): seq<Entry<Id>> {
    if batch == [] then []
    else
      var front, id := batch[..|batch| - 1], batch[|batch| - 1];
      var n := RetriesAt(retry, front, id);
      Returned(c, retry, front) + if n <= c.maxRetries then [Entry(id, n + 1)] else []
  }

  /** The places of the batch that are given up. */
  function GivenUp(c: Config, retry: map<Id, int>, batch: seq<Id>): seq<Id> {
    if batch == [] then []
    else
      var front, id := batch[..|batch| - 1], batch[|batch| - 1];
      GivenUp(c, retry, front) + if RetriesAt(retry, front, id) <= c.maxRetries then [] else [id]
  }

  lemma {:induction false} RequeueLast(c: Config, batch: seq<Id>, id: Id, r: Requeued)
    ensures Requeue(c, batch + [id], r) == RequeueOne(c, id, Requeue(c, batch, r))
    decreases |batch|
  {
    if batch == [] {
      assert batch + [id] == [id] && [id][1..] == [];
      assert Requeue(c, [id], r) == Requeue(c, [], RequeueOne(c, id, r));
    } else {
      assert (batch + [id])[1..] == batch[1..] + [id];
      RequeueLast(c, batch[1..], id, RequeueOne(c, batch[0], r));
    }
  }

  /** The queue, the retry counts and the reports after part of a batch. */
  ghost predicate PutBack(c: Config, from: Requeued, batch: seq<Id>, r: Requeued) {
    && IsStableSort(from.queue + Returned(c, from.retry, batch), r.queue)
    && (forall id :: Retries(r.retry, id) ==
                     Retries(from.retry, id) + Min(Count(Some(id), batch), Allowance(c, from.retry, id)))
    && r.failed == from.failed + GivenUp(c, from.retry, batch)
  }

  lemma StableMore<T>(a: seq<Entry<T>>, b: seq<Entry<T>>, q: seq<Entry<T>>, e: Entry<T>)
    requires IsStableSort(a + b, q)
    ensures IsStableSort(a + (b + [e]), Insert(q, e))
  {
    InsertIsStable(q, e);
    forall p ensures Level(Insert(q, e), p) == Level(a + (b + [e]), p) {
      LevelConcat(q, [e], p);
      LevelConcat(a + b, [e], p);
      Assoc(a, b, [e]);
    }
  }

  lemma CountLast(front: seq<Id>, id: Id)
    ensures forall x :: Count(Some(x), front + [id]) == Count(Some(x), front) + if x == id then 1 else 0
  {
    forall x ensures Count(Some(x), front + [id]) == Count(Some(x), front) + if x == id then 1 else 0 {
      CountConcat(Some(x), front, [id]);
      CountOne(Some(x), id);
    }
  }

  lemma RetriesAfter(c: Config, from: Requeued, front: seq<Id>, id: Id, r: Requeued, x: Id)
    requires PutBack(c, from, front, r)
    ensures Retries(RequeueOne(c, id, r).retry, x) ==
            Retries(from.retry, x) + Min(Count(Some(x), front + [id]), Allowance(c, from.retry, x))
    ensures Retries(r.retry, id) <= c.maxRetries <==> RetriesAt(from.retry, front, id) <= c.maxRetries
    ensures Retries(r.retry, id) <= c.maxRetries ==> Retries(r.retry, id) == RetriesAt(from.retry, front, id)
  {
    CountLast(front, id);
    assert Retries(r.retry, id) ==
           Retries(from.retry, id) + Min(Count(Some(id), front), Allowance(c, from.retry, id));
    assert Retries(r.retry, x) == Retries(from.retry, x) + Min(Count(Some(x), front), Allowance(c, from.retry, x));
    assert Count(Some(x), front + [id]) == Count(Some(x), front) + if x == id then 1 else 0;
  }

  lemma PutBackOne(c: Config, from: Requeued, front: seq<Id>, id: Id, r: Requeued)
    requires PutBack(c, from, front, r)
    ensures PutBack(c, from, front + [id], RequeueOne(c, id, r))
  {
    var all, n := front + [id], RetriesAt(from.retry, front, id);
    assert all[..|all| - 1] == front && all[|all| - 1] == id;
    forall x ensures Retries(RequeueOne(c, id, r).retry, x) ==
                     Retries(from.retry, x) + Min(Count(Some(x), all), Allowance(c, from.retry, x)) {
      RetriesAfter(c, from, front, id, r, x);
    }
    RetriesAfter(c, from, front, id, r, id);
    if n <= c.maxRetries {
      GoesBack(c, from, front, id, r);
    } else {
      IsGivenUp(c, from, front, id, r);
    }
  }

  lemma OneMoreReturned(c: Config, retry: map<Id, int>, front: seq<Id>, id: Id)
    ensures var n := RetriesAt(retry, front, id);
            && Returned(c, retry, front + [id]) ==
               Returned(c, retry, front) + (if n <= c.maxRetries then [Entry(id, n + 1)] else [])
            && GivenUp(c, retry, front + [id]) == GivenUp(c, retry, front) + if n <= c.maxRetries then [] else [id]
  {
    var all := front + [id];
    assert all[..|all| - 1] == front && all[|all| - 1] == id;
  }

  lemma GoesBack(c: Config, from: Requeued, front: seq<Id>, id: Id, r: Requeued)
    requires PutBack(c, from, front, r)
    requires RetriesAt(from.retry, front, id) == Retries(r.retry, id) <= c.maxRetries
    ensures IsStableSort(from.queue + Returned(c, from.retry, front + [id]), RequeueOne(c, id, r).queue)
    ensures RequeueOne(c, id, r).failed == from.failed + GivenUp(c, from.retry, front + [id])
  {
    var e := Entry(id, Retries(r.retry, id) + 1);
    OneMoreReturned(c, from.retry, front, id);
    StableMore(from.queue, Returned(c, from.retry, front), r.queue, e);
    assert GivenUp(c, from.retry, front) + [] == GivenUp(c, from.retry, front);
  }

  lemma IsGivenUp(c: Config, from: Requeued, front: seq<Id>, id: Id, r: Requeued)
    requires PutBack(c, from, front, r)
    requires RetriesAt(from.retry, front, id) > c.maxRetries && Retries(r.retry, id) > c.maxRetries
    ensures IsStableSort(from.queue + Returned(c, from.retry, front + [id]), RequeueOne(c, id, r).queue)
    ensures RequeueOne(c, id, r).failed == from.failed + GivenUp(c, from.retry, front + [id])
  {
    OneMoreReturned(c, from.retry, front, id);
    Assoc(from.failed, GivenUp(c, from.retry, front), [id]);
    assert Returned(c, from.retry, front) + [] == Returned(c, from.retry, front);
  }

  lemma {:induction false} RequeuePutsBack(c: Config, from: Requeued, batch: seq<Id>)
    requires Sorted(from.queue)
    ensures PutBack(c, from, batch, Requeue(c, batch, from))
    decreases |batch|
  {
    if batch == [] {
      assert from.queue + [] == from.queue && from.failed + [] == from.failed;
    } else {
      var front, id := batch[..|batch| - 1], batch[|batch| - 1];
      assert batch == front + [id];
      RequeuePutsBack(c, from, front);
      RequeueLast(c, front, id, from);
      PutBackOne(c, from, front, id, Requeue(c, front, from));
    }
  }

  /** WHAT A FAILURE PUTS BACK. After a failed send the queue is the stable sort, by
      descending priority, of what it held and then the places of the batch that may be
      retried, each with the number of its retry as priority; the retry counts are
      raised by as much, and the other places are reported failed. */
  lemma FailurePutsBack(c: Config, s: State, i: nat)
    requires Sending(s, i) && Sorted(s.queue)
    ensures var batch, r := s.flights[i].batch, Apply(c, s, SendFail(i));
            && IsStableSort(s.queue + Returned(c, s.retry, batch), r.queue)
            && (forall id :: Retries(r.retry, id) ==
                             Retries(s.retry, id) + Min(Count(Some(id), batch), Allowance(c, s.retry, id)))
            && r.failed == s.failed + GivenUp(c, s.retry, batch)
  {
    RequeuePutsBack(c, Requeued(s.queue, s.retry, []), s.flights[i].batch);
  }

  ghost predicate NoRepeat(batch: seq<Id>) {
    forall i, j :: 0 <= i < j < |batch| ==> batch[i] != batch[j]
  }

  lemma {:induction false} ReturnedPriorities(c: Config, retry: map<Id, int>, batch: seq<Id>, e: Entry<Id>)
    requires NoRepeat(batch) && e in Returned(c, retry, batch)
    ensures e.item in batch && e.priority == Retries(retry, e.item) + 1 && Retries(retry, e.item) <= c.maxRetries
    decreases |batch|
  {
    var front, id := batch[..|batch| - 1], batch[|batch| - 1];
    NoneBefore(batch);
    if e in Returned(c, retry, front) {
      ReturnedPriorities(c, retry, front, e);
    }
  }

  lemma NoneBefore(batch: seq<Id>)
    requires NoRepeat(batch) && batch != []
    ensures Count(Some(batch[|batch| - 1]), batch[..|batch| - 1]) == 0
  {
    CountsMember(batch[|batch| - 1], batch[..|batch| - 1]);
  }

  lemma {:induction false} LevelIn<T>(q: seq<Entry<T>>, e: Entry<T>)
    ensures e in Level(q, e.priority) <==> e in q
  {
    if q != [] {
      LevelIn(q[1..], e);
      assert q == [q[0]] + q[1..];
    }
  }

  /** PRIORITY OF A RETRY. When no message is twice in the batch, every entry that the
      failure adds has its message's new retry count as priority, and stands before
      every entry of lower priority. */
  lemma RetryIsPriority(c: Config, s: State, i: nat, k: nat)
    requires Sending(s, i) && Sorted(s.queue) && NoRepeat(s.flights[i].batch)
    requires k < |Apply(c, s, SendFail(i)).queue| && Apply(c, s, SendFail(i)).queue[k] !in s.queue
    ensures var r := Apply(c, s, SendFail(i)); var e := r.queue[k];
            && e.item in s.flights[i].batch && e.priority == Retries(r.retry, e.item) == Retries(s.retry, e.item) + 1
            && forall j :: 0 <= j < |r.queue| && r.queue[j].priority < e.priority ==> k < j
  {
    var batch, r := s.flights[i].batch, Apply(c, s, SendFail(i));
    var e := r.queue[k];
    FailurePutsBack(c, s, i);
    LevelIn(r.queue, e);
    LevelIn(s.queue + Returned(c, s.retry, batch), e);
    ReturnedPriorities(c, s.retry, batch, e);
    OnceInBatch(batch, e.item);
  }

  lemma {:induction false} OnceInBatch(batch: seq<Id>, id: Id)
    requires NoRepeat(batch) && id in batch
    ensures Count(Some(id), batch) == 1
    decreases |batch|
  {
    var front, last := batch[..|batch| - 1], batch[|batch| - 1];
    assert batch == front + [last];
    CountLast(front, last);
    NoneBefore(batch);
    if id != last {
      OnceInBatch(front, id);
    }
  }

  // ------------------------------------------------------------ paused

  ghost predicate NeverResumes(steps: seq<Step>) {
    forall k :: 0 <= k < |steps| ==> steps[k] != Resume
  }

  /** No tick on the run does anything. */
  ghost predicate TicksIdle(c: Config, s: State, steps: seq<Step>)
    decreases |steps|
  {
    steps != [] ==>
      (steps[0] == Tick ==> Apply(c, s, Tick) == s) && TicksIdle(c, Apply(c, s, steps[0]), steps[1..])
  }

  lemma {:induction false} PausedRun(c: Config, s: State, steps: seq<Step>)
    requires s.paused && NeverResumes(steps)
    ensures TicksIdle(c, s, steps) && Run(c, s, steps).paused
    decreases |steps|
  {
    if steps != [] {
      assert steps[0] != Resume;
      assert forall k :: 0 <= k < |steps[1..]| ==> steps[1..][k] == steps[k + 1];
      PausedRun(c, Apply(c, s, steps[0]), steps[1..]);
    }
  }

  /** PAUSE. From a pause or a shutdown call until a resume no tick starts a batch. */
  lemma PauseHolds(c: Config, s: State, steps: seq<Step>)
    requires NeverResumes(steps)
    ensures TicksIdle(c, Apply(c, s, Pause), steps) && TicksIdle(c, Apply(c, s, CallShutdown), steps)
  {
    PausedRun(c, Apply(c, s, Pause), steps);
    PausedRun(c, Apply(c, s, CallShutdown), steps);
  }

  /** A resume lets the next tick start one, if there is anything to send and no timer
      batch in flight. */
  lemma ResumeStarts(c: Config, s: State)
    requires !s.processing && s.queue != [] && c.maxBatchSize > 0
    ensures var r := Run(c, s, [Resume, Tick]);
            |r.flights| == |s.flights| + 1 && |r.flights[|s.flights|].batch| > 0 && |r.queue| < |s.queue|
  {
    var s1 := Apply(c, s, Resume);
    RunSteps(c, s, [Resume, Tick]);
    RunSteps(c, s1, [Tick]);
    assert [Resume, Tick][1..] == [Tick] && [Tick][1..] == [];
    assert Run(c, s, [Resume, Tick]) == Apply(c, s1, Tick);
  }

  // ------------------------------------------------------ what shutdown leaves

  /** A step while flight i is under way that starts, sends and ends no other batch. */
  predicate Alongside(s: State, step: Step, i: nat) {
    match step
    case SendOk(j) => j == i
    case SendFail(j) => j == i
    case Settle(_) => false
    case _ => !TickProceeds(s, step) && !ShutdownProceeds(s, step)
  }

  ghost predicate RunAlongside(c: Config, s: State, steps: seq<Step>, i: nat)
    decreases |steps|
  {
    steps != [] ==> Alongside(s, steps[0], i) && RunAlongside(c, Apply(c, s, steps[0]), steps[1..], i)
  }

  /** One of the sends of flight i fails. */
  ghost predicate Fails(c: Config, s: State, steps: seq<Step>, i: nat)
    decreases |steps|
  {
    steps != [] && ((steps[0] == SendFail(i) && Sending(s, i)) || Fails(c, Apply(c, s, steps[0]), steps[1..], i))
  }

  /** How often id was enqueued between two states of a run. */
  function Arrived(s: State, r: State, id: Id): int {
    Count(Some(id), r.accepted) - Count(Some(id), s.accepted)
  }

  lemma QuietStep(c: Config, s: State, step: Step, i: nat)
    requires Alongside(s, step, i) && !step.Enqueue? && !(step in {SendOk(i), SendFail(i)} && Sending(s, i))
    ensures var r := Apply(c, s, step);
            r.queue == s.queue && r.flights == s.flights && r.retry == s.retry && r.accepted == s.accepted
  {
  }

  lemma Arrival(c: Config, s: State, e: Id, p: int, id: Id)
    requires Sorted(s.queue)
    ensures var r := Apply(c, s, Enqueue(e, p));
            && r.flights == s.flights && r.retry == s.retry
            && Count(Some(id), Items(r.queue)) == Count(Some(id), Items(s.queue)) + Arrived(s, r, id)
  {
    InsertCount(Some(id), s.queue, Entry(e, p));
    CountConcat(Some(id), s.accepted, [e]);
  }

  lemma {:induction false} NoMoreFails(c: Config, s: State, steps: seq<Step>, i: nat)
    requires RunAlongside(c, s, steps, i) && i < |s.flights| && s.flights[i].batch == []
    ensures !Fails(c, s, steps, i)
    decreases |steps|
  {
    if steps != [] {
      if !steps[0].Enqueue? {
        QuietStep(c, s, steps[0], i);
      }
      NoMoreFails(c, Apply(c, s, steps[0]), steps[1..], i);
    }
  }

  /** What the failure of a send puts back. */
  lemma FailureCounts(c: Config, s: State, i: nat, id: Id)
    requires Sending(s, i) && Sorted(s.queue)
    ensures var r := Apply(c, s, SendFail(i));
            && i < |r.flights| && r.flights[i].batch == [] && r.accepted == s.accepted
            && Count(Some(id), Items(r.queue)) ==
               Count(Some(id), Items(s.queue)) + Min(Count(Some(id), s.flights[i].batch), Allowance(c, s.retry, id))
  {
    FailedAt(c, s, i);
    RequeueCounts(c, s.flights[i].batch, Requeued(s.queue, s.retry, []), id);
  }

  /** What the failure, if there is one, of flight i puts back. */
  ghost function Back(c: Config, s: State, steps: seq<Step>, i: nat, id: Id): nat
    requires i < |s.flights|
  {
    if Fails(c, s, steps, i) then Min(Count(Some(id), s.flights[i].batch), Allowance(c, s.retry, id)) else 0
  }

  lemma BackAfter(c: Config, s: State, steps: seq<Step>, i: nat, id: Id)
    requires Flying(s, i) && steps != [] && RunAlongside(c, s, steps, i) && Sorted(s.queue)
    ensures var r := Apply(c, s, steps[0]);
            && Flying(r, i)
            && Count(Some(id), Items(r.queue)) + Back(c, r, steps[1..], i, id) ==
               Count(Some(id), Items(s.queue)) + Arrived(s, r, id) + Back(c, s, steps, i, id)
  {
    var step, r := steps[0], Apply(c, s, steps[0]);
    if step.Enqueue? {
      Arrival(c, s, step.id, step.priority, id);
    } else if step == SendFail(i) && Sending(s, i) {
      FailureCounts(c, s, i, id);
      NoMoreFails(c, r, steps[1..], i);
    } else if step == SendOk(i) && Sending(s, i) {
      SentAt(c, s, i);
      if r.flights[i].batch == [] {
        NoMoreFails(c, r, steps[1..], i);
      }
    } else {
      QuietStep(c, s, step, i);
    }
  }

  lemma {:induction false} BatchCounts(c: Config, s: State, steps: seq<Step>, i: nat, id: Id)
    requires Flying(s, i) && RunAlongside(c, s, steps, i) && Sorted(s.queue)
    ensures var r := Run(c, s, steps);
            Count(Some(id), Items(r.queue)) ==
            Count(Some(id), Items(s.queue)) + Arrived(s, r, id) + Back(c, s, steps, i, id)
    decreases |steps|
  {
    if steps != [] {
      BackAfter(c, s, steps, i, id);
      StepSorted(c, s, steps[0]);
      BatchCounts(c, Apply(c, s, steps[0]), steps[1..], i, id);
    }
  }

  lemma ShutdownStarts(c: Config, s: State, step: Step)
    requires ShutdownProceeds(s, step)
    ensures var k, r := BatchSize(c, |s.queue|), Apply(c, s, step);
            && r.flights == s.flights + [Flight(Shutdown, Items(s.queue[..k]), 0)]
            && r.queue == s.queue[k..] && r.retry == s.retry && r.attempts == s.attempts
            && Flying(r, |s.flights|) && r.accepted == s.accepted
  {
  }

  /** WHAT SHUTDOWN LEAVES. The messages beyond its one batch stay, and so do those
      enqueued since. As long as no send fails nothing else does; once one fails, each
      message of the batch is back as often as its retries allow. */
  lemma ShutdownLeaves(c: Config, s: State, step: Step, steps: seq<Step>, id: Id)
    requires ShutdownProceeds(s, step) && Sorted(s.queue)
    requires RunAlongside(c, Apply(c, s, step), steps, |s.flights|)
    ensures var k, r := BatchSize(c, |s.queue|), Run(c, Apply(c, s, step), steps);
            Count(Some(id), Items(r.queue)) ==
            Count(Some(id), Items(s.queue[k..])) + Arrived(s, r, id)
            + if Fails(c, Apply(c, s, step), steps, |s.flights|)
              then Min(Count(Some(id), Items(s.queue[..k])), Allowance(c, s.retry, id)) else 0
  {
    ShutdownStarts(c, s, step);
    StepSorted(c, s, step);
    BatchCounts(c, Apply(c, s, step), steps, |s.flights|, id);
  }

  /** No queued message may be sent again after an error. */
  ghost predicate NoneRetries(c: Config, s: State) {
    forall id :: id in Items(s.queue) ==> Retries(s.retry, id) > c.maxRetries
  }

  lemma {:induction false} CountsMember(id: Id, ids: seq<Id>)
    ensures Count(Some(id), ids) > 0 <==> id in ids
  {
    if ids != [] {
      CountsMember(id, ids[1..]);
    }
  }

  lemma {:induction false} AcceptedGrows(c: Config, s: State, steps: seq<Step>) returns (more: seq<Id>)
    ensures Run(c, s, steps).accepted == s.accepted + more
    decreases |steps|
  {
    if steps == [] {
      more := [];
    } else {
      more := AcceptedGrows(c, Apply(c, s, steps[0]), steps[1..]);
      if steps[0].Enqueue? {
        Assoc(s.accepted, [steps[0].id], more);
        more := [steps[0].id] + more;
      } else {
        SameAccepted(c, s, steps[0]);
      }
    }
  }

  lemma NonEmpty(ids: seq<Id>)
    ensures ids == [] <==> forall id :: Count(Some(id), ids) == 0
  {
    if ids != [] {
      CountsMember(ids[0], ids);
    }
  }

  /** A queue whose counts are the sums of three is empty if and only if all three are. */
  lemma EmptyIff(q: seq<Id>, beyond: seq<Id>, more: seq<Id>, back: Id -> nat)
    requires forall id :: Count(Some(id), q) == Count(Some(id), beyond) + Count(Some(id), more) + back(id)
    ensures q == [] <==> beyond == [] && more == [] && forall id :: back(id) == 0
  {
    NonEmpty(q);
    NonEmpty(beyond);
    NonEmpty(more);
    if q == [] {
      forall id ensures Count(Some(id), beyond) == 0 && Count(Some(id), more) == 0 && back(id) == 0 {
        assert Count(Some(id), q) == 0;
      }
    }
  }

  lemma NothingBackIff(c: Config, retry: map<Id, int>, batch: seq<Id>, failed: bool, back: Id -> nat)
    requires forall id :: back(id) == if failed then Min(Count(Some(id), batch), Allowance(c, retry, id)) else 0
    ensures (forall id :: back(id) == 0) <==> !failed || forall id :: id in batch ==> Retries(retry, id) > c.maxRetries
  {
    forall id ensures Count(Some(id), batch) > 0 <==> id in batch {
      CountsMember(id, batch);
    }
    if failed && forall id :: back(id) == 0 {
      forall id | id in batch ensures Retries(retry, id) > c.maxRetries {
        assert back(id) == 0;
      }
    }
  }

  /** From a shutdown's batch on the queue is empty if and only if the queue fitted into
      that batch, nothing was enqueued since, and either no send has failed or no queued
      message had a retry left. */
  lemma ShutdownEmptiesIff(c: Config, s: State, step: Step, steps: seq<Step>)
    requires ShutdownProceeds(s, step) && Sorted(s.queue)
    requires RunAlongside(c, Apply(c, s, step), steps, |s.flights|)
    ensures var r := Run(c, Apply(c, s, step), steps);
            r.queue == [] <==>
            && |s.queue| <= c.maxBatchSize && r.accepted == s.accepted
            && (!Fails(c, Apply(c, s, step), steps, |s.flights|) || NoneRetries(c, s))
  {
    var k, w, failed := BatchSize(c, |s.queue|), Apply(c, s, step), Fails(c, Apply(c, s, step), steps, |s.flights|);
    var r, batch := Run(c, w, steps), Items(s.queue[..k]);
    ShutdownStarts(c, s, step);
    var more := AcceptedGrows(c, w, steps);
    var back: Id -> nat := id => if failed then Min(Count(Some(id), batch), Allowance(c, s.retry, id)) else 0;
    forall id ensures Count(Some(id), Items(r.queue)) ==
                      Count(Some(id), Items(s.queue[k..])) + Count(Some(id), more) + back(id) {
      ShutdownLeaves(c, s, step, steps, id);
      CountConcat(Some(id), s.accepted, more);
    }
    EmptyIff(Items(r.queue), Items(s.queue[k..]), more, back);
    NothingBackIff(c, s.retry, batch, failed, back);
    FitsIff(c, s, k);
  }

  lemma FitsIff(c: Config, s: State, k: nat)
    requires k == BatchSize(c, |s.queue|) && s.queue != []
    ensures Items(s.queue[k..]) == [] <==> |s.queue| <= c.maxBatchSize
    ensures |s.queue| <= c.maxBatchSize ==> s.queue[..k] == s.queue
  {
  }

  /** A run alongside flight i in which nothing is enqueued. */
  ghost predicate NoneArrive(c: Config, s: State, steps: seq<Step>, i: nat) {
    RunAlongside(c, s, steps, i) && Run(c, s, steps).accepted == s.accepted
  }

  lemma FirstFails(c: Config, s: State, i: nat)
    requires Sending(s, i)
    ensures NoneArrive(c, s, [SendFail(i)], i) && Fails(c, s, [SendFail(i)], i)
  {
    assert [SendFail(i)][1..] == [];
    assert RunAlongside(c, Apply(c, s, SendFail(i)), [], i);
  }

  /** A run that leaves something in the queue, where there is one. */
  lemma LeavesSome(c: Config, s: State, step: Step) returns (steps: seq<Step>)
    requires ShutdownProceeds(s, step) && Sorted(s.queue) && !(|s.queue| <= c.maxBatchSize && NoneRetries(c, s))
    ensures NoneArrive(c, Apply(c, s, step), steps, |s.flights|) && Run(c, Apply(c, s, step), steps).queue != []
  {
    ShutdownStarts(c, s, step);
    if |s.queue| <= c.maxBatchSize {
      steps := [SendFail(|s.flights|)];
      FirstFails(c, Apply(c, s, step), |s.flights|);
    } else {
      steps := [];
    }
    ShutdownEmptiesIff(c, s, step, steps);
  }

  /** Hence, when nothing is enqueued, it empties the queue whatever the sends do if and
      only if the queue fits into one batch and no queued message has a retry left. */
  lemma ShutdownAlwaysEmptiesIff(c: Config, s: State, step: Step)
    requires ShutdownProceeds(s, step) && Sorted(s.queue)
    ensures (forall steps :: NoneArrive(c, Apply(c, s, step), steps, |s.flights|) ==>
                               Run(c, Apply(c, s, step), steps).queue == []) <==>
            |s.queue| <= c.maxBatchSize && NoneRetries(c, s)
  {
    if |s.queue| <= c.maxBatchSize && NoneRetries(c, s) {
      ShutdownStarts(c, s, step);
      forall steps | NoneArrive(c, Apply(c, s, step), steps, |s.flights|)
        ensures Run(c, Apply(c, s, step), steps).queue == []
      {
        ShutdownEmptiesIff(c, s, step, steps);
      }
    } else {
      var steps := LeavesSome(c, s, step);
    }
  }

  /** A run in which one failed send of the shutdown's batch refills the queue: it
      ends with a message queued, nothing in flight, and no timer to send it. */
  lemma ShutdownRefills(c: Config)
    requires c.maxBatchSize >= 1 && c.maxRetries >= 0
    ensures var s := Run(c, Init(map[]), [Enqueue(0, 1), CallShutdown, SendFail(0), Settle(0)]);
            s.queue == [Entry(0, 1)] && s.flights == [] && s.waiting == 0 && s.paused
  {
    var s1 := Apply(c, Init(map[]), Enqueue(0, 1));
    var s2 := Apply(c, s1, CallShutdown);
    assert s1.queue == [Entry(0, 1)] && s1.queue[..1] == [Entry(0, 1)] && s1.queue[1..] == [];
    assert Items([Entry(0, 1)]) == [0] && BatchSize(c, 1) == 1;
    assert s2.flights == [] + [Flight(Shutdown, Items(s1.queue[..1]), 0)];
    assert s2.flights == [Flight(Shutdown, [0], 0)] && s2.queue == [] && s2.waiting == 0 && s2.paused;
    var s3 := Apply(c, s2, SendFail(0));
    assert [0][1..] == [];
    assert Requeue(c, [0], Requeued([], s2.retry, [])).queue == [Entry(0, 1)];
    assert s3.queue == [Entry(0, 1)] && s3.flights == [Flight(Shutdown, [], 0)];
    RunSteps(c, Init(map[]), [Enqueue(0, 1), CallShutdown, SendFail(0), Settle(0)]);
    RunSteps(c, s1, [CallShutdown, SendFail(0), Settle(0)]);
    RunSteps(c, s2, [SendFail(0), Settle(0)]);
    RunSteps(c, s3, [Settle(0)]);
  }

  // ---------------------------------------------------- the queue drains

  /** Running, with no batch in flight. */
  ghost predicate Idle(s: State) {
    s.timers > 0 && !s.paused && !s.processing && s.flights == [] && Sorted(s.queue)
  }

  /** One timer batch in flight, sending or done. */
  ghost predicate Busy(s: State) {
    && s.timers > 0 && !s.paused && s.processing && Sorted(s.queue)
    && |s.flights| == 1 && s.flights[0].owner == Timer && Flying(s, 0)
  }

  /** From one tick to the end of the batch it starts. */
  ghost function Round(c: Config, s: State, outcomes: nat -> bool): State
    requires Idle(s) && s.queue != [] && c.maxBatchSize > 0
  {
    Apply(c, Finish(c, Apply(c, s, Tick), 0, outcomes), Settle(0))
  }

  lemma ErrorEndsBatch(c: Config, s: State)
    requires Busy(s) && Sending(s, 0)
    ensures var r := Apply(c, s, SendFail(0));
            Busy(r) && r.flights[0].batch == [] && |r.attempts| == |s.attempts| + 1
  {
    StepSorted(c, s, SendFail(0));
  }

  /** Finishing a batch sends at least once, if there is anything to send, loses
      no message and does not raise the budget. */
  lemma {:induction false} FinishLaws(c: Config, s: State, outcomes: nat -> bool, focus: Option<Id>)
    requires Busy(s)
    ensures var r := Finish(c, s, 0, outcomes);
            && Busy(r) && r.flights[0].batch == []
            && r.accepted == s.accepted
            && Spent(c, r, None) <= Spent(c, s, None)
            && |r.attempts| >= |s.attempts| + (if Sending(s, 0) then 1 else 0)
            && (Balanced(s, focus) ==> Balanced(r, focus))
    decreases |s.flights[0].batch| - s.flights[0].next
  {
    if Sending(s, 0) {
      var step := if outcomes(|s.attempts|) then SendOk(0) else SendFail(0);
      StepSpends(c, s, step, None);
      if Balanced(s, focus) {
        StepBalances(c, s, step, focus);
      }
      if step.SendOk? {
        FinishLaws(c, Apply(c, s, step), outcomes, focus);
      } else {
        ErrorEndsBatch(c, s);
      }
    }
  }

  lemma TickStarts(c: Config, s: State)
    requires Idle(s) && s.queue != [] && c.maxBatchSize > 0
    ensures Busy(Apply(c, s, Tick)) && Sending(Apply(c, s, Tick), 0)
    ensures Apply(c, s, Tick).attempts == s.attempts
  {
  }

  /** Every batch, however its sends turn out, uses up some of the budget. */
  lemma RoundLightens(c: Config, s: State, outcomes: nat -> bool, focus: Option<Id>)
    requires Idle(s) && s.queue != [] && c.maxBatchSize > 0
    ensures var r := Round(c, s, outcomes);
            && Idle(r) && r.accepted == s.accepted
            && 0 <= Potential(c, r, None) < Potential(c, s, None)
            && (Balanced(s, focus) ==> Balanced(r, focus))
  {
    var s1 := Apply(c, s, Tick);
    TickStarts(c, s);
    StepSpends(c, s, Tick, None);
    FinishLaws(c, s1, outcomes, focus);
    RoundEnds(c, s, Finish(c, s1, 0, outcomes), focus);
    if Balanced(s, focus) {
      StepBalances(c, s, Tick, focus);
    }
  }

  /** The end of a batch that has sent something. */
  lemma RoundEnds(c: Config, s: State, s2: State, focus: Option<Id>)
    requires Busy(s2) && s2.flights[0].batch == []
    requires Spent(c, s2, None) <= Spent(c, s, None) && |s2.attempts| > |s.attempts|
    ensures var r := Apply(c, s2, Settle(0));
            && Idle(r) && r.accepted == s2.accepted
            && 0 <= Potential(c, r, None) < Potential(c, s, None)
            && (Balanced(s2, focus) ==> Balanced(r, focus))
  {
    var r := Apply(c, s2, Settle(0));
    StepSpends(c, s2, Settle(0), None);
    CountAll(s.attempts);
    CountAll(s2.attempts);
    PotentialNonNegative(c, r, None);
    if Balanced(s2, focus) {
      StepBalances(c, s2, Settle(0), focus);
    }
  }

  /** Batch after batch until the queue is empty. */
  ghost function Drain(c: Config, s: State, outcomes: nat -> bool): (r: State)
    requires Idle(s) && c.maxBatchSize > 0
    ensures r.queue == [] && r.flights == []
    decreases Potential(c, s, None)
  {
    if s.queue == [] then s
    else
      RoundLightens(c, s, outcomes, None);
      Drain(c, Round(c, s, outcomes), outcomes)
  }

  lemma {:induction false} DrainKeeps(c: Config, s: State, outcomes: nat -> bool, focus: Option<Id>)
    requires Idle(s) && c.maxBatchSize > 0 && Balanced(s, focus)
    ensures Balanced(Drain(c, s, outcomes), focus) && Drain(c, s, outcomes).accepted == s.accepted
    decreases Potential(c, s, None)
  {
    if s.queue != [] {
      RoundLightens(c, s, outcomes, focus);
      DrainKeeps(c, Round(c, s, outcomes), outcomes, focus);
    }
  }

  /** THE QUEUE DRAINS. Under any pattern of successful and failing sends, an
      idle queue that gets no new message is empty after finitely many batches,
      and then each message has been completed or reported failed as often as it
      was enqueued. */
  lemma QueueDrains(c: Config, s: State, outcomes: nat -> bool, id: Id)
    requires Idle(s) && c.maxBatchSize > 0 && Balanced(s, Some(id))
    ensures var r := Drain(c, s, outcomes);
            && r.queue == [] && r.flights == []
            && Count(Some(id), s.accepted) == Count(Some(id), r.completed) + Count(Some(id), r.failed)
  {
    DrainKeeps(c, s, outcomes, Some(id));
  }

  /** Each message may be sent maxRetries + 2 times per enqueue call. */
  ghost predicate WithinBudget(c: Config, s: State, id: Id) {
    && Sorted(s.queue) && (forall x :: Retries(s.retry, x) >= 0)
    && Spent(c, s, Some(id)) <= Count(Some(id), s.accepted) * (c.maxRetries + 2)
  }

  lemma RequeueNonNegative(c: Config, s: State, i: nat)
    requires Sending(s, i) && Sorted(s.queue) && forall x :: Retries(s.retry, x) >= 0
    ensures forall x :: Retries(SendError(c, s, i).retry, x) >= 0
  {
    RequeueLightens(c, s.flights[i].batch, Requeued(s.queue, s.retry, []), None);
    assert forall x :: Retries(s.retry, x) <= Retries(SendError(c, s, i).retry, x);
  }

  lemma StepRetryNonNegative(c: Config, s: State, step: Step)
    requires Sorted(s.queue) && forall x :: Retries(s.retry, x) >= 0
    ensures forall x :: Retries(Apply(c, s, step).retry, x) >= 0
  {
    if step.SendFail? && Sending(s, step.flight) {
      RequeueNonNegative(c, s, step.flight);
    }
  }

  lemma StepWithinBudget(c: Config, s: State, step: Step, id: Id)
    requires c.maxRetries >= 0 && WithinBudget(c, s, id)
    ensures WithinBudget(c, Apply(c, s, step), id)
  {
    StepSpends(c, s, step, Some(id));
    StepSorted(c, s, step);
    StepRetryNonNegative(c, s, step);
    if step.Enqueue? {
      CountConcat(Some(id), s.accepted, [step.id]);
      assert [step.id][1..] == [];
      assert Retries(s.retry, step.id) >= 0;
      Distribute(Count(Some(id), s.accepted), c.maxRetries + 2);
    } else {
      SameAccepted(c, s, step);
    }
  }

  lemma SameAccepted(c: Config, s: State, step: Step)
    requires !step.Enqueue?
    ensures Apply(c, s, step).accepted == s.accepted
  {
  }

  lemma Distribute(n: int, k: int)
    ensures (n + 1) * k == n * k + k
  {
  }

  lemma {:induction false} RunWithinBudget(c: Config, s: State, steps: seq<Step>, id: Id)
    requires c.maxRetries >= 0 && WithinBudget(c, s, id)
    ensures WithinBudget(c, Run(c, s, steps), id)
    decreases |steps|
  {
    if steps != [] {
      StepWithinBudget(c, s, steps[0], id);
      RunWithinBudget(c, Apply(c, s, steps[0]), steps[1..], id);
    }
  }

  /** On every run, no message is sent more than maxRetries + 2 times for each
      time it was enqueued. */
  lemma SendsPerMessage(c: Config, retry: map<Id, int>, steps: seq<Step>, id: Id)
    requires c.maxRetries >= 0 && forall x :: Retries(retry, x) >= 0
    ensures var s := Run(c, Init(retry), steps);
            Count(Some(id), s.attempts) <= Count(Some(id), s.accepted) * (c.maxRetries + 2)
  {
    RunWithinBudget(c, Init(retry), steps, id);
    PotentialNonNegative(c, Run(c, Init(retry), steps), Some(id));
  }

  // --------------------------------------------- retry cap and the metrics

  /** No retry count exceeds the cap, and the two counters account for every
      send and every reported failure. */
  ghost predicate Metered(c: Config, cap: int, s: State) {
    && (forall id :: Retries(s.retry, id) <= cap)
    && s.processedCount + s.errorCount == |s.attempts| + |s.failed|
  }

  /** A step in which a send succeeds, or fails. */
  predicate Answers(s: State, step: Step, ok: bool) {
    match step
    case SendOk(i) => ok && Sending(s, i)
    case SendFail(i) => !ok && Sending(s, i)
    case _ => false
  }

  /** How many sends of a run succeed, or fail. */
  function Answered(c: Config, s: State, steps: seq<Step>, ok: bool): nat
    decreases |steps|
  {
    if steps == [] then 0
    else (if Answers(s, steps[0], ok) then 1 else 0) + Answered(c, Apply(c, s, steps[0]), steps[1..], ok)
  }

  lemma CounterStep(c: Config, s: State, step: Step)
    ensures var r := Apply(c, s, step);
            && r.processedCount == s.processedCount + (if Answers(s, step, true) then 1 else 0)
            && r.errorCount + |s.failed| == s.errorCount + (if Answers(s, step, false) then 1 else 0) + |r.failed|
  {
  }

  /** METRICS. The first counter counts the sends that succeed, the second those that
      fail and the messages reported failed. */
  lemma {:induction false} CountersTell(c: Config, s: State, steps: seq<Step>)
    ensures var r := Run(c, s, steps);
            && r.processedCount == s.processedCount + Answered(c, s, steps, true)
            && r.errorCount + |s.failed| == s.errorCount + Answered(c, s, steps, false) + |r.failed|
    decreases |steps|
  {
    if steps != [] {
      CounterStep(c, s, steps[0]);
      CountersTell(c, Apply(c, s, steps[0]), steps[1..]);
    }
  }

  lemma {:induction false} RequeueCapped(c: Config, cap: int, batch: seq<Id>, r: Requeued)
    requires c.maxRetries + 1 <= cap && forall id :: Retries(r.retry, id) <= cap
    ensures forall id :: Retries(Requeue(c, batch, r).retry, id) <= cap
    decreases |batch|
  {
    if batch != [] {
      var r1 := RequeueOne(c, batch[0], r);
      forall id ensures Retries(r1.retry, id) <= cap {
        assert Retries(r.retry, id) <= cap;
      }
      RequeueCapped(c, cap, batch[1..], r1);
    }
  }

  lemma {:induction false} RunMetered(c: Config, cap: int, s: State, steps: seq<Step>)
    requires c.maxRetries + 1 <= cap && Metered(c, cap, s)
    ensures Metered(c, cap, Run(c, s, steps))
    decreases |steps|
  {
    if steps != [] {
      if steps[0].SendFail? && Sending(s, steps[0].flight) {
        RequeueCapped(c, cap, s.flights[steps[0].flight].batch, Requeued(s.queue, s.retry, []));
      }
      RunMetered(c, cap, Apply(c, s, steps[0]), steps[1..]);
    }
  }
}
