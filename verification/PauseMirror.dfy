/**
 Pausing and resuming through a pipe: a producer, the consumer that pipes it out of its
 router, and the producer that mirrors it in the other router, with the request,
 response and notification queues between them, from the moment the pipe is asked for.
 */
module PauseMirror {
  import opened Wrappers

  /** An observer event, and the request that mirrors it. */
  datatype Edge = Pause | Resume

  function ToEdge(paused: bool): Edge { if paused then Pause else Resume }

  /** The state after the last of some edges. */
  function After(initial: bool, edges: seq<Edge>): bool {
    if edges == [] then initial else edges[|edges| - 1] == Pause
  }

  /** Each edge is one: it changes the state left by the ones before it. */
  ghost predicate Alternates(initial: bool, edges: seq<Edge>) {
    forall i :: 0 <= i < |edges| ==> (edges[i] == Pause) == !After(initial, edges[..i])
  }

  lemma AlternatesOneMore(initial: bool, edges: seq<Edge>, edge: Edge)
    requires Alternates(initial, edges) && (edge == Pause) == !After(initial, edges)
    ensures Alternates(initial, edges + [edge])
  {
    var all := edges + [edge];
    forall i | 0 <= i < |all|
      ensures (all[i] == Pause) == !After(initial, all[..i])
    {
      if i < |edges| {
        assert all[..i] == edges[..i];
      } else {
        assert all[..i] == edges;
      }
    }
  }

  // ----- The consumer

  datatype ConsumerState = ConsumerState(paused: bool, producerPaused: bool)

  datatype Input = PauseAccepted | ResumeAccepted | ProducerPause | ProducerResume

  /** Nothing flows. */
  predicate Effective(c: ConsumerState) {
    c.paused || c.producerPaused
  }

  /** The state that the consumer handlers set. */
  function Next(c: ConsumerState, i: Input): ConsumerState {
    match i
    case PauseAccepted => c.(paused := true)
    case ResumeAccepted => c.(paused := false)
    case ProducerPause => c.(producerPaused := true)
    case ProducerResume => c.(producerPaused := false)
  }

  /** What the observer is told: the edges of the effective state and nothing else. */
  function Told(c: ConsumerState, i: Input): seq<Edge> {
    if Effective(c) == Effective(Next(c, i)) then [] else [ToEdge(Effective(Next(c, i)))]
  }

  class Consumer {
    var paused: bool
    var producerPaused: bool
    /** Observer events so far. */
    var emitted: seq<Edge>

    function Model(): ConsumerState
      reads this
    {
      ConsumerState(paused, producerPaused)
    }

    constructor (paused: bool, producerPaused: bool)
      ensures Model() == ConsumerState(paused, producerPaused) && emitted == []
    {
      this.paused, this.producerPaused, emitted := paused, producerPaused, [];
    }

    /** `pause()`, once its request has been accepted. */
    method OnPauseAccepted()
      modifies this
      ensures paused && producerPaused == old(producerPaused)
      ensures emitted == old(emitted) + (if !old(paused) && !old(producerPaused) then [Pause] else [])
      ensures Model() == Next(old(Model()), PauseAccepted)
      ensures emitted == old(emitted) + Told(old(Model()), PauseAccepted)
    {
      var wasPaused := paused;
      paused := true;
      if !wasPaused && !producerPaused {
        emitted := emitted + [Pause];
      }
    }

    method OnResumeAccepted()
      modifies this
      ensures !paused && producerPaused == old(producerPaused)
      ensures emitted == old(emitted) + (if old(paused) && !old(producerPaused) then [Resume] else [])
      ensures Model() == Next(old(Model()), ResumeAccepted)
      ensures emitted == old(emitted) + Told(old(Model()), ResumeAccepted)
    {
      var wasPaused := paused;
      paused := false;
      if wasPaused && !producerPaused {
        emitted := emitted + [Resume];
      }
    }

    method OnProducerPause()
      modifies this
      ensures producerPaused && paused == old(paused)
      ensures emitted == old(emitted) + (if !old(paused) && !old(producerPaused) then [Pause] else [])
      ensures Model() == Next(old(Model()), ProducerPause)
      ensures emitted == old(emitted) + Told(old(Model()), ProducerPause)
    {
      if producerPaused { return; }
      producerPaused := true;
      if !paused {
        emitted := emitted + [Pause];
      }
    }

    method OnProducerResume()
      modifies this
      ensures !producerPaused && paused == old(paused)
      ensures emitted == old(emitted) + (if !old(paused) && old(producerPaused) then [Resume] else [])
      ensures Model() == Next(old(Model()), ProducerResume)
      ensures emitted == old(emitted) + Told(old(Model()), ProducerResume)
    {
      if !producerPaused { return; }
      producerPaused := false;
      if !paused {
        emitted := emitted + [Resume];
      }
    }
  }

  // ----- The pipe producer

  class Producer {
    var paused: bool
    var emitted: seq<Edge>

    constructor (paused: bool)
      ensures this.paused == paused && emitted == []
    {
      this.paused, emitted := paused, [];
    }

    /** `pause()` or `resume()`, once its request has been accepted. */
    method OnAccepted(request: Edge)
      modifies this
      ensures paused == (request == Pause)
      ensures emitted == old(emitted) + (if old(paused) == (request == Pause) then [] else [request])
      ensures emitted == old(emitted) + Flipped(old(paused), request)
    {
      var wasPaused := paused;
      paused := request == Pause;
      if request == Pause {
        if !wasPaused { emitted := emitted + [Pause]; }
      } else {
        if wasPaused { emitted := emitted + [Resume]; }
      }
    }
  }

  function Flipped(paused: bool, request: Edge): seq<Edge> {
    if paused == (request == Pause) then [] else [request]
  }

  // ----- The whole pipe

  /**
   How far `pipeToRouter` has come: the worker has not yet made the pipe consumer; the
   response with it is on its way; the pipe producer has been asked for, paused or not;
   a request that brings it in line with the producer is awaited; the listeners are
   installed.
   */
  datatype Phase = Waiting | Consuming | Producing(paused: bool) | Syncing(request: Edge) | Mirroring

  /**
   The original producer in Node (`producer`) and in the worker (`worker`), its requests on
   the way to the worker, responses and notifications on the way back; the pipe consumer
   and what its observer told the listeners; the requests of the pipe producer on their
   way, its state, and what its own observer was told. `compared` is what the original
   producer was in Node when the pipe producer was compared with it.
   */
  datatype State = State(
    phase: Phase,
    producer: bool,
    worker: bool,
    requests: seq<Edge>,
    responses: seq<Edge>,
    notifications: seq<Edge>,
    consumer: ConsumerState,
    told: seq<Edge>,
    mirrored: seq<Edge>,
    pipe: bool,
    pipeTold: seq<Edge>,
    compared: bool)

  datatype Event =
    | Call(request: Edge)
    | WorkerTakes
    | ResponseArrives
    | NotificationArrives
    | ConsumerCall(request: Edge)
    | MirrorAccepted
    | WorkerConsumes
    | ConsumeResponds
    | ProduceResponds
    | SyncResponds

  /** The pipe consumer exists in Node. */
  predicate HasConsumer(p: Phase) {
    !p.Waiting? && !p.Consuming?
  }

  /**
   The consumer takes an input; its observer's listeners, if installed, send what they are told
   to the pipe producer.
   */
  function Take(s: State, i: Input): State {
    var told := if s.phase.Mirroring? then Told(s.consumer, i) else [];
    s.(consumer := Next(s.consumer, i), told := s.told + told, mirrored := s.mirrored + told)
  }

  function Step(s: State, e: Event): State {
    match e
    case Call(request) => s.(requests := s.requests + [request])
    case WorkerTakes =>
      if s.requests == [] then s
      else
        var request := s.requests[0];
        s.(requests := s.requests[1..], responses := s.responses + [request], worker := request == Pause,
        notifications := s.notifications + Flipped(s.worker, request))
    case ResponseArrives =>
      if s.responses == [] then s
      else s.(responses := s.responses[1..], producer := s.responses[0] == Pause)
    case NotificationArrives =>
      if s.notifications == [] || !HasConsumer(s.phase) then s
      else
        Take(s.(notifications := s.notifications[1..]),
             if s.notifications[0] == Pause then ProducerPause else ProducerResume)
    case ConsumerCall(request) =>
      if !HasConsumer(s.phase) then s
      else Take(s, if request == Pause then PauseAccepted else ResumeAccepted)
    case MirrorAccepted =>
      if s.mirrored == [] then s
      else
        s.(mirrored := s.mirrored[1..], pipe := s.mirrored[0] == Pause,
        pipeTold := s.pipeTold + Flipped(s.pipe, s.mirrored[0]))
    case _ => Attach(s, e)
  }

  /** The steps of `pipeToRouter`. */
  function Attach(s: State, e: Event): State {
    match (s.phase, e)
    case (Waiting, WorkerConsumes) =>
      s.(phase := Consuming, consumer := ConsumerState(false, s.worker), notifications := [])
    case (Consuming, ConsumeResponds) => s.(phase := Producing(s.consumer.producerPaused))
    case (Producing(paused), ProduceResponds) =>
      var made := s.(pipe := paused, compared := s.producer);
      made.(phase := if paused == s.producer then Mirroring else Syncing(ToEdge(s.producer)))
    case (Syncing(request), SyncResponds) => s.(phase := Mirroring, pipe := request == Pause)
    case _ => s
  }

  /** Nothing is on its way. */
  predicate Drained(s: State) {
    s.requests == [] && s.responses == [] && s.notifications == [] && s.mirrored == []
  }

  /** What is on its way from the worker leads producer and consumer to the worker's state. */
  ghost predicate Tracks(s: State) {
    && After(s.producer, s.responses) == s.worker
    && (!s.phase.Waiting? ==> After(s.consumer.producerPaused, s.notifications) == s.worker)
  }

  /** What is on its way to the pipe producer leads it to the consumer's effective state. */
  ghost predicate InSync(s: State) {
    After(s.pipe, s.mirrored) == Effective(s.consumer)
  }

  /** The moment the listeners are installed. */
  ghost predicate Attached(s: State) {
    s.phase.Mirroring? && Tracks(s) && s.told == [] && s.mirrored == [] && s.pipeTold == []
  }

  lemma AfterRest(initial: bool, edges: seq<Edge>)
    requires edges != []
    ensures After(edges[0] == Pause, edges[1..]) == After(initial, edges)
  {
  }

  lemma StepTracks(s: State, e: Event)
    requires Tracks(s)
    ensures Tracks(Step(s, e))
  {
    match e
    case ResponseArrives =>
      hide Attach, Take;
      if s.responses != [] { AfterRest(s.producer, s.responses); }
    case NotificationArrives =>
      hide Attach, Flipped, Told;
      if s.notifications != [] { AfterRest(s.consumer.producerPaused, s.notifications); }
    case WorkerTakes =>
      hide Attach, Take;
    case Call(_) =>
      hide Attach, Take, Flipped;
    case ConsumerCall(_) =>
      hide Attach, Flipped, Told;
    case MirrorAccepted =>
      hide Attach, Take, Flipped;
    case _ =>
      hide Take, Flipped;
      AttachTracks(s, e);
  }

  lemma AttachTracks(s: State, e: Event)
    requires Tracks(s)
    ensures Tracks(Attach(s, e))
  {
  }

  /** Each notification on its way changes what the consumer knows when it arrives. */
  ghost predicate NotifiesEdges(s: State) {
    !s.phase.Waiting? ==> Alternates(s.consumer.producerPaused, s.notifications)
  }

  lemma AlternatesRest(initial: bool, edges: seq<Edge>)
    requires edges != [] && Alternates(initial, edges)
    ensures (edges[0] == Pause) == !initial && Alternates(edges[0] == Pause, edges[1..])
  {
    assert edges[..0] == [];
    forall i | 0 <= i < |edges| - 1
      ensures (edges[1..][i] == Pause) == !After(edges[0] == Pause, edges[1..][..i])
    {
      assert edges[1..][i] == edges[i + 1] && edges[1..][..i] == edges[..i + 1][1..];
      AfterRest(initial, edges[..i + 1]);
    }
  }

  lemma StepNotifiesEdges(s: State, e: Event)
    requires Tracks(s) && NotifiesEdges(s)
    ensures NotifiesEdges(Step(s, e))
  {
    match e
    case WorkerTakes =>
      hide Attach, Take, Alternates, NotifiesEdges, Tracks, Flipped;
      if s.requests != [] {
        TakingNotifies(s);
      }
    case NotificationArrives =>
      hide Attach, Told, Alternates;
      if s.notifications != [] && !s.phase.Waiting? {
        AlternatesRest(s.consumer.producerPaused, s.notifications);
      }
    case ConsumerCall(_) =>
      hide Attach, Told, Alternates;
    case Call(_) =>
      hide Attach, Take, Alternates, Flipped;
    case ResponseArrives =>
      hide Attach, Take, Alternates, Flipped;
    case MirrorAccepted =>
      hide Attach, Take, Alternates, Flipped;
    case _ =>
      hide Take, Flipped, Alternates;
      NothingAlternates(s.worker);
  }

  lemma NothingAlternates(initial: bool)
    ensures Alternates(initial, [])
  {
  }

  lemma TakingNotifies(s: State)
    requires Tracks(s) && NotifiesEdges(s) && s.requests != []
    ensures NotifiesEdges(Step(s, WorkerTakes))
  {
    hide Attach, Take, Alternates;
    if !s.phase.Waiting? {
      var told := Flipped(s.worker, s.requests[0]);
      if told == [] {
        assert s.notifications + told == s.notifications;
      } else {
        AlternatesOneMore(s.consumer.producerPaused, s.notifications, s.requests[0]);
      }
    }
  }

  /**
   The worker notifies the pipe consumer of changes only: every notification that arrives
   flips what the consumer knows, so its handlers never ignore one.
   */
  lemma {:induction false} NotificationsAreEdges(s: State, events: seq<Event>)
    requires Tracks(s) && NotifiesEdges(s)
    ensures NotifiesEdges(Run(s, events))
    decreases |events|
  {
    hide Step, NotifiesEdges;
    if events != [] {
      StepTracks(s, events[0]);
      StepNotifiesEdges(s, events[0]);
      NotificationsAreEdges(Step(s, events[0]), events[1..]);
    }
  }

  function Run(s: State, events: seq<Event>): State
    decreases |events|
  {
    if events == [] then s else Run(Step(s, events[0]), events[1..])
  }

  lemma {:induction false} RunInTwo(s: State, a: seq<Event>, b: seq<Event>)
    ensures Run(s, a + b) == Run(Run(s, a), b)
    decreases |a|
  {
    hide Step;
    if a == [] {
      assert a + b == b;
    } else {
      assert (a + b)[0] == a[0] && (a + b)[1..] == a[1..] + b;
      RunInTwo(Step(s, a[0]), a[1..], b);
    }
  }

  /**
   What the consumer's observer has been told since the listeners were installed is exactly the
   edges of its effective state.
   */
  ghost predicate ToldEdges(start: State, s: State) {
    && s.phase.Mirroring?
    && Alternates(Effective(start.consumer), s.told)
    && After(Effective(start.consumer), s.told) == Effective(s.consumer)
  }

  lemma TakeTellsEdges(start: State, s: State, i: Input)
    requires ToldEdges(start, s)
    ensures ToldEdges(start, Take(s, i))
  {
    var t := Told(s.consumer, i);
    if t != [] {
      AlternatesOneMore(Effective(start.consumer), s.told, t[0]);
    } else {
      assert s.told + t == s.told;
    }
  }

  lemma StepTellsEdges(start: State, s: State, e: Event)
    requires ToldEdges(start, s)
    ensures ToldEdges(start, Step(s, e))
  {
    match e
    case NotificationArrives =>
      if s.notifications != [] {
        TakeTellsEdges(start, s.(notifications := s.notifications[1..]),
                       if s.notifications[0] == Pause then ProducerPause else ProducerResume);
      }
    case ConsumerCall(request) =>
      TakeTellsEdges(start, s, if request == Pause then PauseAccepted else ResumeAccepted);
    case _ =>
  }

  /** In every run the consumer observer's events are the edges of the effective state, so they alternate. */
  lemma {:induction false} ObserverTellsEdges(start: State, s: State, events: seq<Event>)
    requires ToldEdges(start, s)
    ensures ToldEdges(start, Run(s, events))
    decreases |events|
  {
    if events != [] {
      StepTellsEdges(start, s, events[0]);
      ObserverTellsEdges(start, Step(s, events[0]), events[1..]);
    }
  }

  /** In sync, or else nothing has been told yet and the pipe producer is where it started. */
  ghost predicate SyncedOnceTold(start: State, s: State) {
    && s.phase.Mirroring?
    && (s.told == [] ==> s.mirrored == [] && s.pipe == start.pipe && Effective(s.consumer) == Effective(start.consumer))
    && (s.told != [] ==> InSync(s))
  }

  lemma TakeSyncs(start: State, s: State, i: Input)
    requires SyncedOnceTold(start, s)
    ensures SyncedOnceTold(start, Take(s, i))
  {
    var t := Told(s.consumer, i);
    if t == [] {
      assert s.told + t == s.told && s.mirrored + t == s.mirrored;
    }
  }

  lemma StepSyncs(start: State, s: State, e: Event)
    requires SyncedOnceTold(start, s)
    ensures SyncedOnceTold(start, Step(s, e))
  {
    match e
    case NotificationArrives =>
      hide Next, Told;
      if s.notifications != [] {
        TakeSyncs(start, s.(notifications := s.notifications[1..]),
                  if s.notifications[0] == Pause then ProducerPause else ProducerResume);
      }
    case ConsumerCall(request) =>
      TakeSyncs(start, s, if request == Pause then PauseAccepted else ResumeAccepted);
    case MirrorAccepted =>
      if s.mirrored != [] {
        AfterRest(s.pipe, s.mirrored);
      }
    case _ =>
  }

  lemma {:induction false} RunSyncs(start: State, s: State, events: seq<Event>)
    requires Tracks(s) && SyncedOnceTold(start, s)
    ensures Tracks(Run(s, events)) && SyncedOnceTold(start, Run(s, events))
    decreases |events|
  {
    hide Tracks, SyncedOnceTold, Step;
    if events != [] {
      StepTracks(s, events[0]);
      StepSyncs(start, s, events[0]);
      RunSyncs(start, Step(s, events[0]), events[1..]);
    }
  }

  /**
   When everything on its way has arrived, the original producer, the worker and the
   consumer agree on whether the producer is paused. The pipe producer is then in the
   consumer's effective state iff it was when the listeners were installed, or that
   state has changed since.
   */
  lemma EventuallyMirrors(start: State, events: seq<Event>)
    requires Attached(start) && Drained(Run(start, events))
    ensures var s := Run(start, events);
            && s.producer == s.worker == s.consumer.producerPaused
            && (s.pipe == (s.consumer.paused || s.producer) <==>
              start.pipe == Effective(start.consumer) || s.told != [])
  {
    assert SyncedOnceTold(start, start);
    RunSyncs(start, start, events);
  }

  // ----- The last calls decide

  /** The calls of the original producer among some events, in order. */
  function Calls(events: seq<Event>): seq<Edge> {
    if events == [] then []
    else if events[0].Call? then [events[0].request] + Calls(events[1..])
    else Calls(events[1..])
  }

  /** The calls of the consumer among them. */
  function ConsumerCalls(events: seq<Event>): seq<Edge> {
    if events == [] then []
    else if events[0].ConsumerCall? then [events[0].request] + ConsumerCalls(events[1..])
    else ConsumerCalls(events[1..])
  }

  lemma AfterMore(initial: bool, a: seq<Edge>, b: seq<Edge>)
    ensures After(initial, a + b) == After(After(initial, a), b)
  {
  }

  lemma StepObeysConsumer(s: State, e: Event)
    requires HasConsumer(s.phase)
    ensures HasConsumer(Step(s, e).phase)
    ensures Step(s, e).consumer.paused == if e.ConsumerCall? then e.request == Pause else s.consumer.paused
  {
    match e
    case NotificationArrives => hide Told, Flipped, Attach;
    case ConsumerCall(_) => hide Told, Flipped, Attach;
    case WorkerTakes => hide Take, Flipped, Attach;
    case MirrorAccepted => hide Take, Flipped, Attach;
    case _ => hide Take, Flipped;
  }

  lemma StepObeysProducer(s: State, e: Event)
    ensures var t := Step(s, e);
            After(t.worker, t.requests) == if e.Call? then e.request == Pause else After(s.worker, s.requests)
  {
    hide Told, Next, Flipped;
    if e.WorkerTakes? && s.requests != [] {
      AfterRest(s.worker, s.requests);
    }
  }

  /** The consumer is paused or not as its last call says, whatever else happens. */
  lemma {:induction false} ConsumerObeysLastCall(s: State, events: seq<Event>)
    requires HasConsumer(s.phase)
    ensures HasConsumer(Run(s, events).phase)
    ensures Run(s, events).consumer.paused == After(s.consumer.paused, ConsumerCalls(events))
    decreases |events|
  {
    hide Step, HasConsumer;
    if events != [] {
      var e := events[0];
      StepObeysConsumer(s, e);
      ConsumerObeysLastCall(Step(s, e), events[1..]);
      if e.ConsumerCall? { AfterMore(s.consumer.paused, [e.request], ConsumerCalls(events[1..])); }
    }
  }

  /** What the worker is heading for is what the last call of the producer says. */
  lemma {:induction false} WorkerObeysLastCall(s: State, events: seq<Event>)
    ensures var t := Run(s, events);
            After(t.worker, t.requests) == After(After(s.worker, s.requests), Calls(events))
    decreases |events|
  {
    hide Step;
    if events != [] {
      var e := events[0];
      StepObeysProducer(s, e);
      WorkerObeysLastCall(Step(s, e), events[1..]);
      if e.Call? { AfterMore(After(s.worker, s.requests), [e.request], Calls(events[1..])); }
    }
  }

  /** What is still to be answered by the worker, or answered but not yet in Node, oldest first. */
  function Unanswered(s: State): seq<Edge> {
    s.responses + s.requests
  }

  lemma HeadMoves(a: seq<Edge>, b: seq<Edge>)
    requires b != []
    ensures (a + [b[0]]) + b[1..] == a + b
  {
  }

  lemma StepAnswers(s: State, e: Event)
    ensures var t := Step(s, e);
            if e.Call? then Unanswered(t) == Unanswered(s) + [e.request] && t.producer == s.producer
            else if e.ResponseArrives? && s.responses != [] then
              && Unanswered(s) != [] && Unanswered(t) == Unanswered(s)[1..]
              && t.producer == (Unanswered(s)[0] == Pause)
            else Unanswered(t) == Unanswered(s) && t.producer == s.producer
  {
    match e
    case WorkerTakes =>
      hide Take, Attach, Flipped;
      if s.requests != [] { HeadMoves(s.responses, s.requests); }
    case ResponseArrives => hide Take, Attach, Flipped;
    case NotificationArrives => hide Told, Next, Attach, Flipped;
    case ConsumerCall(_) => hide Told, Next, Attach, Flipped;
    case _ => hide Take, Flipped;
  }

  /**
   Calls of the original producer are answered in order and none is lost: at any time, the first
   `n` of those made or on their way have been answered, the others are still to be, and the
   producer is in Node what the last answered one says.
   */
  lemma {:induction false} AnsweredInOrder(s: State, events: seq<Event>) returns (n: nat)
    ensures var t := Run(s, events);
            var all := Unanswered(s) + Calls(events);
            n <= |all| && Unanswered(t) == all[n..] && t.producer == After(s.producer, all[..n])
    decreases |events|
  {
    hide Step, Unanswered, After;
    n := 0;
    if events == [] {
      assert Unanswered(s) + [] == Unanswered(s);
      NothingAfter(s.producer);
    } else {
      var e := events[0];
      var next := Step(s, e);
      var now, later := Unanswered(s), Calls(events[1..]);
      StepAnswers(s, e);
      n := AnsweredInOrder(next, events[1..]);
      if e.Call? {
        assert (now + [e.request]) + later == now + ([e.request] + later);
      } else if e.ResponseArrives? && s.responses != [] {
        assert now[1..] + later == (now + later)[1..];
        OneAnswered(s.producer, now + later, n);
        n := n + 1;
      }
    }
  }

  lemma NothingAfter(initial: bool)
    ensures After(initial, []) == initial
  {
  }

  lemma OneAnswered(initial: bool, all: seq<Edge>, n: nat)
    requires n < |all|
    ensures all[1..][n..] == all[n + 1..]
    ensures After(initial, all[..n + 1]) == After(all[0] == Pause, all[1..][..n])
  {
    assert all[..n + 1][1..] == all[1..][..n];
    AfterRest(initial, all[..n + 1]);
  }

  /**
   From the moment the listeners are installed, and once everything has arrived: producer, worker
   and consumer are what the last call of the original producer says, the consumer's own flag
   is what its last call says, and the pipe producer is paused iff one of the two was a pause,
   provided that it was in sync at first or has been told something since.
   */
  lemma LastCallsDecide(start: State, events: seq<Event>)
    requires Attached(start) && Drained(Run(start, events))
    ensures var s := Run(start, events);
            var byProducer := After(After(start.worker, start.requests), Calls(events));
            var byConsumer := After(start.consumer.paused, ConsumerCalls(events));
            && s.producer == s.worker == s.consumer.producerPaused == byProducer
            && s.consumer.paused == byConsumer
            && (s.pipe == (byConsumer || byProducer) <==> start.pipe == Effective(start.consumer) || s.told != [])
  {
    hide Run, Attached, Calls, ConsumerCalls, Effective;
    EventuallyMirrors(start, events);
    WorkerObeysLastCall(start, events);
    assert HasConsumer(start.phase) by { AttachedMirrors(start); }
    ConsumerObeysLastCall(start, events);
  }

  /** How many deliveries are still to come; a request causes at most a response, a notification and a mirrored one. */
  function Outstanding(s: State): nat {
    4 * |s.requests| + |s.responses| + 2 * |s.notifications| + |s.mirrored|
  }

  /** What is at the head of some queue, if any is not empty, and has arrived then. */
  function NextDelivery(s: State): Event {
    if s.requests != [] then WorkerTakes
    else if s.responses != [] then ResponseArrives
    else if s.notifications != [] then NotificationArrives
    else MirrorAccepted
  }

  lemma DeliveryProgresses(s: State)
    requires HasConsumer(s.phase) && !Drained(s)
    ensures Outstanding(Step(s, NextDelivery(s))) < Outstanding(s)
  {
    hide Next, Attach;
  }

  /** Whatever is on its way arrives in the end, without anybody calling anything. */
  lemma {:induction false} EverythingArrives(s: State) returns (events: seq<Event>)
    requires HasConsumer(s.phase)
    ensures Drained(Run(s, events)) && Calls(events) == [] && ConsumerCalls(events) == []
    decreases Outstanding(s)
  {
    hide Step, Outstanding, Drained, HasConsumer;
    if Drained(s) {
      events := [];
    } else {
      var e := NextDelivery(s);
      DeliveryProgresses(s);
      StepObeysConsumer(s, e);
      events := EverythingArrives(Step(s, e));
      events := [e] + events;
    }
  }

  lemma {:induction false} NoMoreCalls(a: seq<Event>, b: seq<Event>)
    requires Calls(b) == []
    ensures Calls(a + b) == Calls(a)
  {
    if a == [] {
      assert a + b == b;
    } else {
      assert (a + b)[0] == a[0] && (a + b)[1..] == a[1..] + b;
      NoMoreCalls(a[1..], b);
    }
  }

  lemma {:induction false} NoMoreConsumerCalls(a: seq<Event>, b: seq<Event>)
    requires ConsumerCalls(b) == []
    ensures ConsumerCalls(a + b) == ConsumerCalls(a)
  {
    if a == [] {
      assert a + b == b;
    } else {
      assert (a + b)[0] == a[0] && (a + b)[1..] == a[1..] + b;
      NoMoreConsumerCalls(a[1..], b);
    }
  }

  /**
   Attached in sync, any run can be completed by deliveries alone, and then the pipe producer
   is paused iff the last call of the consumer or the last call of the producer was a pause.
   */
  lemma PipeSettles(start: State, events: seq<Event>) returns (deliveries: seq<Event>)
    requires Attached(start) && start.pipe == Effective(start.consumer)
    ensures Calls(deliveries) == [] && ConsumerCalls(deliveries) == []
    ensures var s := Run(start, events + deliveries);
            && Drained(s)
            && s.pipe == (|| After(start.consumer.paused, ConsumerCalls(events))
                          || After(After(start.worker, start.requests), Calls(events)))
  {
    hide Run, Attached, Calls, ConsumerCalls, Effective, Drained, After;
    assert HasConsumer(start.phase) by { AttachedMirrors(start); }
    ConsumerObeysLastCall(start, events);
    deliveries := EverythingArrives(Run(start, events));
    RunInTwo(start, events, deliveries);
    NoMoreCalls(events, deliveries);
    NoMoreConsumerCalls(events, deliveries);
    LastCallsDecide(start, events + deliveries);
  }

  lemma AttachedMirrors(s: State)
    requires Attached(s)
    ensures s.phase.Mirroring?
  {
  }

  // ----- From the moment the pipe is asked for

  /**
   Until the listeners are installed nothing is mirrored, and the awaited request is the one
   that was compared for.
   */
  ghost predicate Preparing(s: State) {
    && !s.phase.Mirroring? && Tracks(s)
    && s.told == [] && s.mirrored == [] && s.pipeTold == []
    && (s.phase.Syncing? ==> (s.phase.request == Pause) == s.compared)
  }

  lemma StepPrepares(s: State, e: Event)
    requires Preparing(s)
    ensures var t := Step(s, e);
            Preparing(t) || (Attached(t) && t.pipe == t.compared)
  {
    StepTracks(s, e);
  }

  /**
   When the listeners are installed, the pipe producer is what the original producer was in
   Node when they were compared.
   */
  lemma {:induction false} AttachPoint(s: State, events: seq<Event>) returns (n: nat)
    requires Preparing(s) && Run(s, events).phase.Mirroring?
    ensures n <= |events|
    ensures var a := Run(s, events[..n]);
            Attached(a) && a.pipe == a.compared && Run(s, events) == Run(a, events[n..])
    decreases |events|
  {
    hide Step, Preparing, Attached;
    assert events != [] by { NotYet(s); }
    var next := Step(s, events[0]);
    StepPrepares(s, events[0]);
    if Preparing(next) {
      n := AttachPoint(next, events[1..]);
      n := n + 1;
      assert events[..n][0] == events[0] && events[..n][1..] == events[1..][..n - 1];
      assert events[n..] == events[1..][n - 1..];
    } else {
      n := 1;
      assert events[..1][0] == events[0] && events[..1][1..] == [];
    }
  }

  lemma NotYet(s: State)
    requires Preparing(s)
    ensures !s.phase.Mirroring?
  {
  }

  /**
   From the moment the pipe is asked for: when everything has arrived, original producer,
   worker and consumer agree. The pipe producer is in the consumer's effective state iff what
   the original producer was in Node when the two were compared is the consumer's effective
   state when the listeners are installed, or that state has changed since.
   */
  lemma PipeEndsRight(start: State, events: seq<Event>) returns (n: nat)
    requires Preparing(start)
    requires Run(start, events).phase.Mirroring? && Drained(Run(start, events))
    ensures n <= |events|
    ensures var s, a := Run(start, events), Run(start, events[..n]);
            && Attached(a)
            && s.producer == s.worker == s.consumer.producerPaused
            && (s.pipe == (s.consumer.paused || s.producer) <==>
              a.compared == Effective(a.consumer) || s.told != [])
  {
    hide Run, Preparing, Attached, Effective, Drained;
    n := AttachPoint(start, events);
    EventuallyMirrors(Run(start, events[..n]), events[n..]);
  }

  function Remaining(p: Phase): nat {
    match p
    case Waiting => 4
    case Consuming => 3
    case Producing(_) => 2
    case Syncing(_) => 1
    case Mirroring => 0
  }

  function NextAttaching(p: Phase): Event {
    match p
    case Waiting => WorkerConsumes
    case Consuming => ConsumeResponds
    case Producing(_) => ProduceResponds
    case _ => SyncResponds
  }

  /** A pipe that was asked for gets its listeners, without anybody calling anything. */
  lemma {:induction false} PipeGetsAttached(s: State) returns (events: seq<Event>)
    ensures Run(s, events).phase.Mirroring?
    ensures forall i :: 0 <= i < |events| ==> !events[i].Call? && !events[i].ConsumerCall?
    decreases Remaining(s.phase)
  {
    if s.phase.Mirroring? {
      events := [];
    } else {
      var e := NextAttaching(s.phase);
      assert Remaining(Step(s, e).phase) < Remaining(s.phase);
      events := PipeGetsAttached(Step(s, e));
      hide Step;
      events := [e] + events;
    }
  }

  /** No call of the original producer is on its way, and the steps so far saw its state. */
  ghost predicate Quiet(s: State) {
    && s.requests == [] && s.responses == [] && s.producer == s.worker
    && (!s.phase.Waiting? ==> s.notifications == [] && s.consumer == ConsumerState(false, s.worker))
    && !s.phase.Syncing?
    && (s.phase.Producing? ==> s.phase.paused == s.worker)
    && (s.phase.Mirroring? ==> s.pipe == s.worker)
    && s.told == [] && s.mirrored == []
  }

  lemma StepStaysQuiet(s: State, e: Event)
    requires Quiet(s) && !e.Call? && !e.ConsumerCall?
    ensures Quiet(Step(s, e))
  {
  }

  lemma {:induction false} StaysQuiet(s: State, events: seq<Event>)
    requires Quiet(s)
    requires forall i :: 0 <= i < |events| ==> !events[i].Call? && !events[i].ConsumerCall?
    ensures Quiet(Run(s, events))
    decreases |events|
  {
    if events != [] {
      StepStaysQuiet(s, events[0]);
      hide Step, Quiet;
      StaysQuiet(Step(s, events[0]), events[1..]);
    }
  }

  /**
   If nobody pauses or resumes until the listeners are installed, and nothing was on its way
   when the pipe was asked for, it is in sync whatever happens afterwards.
   */
  lemma QuietPipesEndRight(start: State, before: seq<Event>, after: seq<Event>)
    requires Preparing(start) && Quiet(start)
    requires forall i :: 0 <= i < |before| ==> !before[i].Call? && !before[i].ConsumerCall?
    requires Run(start, before).phase.Mirroring? && Drained(Run(Run(start, before), after))
    ensures var s := Run(Run(start, before), after);
            && s.producer == s.worker == s.consumer.producerPaused == After(start.worker, Calls(after))
            && s.consumer.paused == After(false, ConsumerCalls(after))
            && s.pipe == (s.consumer.paused || s.producer)
  {
    hide Run, Calls, ConsumerCalls;
    StaysQuiet(start, before);
    WorkerObeysLastCall(Run(start, before), after);
    ConsumerObeysLastCall(Run(start, before), after);
    WorkerObeysLastCall(start, before);
    NoCalls(before);
    var a := Run(start, before);
    RunTracks(start, before);
    assert SyncedOnceTold(a, a);
    RunSyncs(a, a, after);
    assert Tracks(Run(a, after)) && SyncedOnceTold(a, Run(a, after));
    EndsInSync(a, Run(a, after));
  }

  lemma {:induction false} NoCalls(events: seq<Event>)
    requires forall i :: 0 <= i < |events| ==> !events[i].Call? && !events[i].ConsumerCall?
    ensures Calls(events) == [] && ConsumerCalls(events) == []
  {
    if events != [] {
      NoCalls(events[1..]);
    }
  }

  lemma EndsInSync(a: State, s: State)
    requires Tracks(s) && SyncedOnceTold(a, s) && Drained(s) && a.pipe == Effective(a.consumer)
    ensures s.producer == s.worker == s.consumer.producerPaused && s.pipe == (s.consumer.paused || s.producer)
  {
  }

  lemma {:induction false} RunTracks(s: State, events: seq<Event>)
    requires Tracks(s)
    ensures Tracks(Run(s, events))
    decreases |events|
  {
    hide Step;
    if events != [] {
      StepTracks(s, events[0]);
      RunTracks(Step(s, events[0]), events[1..]);
    }
  }

  /** A producer that is not paused, and nothing on its way. */
  const FLOWING: State :=
    State(Waiting, false, false, [], [], [], ConsumerState(false, false), [], [], false, [], false)

  lemma RunFour(s: State, e: Event, f: Event, g: Event, h: Event)
    ensures Run(s, [e, f, g, h]) == Step(Step(Step(Step(s, e), f), g), h)
  {
    hide Step;
    assert [e, f, g, h][1..] == [f, g, h] && [f, g, h][1..] == [g, h] && [g, h][1..] == [h] && [h][1..] == [];
    assert Run(Step(Step(Step(s, e), f), g), [h]) == Step(Step(Step(Step(s, e), f), g), h);
    assert Run(Step(Step(s, e), f), [g, h]) == Run(Step(Step(Step(s, e), f), g), [h]);
    assert Run(Step(s, e), [f, g, h]) == Run(Step(Step(s, e), f), [g, h]);
  }

  const PAUSED_WHILE_MADE: seq<Event> := [WorkerConsumes, ConsumeResponds, Call(Pause), WorkerTakes]

  /** The pipe producer is being made, not paused; the worker has just paused the producer. */
  const MADE: State :=
    FLOWING.(phase := Producing(false), worker := true, responses := [Pause], notifications := [Pause])

  lemma PausedWhileMade()
    ensures Run(FLOWING, PAUSED_WHILE_MADE) == MADE
  {
    RunFour(FLOWING, WorkerConsumes, ConsumeResponds, Call(Pause), WorkerTakes);
    hide Run, Take;
    var a := FLOWING.(phase := Consuming);
    assert Step(FLOWING, WorkerConsumes) == a;
    var b := FLOWING.(phase := Producing(false));
    assert Step(a, ConsumeResponds) == b;
    var c := b.(requests := [Pause]);
    assert Step(b, Call(Pause)) == c;
    assert c.requests[1..] == [] && Flipped(false, Pause) == [Pause];
    assert Step(c, WorkerTakes) == MADE;
  }

  const RESUMED_WHILE_SYNCED: seq<Event> := [ResponseArrives, NotificationArrives, ProduceResponds, Call(Resume)]

  /** The pipe producer is being paused, as the producer was; a call that resumes the producer is on its way. */
  const RESUMING: State :=
    FLOWING.(phase := Syncing(Pause), producer := true, worker := true, requests := [Resume],
    consumer := ConsumerState(false, true), compared := true)

  lemma ResumedWhileSynced()
    ensures Run(MADE, RESUMED_WHILE_SYNCED) == RESUMING
  {
    RunFour(MADE, ResponseArrives, NotificationArrives, ProduceResponds, Call(Resume));
    hide Run;
    var a := MADE.(producer := true, responses := []);
    assert Step(MADE, ResponseArrives) == a;
    var b := a.(notifications := [], consumer := ConsumerState(false, true));
    assert Step(a, NotificationArrives) == b;
    var c := b.(phase := Syncing(Pause), compared := true);
    assert Step(b, ProduceResponds) == c;
    assert Step(c, Call(Resume)) == RESUMING;
  }

  const THE_REST: seq<Event> := [WorkerTakes, ResponseArrives, NotificationArrives, SyncResponds]

  lemma RestArrives()
    ensures Run(RESUMING, THE_REST) == FLOWING.(phase := Mirroring, pipe := true, compared := true)
  {
    RunFour(RESUMING, WorkerTakes, ResponseArrives, NotificationArrives, SyncResponds);
    hide Run;
    var a := RESUMING.(requests := [], worker := false, responses := [Resume], notifications := [Resume]);
    assert Flipped(true, Resume) == [Resume];
    assert Step(RESUMING, WorkerTakes) == a;
    var b := a.(producer := false, responses := []);
    assert Step(a, ResponseArrives) == b;
    var c := b.(notifications := [], consumer := ConsumerState(false, false));
    assert Step(b, NotificationArrives) == c;
    assert Step(c, SyncResponds) == FLOWING.(phase := Mirroring, pipe := true, compared := true);
  }

  /**
   The producer is paused while the pipe producer is being made, and resumed while the
   request that makes up for it is awaited: the pipe producer stays paused, although
   everything has arrived and the producer is not.
   */
  lemma FlipDuringSync()
    ensures var s := Run(FLOWING, PAUSED_WHILE_MADE + RESUMED_WHILE_SYNCED + THE_REST);
            && Preparing(FLOWING) && s.phase.Mirroring? && Drained(s)
            && !s.producer && !s.worker && !Effective(s.consumer) && s.pipe
  {
    hide Run, PAUSED_WHILE_MADE, RESUMED_WHILE_SYNCED, THE_REST;
    PausedWhileMade();
    ResumedWhileSynced();
    RestArrives();
    RunInTwo(FLOWING, PAUSED_WHILE_MADE, RESUMED_WHILE_SYNCED);
    RunInTwo(FLOWING, PAUSED_WHILE_MADE + RESUMED_WHILE_SYNCED, THE_REST);
  }

  const NOTIFIED_FIRST: seq<Event> := [NotificationArrives, ProduceResponds, ResponseArrives, MirrorAccepted]

  lemma NotifiedFirst()
    ensures Run(MADE, NOTIFIED_FIRST) ==
      FLOWING.(phase := Mirroring, producer := true, worker := true, consumer := ConsumerState(false, true))
  {
    RunFour(MADE, NotificationArrives, ProduceResponds, ResponseArrives, MirrorAccepted);
    hide Run;
    var a := MADE.(notifications := [], consumer := ConsumerState(false, true));
    assert Step(MADE, NotificationArrives) == a;
    var b := a.(phase := Mirroring);
    assert Step(a, ProduceResponds) == b;
    var c := b.(producer := true, responses := []);
    assert Step(b, ResponseArrives) == c;
    assert Step(c, MirrorAccepted) == c;
  }

  /**
   Nothing needs to be awaited for that: when the consumer is notified of a pause before the
   pipe producer is compared, and the response to the pause arrives only afterwards, the
   pipe producer goes on although the producer is paused.
   */
  lemma ResponseAfterComparison()
    ensures var s := Run(FLOWING, PAUSED_WHILE_MADE + NOTIFIED_FIRST);
            && s.phase.Mirroring? && Drained(s)
            && s.producer && s.worker && Effective(s.consumer) && !s.pipe
  {
    hide Run, PAUSED_WHILE_MADE, NOTIFIED_FIRST;
    PausedWhileMade();
    NotifiedFirst();
    RunInTwo(FLOWING, PAUSED_WHILE_MADE, NOTIFIED_FIRST);
  }

  // ----- The observer of the pipe producer

  /** The pipe producer has told, and will tell once its requests arrive, what the consumer told. */
  ghost predicate Echoes(start: State, s: State) {
    && s.phase.Mirroring?
    && s.pipeTold + s.mirrored == s.told
    && s.pipe == After(start.pipe, s.pipeTold)
    && Alternates(start.pipe, s.told)
  }

  lemma AlternatesAt(initial: bool, a: seq<Edge>, b: seq<Edge>)
    requires b != [] && Alternates(initial, a + b)
    ensures (b[0] == Pause) == !After(initial, a)
  {
    assert (a + b)[..|a|] == a && (a + b)[|a|] == b[0];
  }

  lemma TakeEchoes(start: State, s: State, i: Input)
    requires start.pipe == Effective(start.consumer) && Echoes(start, s) && ToldEdges(start, s)
    ensures Echoes(start, Take(s, i))
  {
    hide Told, Next;
    TakeTellsEdges(start, s, i);
    var told := Told(s.consumer, i);
    assert s.pipeTold + (s.mirrored + told) == s.told + told;
  }

  lemma MirrorEchoes(start: State, s: State)
    requires Echoes(start, s) && s.mirrored != []
    ensures Echoes(start, Step(s, MirrorAccepted))
  {
    var t := Step(s, MirrorAccepted);
    AlternatesAt(start.pipe, s.pipeTold, s.mirrored);
    hide Alternates;
    assert s.mirrored == [s.mirrored[0]] + s.mirrored[1..];
    assert t.pipeTold == s.pipeTold + [s.mirrored[0]];
    assert t.pipeTold + t.mirrored == s.pipeTold + s.mirrored;
  }

  lemma StepEchoes(start: State, s: State, e: Event)
    requires start.pipe == Effective(start.consumer) && Echoes(start, s) && ToldEdges(start, s)
    ensures Echoes(start, Step(s, e))
  {
    hide Alternates;
    match e
    case NotificationArrives =>
      hide Next, Told;
      if s.notifications != [] {
        TakeEchoes(start, s.(notifications := s.notifications[1..]),
                   if s.notifications[0] == Pause then ProducerPause else ProducerResume);
      }
    case ConsumerCall(request) =>
      TakeEchoes(start, s, if request == Pause then PauseAccepted else ResumeAccepted);
    case MirrorAccepted =>
      if s.mirrored != [] {
        MirrorEchoes(start, s);
      }
    case _ =>
  }

  /**
   Attached in sync, the pipe producer's observer is told exactly what the consumer's was, in
   order, no request being redundant.
   */
  lemma {:induction false} ObserverEchoes(start: State, s: State, events: seq<Event>)
    requires start.pipe == Effective(start.consumer) && Echoes(start, s) && ToldEdges(start, s)
    ensures Echoes(start, Run(s, events))
    decreases |events|
  {
    if events != [] {
      StepEchoes(start, s, events[0]);
      StepTellsEdges(start, s, events[0]);
      ObserverEchoes(start, Step(s, events[0]), events[1..]);
    }
  }
}
