/** The producer thread and the threads that hand it messages (rvi_producer.c, rmq_producer.c, threaded_transport.c)
    as one state machine; a step is one mutex operation or one statement between two of them. */
module SenderQueue {
  import opened Bytes

  datatype Message = Message(bytes: seq<byte>)

  /** Where the worker is in producerRun and threaded_producer_sendNext. */
  datatype Worker =
    | CheckContinue
    | TakeEmptyLock
    | TakeQueueLock
    | Pop
    | Popped(msg: Message)           // decides whether to free _emptyLock
    | Unlock(msg: Message)           // frees _queueLock
    | Publish(msg: Message)
    | Retake(msg: Message)           // failed: takes _queueLock again
    | PushBack(msg: Message)
    | WakeUp(wasEmpty: bool)
    | Leave                          // frees _queueLock and returns
    | Exited

  /** Where another thread is in threaded_producer_pushMsg; no message is a null or empty argument. */
  datatype Pusher =
    | Idle
    | Enter(msg: Option<Message>)
    | Wake(msg: Option<Message>)     // holds _queueLock, tests for an empty queue
    | Push(msg: Option<Message>)
    | Return

  datatype Holder = Free | ByWorker | ByThread(t: nat)

  datatype System = System(
    queue: seq<Message>, queueLock: Holder, emptyLocked: bool,
    worker: Worker, pushers: map<nat, Pusher>,
    goOn: bool, cleaner: Option<nat>, woken: bool,
    accepted: seq<Message>, sent: seq<Message>, dropped: seq<Message>, failures: nat)
  {
    function PusherAt(t: nat): Pusher {
      if t in pushers then pushers[t] else Idle
    }
  }

  function Initial(): System {
    System([], Free, true, CheckContinue, map[], true, None, false, [], [], [], 0)
  }

  /** `ok` is the outcome of whatever may fail in the step: connecting and publishing, or allocating a node. */
  function WorkerStep(s: System, ok: bool): Option<System> {
    match s.worker
    case CheckContinue => Some(s.(worker := if s.goOn then TakeEmptyLock else Exited))
    case TakeEmptyLock => if s.emptyLocked then None else Some(s.(emptyLocked := true, worker := TakeQueueLock))
    case TakeQueueLock => if s.queueLock != Free then None else Some(s.(queueLock := ByWorker, worker := Pop))
    case Pop =>
      if s.queue == [] then Some(s.(worker := Leave))
      else Some(s.(queue := s.queue[1..], worker := Popped(s.queue[0])))
    case Popped(m) => Some(s.(emptyLocked := s.emptyLocked && s.queue == [], worker := Unlock(m)))
    case Unlock(m) => Some(s.(queueLock := Free, worker := Publish(m)))
    case Publish(m) =>
      if ok then Some(s.(sent := s.sent + [m], worker := CheckContinue))
      else Some(s.(failures := s.failures + 1, worker := Retake(m)))
    case Retake(m) => if s.queueLock != Free then None else Some(s.(queueLock := ByWorker, worker := PushBack(m)))
    case PushBack(m) =>
      if ok then Some(s.(queue := s.queue + [m], worker := WakeUp(s.queue == [])))
      else Some(s.(dropped := s.dropped + [m], worker := Leave))
    case WakeUp(wasEmpty) => Some(s.(emptyLocked := s.emptyLocked && !wasEmpty, worker := Leave))
    case Leave => Some(s.(queueLock := Free, worker := CheckContinue))
    case Exited => None
  }

  function PusherStep(s: System, t: nat, ok: bool): Option<System> {
    match s.PusherAt(t)
    case Idle => None
    case Enter(m) =>
      if s.queueLock != Free then None else Some(s.(queueLock := ByThread(t), pushers := s.pushers[t := Wake(m)]))
    case Wake(m) =>
      Some(s.(emptyLocked := s.emptyLocked && s.queue != [], pushers := s.pushers[t := Push(m)],
              woken := s.woken || s.cleaner == Some(t)))
    case Push(m) =>
      if m.Some? && ok
      then Some(s.(queue := s.queue + [m.value], accepted := s.accepted + [m.value], pushers := s.pushers[t := Return]))
      else Some(s.(pushers := s.pushers[t := Return]))
    case Return => Some(s.(queueLock := Free, pushers := s.pushers[t := Idle]))
  }

  datatype Action =
    | Work(ok: bool)
    | BeginPush(t: nat, msg: Option<Message>)
    | Pushing(t: nat, ok: bool)
    | CleanUp(t: nat)    // transport_cleanup: clear _continue, then push null

  function Step(s: System, a: Action): Option<System> {
    match a
    case Work(ok) => WorkerStep(s, ok)
    case BeginPush(t, m) =>
      if s.PusherAt(t) == Idle && s.cleaner != Some(t) then Some(s.(pushers := s.pushers[t := Enter(m)])) else None
    case Pushing(t, ok) => PusherStep(s, t, ok)
    case CleanUp(t) =>
      if s.PusherAt(t) == Idle && s.cleaner.None?
      then Some(s.(goOn := false, cleaner := Some(t), pushers := s.pushers[t := Enter(None)]))
      else None
  }

  /** Any interleaving; an action whose thread is blocked does nothing. */
  function Run(s: System, actions: seq<Action>): System
    decreases |actions|
  {
    if actions == [] then s
    else
      var next := Step(s, actions[0]);
      Run(if next.Some? then next.value else s, actions[1..])
  }

  // ----- invariants -----

  function InHand(w: Worker): seq<Message> {
    match w
    case Popped(m) => [m]
    case Unlock(m) => [m]
    case Publish(m) => [m]
    case Retake(m) => [m]
    case PushBack(m) => [m]
    case _ => []
  }

  predicate WorkerHolds(w: Worker) {
    w.Pop? || w.Popped? || w.Unlock? || w.PushBack? || w.WakeUp? || w.Leave?
  }

  predicate PusherHolds(p: Pusher) {
    p.Wake? || p.Push? || p.Return?
  }

  /** _queueLock is held by exactly the thread that is inside its critical section. */
  ghost predicate Exclusive(s: System) {
    && (s.queueLock == ByWorker <==> WorkerHolds(s.worker))
    && (forall t: nat :: s.queueLock == ByThread(t) <==> PusherHolds(s.PusherAt(t)))
  }

  /** A message in the queue is never forgotten: the worker can take _emptyLock, or has it on its way to popping, or
      is about to free it. */
  ghost predicate NoLostWakeup(s: System) {
    && (s.queue != [] ==>
          !s.emptyLocked || s.worker.TakeQueueLock? || s.worker.Pop? || s.worker.Popped?
          || s.worker == WakeUp(true))
    && (forall t: nat :: s.PusherAt(t).Push? && s.queue == [] ==> !s.emptyLocked || s.worker.TakeQueueLock?)
  }

  ghost function Tally(sent: seq<Message>, hand: seq<Message>, queue: seq<Message>, dropped: seq<Message>): multiset<Message> {
    multiset(sent) + multiset(queue) + multiset(hand) + multiset(dropped)
  }

  /** Nothing is lost or invented. */
  ghost predicate Conserved(s: System) {
    multiset(s.accepted) == Tally(s.sent, InHand(s.worker), s.queue, s.dropped)
  }

  /** Messages in the order in which they leave. */
  function Line(sent: seq<Message>, hand: seq<Message>, queue: seq<Message>): seq<Message> {
    sent + (hand + queue)
  }

  /** Without failures nothing is reordered either: what was sent is a prefix of what was accepted. */
  ghost predicate InOrder(s: System) {
    && (s.failures == 0 ==> s.accepted == Line(s.sent, InHand(s.worker), s.queue) && s.dropped == [])
    && (s.worker.Retake? || s.worker.PushBack? ==> s.failures > 0)
  }

  /** Taking the first message into the hand, and out of it: neither changes the tally or the order. */
  lemma Moves(sent: seq<Message>, queue: seq<Message>, dropped: seq<Message>, m: Message)
    ensures Tally(sent, [], [m] + queue, dropped) == Tally(sent, [m], queue, dropped)
    ensures Tally(sent + [m], [], queue, dropped) == Tally(sent, [m], queue, dropped)
    ensures Tally(sent, [], queue + [m], dropped) == Tally(sent, [m], queue, dropped)
    ensures Tally(sent, [], queue, dropped + [m]) == Tally(sent, [m], queue, dropped)
    ensures Line(sent, [], [m] + queue) == Line(sent, [m], queue)
    ensures Line(sent + [m], [], queue) == Line(sent, [m], queue)
  {
    assert multiset([m] + queue) == multiset{m} + multiset(queue);
    assert multiset(sent + [m]) == multiset(sent) + multiset{m};
    assert multiset(queue + [m]) == multiset(queue) + multiset{m};
    assert multiset(dropped + [m]) == multiset(dropped) + multiset{m};
    Associative(sent, [m], queue);
    assert [] + queue == queue && [] + ([m] + queue) == [m] + queue;
  }

  /** A new message joins at the end. */
  lemma Joins(accepted: seq<Message>, sent: seq<Message>, hand: seq<Message>, queue: seq<Message>, dropped: seq<Message>, m: Message)
    ensures Tally(sent, hand, queue + [m], dropped) == Tally(sent, hand, queue, dropped) + multiset{m}
    ensures multiset(accepted + [m]) == multiset(accepted) + multiset{m}
    ensures Line(sent, hand, queue + [m]) == Line(sent, hand, queue) + [m]
  {
    assert multiset(queue + [m]) == multiset(queue) + multiset{m};
    Associative(hand, queue, [m]);
    Associative(sent, hand + queue, [m]);
  }

  /** After the cleanup's null push the worker cannot find _emptyLock taken. */
  ghost predicate Released(s: System) {
    && (s.cleaner.Some? ==> !s.goOn)
    && (s.woken ==> !s.goOn && (s.worker.TakeEmptyLock? ==> !s.emptyLocked))
  }

  ghost predicate Inv(s: System) {
    Exclusive(s) && NoLostWakeup(s) && Conserved(s) && InOrder(s) && Released(s)
  }

  lemma WorkerExcludes(s: System, ok: bool)
    requires Exclusive(s) && WorkerStep(s, ok).Some?
    ensures Exclusive(WorkerStep(s, ok).value)
  {
    var s' := WorkerStep(s, ok).value;
    assert forall t: nat :: s'.PusherAt(t) == s.PusherAt(t);
  }

  lemma WorkerWakes(s: System, ok: bool)
    requires Exclusive(s) && NoLostWakeup(s) && WorkerStep(s, ok).Some?
    ensures NoLostWakeup(WorkerStep(s, ok).value)
  {
    var s' := WorkerStep(s, ok).value;
    assert forall t: nat :: s'.PusherAt(t) == s.PusherAt(t);
  }

  lemma PopConserves(s: System, ok: bool)
    requires Conserved(s) && InOrder(s) && s.worker.Pop? && s.queue != []
    ensures Conserved(WorkerStep(s, ok).value) && InOrder(WorkerStep(s, ok).value)
  {
    hide Tally, Line;
    Moves(s.sent, s.queue[1..], s.dropped, s.queue[0]);
    assert s.queue == [s.queue[0]] + s.queue[1..];
  }

  lemma PublishConserves(s: System, ok: bool)
    requires Conserved(s) && InOrder(s) && s.worker.Publish?
    ensures Conserved(WorkerStep(s, ok).value) && InOrder(WorkerStep(s, ok).value)
  {
    hide Tally, Line;
    Moves(s.sent, s.queue, s.dropped, s.worker.msg);
  }

  lemma PushBackConserves(s: System, ok: bool)
    requires Conserved(s) && InOrder(s) && s.worker.PushBack?
    ensures Conserved(WorkerStep(s, ok).value) && InOrder(WorkerStep(s, ok).value)
  {
    hide Tally, Line;
    Moves(s.sent, s.queue, s.dropped, s.worker.msg);
  }

  lemma OtherStepsMoveNothing(s: System, ok: bool)
    requires WorkerStep(s, ok).Some? && !s.worker.Publish? && !s.worker.PushBack? && !(s.worker.Pop? && s.queue != [])
    ensures var s' := WorkerStep(s, ok).value;
            && s'.queue == s.queue && s'.sent == s.sent && s'.dropped == s.dropped && s'.accepted == s.accepted
            && s'.failures == s.failures && InHand(s'.worker) == InHand(s.worker) && s'.pushers == s.pushers
            && !s'.worker.PushBack? == !s.worker.Retake? && !s'.worker.Retake?
  {
  }

  lemma WorkerConserves(s: System, ok: bool)
    requires Conserved(s) && InOrder(s) && WorkerStep(s, ok).Some?
    ensures Conserved(WorkerStep(s, ok).value) && InOrder(WorkerStep(s, ok).value)
  {
    hide Tally, Line, WorkerStep, InHand;
    if s.worker.Pop? && s.queue != [] {
      PopConserves(s, ok);
    } else if s.worker.Publish? {
      PublishConserves(s, ok);
    } else if s.worker.PushBack? {
      PushBackConserves(s, ok);
    } else {
      OtherStepsMoveNothing(s, ok);
    }
  }

  lemma WorkerReleases(s: System, ok: bool)
    requires Released(s) && WorkerStep(s, ok).Some?
    ensures Released(WorkerStep(s, ok).value)
  {
  }

  lemma PusherExcludes(s: System, t: nat, ok: bool)
    requires Exclusive(s) && PusherStep(s, t, ok).Some?
    ensures Exclusive(PusherStep(s, t, ok).value)
  {
    var s' := PusherStep(s, t, ok).value;
    assert forall u: nat :: u != t ==> s'.PusherAt(u) == s.PusherAt(u);
  }

  lemma PusherWakes(s: System, t: nat, ok: bool)
    requires Exclusive(s) && NoLostWakeup(s) && PusherStep(s, t, ok).Some?
    ensures NoLostWakeup(PusherStep(s, t, ok).value)
  {
    var s' := PusherStep(s, t, ok).value;
    assert forall u: nat :: u != t ==> s'.PusherAt(u) == s.PusherAt(u);
  }

  lemma PusherConserves(s: System, t: nat, ok: bool)
    requires Conserved(s) && InOrder(s) && PusherStep(s, t, ok).Some?
    ensures Conserved(PusherStep(s, t, ok).value) && InOrder(PusherStep(s, t, ok).value)
  {
    hide Tally, Line;
    var p := s.PusherAt(t);
    if p.Push? && p.msg.Some? {
      Joins(s.accepted, s.sent, InHand(s.worker), s.queue, s.dropped, p.msg.value);
    }
  }

  lemma PusherReleases(s: System, t: nat, ok: bool)
    requires Exclusive(s) && NoLostWakeup(s) && Released(s) && PusherStep(s, t, ok).Some?
    ensures Released(PusherStep(s, t, ok).value)
  {
  }

  lemma StepKeepsInv(s: System, a: Action)
    requires Inv(s) && Step(s, a).Some?
    ensures Inv(Step(s, a).value)
  {
    var s' := Step(s, a).value;
    match a {
      case Work(ok) =>
        WorkerExcludes(s, ok);
        WorkerWakes(s, ok);
        WorkerConserves(s, ok);
        WorkerReleases(s, ok);
      case Pushing(t, ok) =>
        PusherExcludes(s, t, ok);
        PusherWakes(s, t, ok);
        PusherConserves(s, t, ok);
        PusherReleases(s, t, ok);
      case BeginPush(t, m) =>
        assert forall u: nat :: u != t ==> s'.PusherAt(u) == s.PusherAt(u);
      case CleanUp(t) =>
        assert forall u: nat :: u != t ==> s'.PusherAt(u) == s.PusherAt(u);
    }
  }

  /** Every interleaving keeps the invariants. */
  lemma {:induction false} RunKeepsInv(s: System, actions: seq<Action>)
    requires Inv(s)
    ensures Inv(Run(s, actions))
    decreases |actions|
  {
    hide Inv, Step;
    if actions != [] {
      var next := Step(s, actions[0]);
      if next.Some? {
        StepKeepsInv(s, actions[0]);
      }
      RunKeepsInv(if next.Some? then next.value else s, actions[1..]);
    }
  }

  /** What holds in every reachable state. */
  lemma ReachableStates(actions: seq<Action>)
    ensures var s := Run(Initial(), actions);
            && (s.queue != [] && s.queueLock == Free ==> !s.emptyLocked || s.worker == TakeQueueLock)
            && multiset(s.accepted)
               == multiset(s.sent) + multiset(s.queue) + multiset(InHand(s.worker)) + multiset(s.dropped)
            && (s.failures == 0 ==> s.sent <= s.accepted && s.dropped == [])
  {
    RunKeepsInv(Initial(), actions);
    var s := Run(Initial(), actions);
    hide Run;
  }

  // ----- delivery -----

  function Do(s: System, a: Action): System {
    var next := Step(s, a);
    if next.Some? then next.value else s
  }

  lemma RunNext(s: System, a: Action, rest: seq<Action>)
    ensures Run(s, [a] + rest) == Run(Do(s, a), rest)
  {
    hide Step;
    assert ([a] + rest)[0] == a && ([a] + rest)[1..] == rest;
  }

  lemma {:induction false} RunJoins(s: System, a: seq<Action>, b: seq<Action>)
    ensures Run(s, a + b) == Run(Run(s, a), b)
    decreases |a|
  {
    hide Step;
    if a == [] {
      assert a + b == b;
    } else {
      assert (a + b)[0] == a[0] && (a + b)[1..] == a[1..] + b;
      RunJoins(Do(s, a[0]), a[1..], b);
    }
  }

  /** n steps of the worker in which nothing fails. */
  function Works(n: nat): seq<Action> {
    seq(n, _ => Work(true))
  }

  lemma RunWorks(s: System, n: nat)
    ensures Run(s, Works(0)) == s
    ensures Run(s, Works(n + 1)) == Run(Do(s, Work(true)), Works(n))
  {
    assert Works(n + 1) == [Work(true)] + Works(n);
    RunNext(s, Work(true), Works(n));
  }

  /** n steps of thread t in threaded_producer_pushMsg, in which nothing fails. */
  function Pushes(t: nat, n: nat): seq<Action> {
    seq(n, _ => Pushing(t, true))
  }

  lemma RunPushes(s: System, t: nat, n: nat)
    ensures Run(s, Pushes(t, 0)) == s
    ensures Run(s, Pushes(t, n + 1)) == Run(Do(s, Pushing(t, true)), Pushes(t, n))
  {
    assert Pushes(t, n + 1) == [Pushing(t, true)] + Pushes(t, n);
    RunNext(s, Pushing(t, true), Pushes(t, n));
  }

  /** A call of threaded_producer_pushMsg that nothing comes in between. */
  function WholePush(t: nat, m: Message): seq<Action> {
    [BeginPush(t, Some(m))] + Pushes(t, 4)
  }

  /** It adds its message at the end, frees _emptyLock if the queue was empty, and leaves the queue lock free. */
  lemma PushArrives(s: System, t: nat, m: Message)
    requires s.queueLock == Free && s.PusherAt(t) == Idle && s.cleaner != Some(t)
    ensures var s' := Run(s, WholePush(t, m));
            && s' == s.(queue := s.queue + [m], accepted := s.accepted + [m], emptyLocked := s.emptyLocked && s.queue != [],
                        pushers := s'.pushers)
            && s'.PusherAt(t) == Idle && forall u: nat | u != t :: s'.PusherAt(u) == s.PusherAt(u)
  {
    var p := Pushing(t, true);
    var s1 := s.(pushers := s.pushers[t := Enter(Some(m))]);
    var s2 := s1.(queueLock := ByThread(t), pushers := s1.pushers[t := Wake(Some(m))]);
    var s3 := s2.(emptyLocked := s.emptyLocked && s.queue != [], pushers := s2.pushers[t := Push(Some(m))]);
    var s4 := s3.(queue := s.queue + [m], accepted := s.accepted + [m], pushers := s3.pushers[t := Return]);
    var s5 := s4.(queueLock := Free, pushers := s4.pushers[t := Idle]);
    assert Do(s, BeginPush(t, Some(m))) == s1 && Do(s1, p) == s2;
    assert Do(s2, p) == s3;
    assert Do(s3, p) == s4 && Do(s4, p) == s5;
    hide Run, Do;
    RunNext(s, BeginPush(t, Some(m)), Pushes(t, 4));
    RunPushes(s1, t, 3);
    RunPushes(s2, t, 2);
    RunPushes(s3, t, 1);
    RunPushes(s4, t, 0);
    RunPushes(s5, t, 0);
  }

  predicate Underway(p: Pusher, m: Message) {
    p == Enter(Some(m)) || p == Wake(Some(m)) || p == Push(Some(m))
  }

  /** The action leaves thread t to its push, and no allocation of it fails. */
  predicate LeavesAlone(a: Action, t: nat) {
    match a
    case Work(_) => true
    case BeginPush(u, _) => u != t
    case Pushing(u, ok) => u == t ==> ok
    case CleanUp(u) => u != t
  }

  lemma Accepts(s: System, a: Action, t: nat, m: Message)
    requires LeavesAlone(a, t)
    ensures var s' := Do(s, a);
            && (s'.accepted == s.accepted || exists x :: s'.accepted == s.accepted + [x])
            && (Underway(s.PusherAt(t), m) ==>
                  Underway(s'.PusherAt(t), m) || s'.accepted == s.accepted + [m])
  {
    hide WorkerStep;
    if a.Work? && WorkerStep(s, a.ok).Some? {
      WorkerAccepts(s, a.ok);
    }
  }

  lemma WorkerAccepts(s: System, ok: bool)
    requires WorkerStep(s, ok).Some?
    ensures WorkerStep(s, ok).value.accepted == s.accepted && WorkerStep(s, ok).value.pushers == s.pushers
  {
    if !s.worker.Publish? && !s.worker.PushBack? && !(s.worker.Pop? && s.queue != []) {
      hide WorkerStep;
      OtherStepsMoveNothing(s, ok);
    }
  }

  lemma StepLands(s: System, a: Action, t: nat, m: Message, n: nat)
    requires n <= |s.accepted| && LeavesAlone(a, t)
    requires Underway(s.PusherAt(t), m) || m in s.accepted[n..]
    ensures var s' := Do(s, a);
            n <= |s'.accepted| && (Underway(s'.PusherAt(t), m) || m in s'.accepted[n..])
  {
    Accepts(s, a, t, m);
    hide Do, Underway;
    var s' := Do(s, a);
    if s'.accepted != s.accepted {
      var x :| s'.accepted == s.accepted + [x];
      assert s'.accepted[n..] == s.accepted[n..] + [x];
      assert s'.accepted[|s.accepted|] == x;
    }
  }

  /** In every interleaving: a message that a thread has begun to push is accepted by the time the push is over. */
  lemma {:induction false} PushLands(s: System, actions: seq<Action>, t: nat, m: Message, n: nat)
    requires n <= |s.accepted| && forall i | 0 <= i < |actions| :: LeavesAlone(actions[i], t)
    requires Underway(s.PusherAt(t), m) || m in s.accepted[n..]
    ensures var s' := Run(s, actions);
            n <= |s'.accepted| && (Underway(s'.PusherAt(t), m) || m in s'.accepted[n..])
    decreases |actions|
  {
    hide Step, Underway;
    if actions != [] {
      StepLands(s, actions[0], t, m, n);
      PushLands(Do(s, actions[0]), actions[1..], t, m, n);
    }
  }

  /** The worker is about to look for a message, and nobody is in its way. */
  predicate AtRest(s: System) {
    s.goOn && s.worker == CheckContinue && s.queueLock == Free
  }

  /** The first three of its steps take the locks. */
  lemma ThreeLock(s: System)
    requires AtRest(s) && !s.emptyLocked
    ensures Run(s, Works(3)) == s.(worker := Pop, emptyLocked := true, queueLock := ByWorker)
  {
    var s1 := s.(worker := TakeEmptyLock);
    var s2 := s.(worker := TakeQueueLock, emptyLocked := true);
    var s3 := s.(worker := Pop, emptyLocked := true, queueLock := ByWorker);
    var w := Work(true);
    assert Do(s, w) == s1 && Do(s1, w) == s2 && Do(s2, w) == s3;
    hide *;
    RunWorks(s3, 0);
    RunWorks(s2, 0);
    RunWorks(s1, 1);
    RunWorks(s, 2);
  }

  /** The next three take the first message, and free the locks but for an empty queue. */
  lemma ThreeTake(s: System)
    requires s.worker == Pop && s.queue != [] && s.emptyLocked
    ensures Run(s, Works(3)) ==
              s.(queue := s.queue[1..], worker := Publish(s.queue[0]), emptyLocked := s.queue[1..] == [], queueLock := Free)
  {
    var m, rest := s.queue[0], s.queue[1..];
    var s1 := s.(worker := Popped(m), queue := rest);
    var s2 := s1.(worker := Unlock(m), emptyLocked := rest == []);
    var s3 := s2.(worker := Publish(m), queueLock := Free);
    var w := Work(true);
    assert Do(s, w) == s1 && Do(s1, w) == s2 && Do(s2, w) == s3;
    hide *;
    RunWorks(s3, 0);
    RunWorks(s2, 0);
    RunWorks(s1, 1);
    RunWorks(s, 2);
  }

  lemma SixTake(s: System)
    requires AtRest(s) && !s.emptyLocked && s.queue != []
    ensures Run(s, Works(6)) ==
              s.(queue := s.queue[1..], worker := Publish(s.queue[0]), emptyLocked := s.queue[1..] == [])
  {
    hide Run;
    ThreeLock(s);
    ThreeTake(Run(s, Works(3)));
    assert Works(6) == Works(3) + Works(3);
    RunJoins(s, Works(3), Works(3));
  }

  /** The seventh sends it. */
  lemma RoundSends(s: System)
    requires AtRest(s) && !s.emptyLocked && s.queue != []
    ensures Run(s, Works(7)) == s.(queue := s.queue[1..], sent := s.sent + [s.queue[0]], emptyLocked := s.queue[1..] == [])
  {
    SixTake(s);
    var s6 := s.(queue := s.queue[1..], worker := Publish(s.queue[0]), emptyLocked := s.queue[1..] == []);
    assert Do(s6, Work(true)) ==
             s.(queue := s.queue[1..], sent := s.sent + [s.queue[0]], emptyLocked := s.queue[1..] == []);
    hide *;
    assert Works(7) == Works(6) + Works(1);
    RunJoins(s, Works(6), Works(1));
    RunWorks(s6, 0);
  }

  /** A failure to publish puts the message back at the end, in four more steps. */
  lemma GoesBack(s: System)
    requires s.worker.Publish? && s.queueLock == Free
    ensures Run(s, [Work(false)] + Works(4)) ==
              s.(queue := s.queue + [s.worker.msg], failures := s.failures + 1, worker := CheckContinue,
                 emptyLocked := s.emptyLocked && s.queue != [])
  {
    var m := s.worker.msg;
    var s1 := s.(worker := Retake(m), failures := s.failures + 1);
    var s2 := s1.(worker := PushBack(m), queueLock := ByWorker);
    var s3 := s2.(worker := WakeUp(s.queue == []), queue := s.queue + [m]);
    var s4 := s3.(worker := Leave, emptyLocked := s.emptyLocked && s.queue != []);
    var s5 := s4.(worker := CheckContinue, queueLock := Free);
    var w := Work(true);
    assert Do(s, Work(false)) == s1 && Do(s1, w) == s2 && Do(s2, w) == s3;
    assert Do(s3, w) == s4 && Do(s4, w) == s5;
    hide *;
    RunNext(s, Work(false), Works(4));
    RunWorks(s4, 0);
    RunWorks(s3, 1);
    RunWorks(s2, 2);
    RunWorks(s1, 3);
  }

  lemma RoundRetries(s: System)
    requires AtRest(s) && !s.emptyLocked && s.queue != []
    ensures Run(s, Works(6) + ([Work(false)] + Works(4))) ==
              s.(queue := s.queue[1..] + [s.queue[0]], failures := s.failures + 1, emptyLocked := false)
  {
    SixTake(s);
    RunJoins(s, Works(6), [Work(false)] + Works(4));
    GoesBack(Run(s, Works(6)));
    hide Run, Works;
  }

  lemma {:induction false} Drains(s: System)
    requires AtRest(s) && (s.queue != [] ==> !s.emptyLocked)
    ensures var s' := Run(s, Works(7 * |s.queue|));
            AtRest(s') && s'.queue == [] && s'.sent == s.sent + s.queue && s'.accepted == s.accepted
    decreases |s.queue|
  {
    hide Run;
    if s.queue == [] {
      RunWorks(s, 0);
    } else {
      RoundSends(s);
      assert Works(7 * |s.queue|) == Works(7) + Works(7 * (|s.queue| - 1));
      RunJoins(s, Works(7), Works(7 * (|s.queue| - 1)));
      Drains(Run(s, Works(7)));
    }
  }

  /** From any reachable state in which the worker is between two messages, seven steps of it a message send all that is
      queued, in order; with no failure so far, everything that was ever accepted is then sent. */
  lemma AllGetSent(actions: seq<Action>)
    requires AtRest(Run(Initial(), actions))
    ensures var s := Run(Initial(), actions);
            var s' := Run(s, Works(7 * |s.queue|));
            && s'.queue == [] && s'.sent == s.sent + s.queue
            && (s.failures == 0 ==> s'.sent == s.accepted)
  {
    RunKeepsInv(Initial(), actions);
    var s := Run(Initial(), actions);
    hide Run;
    Drains(s);
  }

  /** Calls that push these messages one after the other. */
  function PushAll(t: nat, ms: seq<Message>): seq<Action> {
    if ms == [] then [] else PushAll(t, ms[..|ms| - 1]) + WholePush(t, ms[|ms| - 1])
  }

  lemma {:induction false} AllArrive(t: nat, ms: seq<Message>)
    ensures var s := Run(Initial(), PushAll(t, ms));
            && s.queue == ms && s.accepted == ms && s.PusherAt(t) == Idle && s.cleaner.None? && s.failures == 0 && AtRest(s)
  {
    if ms != [] {
      var init, last := ms[..|ms| - 1], ms[|ms| - 1];
      AllArrive(t, init);
      RunJoins(Initial(), PushAll(t, init), WholePush(t, last));
      PushArrives(Run(Initial(), PushAll(t, init)), t, last);
      assert init + [last] == ms;
    }
  }

  /** What one thread pushes from the start is what gets sent. */
  lemma PushedThenSent(t: nat, ms: seq<Message>)
    ensures Run(Initial(), PushAll(t, ms) + Works(7 * |ms|)).sent == ms
  {
    AllArrive(t, ms);
    hide Run;
    AllGetSent(PushAll(t, ms));
    RunJoins(Initial(), PushAll(t, ms), Works(7 * |ms|));
  }

  /** The worker is never stuck while there is something to send and the queue lock is free. */
  lemma WorkerCanGo(actions: seq<Action>, ok: bool)
    ensures var s := Run(Initial(), actions);
            s.queue != [] && s.queueLock == Free && s.worker != Exited ==> WorkerStep(s, ok).Some?
  {
    RunKeepsInv(Initial(), actions);
    var s := Run(Initial(), actions);
    hide Run;
  }

  // ----- shutting down -----

  /** Worker steps left once _continue is clear. */
  function StepsLeft(w: Worker): nat {
    match w
    case Exited => 0
    case CheckContinue => 1
    case Leave => 2
    case WakeUp(_) => 3
    case PushBack(_) => 4
    case Retake(_) => 5
    case Publish(_) => 6
    case Unlock(_) => 7
    case Popped(_) => 8
    case Pop => 9
    case TakeQueueLock => 10
    case TakeEmptyLock => 11
  }

  /** Steps the holder of _queueLock needs to free it. */
  function StepsToFree(p: Pusher): nat {
    match p
    case Wake(_) => 3
    case Push(_) => 2
    case Return => 1
    case _ => 0
  }

  /** After the null push the worker can always go on: it is never stuck on _emptyLock, and when _queueLock is taken
      its holder can step, which brings the lock nearer to being free. */
  lemma WorkerNeverStuck(s: System, ok: bool)
    requires Inv(s) && s.woken && s.worker != Exited
    ensures WorkerStep(s, ok).Some?
            || (s.queueLock.ByThread? && PusherStep(s, s.queueLock.t, ok).Some?
                && var s' := PusherStep(s, s.queueLock.t, ok).value;
                   StepsToFree(s'.PusherAt(s.queueLock.t)) < StepsToFree(s.PusherAt(s.queueLock.t))
                   && s'.worker == s.worker)
  {
    if s.queueLock.ByThread? {
      assert PusherHolds(s.PusherAt(s.queueLock.t));
    }
  }

  lemma WorkerStepsDown(s: System, ok: bool)
    requires !s.goOn && WorkerStep(s, ok).Some?
    ensures var s' := WorkerStep(s, ok).value; !s'.goOn && StepsLeft(s'.worker) < StepsLeft(s.worker)
  {
  }

  lemma WorkerApproachesExit(s: System, a: Action)
    requires !s.goOn && Step(s, a).Some?
    ensures var s' := Step(s, a).value;
            !s'.goOn && (if a.Work? then StepsLeft(s'.worker) < StepsLeft(s.worker) else s'.worker == s.worker)
  {
    hide WorkerStep, StepsLeft;
    if a.Work? {
      WorkerStepsDown(s, a.ok);
    }
  }

  function CountWork(s: System, actions: seq<Action>): nat
    decreases |actions|
  {
    if actions == [] then 0
    else
      var next := Step(s, actions[0]);
      if next.None? then CountWork(s, actions[1..])
      else (if actions[0].Work? then 1 else 0) + CountWork(next.value, actions[1..])
  }

  /** From the moment _continue is cleared, the worker takes at most eleven more steps in any interleaving. */
  lemma {:induction false} WorkerStops(s: System, actions: seq<Action>)
    requires !s.goOn
    ensures CountWork(s, actions) + StepsLeft(Run(s, actions).worker) <= StepsLeft(s.worker) <= 11
    decreases |actions|
  {
    hide Step;
    if actions != [] {
      var next := Step(s, actions[0]);
      if next.Some? {
        WorkerApproachesExit(s, actions[0]);
      }
      WorkerStops(if next.Some? then next.value else s, actions[1..]);
    }
  }

  /** transport_cleanup clears _continue, and its null push leaves the queue alone and the worker able to take _emptyLock. */
  lemma CleanupReleases(s: System, t: nat)
    requires s.queueLock == Free && s.PusherAt(t) == Idle && s.cleaner.None?
    ensures var s' := Run(s, [CleanUp(t)] + Pushes(t, 4));
            && !s'.goOn && s'.woken && s'.queueLock == Free && s'.queue == s.queue && s'.accepted == s.accepted
            && s'.worker == s.worker && s'.emptyLocked == (s.emptyLocked && s.queue != [])
  {
    var p := Pushing(t, true);
    var s1 := s.(goOn := false, cleaner := Some(t), pushers := s.pushers[t := Enter(None)]);
    var s2 := s1.(queueLock := ByThread(t), pushers := s1.pushers[t := Wake(None)]);
    var s3 := s2.(emptyLocked := s.emptyLocked && s.queue != [], woken := true, pushers := s2.pushers[t := Push(None)]);
    var s4 := s3.(pushers := s3.pushers[t := Return]);
    var s5 := s4.(queueLock := Free, pushers := s4.pushers[t := Idle]);
    assert Do(s, CleanUp(t)) == s1 && Do(s1, p) == s2;
    assert Do(s2, p) == s3;
    assert Do(s3, p) == s4 && Do(s4, p) == s5;
    hide Run, Do;
    RunNext(s, CleanUp(t), Pushes(t, 4));
    RunPushes(s1, t, 3);
    RunPushes(s2, t, 2);
    RunPushes(s3, t, 1);
    RunPushes(s4, t, 0);
    RunPushes(s5, t, 0);
  }

  lemma StillReleased(s: System)
    requires Inv(s) && s.woken && !s.queueLock.ByThread? && s.worker != Exited
    ensures var s' := Do(s, Work(true));
            Inv(s') && s'.woken && !s'.queueLock.ByThread? && StepsLeft(s'.worker) < StepsLeft(s.worker)
  {
    WorkerNeverStuck(s, true);
    StepKeepsInv(s, Work(true));
    WorkerStepsDown(s, true);
    KeepsLock(s, true);
    hide Inv, WorkerStep, StepsLeft;
  }

  lemma KeepsLock(s: System, ok: bool)
    requires WorkerStep(s, ok).Some?
    ensures var s' := WorkerStep(s, ok).value; s'.woken == s.woken && (s'.queueLock.ByThread? ==> s.queueLock.ByThread?)
  {
  }

  /** From then on the worker, left to itself, comes to its exit. */
  lemma {:induction false} WorkerExits(s: System, n: nat)
    requires Inv(s) && s.woken && !s.queueLock.ByThread? && StepsLeft(s.worker) <= n
    ensures Run(s, Works(n)).worker == Exited
    decreases n
  {
    hide Run, Inv, Do;
    if n == 0 {
      RunWorks(s, 0);
    } else {
      RunWorks(s, n - 1);
      if s.worker != Exited {
        StillReleased(s);
        WorkerExits(Do(s, Work(true)), n - 1);
      } else {
        StaysExited(s);
        WorkerExits(s, n - 1);
      }
    }
  }

  lemma StaysExited(s: System)
    requires s.worker == Exited
    ensures Do(s, Work(true)) == s
  {
  }
}
