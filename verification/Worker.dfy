/** The worker thread with its task queue, as a system of steps: the worker runs its main loop while
    any number of client threads add tasks and shut the worker down. A step is one action between
    two points where another thread may run; the condition variable may wake the worker for no
    reason, and the outer loop reads the flag without the mutex. */
module Worker {
  import opened Wrappers

  type Task = nat

  datatype WorkerPc =
    | Test                  // reads mAlive, holding no lock
    | Lock                  // about to take the mutex
    | Check                 // has the mutex, tests the queue and the flag
    | Waiting               // blocked in wait, mutex given up
    | Woken                 // notified or woken for no reason, needs the mutex again
    | Decide                // has the mutex, behind the inner loop
    | Running(task: Task)
    | Relock                // task done, about to take the mutex
    | Unlock                // has the mutex, about to give it up
    | Exited

  datatype ClientPc =
    | Idle
    | AddLock(task: Task)   // in addTask, about to take the mutex
    | AddCheck(task: Task)  // has the mutex
    | AddNotify             // has the mutex, task pushed
    | Leave(shut: bool)     // has the mutex, about to give it up and return
    | ShutLock              // in shutdownWorker, about to take the mutex
    | ShutCheck             // has the mutex
    | ShutNotify            // has the mutex, flag cleared
    | ShutUnlock            // has the mutex
    | JoinCall
    | Joining
    | Returned(joined: bool) // back from shutdownWorker

  datatype Thread = TheWorker | Client(id: nat)

  /** accepted, finished, joins and closer only record what happened. */
  datatype State = State(
    lock: Option<Thread>, alive: bool, queue: seq<Task>, worker: WorkerPc, clients: map<nat, ClientPc>,
    accepted: seq<Task>, finished: seq<Task>, joins: nat, closer: Option<nat>)

  function Pc(s: State, c: nat): ClientPc {
    if c in s.clients then s.clients[c] else Idle
  }

  function Goto(s: State, c: nat, pc: ClientPc): State {
    s.(clients := s.clients[c := pc])
  }

  /** notify_one: the worker is the only thread that ever waits. */
  function Notify(s: State): State {
    if s.worker.Waiting? then s.(worker := Woken) else s
  }

  predicate Init(s: State) {
    s == State(None, true, [], Test, map[], [], [], 0, None)
  }

  predicate WorkerCanStep(s: State) {
    match s.worker
    case Lock | Woken | Relock => s.lock.None?
    case Waiting | Exited => false
    case _ => true
  }

  /** The worker's next action. */
  function WorkerNext(s: State): State
    requires WorkerCanStep(s)
  {
    match s.worker
    case Test => s.(worker := if s.alive then Lock else Exited)
    case Lock | Woken => s.(lock := Some(TheWorker), worker := Check)
    case Check =>
      if s.queue == [] && s.alive then s.(lock := None, worker := Waiting) else s.(worker := Decide)
    case Decide =>
      if s.alive && s.queue != [] then s.(queue := s.queue[1..], lock := None, worker := Running(s.queue[0]))
      else s.(worker := Unlock)
    case Running(t) => s.(finished := s.finished + [t], worker := Relock)   // returned, or threw std::exception
    case Relock => s.(lock := Some(TheWorker), worker := Unlock)
    case Unlock => s.(lock := None, worker := Test)
    case _ => s
  }

  predicate WorkerStep(s: State, s': State) {
    WorkerCanStep(s) && s' == WorkerNext(s)
  }

  predicate Spurious(s: State, s': State) {
    s.worker.Waiting? && s' == s.(worker := Woken)
  }

  /** A client inside a call that it can go on with. */
  predicate ClientCanStep(s: State, c: nat) {
    match Pc(s, c)
    case Idle | Returned(_) => false
    case AddLock(_) | ShutLock => s.lock.None?
    case Joining => s.worker.Exited?
    case _ => true
  }

  function ClientNext(s: State, c: nat): State
    requires ClientCanStep(s, c)
  {
    match Pc(s, c)
    case AddLock(t) => Goto(s.(lock := Some(Client(c))), c, AddCheck(t))
    case AddCheck(t) =>
      if s.alive then Goto(s.(queue := s.queue + [t], accepted := s.accepted + [t]), c, AddNotify)
      else Goto(s, c, Leave(false))
    case AddNotify => Goto(Notify(s), c, Leave(false))
    case Leave(shut) => Goto(s.(lock := None), c, if shut then Returned(false) else Idle)
    case ShutLock => Goto(s.(lock := Some(Client(c))), c, ShutCheck)
    case ShutCheck =>
      if s.alive then Goto(s.(alive := false, closer := Some(c)), c, ShutNotify) else Goto(s, c, Leave(true))
    case ShutNotify => Goto(Notify(s), c, ShutUnlock)
    case ShutUnlock => Goto(s.(lock := None), c, JoinCall)
    case JoinCall => Goto(s.(joins := s.joins + 1), c, Joining)
    case Joining => Goto(s, c, Returned(true))
    case _ => s
  }

  ghost predicate ClientStep(s: State, s': State, c: nat) {
    || (ClientCanStep(s, c) && s' == ClientNext(s, c))
    || (Pc(s, c).AddCheck? && s' == Goto(s, c, Leave(false)))           // the push threw
    || ((Pc(s, c).Idle? || Pc(s, c).Returned?) && Calls(s, s', c))
  }

  ghost predicate Calls(s: State, s': State, c: nat) {
    s' == Goto(s, c, ShutLock) || exists t :: s' == Goto(s, c, AddLock(t))
  }

  ghost predicate Next(s: State, s': State) {
    WorkerStep(s, s') || Spurious(s, s') || exists c: nat :: ClientStep(s, s', c)
  }

  /** A run, from the creation of the worker on. */
  ghost predicate Execution(tr: seq<State>) {
    tr != [] && Init(tr[0]) && forall i :: 0 <= i < |tr| - 1 ==> Next(tr[i], tr[i + 1])
  }

  // ---- the invariant ----

  predicate WorkerHolds(pc: WorkerPc) {
    pc.Check? || pc.Decide? || pc.Unlock?
  }

  predicate ClientHolds(pc: ClientPc) {
    pc.AddCheck? || pc.AddNotify? || pc.Leave? || pc.ShutCheck? || pc.ShutNotify? || pc.ShutUnlock?
  }

  /** The mutex is held by exactly the thread that is inside its critical section. */
  ghost predicate MutexInv(s: State) {
    && (s.lock == Some(TheWorker) <==> WorkerHolds(s.worker))
    && forall c: nat :: s.lock == Some(Client(c)) <==> ClientHolds(Pc(s, c))
  }

  function InFlight(s: State): seq<Task> {
    if s.worker.Running? then [s.worker.task] else []
  }

  /** Every accepted task is finished, in flight or queued: once, and in this order. */
  predicate FifoInv(s: State) {
    s.accepted == s.finished + InFlight(s) + s.queue
  }

  /** A client has pushed a task or cleared the flag and is about to notify. */
  predicate NotifyPending(s: State) {
    s.lock.Some? && s.lock.value.Client?
    && (Pc(s, s.lock.value.id).AddNotify? || Pc(s, s.lock.value.id).ShutNotify?)
  }

  predicate WakeupInv(s: State) {
    s.worker.Waiting? && !NotifyPending(s) ==> s.queue == [] && s.alive
  }

  predicate Closing(pc: ClientPc) {
    pc.ShutNotify? || pc.ShutUnlock? || pc.JoinCall? || pc.Joining? || pc == Returned(true)
  }

  predicate BeforeJoin(pc: ClientPc) {
    pc.ShutNotify? || pc.ShutUnlock? || pc.JoinCall?
  }

  /** The client that cleared the flag is the only one on the way to join. */
  ghost predicate CloserInv(s: State) {
    && (s.alive <==> s.closer.None?)
    && (forall c: nat :: Closing(Pc(s, c)) ==> s.closer == Some(c))
  }

  /** It joins once, and comes back only when the worker has exited. */
  ghost predicate JoinInv(s: State) {
    && s.joins <= 1
    && (s.joins == 1 ==> s.closer.Some? && !BeforeJoin(Pc(s, s.closer.value)))
    && (s.worker.Exited? ==> !s.alive)
    && (forall c: nat :: Pc(s, c) == Returned(true) ==> s.worker.Exited?)
  }

  ghost predicate Inv(s: State) {
    MutexInv(s) && FifoInv(s) && WakeupInv(s) && CloserInv(s) && JoinInv(s)
  }

  lemma InitInv(s: State)
    requires Init(s)
    ensures Inv(s)
  {
  }

  lemma WorkerMutex(s: State, s': State)
    requires MutexInv(s) && (WorkerStep(s, s') || Spurious(s, s'))
    ensures MutexInv(s')
  {
  }

  lemma WorkerFifo(s: State, s': State)
    requires FifoInv(s) && (WorkerStep(s, s') || Spurious(s, s'))
    ensures FifoInv(s')
  {
    if s.worker.Decide? && s.alive && s.queue != [] {
      assert s.queue == [s.queue[0]] + s.queue[1..];
    }
  }

  lemma WorkerRest(s: State, s': State)
    requires MutexInv(s) && WakeupInv(s) && CloserInv(s) && JoinInv(s) && (WorkerStep(s, s') || Spurious(s, s'))
    ensures WakeupInv(s') && CloserInv(s') && JoinInv(s')
  {
    assert forall c: nat :: Pc(s', c) == Pc(s, c);
  }

  /** A client's step moves no other client. */
  lemma OthersStay(s: State, s': State, c: nat)
    requires ClientStep(s, s', c)
    ensures forall d: nat :: d != c ==> Pc(s', d) == Pc(s, d)
  {
  }

  lemma OwnLock(s: State, s': State, c: nat)
    requires ClientStep(s, s', c) && (s.lock == Some(Client(c)) <==> ClientHolds(Pc(s, c)))
    ensures s'.lock == Some(Client(c)) <==> ClientHolds(Pc(s', c))
    ensures s'.lock == s.lock || (s.lock.None? && s'.lock == Some(Client(c))) || (s.lock == Some(Client(c))
            && s'.lock.None?)
    ensures WorkerHolds(s'.worker) == WorkerHolds(s.worker)
  {
  }

  lemma ClientMutex(s: State, s': State, c: nat)
    requires MutexInv(s) && ClientStep(s, s', c)
    ensures MutexInv(s')
  {
    hide ClientStep, Pc, ClientHolds, WorkerHolds;
    OthersStay(s, s', c);
    OwnLock(s, s', c);
  }

  lemma ClientFifo(s: State, s': State, c: nat)
    requires FifoInv(s) && ClientStep(s, s', c)
    ensures FifoInv(s')
  {
  }

  lemma ClientWakeup(s: State, s': State, c: nat)
    requires MutexInv(s) && WakeupInv(s) && ClientStep(s, s', c)
    ensures WakeupInv(s')
  {
  }

  lemma OwnClosing(s: State, s': State, c: nat)
    requires ClientStep(s, s', c) && (s.alive <==> s.closer.None?) && (Closing(Pc(s, c)) ==> s.closer == Some(c))
    ensures (s'.alive <==> s'.closer.None?) && (Closing(Pc(s', c)) ==> s'.closer == Some(c))
    ensures s'.closer == s.closer || s.closer.None?
  {
  }

  lemma ClientCloser(s: State, s': State, c: nat)
    requires CloserInv(s) && ClientStep(s, s', c)
    ensures CloserInv(s')
  {
    hide ClientStep, Pc, Closing;
    OthersStay(s, s', c);
    OwnClosing(s, s', c);
  }

  lemma OwnJoin(s: State, s': State, c: nat)
    requires ClientStep(s, s', c) && (Closing(Pc(s, c)) ==> s.closer == Some(c))
    ensures s'.joins == s.joins
            || (s'.joins == s.joins + 1 && s.closer == Some(c) && BeforeJoin(Pc(s, c)) && !BeforeJoin(Pc(s', c)))
    ensures !s.alive ==> !s'.alive && s'.closer == s.closer && (BeforeJoin(Pc(s', c)) ==> BeforeJoin(Pc(s, c)))
    ensures s'.worker.Exited? == s.worker.Exited? && (Pc(s', c) == Returned(true) ==> s.worker.Exited?)
    ensures s'.closer == s.closer || s.alive
  {
  }

  lemma ClientJoin(s: State, s': State, c: nat)
    requires CloserInv(s) && JoinInv(s) && ClientStep(s, s', c)
    ensures JoinInv(s')
  {
    hide ClientStep, Pc, BeforeJoin, Closing;
    OthersStay(s, s', c);
    OwnJoin(s, s', c);
  }

  lemma NextInv(s: State, s': State)
    requires Inv(s) && Next(s, s')
    ensures Inv(s')
  {
    hide MutexInv, FifoInv, WakeupInv, CloserInv, JoinInv, WorkerStep, Spurious, ClientStep;
    if WorkerStep(s, s') || Spurious(s, s') {
      WorkerMutex(s, s');
      WorkerFifo(s, s');
      WorkerRest(s, s');
    } else {
      var c: nat :| ClientStep(s, s', c);
      ClientMutex(s, s', c);
      ClientFifo(s, s', c);
      ClientWakeup(s, s', c);
      ClientCloser(s, s', c);
      ClientJoin(s, s', c);
    }
  }
}
