/** Progress of the worker: once shutdownWorker has cleared the flag, every fair schedule takes the
    worker to its exit and the call that joined back to its caller. Runs are infinite here. */
module WorkerProgress {
  import opened Wrappers
  import opened Worker
  import opened WorkerRuns

  type Schedule = nat -> State

  /** A step of a thread, or a moment in which none is made. */
  ghost predicate Tick(s: State, s': State) {
    Next(s, s') || s' == s
  }

  ghost predicate Infinite(run: Schedule) {
    Init(run(0)) && forall i: nat :: Tick(run(i), run(i + 1))
  }

  /** The scheduler is strongly fair to the worker (tasks terminate, and the mutex is not withheld from
      it for ever): it steps again, or from some point on it can never step. */
  ghost predicate FairToWorker(run: Schedule) {
    forall i: nat :: WorkerStepsFrom(run, i) || StuckFrom(run, i)
  }

  ghost predicate WorkerStepsFrom(run: Schedule, i: nat) {
    exists j: nat :: i <= j && WorkerStep(run(j), run(j + 1))
  }

  ghost predicate StuckFrom(run: Schedule, i: nat) {
    exists k: nat :: i <= k && StuckAt(run, k)
  }

  ghost predicate StuckAt(run: Schedule, k: nat) {
    forall j: nat :: k <= j ==> !WorkerCanStep(run(j))
  }

  /** It is weakly fair to every client: a call that can go on does so, or cannot go on any more. */
  ghost predicate FairToClients(run: Schedule) {
    forall c: nat, i: nat :: ServedFrom(run, c, i)
  }

  ghost predicate ServedFrom(run: Schedule, c: nat, i: nat) {
    exists j: nat :: i <= j && Served(run, c, j)
  }

  ghost predicate Served(run: Schedule, c: nat, j: nat) {
    ClientStep(run(j), run(j + 1), c) || !ClientCanStep(run(j), c)
  }

  ghost predicate Fair(run: Schedule) {
    Infinite(run) && FairToWorker(run) && FairToClients(run)
  }

  lemma {:induction false} RunInv(run: Schedule, i: nat)
    requires Infinite(run)
    ensures Inv(run(i))
  {
    hide Inv, Next, Init;
    if i == 0 {
      InitInv(run(0));
    } else {
      RunInv(run, i - 1);
      assert Tick(run(i - 1), run(i - 1 + 1));
      if run(i) != run(i - 1) {
        NextInv(run(i - 1), run(i));
      }
    }
  }

  // ---- the measure of the worker's way out ----

  function WayOut(pc: WorkerPc): nat {
    match pc
    case Exited => 0
    case Test => 1
    case Unlock => 2
    case Decide => 3
    case Relock => 3
    case Check => 4
    case Running(_) => 4
    case Lock => 5
    case Woken => 5
    case Waiting => 6
  }

  /** With the flag cleared no step takes the worker further from its exit, and its own steps take it nearer. */
  lemma StepsOut(s: State, s': State)
    requires !s.alive && Tick(s, s')
    ensures !s'.alive && WayOut(s'.worker) <= WayOut(s.worker)
    ensures WorkerStep(s, s') ==> WayOut(s'.worker) < WayOut(s.worker)
  {
    hide WorkerStep, Spurious, ClientStep, WayOut;
    if WorkerStep(s, s') || Spurious(s, s') {
      WorkerOut(s, s');
    } else if s' != s {
      var c: nat :| ClientStep(s, s', c);
      ClientOut(s, s', c);
    }
  }

  lemma WorkerOut(s: State, s': State)
    requires !s.alive && (WorkerStep(s, s') || Spurious(s, s'))
    ensures !s'.alive && WayOut(s'.worker) <= WayOut(s.worker)
    ensures WorkerStep(s, s') ==> WayOut(s'.worker) < WayOut(s.worker)
  {
  }

  lemma ClientOut(s: State, s': State, c: nat)
    requires !s.alive && ClientStep(s, s', c)
    ensures !s'.alive && WayOut(s'.worker) <= WayOut(s.worker)
  {
  }

  lemma {:induction false} RunOut(run: Schedule, i: nat, j: nat)
    requires Infinite(run) && i <= j && !run(i).alive
    ensures !run(j).alive && WayOut(run(j).worker) <= WayOut(run(i).worker)
    decreases j
  {
    if i < j {
      hide Next, WayOut, Init;
      RunOut(run, i, j - 1);
      assert Tick(run(j - 1), run(j - 1 + 1));
      StepsOut(run(j - 1), run(j));
    }
  }

  // ---- critical sections end ----

  /** Steps left in a client's critical section. */
  function Inside(pc: ClientPc): nat {
    match pc
    case AddCheck(_) => 3
    case ShutCheck => 3
    case AddNotify => 2
    case ShutNotify => 2
    case Leave(_) => 1
    case ShutUnlock => 1
    case _ => 0
  }

  /** A step of another thread leaves the holder of the mutex where it is. */
  lemma OthersWait(s: State, s': State, c: nat)
    requires Inv(s) && Tick(s, s') && s.lock == Some(Client(c)) && !ClientStep(s, s', c)
    ensures s'.lock == s.lock && Pc(s', c) == Pc(s, c)
  {
    assert MutexInv(s);
    hide Inv, FifoInv, WakeupInv, CloserInv, JoinInv, WorkerStep, Spurious, ClientStep, Pc, ClientHolds;
    if WorkerStep(s, s') || Spurious(s, s') {
      WorkerWaits(s, s', c);
    } else if s' != s {
      var d: nat :| ClientStep(s, s', d);
      OwnLock(s, s', d);
      OthersStay(s, s', d);
    }
  }

  lemma WorkerWaits(s: State, s': State, c: nat)
    requires WorkerStep(s, s') || Spurious(s, s')
    requires s.lock == Some(Client(c)) && !WorkerHolds(s.worker)
    ensures s'.lock == s.lock && Pc(s', c) == Pc(s, c)
  {
  }

  /** The holder's own step brings it nearer to giving the mutex up. */
  lemma HolderStep(s: State, s': State, c: nat)
    requires Inv(s) && s.lock == Some(Client(c)) && ClientStep(s, s', c)
    ensures s'.lock.None? || (s'.lock == s.lock && Inside(Pc(s', c)) < Inside(Pc(s, c)))
  {
    assert ClientHolds(Pc(s, c));
  }

  /** Between i and j the holder of the mutex stayed, or it made a step from where it was. */
  lemma {:induction false} HolderBetween(run: Schedule, c: nat, i: nat, j: nat) returns (k: nat)
    requires Infinite(run) && i <= j && run(i).lock == Some(Client(c))
    ensures i <= k <= j && run(k).lock == run(i).lock && Pc(run(k), c) == Pc(run(i), c)
    ensures k < j ==> ClientStep(run(k), run(k + 1), c)
    decreases j
  {
    hide Inv, Tick, Init, ClientStep, Pc;
    if i == j {
      k := i;
    } else {
      k := HolderBetween(run, c, i, j - 1);
      if k == j - 1 && !ClientStep(run(k), run(k + 1), c) {
        RunInv(run, k);
        assert Tick(run(k), run(k + 1));
        OthersWait(run(k), run(k + 1), c);
        k := j;
      }
    }
  }

  lemma HolderCanStep(s: State, c: nat)
    requires Inv(s) && s.lock == Some(Client(c))
    ensures ClientCanStep(s, c)
  {
    assert ClientHolds(Pc(s, c));
  }

  predicate ClientHasLock(s: State) {
    s.lock.Some? && s.lock.value.Client?
  }

  /** Infinitely often no client has the mutex. */
  lemma {:induction false} LockComesFree(run: Schedule, i: nat) returns (j: nat)
    requires Fair(run)
    ensures i <= j && !ClientHasLock(run(j))
    decreases if ClientHasLock(run(i)) then 1 + Inside(Pc(run(i), run(i).lock.value.id)) else 0
  {
    hide Inv, Tick, Init, ClientStep, ClientCanStep, Pc, Inside;
    if ClientHasLock(run(i)) {
      var c := run(i).lock.value.id;
      assert ServedFrom(run, c, i);
      var served: nat :| i <= served && Served(run, c, served);
      var k := HolderBetween(run, c, i, served);
      RunInv(run, k);
      HolderCanStep(run(k), c);
      HolderStep(run(k), run(k + 1), c);
      j := LockComesFree(run, k + 1);
    } else {
      j := i;
    }
  }

  // ---- progress ----

  /** When no client has the mutex and the flag is cleared, only an exited worker cannot step. In
      particular it does not wait: that would be a lost wakeup. */
  lemma WorkerIsReady(s: State)
    requires Inv(s) && !s.alive && !ClientHasLock(s) && !s.worker.Exited?
    ensures WorkerCanStep(s)
  {
  }

  /** From the point on where it never steps again, the worker has exited. */
  lemma StuckMeansExited(run: Schedule, i: nat) returns (n: nat)
    requires Fair(run) && !run(i).alive && StuckFrom(run, i)
    ensures i <= n && run(n).worker.Exited?
  {
    hide Inv, Tick, Init, WayOut, WorkerCanStep, FairToWorker, FairToClients, ClientHasLock;
    var k: nat :| i <= k && StuckAt(run, k);
    n := LockComesFree(run, k);
    RunOut(run, i, n);
    RunInv(run, n);
    if !run(n).worker.Exited? {
      WorkerIsReady(run(n));
    }
  }

  /** The worker exits after shutdown. */
  lemma {:induction false} WorkerExits(run: Schedule, i: nat) returns (n: nat)
    requires Fair(run) && !run(i).alive
    ensures i <= n && run(n).worker.Exited?
    decreases WayOut(run(i).worker)
  {
    hide Inv, Tick, Init, WayOut, WorkerStep, StuckFrom, FairToClients;
    if WorkerStepsFrom(run, i) {
      var j: nat :| i <= j && WorkerStep(run(j), run(j + 1));
      RunOut(run, i, j);
      assert Tick(run(j), run(j + 1));
      StepsOut(run(j), run(j + 1));
      n := WorkerExits(run, j + 1);
    } else {
      n := StuckMeansExited(run, i);
    }
  }

  /** Steps left for the client that cleared the flag. */
  function ToReturn(pc: ClientPc): nat {
    match pc
    case ShutNotify => 4
    case ShutUnlock => 3
    case JoinCall => 2
    case Joining => 1
    case _ => 0
  }

  lemma ClosingStep(s: State, s': State, c: nat)
    requires Closing(Pc(s, c)) && Pc(s, c) != Returned(true) && ClientStep(s, s', c)
    ensures Closing(Pc(s', c)) && ToReturn(Pc(s', c)) < ToReturn(Pc(s, c))
  {
  }

  lemma ClosingCanStep(s: State, c: nat)
    requires Closing(Pc(s, c)) && Pc(s, c) != Returned(true) && s.worker.Exited?
    ensures ClientCanStep(s, c)
  {
  }

  lemma WorkerStepPc(s: State, s': State, c: nat)
    requires WorkerStep(s, s') || Spurious(s, s')
    ensures Pc(s', c) == Pc(s, c)
  {
  }

  /** A client moves by its own steps only, and an exited worker stays where it is. */
  lemma OwnStepsOnly(s: State, s': State, c: nat)
    requires Tick(s, s') && !ClientStep(s, s', c)
    ensures Pc(s', c) == Pc(s, c)
  {
    hide ClientStep, WorkerStep, Spurious, Pc;
    if WorkerStep(s, s') || Spurious(s, s') {
      WorkerStepPc(s, s', c);
    } else if s' != s {
      var d: nat :| ClientStep(s, s', d);
      OthersStay(s, s', d);
    }
  }

  lemma ExitedStays(s: State, s': State)
    requires Tick(s, s') && s.worker.Exited?
    ensures s'.worker.Exited?
  {
    if s' != s && !WorkerStep(s, s') && !Spurious(s, s') {
      var d: nat :| ClientStep(s, s', d);
    }
  }

  lemma {:induction false} ClientBetween(run: Schedule, c: nat, i: nat, j: nat) returns (k: nat)
    requires Infinite(run) && i <= j && run(i).worker.Exited?
    ensures i <= k <= j && Pc(run(k), c) == Pc(run(i), c) && run(k).worker.Exited? && run(j).worker.Exited?
    ensures k < j ==> ClientStep(run(k), run(k + 1), c)
    decreases j
  {
    hide Tick, Init, ClientStep, Pc;
    if i == j {
      k := i;
    } else {
      k := ClientBetween(run, c, i, j - 1);
      assert Tick(run(j - 1), run(j - 1 + 1));
      ExitedStays(run(j - 1), run(j));
      if k == j - 1 && !ClientStep(run(k), run(k + 1), c) {
        OwnStepsOnly(run(k), run(k + 1), c);
        k := j;
      }
    }
  }

  lemma {:induction false} ReturnsAfterExit(run: Schedule, i: nat, c: nat) returns (n: nat)
    requires Fair(run) && run(i).worker.Exited? && Closing(Pc(run(i), c))
    ensures i <= n && Pc(run(n), c) == Returned(true)
    decreases ToReturn(Pc(run(i), c))
  {
    hide Tick, Init, ClientStep, ClientCanStep, Pc, ToReturn, Closing, FairToWorker;
    if Pc(run(i), c) == Returned(true) {
      n := i;
    } else {
      assert ServedFrom(run, c, i);
      var served: nat :| i <= served && Served(run, c, served);
      var k := ClientBetween(run, c, i, served);
      ClosingCanStep(run(k), c);
      ClosingStep(run(k), run(k + 1), c);
      assert Tick(run(k), run(k + 1));
      ExitedStays(run(k), run(k + 1));
      n := ReturnsAfterExit(run, k + 1, c);
    }
  }

  /** On the way to its return the client that cleared the flag is not diverted. */
  lemma {:induction false} ClosingUntil(run: Schedule, i: nat, j: nat, c: nat) returns (k: nat)
    requires Infinite(run) && i <= j && Closing(Pc(run(i), c))
    ensures i <= k <= j && Closing(Pc(run(k), c)) && (k == j || Pc(run(k), c) == Returned(true))
    decreases j
  {
    hide Tick, Init, ClientStep, Pc, Closing;
    if i == j {
      k := i;
    } else {
      k := ClosingUntil(run, i, j - 1, c);
      if k == j - 1 && Pc(run(k), c) != Returned(true) {
        assert Tick(run(k), run(k + 1));
        if ClientStep(run(k), run(k + 1), c) {
          ClosingStep(run(k), run(k + 1), c);
        } else {
          OwnStepsOnly(run(k), run(k + 1), c);
        }
        k := j;
      }
    }
  }

  lemma ClosingMeansCleared(s: State, c: nat)
    requires Inv(s) && Closing(Pc(s, c))
    ensures !s.alive && (Pc(s, c) == Returned(true) ==> s.worker.Exited?)
  {
  }

  /** The call of shutdownWorker that cleared the flag comes back, with the worker gone. */
  lemma ShutdownCompletes(run: Schedule, i: nat, c: nat)
    requires Fair(run) && Closing(Pc(run(i), c))
    ensures exists n: nat :: i <= n && Pc(run(n), c) == Returned(true) && run(n).worker.Exited?
  {
    hide Tick, Init, Inv, Closing, FairToWorker, FairToClients, Pc;
    RunInv(run, i);
    ClosingMeansCleared(run(i), c);
    var exit := WorkerExits(run, i);
    var n := ClosingUntil(run, i, exit, c);
    if Pc(run(n), c) != Returned(true) {
      n := ReturnsAfterExit(run, exit, c);
    }
    RunInv(run, n);
    assert Closing(Pc(run(n), c)) by { ReturnedIsClosing(run(n), c); }
    ClosingMeansCleared(run(n), c);
  }

  lemma ReturnedIsClosing(s: State, c: nat)
    requires Pc(s, c) == Returned(true)
    ensures Closing(Pc(s, c))
  {
  }

  // ---- queued tasks are run ----

  /** The flag is set and fewer than goal of the accepted tasks are finished. */
  predicate Owed(s: State, goal: nat) {
    s.alive && |s.finished| < goal <= |s.accepted|
  }

  /** Steps of the worker until a task is finished, while there are some. */
  function Togo(pc: WorkerPc): nat {
    match pc
    case Running(_) => 1
    case Decide => 2
    case Check => 3
    case Lock => 4
    case Woken => 4
    case Test => 5
    case Unlock => 6
    case Relock => 7
    case Waiting => 8
    case Exited => 0
  }

  /** A state after another: the flag is cleared, or more tasks are finished, or the worker is no further from
      finishing one. */
  ghost predicate Toward(s: State, s': State) {
    || !s'.alive
    || |s'.finished| > |s.finished|
    || (|s'.finished| == |s.finished| && Togo(s'.worker) <= Togo(s.worker))
  }

  lemma WorkerToward(s: State, s': State, goal: nat)
    requires Inv(s) && Owed(s, goal) && (WorkerStep(s, s') || Spurious(s, s'))
    ensures Toward(s, s') && s'.alive && s'.accepted == s.accepted
    ensures WorkerStep(s, s') ==> |s'.finished| > |s.finished| || Togo(s'.worker) < Togo(s.worker)
  {
    hide MutexInv, CloserInv, WakeupInv;
    assert s.worker.Running? || s.queue != [];
  }

  lemma ClientToward(s: State, s': State, c: nat)
    requires ClientStep(s, s', c)
    ensures Toward(s, s') && s'.finished == s.finished && s.accepted <= s'.accepted && (s'.alive ==> s.alive)
  {
  }

  lemma TickToward(s: State, s': State, goal: nat)
    requires Inv(s) && Owed(s, goal) && Tick(s, s')
    ensures Toward(s, s') && s.accepted <= s'.accepted
    ensures WorkerStep(s, s') ==> |s'.finished| > |s.finished| || Togo(s'.worker) < Togo(s.worker)
  {
    hide Inv, WorkerStep, Spurious, ClientStep, Owed, Togo;
    if WorkerStep(s, s') || Spurious(s, s') {
      WorkerToward(s, s', goal);
    } else if s' != s {
      var c: nat :| ClientStep(s, s', c);
      ClientToward(s, s', c);
    }
  }

  /** What is accepted and finished stays so, and the flag stays cleared. */
  lemma TickOnward(s: State, s': State)
    requires Inv(s) && Tick(s, s')
    ensures s.accepted <= s'.accepted && s.finished <= s'.finished && (s'.alive ==> s.alive)
  {
    hide Inv, Next;
    if s' != s {
      NextOnward(s, s');
    }
  }

  lemma {:induction false} RunToward(run: Schedule, i: nat, j: nat, goal: nat)
    requires Infinite(run) && i <= j && Owed(run(i), goal)
    ensures Toward(run(i), run(j)) && run(i).accepted <= run(j).accepted
    decreases j
  {
    hide Tick, Init, Inv, Togo;
    if i < j {
      RunToward(run, i, j - 1, goal);
      RunInv(run, j - 1);
      assert Tick(run(j - 1), run(j - 1 + 1));
      TickOnward(run(j - 1), run(j));
      if Owed(run(j - 1), goal) {
        TickToward(run(j - 1), run(j), goal);
      }
    }
  }

  /** When no client has the mutex, a worker with tasks to run can step: it does not wait, and has not
      exited. */
  lemma ReadyForTask(s: State, goal: nat)
    requires Inv(s) && Owed(s, goal) && !ClientHasLock(s)
    ensures WorkerCanStep(s)
  {
  }

  /** The run up to a point at which goal tasks are finished, or the flag is cleared. */
  lemma {:induction false} GoalReached(run: Schedule, i: nat, goal: nat) returns (n: nat)
    requires Fair(run) && goal <= |run(i).accepted|
    ensures i <= n && (!run(n).alive || |run(n).finished| >= goal)
    decreases goal - |run(i).finished|, Togo(run(i).worker)
  {
    hide Inv, Tick, Init, Togo, WorkerStep, WorkerCanStep, FairToClients, ClientHasLock;
    if !Owed(run(i), goal) {
      n := i;
    } else if WorkerStepsFrom(run, i) {
      var j: nat :| i <= j && WorkerStep(run(j), run(j + 1));
      RunToward(run, i, j, goal);
      if !Owed(run(j), goal) {
        n := j;
      } else {
        RunInv(run, j);
        assert Tick(run(j), run(j + 1));
        TickToward(run(j), run(j + 1), goal);
        if run(j + 1).alive {
          n := GoalReached(run, j + 1, goal);
        } else {
          n := j + 1;
        }
      }
    } else {
      assert StuckFrom(run, i);
      var k: nat :| i <= k && StuckAt(run, k);
      n := LockComesFree(run, k);
      RunToward(run, i, n, goal);
      RunInv(run, n);
      if Owed(run(n), goal) {
        ReadyForTask(run(n), goal);
      }
    }
  }

  /** In every fair run all tasks that are accepted at some point are finished later, in order, or else
      the flag is cleared. */
  lemma TasksAreRun(run: Schedule, i: nat)
    requires Fair(run)
    ensures exists n: nat :: i <= n && (!run(n).alive || run(i).accepted <= run(n).finished)
  {
    hide Inv, Tick, Init, FairToWorker, FairToClients;
    var n := GoalReached(run, i, |run(i).accepted|);
    RunGrows(run, i, n);
    RunInv(run, n);
    FinishedFirst(run(n));
  }

  /** So while the flag is set every queued task is run, in the order of the queue. */
  lemma QueueIsRun(run: Schedule, i: nat)
    requires Fair(run) && forall j: nat :: i <= j ==> run(j).alive
    ensures exists n: nat :: i <= n && run(i).finished + InFlight(run(i)) + run(i).queue <= run(n).finished
  {
    hide Tick, Init, MutexInv, WakeupInv, CloserInv, JoinInv, FairToWorker, FairToClients;
    TasksAreRun(run, i);
    RunInv(run, i);
    var n: nat :| i <= n && (!run(n).alive || run(i).accepted <= run(n).finished);
  }

  lemma {:induction false} RunGrows(run: Schedule, i: nat, j: nat)
    requires Infinite(run) && i <= j
    ensures run(i).accepted <= run(j).accepted
    decreases j
  {
    hide Tick, Init, Inv;
    if i < j {
      RunGrows(run, i, j - 1);
      RunInv(run, j - 1);
      assert Tick(run(j - 1), run(j - 1 + 1));
      TickOnward(run(j - 1), run(j));
    }
  }

  lemma FinishedFirst(s: State)
    requires Inv(s)
    ensures s.finished <= s.accepted
  {
  }

  // ---- fair runs exist ----

  /** A run that stays in its last state. */
  function Hold(tr: seq<State>): Schedule
    requires tr != []
  {
    (i: nat) => if i < |tr| then tr[i] else tr[|tr| - 1]
  }

  /** Every client is idle or back. */
  ghost predicate Quiet(s: State) {
    forall c: nat :: Pc(s, c).Idle? || Pc(s, c).Returned?
  }

  /** A run that ends quiet and with a worker that cannot step, gone or waiting, stays fair. */
  lemma QuietEndIsFair(tr: seq<State>)
    requires Execution(tr) && !WorkerCanStep(tr[|tr| - 1])
    requires Quiet(tr[|tr| - 1])
    ensures Fair(Hold(tr))
  {
    hide Next, Init, ClientStep, WorkerStep;
    var run := Hold(tr);
    forall i: nat
      ensures Tick(run(i), run(i + 1))
    {
      if i < |tr| - 1 {
        assert Next(tr[i], tr[i + 1]);
      }
    }
    assert StuckAt(run, |tr|);
    forall i: nat
      ensures StuckFrom(run, i)
    {
      assert i <= i + |tr| && StuckAt(run, i + |tr|);
    }
    forall c: nat, i: nat
      ensures ServedFrom(run, c, i)
    {
      assert i <= i + |tr| && Served(run, c, i + |tr|);
    }
  }

  /** Client 1 clears the flag while its task runs. */
  lemma ClearedRun(t: Task) returns (tr: seq<State>)
    ensures tr != [] && Execution(tr)
    ensures tr[|tr| - 1] == State(Some(Client(1)), false, [], Running(t), map[1 := ShutNotify], [t], [], 0, Some(1))
  {
    hide Execution;
    tr := TaskStarts(1, t);
    tr := ClientCalls(tr, 1, ShutLock);
    tr := ClientMoves(tr, 1);
    tr := ClientMoves(tr, 1);
  }

  lemma JoiningRun(tr: seq<State>, t: Task) returns (r: seq<State>)
    requires tr != [] && Execution(tr)
    requires tr[|tr| - 1] == State(Some(Client(1)), false, [], Running(t), map[1 := ShutNotify], [t], [], 0, Some(1))
    ensures r != [] && Execution(r) && tr <= r
    ensures r[|r| - 1] == State(None, false, [], Running(t), map[1 := Joining], [t], [], 1, Some(1))
  {
    hide Execution;
    r := ClientMoves(tr, 1);
    r := ClientMoves(r, 1);
    r := ClientMoves(r, 1);
  }

  lemma ReturnedRun(tr: seq<State>, t: Task) returns (r: seq<State>)
    requires tr != [] && Execution(tr)
    requires tr[|tr| - 1] == State(None, false, [], Running(t), map[1 := Joining], [t], [], 1, Some(1))
    ensures r != [] && Execution(r) && tr <= r
    ensures r[|r| - 1] == State(None, false, [], Exited, map[1 := Returned(true)], [t], [t], 1, Some(1))
  {
    hide Execution;
    r := WorkerMoves(tr);
    r := WorkerMoves(r);
    r := WorkerMoves(r);
    r := WorkerMoves(r);
    r := ClientMoves(r, 1);
  }

  /** There is a fair run in which shutdownWorker clears the flag while a task runs. */
  lemma FairRun(t: Task) returns (run: Schedule, i: nat)
    ensures Fair(run) && Pc(run(i), 1) == ShutNotify && !run(i).alive && run(i).worker == Running(t)
  {
    hide Execution, Fair;
    var cleared := ClearedRun(t);
    var joining := JoiningRun(cleared, t);
    var tr := ReturnedRun(joining, t);
    i := |cleared| - 1;
    QuietEndIsFair(tr);
    run := Hold(tr);
    assert run(i) == tr[i] == joining[i] == cleared[i];
  }

  /** A client's call of addTask on its own. */
  lemma TaskAdded(tr: seq<State>, c: nat, t: Task) returns (r: seq<State>)
    requires tr != [] && Execution(tr)
    requires var s := tr[|tr| - 1]; s.lock.None? && s.alive && Pc(s, c).Idle? && !s.worker.Waiting?
    ensures r != [] && Execution(r) && tr <= r
    ensures var s, e := tr[|tr| - 1], r[|r| - 1];
            e == s.(queue := s.queue + [t], accepted := s.accepted + [t], clients := s.clients[c := Idle])
  {
    hide Execution;
    var s := tr[|tr| - 1];
    r := ClientCalls(tr, c, AddLock(t));
    r := ClientMoves(r, c);
    r := ClientMoves(r, c);
    assert r[|r| - 1].clients == s.clients[c := AddNotify];
    r := ClientMoves(r, c);
    r := ClientMoves(r, c);
    assert r[|r| - 1].clients == s.clients[c := Idle];
  }

  /** One turn of the worker's loop with a task queued. */
  lemma TaskRun(tr: seq<State>) returns (r: seq<State>)
    requires tr != [] && Execution(tr)
    requires var s := tr[|tr| - 1]; s.lock.None? && s.alive && s.worker.Test? && s.queue != []
    ensures r != [] && Execution(r) && tr <= r
    ensures var s, e := tr[|tr| - 1], r[|r| - 1];
            e == s.(queue := s.queue[1..], finished := s.finished + [s.queue[0]])
  {
    hide Execution;
    r := WorkerMoves(tr);
    r := WorkerMoves(r);
    r := WorkerMoves(r);
    r := WorkerMoves(r);
    r := WorkerMoves(r);
    r := WorkerMoves(r);
    r := WorkerMoves(r);
  }

  lemma WorkerWaitsAgain(tr: seq<State>) returns (r: seq<State>)
    requires tr != [] && Execution(tr)
    requires var s := tr[|tr| - 1]; s.lock.None? && s.alive && s.worker.Test? && s.queue == []
    ensures r != [] && Execution(r) && tr <= r && r[|r| - 1] == tr[|tr| - 1].(worker := Waiting)
  {
    hide Execution;
    r := WorkerMoves(tr);
    r := WorkerMoves(r);
    r := WorkerMoves(r);
  }

  /** There is a fair run in which the flag stays set and two tasks are queued before the worker looks. */
  lemma FairBusyRun(t: Task, u: Task) returns (run: Schedule, i: nat)
    ensures Fair(run) && run(i).queue == [t, u] && forall j: nat :: i <= j ==> run(j).alive
  {
    hide Execution, Fair, Infinite;
    var start := [State(None, true, [], Test, map[], [], [], 0, None)];
    assert Execution(start) by { StartOnly(start); }
    var one := TaskAdded(start, 1, t);
    var two := TaskAdded(one, 1, u);
    var run1 := TaskRun(two);
    var run2 := TaskRun(run1);
    var tr := WorkerWaitsAgain(run2);
    i := |two| - 1;
    run := Hold(tr);
    QuietEndIsFair(tr);
    assert run(i) == tr[i] == run2[i] == run1[i] == two[i];
    StaysSet(run, i, |tr|);
  }

  /** A run that is held with the flag set had it set all along. */
  lemma StaysSet(run: Schedule, i: nat, n: nat)
    requires Fair(run) && forall j: nat :: n <= j ==> run(j).alive
    ensures forall j: nat :: i <= j ==> run(j).alive
  {
    hide Tick, Init, FairToWorker, FairToClients;
    forall j: nat | i <= j
      ensures run(j).alive
    {
      if !run(j).alive {
        RunOut(run, j, j + n);
      }
    }
  }
}
