/** What the worker guarantees over whole runs: order, exactly-once, no lost wakeup, and shutdown. */
module WorkerRuns {
  import opened Wrappers
  import opened Worker

  lemma {:induction false} ExecutionInv(tr: seq<State>, i: nat)
    requires Execution(tr) && i < |tr|
    ensures Inv(tr[i])
  {
    hide Inv, Next, Init;
    if i == 0 {
      InitInv(tr[0]);
    } else {
      ExecutionInv(tr, i - 1);
      NextInv(tr[i - 1], tr[i]);
    }
  }

  /** In every reachable state: if the worker is blocked in wait and no notification is on its way,
      there is nothing to wake up for. */
  lemma NoLostWakeup(tr: seq<State>, i: nat)
    requires Execution(tr) && i < |tr| && tr[i].worker.Waiting? && !NotifyPending(tr[i])
    ensures tr[i].queue == [] && tr[i].alive
  {
    ExecutionInv(tr, i);
  }

  /** In every reachable state the accepted tasks are, in order, the finished ones, at most one in
      flight, and the queued ones; so what has finished is a prefix of what was accepted. */
  lemma ExactlyOnceInOrder(tr: seq<State>, i: nat)
    requires Execution(tr) && i < |tr|
    ensures var s := tr[i];
            s.accepted == s.finished + InFlight(s) + s.queue && |InFlight(s)| <= 1 && s.finished <= s.accepted
  {
    ExecutionInv(tr, i);
  }

  // ---- what a step can change ----

  ghost predicate Onward(s: State, s': State) {
    && s.finished <= s'.finished && s.accepted <= s'.accepted
    && (!s.alive ==> !s'.alive && s'.accepted == s.accepted && s'.queue == s.queue
                     && s'.finished + InFlight(s') == s.finished + InFlight(s))
    && (s.worker.Exited? ==> s'.worker.Exited?)
  }

  lemma NextOnward(s: State, s': State)
    requires Inv(s) && Next(s, s')
    ensures Onward(s, s')
  {
    hide Inv, WorkerStep, Spurious, ClientStep, Onward;
    if WorkerStep(s, s') || Spurious(s, s') {
      WorkerOnward(s, s');
    } else {
      var c: nat :| ClientStep(s, s', c);
      ClientOnward(s, s', c);
    }
  }

  lemma WorkerOnward(s: State, s': State)
    requires WorkerStep(s, s') || Spurious(s, s')
    ensures Onward(s, s')
  {
  }

  lemma ClientOnward(s: State, s': State, c: nat)
    requires ClientStep(s, s', c)
    ensures Onward(s, s')
  {
  }

  lemma OnwardSame(s: State)
    ensures Onward(s, s)
  {
  }

  lemma OnwardTrans(s: State, m: State, e: State)
    requires Onward(s, m) && Onward(m, e)
    ensures Onward(s, e)
  {
  }

  lemma {:induction false} RunOnward(tr: seq<State>, i: nat, j: nat)
    requires Execution(tr) && i <= j < |tr|
    ensures Onward(tr[i], tr[j])
    decreases j
  {
    hide Inv, Next, Init, Onward;
    if i == j {
      OnwardSame(tr[i]);
    } else {
      RunOnward(tr, i, j - 1);
      ExecutionInv(tr, j - 1);
      NextOnward(tr[j - 1], tr[j]);
      OnwardTrans(tr[i], tr[j - 1], tr[j]);
    }
  }

  /** Once the flag is cleared nothing is accepted and nothing is taken from the queue; a task in
      flight may finish. When the worker has exited, the list of finished tasks is final. */
  lemma ShutdownIsFinal(tr: seq<State>, i: nat, j: nat)
    requires Execution(tr) && i <= j < |tr| && !tr[i].alive
    ensures !tr[j].alive && tr[j].accepted == tr[i].accepted && tr[j].queue == tr[i].queue
    ensures tr[j].finished == tr[i].finished || tr[j].finished == tr[i].finished + InFlight(tr[i])
    ensures tr[i].worker.Exited? ==> tr[j].worker.Exited? && tr[j].finished == tr[i].finished
  {
    RunOnward(tr, i, j);
  }

  /** However many clients race into shutdownWorker, join is called at most once. The call that joined
      comes back only when the worker has exited: from then on nothing ever runs. */
  lemma ShutdownReturns(tr: seq<State>, i: nat, j: nat, c: nat)
    requires Execution(tr) && i <= j < |tr|
    ensures tr[j].joins <= 1
    ensures Pc(tr[i], c) == Returned(true) ==>
              tr[j].worker.Exited? && tr[j].finished == tr[i].finished && tr[j].accepted == tr[j].finished + tr[j].queue
  {
    ExecutionInv(tr, i);
    ExecutionInv(tr, j);
    RunOnward(tr, i, j);
  }

  // ---- what a step does to a task ----

  /** With the flag set and tasks queued, the worker that holds the mutex takes the first task and gives
      the mutex up; when the task returns, or throws, it counts as finished. */
  lemma TakesFirst(s: State, s': State)
    requires WorkerStep(s, s')
    ensures s.worker.Decide? && s.alive && s.queue != [] ==>
              s' == s.(worker := Running(s.queue[0]), queue := s.queue[1..], lock := None)
    ensures s.worker.Running? ==> s' == s.(worker := Relock, finished := s.finished + [s.worker.task])
  {
  }

  /** A client in addTask with the mutex: with the flag set its task goes to the end of the queue and a
      notification follows, unless the push throws; with the flag cleared, or after a throw, nothing
      changes but the client. */
  lemma AddsLast(s: State, s': State, c: nat)
    requires Pc(s, c).AddCheck? && ClientStep(s, s', c)
    ensures var t := Pc(s, c).task;
            var pushed := s.(queue := s.queue + [t], accepted := s.accepted + [t],
                             clients := s.clients[c := AddNotify]);
            s' == s.(clients := s.clients[c := Leave(false)]) || (s.alive && s' == pushed)
    ensures s.alive ==> ClientStep(s, s.(queue := s.queue + [Pc(s, c).task], accepted := s.accepted + [Pc(s, c).task],
                                         clients := s.clients[c := AddNotify]), c)
  {
  }

  // ---- a shutdown call that does not wait ----

  lemma Extend(tr: seq<State>, s: State)
    requires Execution(tr) && Next(tr[|tr| - 1], s)
    ensures Execution(tr + [s])
  {
    hide Next;
    var longer := tr + [s];
    forall i | 0 <= i < |longer| - 1
      ensures Next(longer[i], longer[i + 1])
    {
      if i < |tr| - 1 {
        assert longer[i] == tr[i] && longer[i + 1] == tr[i + 1];
      }
    }
  }

  lemma ClientMoves(tr: seq<State>, c: nat) returns (r: seq<State>)
    requires Execution(tr) && ClientCanStep(tr[|tr| - 1], c)
    ensures Execution(r) && r == tr + [ClientNext(tr[|tr| - 1], c)]
  {
    assert ClientStep(tr[|tr| - 1], ClientNext(tr[|tr| - 1], c), c);
    Extend(tr, ClientNext(tr[|tr| - 1], c));
    r := tr + [ClientNext(tr[|tr| - 1], c)];
  }

  lemma ClientCalls(tr: seq<State>, c: nat, pc: ClientPc) returns (r: seq<State>)
    requires Execution(tr) && Pc(tr[|tr| - 1], c).Idle? && (pc.ShutLock? || pc.AddLock?)
    ensures Execution(r) && r == tr + [Goto(tr[|tr| - 1], c, pc)]
  {
    assert Calls(tr[|tr| - 1], Goto(tr[|tr| - 1], c, pc), c);
    assert ClientStep(tr[|tr| - 1], Goto(tr[|tr| - 1], c, pc), c);
    Extend(tr, Goto(tr[|tr| - 1], c, pc));
    r := tr + [Goto(tr[|tr| - 1], c, pc)];
  }

  lemma WorkerMoves(tr: seq<State>) returns (r: seq<State>)
    requires Execution(tr) && WorkerCanStep(tr[|tr| - 1])
    ensures Execution(r) && r == tr + [WorkerNext(tr[|tr| - 1])]
  {
    Extend(tr, WorkerNext(tr[|tr| - 1]));
    r := tr + [WorkerNext(tr[|tr| - 1])];
  }

  /** Client c adds a task that the worker then runs. */
  lemma TaskStarts(c: nat, t: Task) returns (tr: seq<State>)
    ensures Execution(tr) && tr[|tr| - 1] == State(None, true, [], Running(t), map[c := Idle], [t], [], 0, None)
  {
    hide Execution;
    tr := [State(None, true, [], Test, map[], [], [], 0, None)];
    assert Execution(tr) by { StartOnly(tr); }
    tr := ClientCalls(tr, c, AddLock(t));
    tr := ClientMoves(tr, c);
    tr := ClientMoves(tr, c);
    assert tr[|tr| - 1].queue == [t] && tr[|tr| - 1].accepted == [t];
    tr := ClientMoves(tr, c);
    tr := ClientMoves(tr, c);
    assert tr[|tr| - 1] == State(None, true, [t], Test, map[c := Idle], [t], [], 0, None);
    tr := WorkerMoves(tr);
    tr := WorkerMoves(tr);
    tr := WorkerMoves(tr);
    tr := WorkerMoves(tr);
  }

  lemma StartOnly(tr: seq<State>)
    requires |tr| == 1 && Init(tr[0])
    ensures Execution(tr)
  {
  }

  lemma SecondCallerRun(t: Task) returns (tr: seq<State>)
    ensures tr != [] && Execution(tr) && Pc(tr[|tr| - 1], 2) == Returned(false) && tr[|tr| - 1].worker == Running(t)
  {
    hide Execution;
    tr := TaskStarts(1, t);
    tr := ClientCalls(tr, 1, ShutLock);
    tr := ClientMoves(tr, 1);
    tr := ClientMoves(tr, 1);
    tr := ClientMoves(tr, 1);
    tr := ClientMoves(tr, 1);
    assert tr[|tr| - 1] == State(None, false, [], Running(t), map[1 := JoinCall], [t], [], 0, Some(1));
    tr := ClientCalls(tr, 2, ShutLock);
    tr := ClientMoves(tr, 2);
    tr := ClientMoves(tr, 2);
    tr := ClientMoves(tr, 2);
  }

  /** A second caller of shutdownWorker can be back while the worker still runs a task: only the caller
      that finds the flag set waits for the worker. */
  lemma SecondCallerDoesNotWait(t: Task)
    ensures exists tr: seq<State> ::
              Execution(tr) && Pc(tr[|tr| - 1], 2) == Returned(false) && tr[|tr| - 1].worker == Running(t)
  {
    hide Execution;
    var tr := SecondCallerRun(t);
  }

  /** What a return from shutdownWorker says: every return with this value finds the worker gone, if and
      only if the value is that of the call that joined. */
  lemma ReturnMeansExited(joined: bool)
    ensures (forall tr: seq<State>, i: nat, c: nat ::
               Execution(tr) && i < |tr| && Pc(tr[i], c) == Returned(joined) ==> tr[i].worker.Exited?)
            <==> joined
  {
    hide Execution, Pc;
    if joined {
      forall tr: seq<State>, i: nat, c: nat | Execution(tr) && i < |tr| && Pc(tr[i], c) == Returned(true)
        ensures tr[i].worker.Exited?
      {
        ShutdownReturns(tr, i, i, c);
      }
    } else {
      var tr := SecondCallerRun(0);
      assert Pc(tr[|tr| - 1], 2) == Returned(false) && !tr[|tr| - 1].worker.Exited?;
    }
  }
}
