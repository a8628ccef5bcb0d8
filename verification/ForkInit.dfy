/** The executor that each process creates once, and what fork does to it: threads
    of several processes interleaved, one atomic operation at a time. */
module ForkInit {

  /** Where a thread is in `rt`; the last two are the fork handler in the child. */
  datatype Pc =
    | Outside
    | LoadPointer
    | TestFlag
    | TestAtfork
    | Register
    | Create
    | Publish(executor: int)
    | ResetPointer
    | ResetFlag

  /** The three atomics, whether the handler is registered with the system, and the
      threads inside `rt`. `orphan` records that the process was forked off while its
      parent had set the flag but had no handler yet; no step reads it. */
  datatype Process = Process(
    pointer: int, installed: bool, atfork: bool, handler: bool,
    threads: map<int, Pc>, orphan: bool)

  const NULL := 0

  /** `created` maps each executor to the process that made it; `returned` holds the
      results `rt` has given, with the process it gave them in. */
  datatype System = System(processes: map<int, Process>, created: map<int, int>, returned: set<(int, int)>)

  datatype Step =
    | Call(p: int, t: int)
    | Advance(p: int, t: int, made: int)
    | Fork(p: int, t: int, child: int)

  function At(q: Process, t: int): Pc {
    if t in q.threads then q.threads[t] else Outside
  }

  predicate Winning(pc: Pc) {
    pc.TestAtfork? || pc.Register? || pc.Create? || pc.Publish?
  }

  predicate Resetting(pc: Pc) {
    pc.ResetPointer? || pc.ResetFlag?
  }

  /** A new child runs nothing but its fork handler until the handler is done. */
  ghost predicate InHandler(q: Process) {
    exists t :: t in q.threads && Resetting(q.threads[t])
  }

  ghost predicate Enabled(s: System, step: Step) {
    step.p in s.processes &&
    var q := s.processes[step.p];
    match step
    case Call(_, t) => At(q, t).Outside? && !InHandler(q)
    case Advance(_, t, made) => !At(q, t).Outside? && (At(q, t).Create? ==> made != NULL && made !in s.created)
    case Fork(_, t, child) => At(q, t).Outside? && !InHandler(q) && child !in s.processes
  }

  function Moved(q: Process, t: int, pc: Pc): Process {
    q.(threads := q.threads[t := pc])
  }

  /** One atomic operation of thread `t`. */
  function Operate(q: Process, t: int, made: int): Process
    requires !At(q, t).Outside?
  {
    match At(q, t)
    case LoadPointer => Moved(q, t, if q.pointer != NULL then Outside else TestFlag)
    case TestFlag => if q.installed then Moved(q, t, LoadPointer) else Moved(q.(installed := true), t, TestAtfork)
    case TestAtfork => Moved(q.(atfork := true), t, if q.atfork then Create else Register)
    case Register => Moved(q.(handler := true), t, Create)
    case Create => Moved(q, t, Publish(made))
    case Publish(e) => Moved(q.(pointer := e), t, Outside)
    case ResetPointer => Moved(q.(pointer := NULL), t, ResetFlag)
    case ResetFlag => Moved(q.(installed := false), t, Outside)
  }

  /** The child has the forking thread alone, and runs the handler if it is registered. */
  function Child(q: Process, t: int): Process {
    q.(threads := if q.handler then map[t := ResetPointer] else map[],
    orphan := q.installed && !q.handler)
  }

  function Results(p: int, q: Process, t: int): set<(int, int)> {
    match At(q, t)
    case LoadPointer => if q.pointer != NULL then {(p, q.pointer)} else {}
    case Publish(e) => {(p, e)}
    case _ => {}
  }

  function After(s: System, step: Step): System
    requires step.p in s.processes
    requires step.Advance? ==> !At(s.processes[step.p], step.t).Outside?
  {
    var q := s.processes[step.p];
    match step
    case Call(p, t) => s.(processes := s.processes[p := Moved(q, t, LoadPointer)])
    case Advance(p, t, made) =>
      System(s.processes[p := Operate(q, t, made)],
             if At(q, t).Create? then s.created[made := p] else s.created,
             s.returned + Results(p, q, t))
    case Fork(_, t, child) => s.(processes := s.processes[child := Child(q, t)])
  }

  // ---- the invariant of one process ----

  /** The executors that process `p` has made. */
  predicate Made(created: map<int, int>, p: int, e: int) {
    e in created && created[e] == p
  }

  /** At most one thread is past the flag, and then the pointer is still null. */
  ghost predicate WinnerOk(q: Process) {
    && (forall t, u :: t in q.threads && u in q.threads && Winning(q.threads[t]) && Winning(q.threads[u]) ==> t == u)
    && (forall t :: t in q.threads && Winning(q.threads[t]) ==> q.installed && q.pointer == NULL && !q.orphan)
  }

  /** While the fork handler runs nothing else does, and the process owns nothing. */
  ghost predicate HandlerOk(created: map<int, int>, p: int, q: Process) {
    forall t :: t in q.threads && Resetting(q.threads[t]) ==>
      && q.handler && !q.orphan
      && (forall u :: u in q.threads && u != t ==> q.threads[u].Outside?)
      && (q.threads[t].ResetFlag? ==> q.pointer == NULL)
      && (forall e :: e in created ==> created[e] != p)
  }

  /** What the process has made is published, or about to be, and nothing else is. */
  ghost predicate ExecutorOk(created: map<int, int>, p: int, q: Process) {
    && (q.pointer != NULL && !InHandler(q) ==> q.installed && Made(created, p, q.pointer))
    && (forall t :: t in q.threads && q.threads[t].Publish? ==> Made(created, p, q.threads[t].executor) && q.threads[t].executor != NULL)
    && (forall e :: Made(created, p, e) ==>
      q.pointer == e || exists t :: t in q.threads && q.threads[t] == Publish(e))
  }

  /** An executor exists only once the fork handler is registered. */
  ghost predicate AtforkOk(q: Process) {
    && (q.pointer != NULL ==> q.handler)
    && (forall t :: t in q.threads && (q.threads[t].Create? || q.threads[t].Publish?) ==> q.handler)
    && (q.atfork && !q.handler && !q.orphan ==> exists t :: t in q.threads && q.threads[t].Register?)
    && (q.orphan ==> q.installed && q.pointer == NULL && !q.handler)
    && (q.handler ==> q.atfork)
    && (forall t :: t in q.threads && q.threads[t].Register? ==> q.atfork && !q.handler)
  }

  /** A set flag with a null pointer means that some thread is about to store. */
  ghost predicate ProgressOk(q: Process) {
    q.installed && q.pointer == NULL && !q.orphan ==>
      exists t :: t in q.threads && (Winning(q.threads[t]) || Resetting(q.threads[t]))
  }

  ghost predicate ProcessOk(created: map<int, int>, p: int, q: Process) {
    WinnerOk(q) && HandlerOk(created, p, q) && ExecutorOk(created, p, q) && AtforkOk(q) && ProgressOk(q)
  }

  ghost predicate SystemOk(s: System) {
    && (forall p {:trigger ProcessOk(s.created, p, s.processes[p])} :: p in s.processes ==> ProcessOk(s.created, p, s.processes[p]))
    && (forall e :: e in s.created ==> e != NULL && s.created[e] in s.processes)
    && (forall p, e :: (p, e) in s.returned ==> Made(s.created, p, e))
  }

  function Creations(created: map<int, int>, p: int, q: Process, t: int, made: int): map<int, int> {
    if At(q, t).Create? then created[made := p] else created
  }

  /** Only a clear flag lets a thread win, and then nobody else is winning. */
  lemma WinKeepsWinner(q: Process, t: int)
    requires WinnerOk(q) && At(q, t).TestFlag? && !q.installed && q.pointer == NULL && !q.orphan
    ensures WinnerOk(Operate(q, t, NULL))
  {
    assert forall u :: u in q.threads ==> !Winning(q.threads[u]);
  }

  lemma WinnerStaysAlone(q: Process, t: int, made: int)
    requires WinnerOk(q) && Winning(At(q, t))
    ensures WinnerOk(Operate(q, t, made))
  {
    assert forall u :: u in q.threads && Winning(q.threads[u]) ==> u == t;
  }

  lemma OthersKeepWinner(q: Process, t: int, made: int)
    requires WinnerOk(q) && (At(q, t).LoadPointer? || (At(q, t).TestFlag? && q.installed))
    ensures WinnerOk(Operate(q, t, made))
  {
  }

  lemma OperateKeepsWinner(created: map<int, int>, p: int, q: Process, t: int, made: int)
    requires ProcessOk(created, p, q) && !At(q, t).Outside?
    ensures WinnerOk(Operate(q, t, made))
  {
    if Resetting(At(q, t)) {
      assert forall u :: u in q.threads ==> !Winning(q.threads[u]);
    } else if Winning(At(q, t)) {
      WinnerStaysAlone(q, t, made);
    } else if At(q, t).TestFlag? && !q.installed {
      WinKeepsWinner(q, t);
    } else {
      OthersKeepWinner(q, t, made);
    }
  }

  lemma OperateKeepsHandler(created: map<int, int>, p: int, q: Process, t: int, made: int)
    requires ProcessOk(created, p, q) && !At(q, t).Outside?
    ensures HandlerOk(Creations(created, p, q, t, made), p, Operate(q, t, made))
  {
  }

  lemma OperateKeepsExecutor(created: map<int, int>, p: int, q: Process, t: int, made: int)
    requires ProcessOk(created, p, q) && !At(q, t).Outside?
    requires At(q, t).Create? ==> made != NULL && made !in created
    requires NULL !in created
    ensures ExecutorOk(Creations(created, p, q, t, made), p, Operate(q, t, made))
  {
    var created', q' := Creations(created, p, q, t, made), Operate(q, t, made);
    forall e | Made(created', p, e)
      ensures q'.pointer == e || exists u :: u in q'.threads && q'.threads[u] == Publish(e)
    {
      if At(q, t).Create? && e == made {
        assert q'.threads[t] == Publish(e);
      } else if q.pointer != e {
        var u :| u in q.threads && q.threads[u] == Publish(e);
        assert q'.pointer == e || q'.threads[u] == Publish(e);
      }
    }
  }

  lemma OperateKeepsAtfork(created: map<int, int>, p: int, q: Process, t: int, made: int)
    requires ProcessOk(created, p, q) && !At(q, t).Outside?
    ensures AtforkOk(Operate(q, t, made))
  {
    var q' := Operate(q, t, made);
    if At(q, t).TestAtfork? {
      assert q'.threads[t] == if q.atfork then Create else Register;
    } else if q.atfork && !q.handler && !q.orphan {
      var u :| u in q.threads && q.threads[u].Register?;
      assert q'.handler || q'.threads[u].Register?;
    }
  }

  lemma OperateKeepsProgress(created: map<int, int>, p: int, q: Process, t: int, made: int)
    requires ProcessOk(created, p, q) && !At(q, t).Outside?
    requires At(q, t).Create? ==> made != NULL
    ensures ProgressOk(Operate(q, t, made))
  {
    var q' := Operate(q, t, made);
    if Winning(q'.threads[t]) || Resetting(q'.threads[t]) {
    } else if q.installed && q.pointer == NULL && !q.orphan {
      var u :| u in q.threads && (Winning(q.threads[u]) || Resetting(q.threads[u]));
      assert u != t ==> q'.threads[u] == q.threads[u];
    }
  }

  // ---- steps of the whole system ----

  lemma OtherProcessKept(created: map<int, int>, created': map<int, int>, p: int, q: Process)
    requires ProcessOk(created, p, q)
    requires forall e :: Made(created, p, e) <==> Made(created', p, e)
    ensures ProcessOk(created', p, q)
  {
    forall e | e in created' ensures created'[e] == p ==> Made(created, p, e) {
      assert created'[e] == p ==> Made(created', p, e);
    }
  }

  lemma AdvanceKeepsSystem(s: System, p: int, t: int, made: int)
    requires SystemOk(s) && Enabled(s, Advance(p, t, made))
    ensures SystemOk(After(s, Advance(p, t, made)))
  {
    var q, s' := s.processes[p], After(s, Advance(p, t, made));
    assert ProcessOk(s.created, p, q);
    OperateKeepsWinner(s.created, p, q, t, made);
    OperateKeepsHandler(s.created, p, q, t, made);
    OperateKeepsExecutor(s.created, p, q, t, made);
    OperateKeepsAtfork(s.created, p, q, t, made);
    OperateKeepsProgress(s.created, p, q, t, made);
    forall p' | p' in s'.processes ensures ProcessOk(s'.created, p', s'.processes[p']) {
      if p' != p {
        assert ProcessOk(s.created, p', s.processes[p']);
        OtherProcessKept(s.created, s'.created, p', s.processes[p']);
      }
    }
  }

  lemma CallKeepsProcess(created: map<int, int>, p: int, q: Process, t: int)
    requires ProcessOk(created, p, q) && At(q, t).Outside? && !InHandler(q)
    ensures ProcessOk(created, p, Moved(q, t, LoadPointer))
  {
    var q' := Moved(q, t, LoadPointer);
    assert forall u :: u in q.threads && !q.threads[u].Outside? ==> u != t && u in q'.threads && q'.threads[u] == q.threads[u];
  }

  lemma CallKeepsSystem(s: System, p: int, t: int)
    requires SystemOk(s) && Enabled(s, Call(p, t))
    ensures SystemOk(After(s, Call(p, t)))
  {
    var s' := After(s, Call(p, t));
    assert ProcessOk(s.created, p, s.processes[p]);
    CallKeepsProcess(s.created, p, s.processes[p], t);
    forall p' | p' in s'.processes ensures ProcessOk(s'.created, p', s'.processes[p']) {
      if p' != p {
        assert ProcessOk(s.created, p', s.processes[p']);
      }
    }
  }

  lemma ForkKeepsSystem(s: System, p: int, t: int, child: int)
    requires SystemOk(s) && Enabled(s, Fork(p, t, child))
    ensures SystemOk(After(s, Fork(p, t, child)))
  {
    var q, s' := s.processes[p], After(s, Fork(p, t, child));
    assert ProcessOk(s.created, p, q);
    assert ProcessOk(s'.created, child, s'.processes[child]) by {
      if q.handler {
        assert s'.processes[child].threads[t].ResetPointer?;
      }
    }
    forall p' | p' in s'.processes ensures ProcessOk(s'.created, p', s'.processes[p']) {
      if p' != child {
        assert ProcessOk(s.created, p', s.processes[p']);
      }
    }
  }

  lemma StepKeepsSystem(s: System, step: Step)
    requires SystemOk(s) && Enabled(s, step)
    ensures SystemOk(After(s, step))
  {
    match step
    case Call(p, t) => CallKeepsSystem(s, p, t);
    case Advance(p, t, made) => AdvanceKeepsSystem(s, p, t, made);
    case Fork(p, t, child) => ForkKeepsSystem(s, p, t, child);
  }

  // ---- every run ----

  ghost predicate Initial(s: System) {
    && s.created == map[] && s.returned == {}
    && forall p :: p in s.processes ==> s.processes[p] == Process(NULL, false, false, false, map[], false)
  }

  ghost predicate IsRun(s: System, steps: seq<Step>)
    decreases |steps|
  {
    steps == [] || (Enabled(s, steps[0]) && IsRun(After(s, steps[0]), steps[1..]))
  }

  ghost function Outcome(s: System, steps: seq<Step>): System
    requires IsRun(s, steps)
    decreases |steps|
  {
    if steps == [] then s else Outcome(After(s, steps[0]), steps[1..])
  }

  lemma {:induction false} EveryRunKeepsSystem(s: System, steps: seq<Step>)
    requires SystemOk(s) && IsRun(s, steps)
    ensures SystemOk(Outcome(s, steps))
    decreases |steps|
  {
    if steps != [] {
      StepKeepsSystem(s, steps[0]);
      EveryRunKeepsSystem(After(s, steps[0]), steps[1..]);
    }
  }

  /** In every run, whatever the forks: a process creates at most one executor and
      every return in that process is that one, never an ancestor's. */
  lemma OneExecutorPerProcess(s: System, steps: seq<Step>, p: int, e: int, e': int)
    requires Initial(s) && IsRun(s, steps)
    ensures var s' := Outcome(s, steps);
      && (Made(s'.created, p, e) && Made(s'.created, p, e') ==> e == e')
      && ((p, e) in s'.returned ==> Made(s'.created, p, e))
      && ((p, e) in s'.returned && (p, e') in s'.returned ==> e == e')
  {
    EveryRunKeepsSystem(s, steps);
    var s' := Outcome(s, steps);
    if Made(s'.created, p, e) && Made(s'.created, p, e') {
      assert ProcessOk(s'.created, p, s'.processes[p]);
    }
  }

  /** The flag is set and no thread is left that could store. */
  ghost predicate Stuck(q: Process) {
    && q.installed && q.pointer == NULL && !q.handler
    && forall t :: t in q.threads ==> q.threads[t].Outside? || q.threads[t].LoadPointer? || q.threads[t].TestFlag?
  }

  /** Stuck processes are those forked off before the handler was registered. */
  lemma StuckIffOrphan(created: map<int, int>, p: int, q: Process)
    requires ProcessOk(created, p, q)
    ensures Stuck(q) <==> q.orphan
  {
  }

  /** A set flag with a null pointer means that some thread of that process is
      between winning and storing or still in the fork handler, unless the process
      is stuck. */
  lemma NullFlagMeansStoring(s: System, steps: seq<Step>, p: int)
    requires Initial(s) && IsRun(s, steps) && p in Outcome(s, steps).processes
    ensures var q := Outcome(s, steps).processes[p];
      q.installed && q.pointer == NULL ==>
        (Stuck(q) <==> !exists t :: t in q.threads && (Winning(q.threads[t]) || Resetting(q.threads[t])))
  {
    EveryRunKeepsSystem(s, steps);
    var q := Outcome(s, steps).processes[p];
    assert ProcessOk(Outcome(s, steps).created, p, q);
    StuckIffOrphan(Outcome(s, steps).created, p, q);
  }

  /** The system never gets the handler twice: it is not registered yet when a thread is
      about to, and a registered one is inherited by every child with the flag that
      says so. */
  lemma RegistersOnce(s: System, steps: seq<Step>, p: int, t: int)
    requires Initial(s) && IsRun(s, steps) && p in Outcome(s, steps).processes
    ensures var q := Outcome(s, steps).processes[p];
      (At(q, t).Register? ==> !q.handler) && (q.handler ==> q.atfork) && (q.pointer != NULL ==> q.handler)
  {
    EveryRunKeepsSystem(s, steps);
    assert ProcessOk(Outcome(s, steps).created, p, Outcome(s, steps).processes[p]);
  }

  /** A child starts with its parent's three atomics and at most the forking thread,
      which runs the handler exactly if it is registered; nothing else changes. */
  lemma ForkInherits(s: System, p: int, t: int, child: int)
    requires Enabled(s, Fork(p, t, child))
    ensures var s' := After(s, Fork(p, t, child));
      var q, c := s.processes[p], s'.processes[child];
      && (c.pointer, c.installed, c.atfork, c.handler) == (q.pointer, q.installed, q.atfork, q.handler)
      && (forall u :: At(c, u) == if u == t && q.handler then ResetPointer else Outside)
      && s'.processes - {child} == s.processes && s'.created == s.created && s'.returned == s.returned
  {
    assert s.processes[child := Child(s.processes[p], t)] - {child} == s.processes;
  }

  // ---- forks taken before the handler is registered ----

  /** A fork leaves the child stuck exactly when the parent has set the flag and has
      not registered the handler. */
  lemma ForkSticksIff(s: System, p: int, t: int, child: int)
    requires SystemOk(s) && Enabled(s, Fork(p, t, child))
    ensures Stuck(After(s, Fork(p, t, child)).processes[child]) <==>
      s.processes[p].installed && !s.processes[p].handler
  {
    assert ProcessOk(s.created, p, s.processes[p]);
  }

  /** A stuck process never creates or returns an executor, whatever happens next. */
  lemma {:induction false} StuckForever(s: System, steps: seq<Step>, p: int)
    requires IsRun(s, steps) && p in s.processes && Stuck(s.processes[p])
    ensures var s' := Outcome(s, steps);
      && p in s'.processes && Stuck(s'.processes[p])
      && (forall e :: (p, e) in s'.returned ==> (p, e) in s.returned)
      && (forall e :: Made(s'.created, p, e) ==> Made(s.created, p, e))
    decreases |steps|
  {
    if steps != [] {
      StuckForever(After(s, steps[0]), steps[1..], p);
    }
  }

  /** Such a fork does happen: one thread wins the flag, another forks. */
  lemma StickingForkIsReachable(s: System, p: int, child: int) returns (steps: seq<Step>)
    requires Initial(s) && p in s.processes && child !in s.processes
    ensures IsRun(s, steps) && child in Outcome(s, steps).processes && Stuck(Outcome(s, steps).processes[child])
  {
    var call, load, test, fork := Call(p, 1), Advance(p, 1, NULL), Advance(p, 1, NULL), Fork(p, 2, child);
    var s1 := After(s, call);
    var s2 := After(s1, load);
    var s3 := After(s2, test);
    var s4 := After(s3, fork);
    assert IsRun(s4, []);
    assert IsRun(s3, [fork]) && Outcome(s3, [fork]) == s4;
    assert [test, fork][1..] == [fork];
    assert IsRun(s2, [test, fork]) && Outcome(s2, [test, fork]) == s4;
    assert [load, test, fork][1..] == [test, fork];
    assert IsRun(s1, [load, test, fork]) && Outcome(s1, [load, test, fork]) == s4;
    steps := [call, load, test, fork];
    assert steps[1..] == [load, test, fork];
  }
}
