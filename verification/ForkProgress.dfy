/** From every reachable state a thread that calls `rt` can get an executor, unless its
    process is stuck: which forks the code survives, exactly. */
module ForkProgress {
  import opened ForkInit
  import Sums

  // ---- building runs ----

  /** The step is the one with which a thread leaves `rt` with its result. */
  ghost predicate IsReturn(s: System, p: int, t: int, step: Step)
    requires Enabled(s, step)
  {
    step.Advance? && step.p == p && step.t == t && Results(p, s.processes[p], t) != {}
  }

  /** The thread returns from `rt` during the run. */
  ghost predicate Returns(s: System, p: int, t: int, steps: seq<Step>)
    requires IsRun(s, steps)
    decreases |steps|
  {
    steps != [] && (IsReturn(s, p, t, steps[0]) || Returns(After(s, steps[0]), p, t, steps[1..]))
  }

  /** What is returned is recorded, so a run with a return has its result. */
  lemma {:induction false} ReturnsAreRecorded(s: System, p: int, t: int, steps: seq<Step>)
    requires IsRun(s, steps) && Returns(s, p, t, steps)
    ensures exists e :: (p, e) in Outcome(s, steps).returned
    decreases |steps|
  {
    var s1 := After(s, steps[0]);
    if IsReturn(s, p, t, steps[0]) {
      var r :| r in Results(p, s.processes[p], t);
      RecordsStay(s1, steps[1..], r);
    } else {
      ReturnsAreRecorded(s1, p, t, steps[1..]);
    }
  }

  lemma {:induction false} RecordsStay(s: System, steps: seq<Step>, r: (int, int))
    requires IsRun(s, steps) && r in s.returned
    ensures r in Outcome(s, steps).returned
    decreases |steps|
  {
    if steps != [] {
      RecordsStay(After(s, steps[0]), steps[1..], r);
    }
  }

  lemma {:induction false} Join(s: System, steps: seq<Step>, more: seq<Step>)
    requires IsRun(s, steps) && IsRun(Outcome(s, steps), more)
    ensures IsRun(s, steps + more) && Outcome(s, steps + more) == Outcome(Outcome(s, steps), more)
    ensures forall p, t :: Returns(Outcome(s, steps), p, t, more) ==> Returns(s, p, t, steps + more)
    decreases |steps|
  {
    if steps == [] {
      assert steps + more == more;
    } else {
      assert (steps + more)[1..] == steps[1..] + more;
      Join(After(s, steps[0]), steps[1..], more);
    }
  }

  lemma Prepend(s: System, step: Step, rest: seq<Step>)
    requires Enabled(s, step) && IsRun(After(s, step), rest)
    ensures IsRun(s, [step] + rest) && Outcome(s, [step] + rest) == Outcome(After(s, step), rest)
    ensures forall p, t :: Returns(s, p, t, [step] + rest) <==> IsReturn(s, p, t, step) || Returns(After(s, step), p, t, rest)
  {
    assert ([step] + rest)[1..] == rest;
  }

  /** There is always an executor not made yet. */
  lemma {:induction false} Unused(made: set<int>) returns (e: int)
    ensures e > 0 && e !in made && forall x :: x in made ==> x < e
    decreases |made|
  {
    e := 1;
    Sums.NonEmpty(made);
    if made != {} {
      var x :| x in made;
      var above := Unused(made - {x});
      e := if x < above then above else x + 1;
      assert made == (made - {x}) + {x};
    }
  }

  // ---- the stages ----

  ghost predicate InProcess(s: System, p: int) {
    SystemOk(s) && p in s.processes
  }

  /** The other threads of the process are where they were. */
  ghost predicate OthersStay(q: Process, q': Process, t: int) {
    forall u :: u != t ==> At(q', u) == At(q, u)
  }

  /** An executor is there for all to take. */
  ghost predicate Ready(s: System, p: int) {
    InProcess(s, p) && s.processes[p].pointer != NULL && !InHandler(s.processes[p])
  }

  /** Nobody has started. */
  ghost predicate Clear(s: System, p: int) {
    && InProcess(s, p) && s.processes[p].pointer == NULL && !s.processes[p].installed
    && !InHandler(s.processes[p])
  }

  function ToGo(pc: Pc): nat {
    match pc
    case TestAtfork => 4
    case Register => 3
    case Create => 2
    case Publish(_) => 1
    case _ => 0
  }

  lemma WinnerStep(s: System, p: int, w: int, made: int)
    requires InProcess(s, p) && Winning(At(s.processes[p], w)) && made != NULL && made !in s.created
    ensures Enabled(s, Advance(p, w, made)) && InProcess(After(s, Advance(p, w, made)), p)
    ensures var s' := After(s, Advance(p, w, made));
      var q, q' := s.processes[p], s'.processes[p];
      && OthersStay(q, q', w) && !InHandler(q')
      && (if At(q, w).Publish? then At(q', w).Outside? && q'.pointer != NULL && IsReturn(s, p, w, Advance(p, w, made))
          else Winning(At(q', w)) && ToGo(At(q', w)) < ToGo(At(q, w)))
  {
    var q := s.processes[p];
    assert ProcessOk(s.created, p, q);
    StepKeepsSystem(s, Advance(p, w, made));
    if At(q, w).Publish? {
      assert (p, At(q, w).executor) in Results(p, q, w);
    }
  }

  /** The winner publishes an executor. */
  lemma {:induction false} WinnerFinishes(s: System, p: int, w: int) returns (steps: seq<Step>)
    requires InProcess(s, p) && Winning(At(s.processes[p], w))
    ensures IsRun(s, steps) && Returns(s, p, w, steps)
    ensures var s' := Outcome(s, steps);
      && Ready(s', p) && At(s'.processes[p], w).Outside?
      && OthersStay(s.processes[p], s'.processes[p], w)
    decreases ToGo(At(s.processes[p], w))
  {
    var made := Unused(s.created.Keys);
    var step := Advance(p, w, made);
    WinnerStep(s, p, w, made);
    var rest := [];
    if !At(s.processes[p], w).Publish? {
      rest := WinnerFinishes(After(s, step), p, w);
    }
    steps := [step] + rest;
    Prepend(s, step, rest);
  }

  /** Where a caller that has not won can be. */
  predicate Asking(pc: Pc) {
    pc.LoadPointer? || pc.TestFlag?
  }

  lemma CallStep(s: System, p: int, t: int)
    requires InProcess(s, p) && !InHandler(s.processes[p]) && At(s.processes[p], t).Outside?
    ensures Enabled(s, Call(p, t)) && InProcess(After(s, Call(p, t)), p)
    ensures var q, q' := s.processes[p], After(s, Call(p, t)).processes[p];
      At(q', t).LoadPointer? && q'.pointer == q.pointer && q'.installed == q.installed && !InHandler(q')
  {
    StepKeepsSystem(s, Call(p, t));
  }

  lemma AskStep(s: System, p: int, t: int)
    requires InProcess(s, p) && !InHandler(s.processes[p]) && Asking(At(s.processes[p], t))
    ensures Enabled(s, Advance(p, t, NULL)) && InProcess(After(s, Advance(p, t, NULL)), p)
    ensures var s' := After(s, Advance(p, t, NULL));
      var q, q' := s.processes[p], s'.processes[p];
      && q'.pointer == q.pointer && !InHandler(q')
      && (At(q, t).LoadPointer? && q.pointer != NULL ==> At(q', t).Outside? && IsReturn(s, p, t, Advance(p, t, NULL)))
      && (At(q, t).LoadPointer? && q.pointer == NULL ==> At(q', t).TestFlag? && q'.installed == q.installed)
      && (At(q, t).TestFlag? && q.installed ==> At(q', t).LoadPointer? && q'.installed)
      && (At(q, t).TestFlag? && !q.installed ==> Winning(At(q', t)))
  {
    var q := s.processes[p];
    StepKeepsSystem(s, Advance(p, t, NULL));
    if At(q, t).LoadPointer? && q.pointer != NULL {
      assert (p, q.pointer) in Results(p, q, t);
    }
  }

  /** With an executor published a caller returns in at most two steps. */
  lemma {:induction false} TakesIt(s: System, p: int, t: int) returns (steps: seq<Step>)
    requires Ready(s, p) && Asking(At(s.processes[p], t))
    ensures IsRun(s, steps) && Returns(s, p, t, steps)
    ensures var s' := Outcome(s, steps); InProcess(s', p) && At(s'.processes[p], t).Outside?
    decreases At(s.processes[p], t).TestFlag?
  {
    var step := Advance(p, t, NULL);
    assert ProcessOk(s.created, p, s.processes[p]);
    AskStep(s, p, t);
    var rest := [];
    if At(s.processes[p], t).TestFlag? {
      rest := TakesIt(After(s, step), p, t);
    }
    steps := [step] + rest;
    Prepend(s, step, rest);
  }

  /** With nobody started a caller wins. */
  lemma {:induction false} Wins(s: System, p: int, t: int) returns (steps: seq<Step>)
    requires Clear(s, p) && Asking(At(s.processes[p], t))
    ensures IsRun(s, steps)
    ensures var s' := Outcome(s, steps); InProcess(s', p) && Winning(At(s'.processes[p], t))
    decreases At(s.processes[p], t).LoadPointer?
  {
    var step := Advance(p, t, NULL);
    AskStep(s, p, t);
    var rest := [];
    if At(s.processes[p], t).LoadPointer? {
      rest := Wins(After(s, step), p, t);
    }
    steps := [step] + rest;
    Prepend(s, step, rest);
  }

  /** The fork handler ends with nobody started and nobody inside. */
  lemma {:induction false} HandlerFinishes(s: System, p: int, h: int) returns (steps: seq<Step>)
    requires InProcess(s, p) && Resetting(At(s.processes[p], h))
    ensures IsRun(s, steps)
    ensures var s' := Outcome(s, steps); Clear(s', p) && forall u :: At(s'.processes[p], u).Outside?
    decreases At(s.processes[p], h).ResetPointer?
  {
    var step, q := Advance(p, h, NULL), s.processes[p];
    assert ProcessOk(s.created, p, q);
    StepKeepsSystem(s, step);
    var rest := [];
    if q.threads[h].ResetPointer? {
      rest := HandlerFinishes(After(s, step), p, h);
    }
    steps := [step] + rest;
    Prepend(s, step, rest);
  }

  // ---- a caller gets its executor ----

  /** A caller inside `rt`, in a process that is not stuck, can be driven to return. */
  lemma AskerReturns(s: System, p: int, t: int) returns (steps: seq<Step>)
    requires InProcess(s, p) && !InHandler(s.processes[p]) && !Stuck(s.processes[p]) && Asking(At(s.processes[p], t))
    ensures IsRun(s, steps) && Returns(s, p, t, steps)
    ensures var s' := Outcome(s, steps); InProcess(s', p) && At(s'.processes[p], t).Outside?
  {
    var q := s.processes[p];
    assert ProcessOk(s.created, p, q);
    StuckIffOrphan(s.created, p, q);
    if q.pointer != NULL {
      steps := TakesIt(s, p, t);
    } else if q.installed {
      var w :| w in q.threads && (Winning(q.threads[w]) || Resetting(q.threads[w]));
      var first := WinnerFinishes(s, p, w);
      var rest := TakesIt(Outcome(s, first), p, t);
      steps := first + rest;
      Join(s, first, rest);
    } else {
      var first := Wins(s, p, t);
      var rest := WinnerFinishes(Outcome(s, first), p, t);
      steps := first + rest;
      Join(s, first, rest);
    }
  }

  /** Any thread inside `rt` can be driven to return. */
  lemma InsideReturns(s: System, p: int, t: int) returns (steps: seq<Step>)
    requires InProcess(s, p) && !Stuck(s.processes[p])
    requires Asking(At(s.processes[p], t)) || Winning(At(s.processes[p], t))
    ensures IsRun(s, steps) && Returns(s, p, t, steps)
    ensures var s' := Outcome(s, steps); InProcess(s', p) && At(s'.processes[p], t).Outside?
  {
    assert ProcessOk(s.created, p, s.processes[p]);
    if Winning(At(s.processes[p], t)) {
      steps := WinnerFinishes(s, p, t);
    } else {
      steps := AskerReturns(s, p, t);
    }
  }

  /** In some continuation a thread of the process returns from `rt`. */
  ghost predicate CanReturn(s: System, p: int) {
    exists t, steps :: IsRun(s, steps) && Returns(s, p, t, steps)
  }

  /** A thread outside calls, once a fork handler still running is done. */
  lemma CallerReturns(s: System, p: int, t: int) returns (steps: seq<Step>)
    requires InProcess(s, p) && !InHandler(s.processes[p]) && !Stuck(s.processes[p]) && At(s.processes[p], t).Outside?
    ensures IsRun(s, steps) && Returns(s, p, t, steps)
  {
    var q := s.processes[p];
    CallStep(s, p, t);
    var s1 := After(s, Call(p, t));
    assert ProcessOk(s.created, p, q) && ProcessOk(s1.created, p, s1.processes[p]);
    StuckIffOrphan(s.created, p, q);
    StuckIffOrphan(s1.created, p, s1.processes[p]);
    var rest := AskerReturns(s1, p, t);
    steps := [Call(p, t)] + rest;
    Prepend(s, Call(p, t), rest);
  }

  /** A process that is not stuck can return an executor. */
  lemma NotStuckReturns(s: System, p: int)
    requires InProcess(s, p) && !Stuck(s.processes[p])
    ensures CanReturn(s, p)
  {
    var q := s.processes[p];
    var t := Unused(q.threads.Keys);
    if h :| h in q.threads && Resetting(q.threads[h]) {
      var first := HandlerFinishes(s, p, h);
      var rest := CallerReturns(Outcome(s, first), p, t);
      Join(s, first, rest);
      assert IsRun(s, first + rest) && Returns(s, p, t, first + rest);
    } else {
      var steps := CallerReturns(s, p, t);
    }
  }

  lemma {:induction false} NoReturnWhenStuck(s: System, p: int, t: int, steps: seq<Step>)
    requires IsRun(s, steps) && p in s.processes && Stuck(s.processes[p])
    ensures !Returns(s, p, t, steps)
    decreases |steps|
  {
    if steps != [] {
      var s1 := After(s, steps[0]);
      assert IsRun(s1, []);
      assert [steps[0]][1..] == [] && IsRun(s, [steps[0]]) && Outcome(s, [steps[0]]) == s1;
      StuckForever(s, [steps[0]], p);
      NoReturnWhenStuck(s1, p, t, steps[1..]);
    }
  }

  /** A stuck one cannot. */
  lemma StuckDoesNot(s: System, p: int)
    requires InProcess(s, p) && Stuck(s.processes[p])
    ensures !CanReturn(s, p)
  {
    forall t, steps | IsRun(s, steps) ensures !Returns(s, p, t, steps) {
      NoReturnWhenStuck(s, p, t, steps);
    }
  }

  /** In every reachable state a process can still return an executor if and only if it
      is not stuck. */
  lemma ReturnsIffNotStuck(s: System, steps: seq<Step>, p: int)
    requires Initial(s) && IsRun(s, steps) && p in Outcome(s, steps).processes
    ensures CanReturn(Outcome(s, steps), p) <==> !Stuck(Outcome(s, steps).processes[p])
  {
    EveryRunKeepsSystem(s, steps);
    if Stuck(Outcome(s, steps).processes[p]) {
      StuckDoesNot(Outcome(s, steps), p);
    } else {
      NotStuckReturns(Outcome(s, steps), p);
    }
  }

  /** A forked child can get an executor if and only if its parent had not set the flag
      or had registered the handler. */
  lemma ForkedChildReturnsIff(s: System, steps: seq<Step>, p: int, t: int, child: int)
    requires Initial(s) && IsRun(s, steps) && Enabled(Outcome(s, steps), Fork(p, t, child))
    ensures var now := Outcome(s, steps);
      CanReturn(After(now, Fork(p, t, child)), child) <==> !(now.processes[p].installed && !now.processes[p].handler)
  {
    EveryRunKeepsSystem(s, steps);
    var now := Outcome(s, steps);
    var forked := After(now, Fork(p, t, child));
    StepKeepsSystem(now, Fork(p, t, child));
    ForkSticksIff(now, p, t, child);
    if Stuck(forked.processes[child]) {
      StuckDoesNot(forked, child);
    } else {
      NotStuckReturns(forked, child);
    }
  }
}
