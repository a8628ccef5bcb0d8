/** The progress reporter, its queue and the loop that pumps it. The build reports while
    the loop waits and, on other threads, while it pumps. */
module IndexProgress {
  import opened ProgressEvents
  import opened ProgressRuns

  lemma {:induction false} Extend(c: Config, s: State, steps: seq<Step>, step: Step)
    requires IsRun(c, s, steps) && Enabled(c, Outcome(c, s, steps), step)
    ensures IsRun(c, s, steps + [step]) && Outcome(c, s, steps + [step]) == After(c, Outcome(c, s, steps), step)
  {
    var last := Outcome(c, s, steps);
    assert [step][1..] == [];
    assert IsRun(c, last, [step]);
    RunsCompose(c, s, steps, [step]);
  }

  predicate Fails(queue: seq<Event>, called: nat, works: nat -> bool, i: nat)
    requires i < |queue|
  {
    !works(called + i) && queue[i].kind != Complete
  }

  /** Where draining stops: at the first event, a complete apart, whose callback fails, or the end. */
  ghost predicate IsFirstError(queue: seq<Event>, called: nat, works: nat -> bool, n: nat) {
    && n <= |queue|
    && (n < |queue| ==> Fails(queue, called, works, n))
    && forall i :: 0 <= i < n ==> !Fails(queue, called, works, i)
  }

  /** The first `n` queued events handed over. */
  ghost function Passed(s: State, n: nat): State
    requires n <= |s.queue|
  {
    s.(queue := s.queue[n..], delivered := s.delivered + s.queue[..n])
  }

  /** The pump has stopped at a callback error that counts. */
  ghost function Failing(c: Config, s: State): State {
    s.(failed := true, phase := if s.phase == Closing && !c.propagate then Returned else Raised)
  }

  lemma PassedNone(s: State)
    ensures Passed(s, 0) == s
  {
    assert s.queue[0..] == s.queue && s.delivered + s.queue[..0] == s.delivered;
  }

  lemma PassedOne(s: State, n: nat)
    requires n < |s.queue|
    ensures Passed(Passed(s, n), 1) == Passed(s, n + 1)
  {
    assert s.queue[n..][1..] == s.queue[n + 1..];
    assert s.queue[..n + 1] == s.queue[..n] + s.queue[n..][..1];
    assert (s.delivered + s.queue[..n]) + s.queue[n..][..1] == s.delivered + s.queue[..n + 1];
  }

  /** How much of its work the build still has before it. */
  function Ahead(reports: seq<Report>, pending: Option<Event>): nat {
    2 * |reports| + if pending.Some? then 1 else 0
  }

  /** All reports of all turns. */
  function Flat(waits: seq<seq<Report>>): seq<Report> {
    if waits == [] then [] else waits[0] + Flat(waits[1..])
  }

  /** The reports made and those to come are all there are. */
  ghost predicate AllThere(told: seq<Report>, todo: seq<Report>, later: seq<Report>, all: seq<Report>) {
    told + (todo + later) == all
  }

  lemma GoesOn(told: seq<Report>, told': seq<Report>, todo: seq<Report>, left: seq<Report>, later: seq<Report>, all: seq<Report>)
    requires AllThere(told, todo, later, all) && told' + left == told + todo
    ensures AllThere(told', left, later, all) && told' <= all
  {
    assert told + (todo + later) == (told + todo) + later;
    assert (told' + left) + later == told' + (left + later);
  }

  lemma NextTurn(told: seq<Report>, waits: seq<seq<Report>>, round: nat, all: seq<Report>)
    requires round <= |waits| && AllThere(told, [], Flat(waits[round..]), all)
    ensures round < |waits| ==> AllThere(told, waits[round], Flat(waits[round + 1..]), all)
    ensures round == |waits| ==> told == all
  {
    if round < |waits| {
      assert waits[round..][1..] == waits[round + 1..];
      assert [] + Flat(waits[round..]) == waits[round] + Flat(waits[round + 1..]);
    }
  }

  lemma PutBack(told: seq<Report>, told': seq<Report>, todo: seq<Report>, m: nat, rest: seq<Report>)
    requires m <= |todo| && told' + rest == told + todo[..m]
    ensures told' + (rest + todo[m..]) == told + todo
  {
    assert told' + (rest + todo[m..]) == (told' + rest) + todo[m..];
    assert told + todo == (told + todo[..m]) + todo[m..];
  }

  datatype Ended = Finished | CallbackError | Blocked

  datatype Turned = Stopped(ended: Ended) | Again | Over

  class Reporter {
    const config: Config
    var active: Active
    var pending: Option<Event>
    var queue: seq<Event>
    var delivered: seq<Event>
    var phase: Phase
    ghost var failed: bool
    ghost var offered: seq<Event>
    ghost var kept: seq<bool>
    ghost var trace: seq<Step>

    ghost function View(): State
      reads this
    {
      State(phase, active, pending, queue, delivered, failed, offered, kept)
    }

    /** The object is where its trace of steps leads. */
    ghost predicate Valid()
      reads this
    {
      IsRun(config, INITIAL, trace) && View() == Outcome(config, INITIAL, trace)
    }

    constructor (config: Config)
      ensures Valid() && View() == INITIAL && this.config == config
    {
      this.config := config;
      active, pending, queue, delivered, phase := NO_STAGE, None, [], [], Pumping;
      failed, offered, kept, trace := false, [], [], [];
    }

    /** What the build has reported so far. */
    ghost function Told(): seq<Report>
      reads this
    {
      Reports(trace)
    }

    ghost method Log(before: State, step: Step)
      requires IsRun(config, INITIAL, trace) && before == Outcome(config, INITIAL, trace)
      requires Enabled(config, before, step) && View() == After(config, before, step)
      modifies this`trace
      ensures Valid() && View() == old(View()) && Told() == old(Told()) + ReportOf(step)
    {
      Extend(config, INITIAL, trace, step);
      ReportsAppend(trace, step);
      trace := trace + [step];
    }

    /** A start or complete waits for room; a progress event is dropped without it. */
    method Send() returns (sent: bool)
      requires Valid() && Building(config, View()) && pending.Some?
      modifies this
      ensures Valid() && phase == old(phase) && Told() == old(Told())
      ensures sent <==> Enabled(config, old(View()), Offer)
      ensures View() == if sent then After(config, old(View()), Offer) else old(View())
    {
      var e := pending.value;
      ghost var before := View();
      sent := true;
      if |queue| < QUEUE_SIZE {
        queue := queue + [e];
        kept := kept + [true];
      } else if e.kind == Progress {
        kept := kept + [false];
      } else {
        sent := false;
        return;
      }
      pending, offered := None, offered + [e];
      Log(before, Offer);
    }

    /** Updates the stage under way, then sends the event. */
    method Report(r: Report) returns (sent: bool)
      requires Valid() && Building(config, View()) && pending.None?
      modifies this
      ensures Valid() && phase == old(phase) && Told() == old(Told()) + [r]
      ensures sent <==> pending.None?
      ensures !sent ==> Full(View()) && pending.value.kind != Progress
      ensures var called := After(config, old(View()), Call(r));
        && (sent <==> Enabled(config, called, Offer))
        && View() == if sent then After(config, called, Offer) else called
    {
      ghost var before := View();
      match r {
      case StageStart(name, total, unit) =>
        active := Active(Some(name), Some(0), total, unit);
        pending := Some(Event(Start, name, Some(0), total, unit));
      case StageProgress(name, completed) =>
        if active.stage.None? {
          active := active.(stage := Some(name));
        }
        active := active.(completed := Some(completed));
        pending := Some(Event(Progress, name, Some(completed), active.total, active.unit));
      case StageComplete(name) =>
        var completed := if active.completed.Some? then active.completed else active.total;
        pending := Some(Event(Complete, name, completed, active.total, active.unit));
        active := NO_STAGE;
      }
      Log(before, Call(r));
      sent := Send();
    }

    method Dispatch(works: nat -> bool) returns (ok: bool)
      requires Valid() && phase in {Pumping, Closing} && queue != []
      modifies this
      ensures Valid() && queue == old(queue)[1..] && delivered == old(delivered) + [old(queue)[0]] && Told() == old(Told())
      ensures ok <==> !Fails(old(queue), |old(delivered)|, works, 0)
      ensures var passed := Passed(old(View()), 1); View() == if ok then passed else Failing(config, passed)
    {
      ghost var before := View();
      var e := queue[0];
      var worked := works(|delivered|);
      queue, delivered := queue[1..], delivered + [e];
      ok := worked || e.kind == Complete;
      if !ok {
        failed, phase := true, if phase == Closing && !config.propagate then Returned else Raised;
      }
      Log(before, Receive(worked));
    }

    /** Hands the queued events to the callback until it fails on a start or progress. */
    method Drain(works: nat -> bool) returns (ok: bool, ghost n: nat)
      requires Valid() && phase in {Pumping, Closing}
      modifies this
      ensures Valid() && IsFirstError(old(queue), |old(delivered)|, works, n) && Told() == old(Told())
      ensures ok <==> n == |old(queue)|
      ensures ok ==> View() == old(View()).(queue := [], delivered := old(delivered) + old(queue))
      ensures !ok ==> View() == Failing(config, Passed(old(View()), n + 1))
    {
      n := 0;
      ghost var before := View();
      PassedNone(before);
      while queue != []
        invariant Valid() && n <= |before.queue| && View() == Passed(before, n) && Told() == old(Told())
        invariant forall i :: 0 <= i < n ==> !Fails(before.queue, |before.delivered|, works, i)
        decreases |queue|
      {
        assert Fails(queue, |delivered|, works, 0) == Fails(before.queue, |before.delivered|, works, n);
        PassedOne(before, n);
        ok := Dispatch(works);
        if !ok {
          return;
        }
        n := n + 1;
      }
      ok := true;
    }

    /** Makes the reports up to one that finds no room; what is left of them. */
    method Work(reports: seq<Report>) returns (blocked: bool, left: seq<Report>)
      requires Valid() && Building(config, View()) && pending.None?
      modifies this
      ensures Valid() && phase == old(phase) && |left| <= |reports|
      ensures Told() + left == old(Told()) + reports
      ensures blocked ==> pending.Some? && Full(View()) && pending.value.kind != Progress && |left| < |reports|
      ensures !blocked ==> pending.None? && left == []
      ensures reports == [] ==> View() == old(View())
    {
      for i := 0 to |reports|
        invariant Valid() && phase == old(phase) && pending.None?
        invariant Told() == old(Told()) + reports[..i]
        invariant i == 0 ==> View() == old(View())
      {
        var sent := Report(reports[i]);
        if !sent {
          return true, reports[i + 1..];
        }
      }
      blocked, left := false, [];
    }

    method PumpDone()
      requires Valid() && phase in {Pumping, Closing} && queue == []
      modifies this
      ensures Valid() && View() == After(config, old(View()), Step.PumpDone) && Told() == old(Told())
    {
      ghost var before := View();
      phase := if phase == Closing then Returned else Waiting;
      Log(before, Step.PumpDone);
    }

    method Wake(finished: bool)
      requires Valid() && phase == Waiting && (finished || config.sameThread ==> pending.None?)
      modifies this
      ensures Valid() && View() == After(config, old(View()), if finished then Finish else Tick) && Told() == old(Told())
    {
      ghost var before := View();
      phase := if finished then Closing else Pumping;
      Log(before, if finished then Finish else Tick);
    }

    /** What the build does on other threads beside the pump: it sends what waits,
        if there is room now, and makes up to `n` reports. */
    method GoOn(todo: seq<Report>, n: nat) returns (left: seq<Report>)
      requires Valid() && phase == Pumping && !config.sameThread
      modifies this
      ensures Valid() && phase == Pumping && |left| <= |todo| && Told() + left == old(Told()) + todo
      ensures Ahead(left, pending) <= Ahead(todo, old(pending))
      ensures Ahead(left, pending) < Ahead(todo, old(pending)) || View() == old(View())
    {
      left := todo;
      if pending.Some? {
        var sent := Send();
      }
      if pending.None? {
        var m := if n <= |todo| then n else |todo|;
        var blocked, rest := Work(todo[..m]);
        left := rest + todo[m..];
        PutBack(old(Told()), Told(), todo, m, rest);
      }
    }

    /** Pumps while the build goes on, `pace` telling how far before and after each callback. */
    method DrainWhileBuilding(todo: seq<Report>, pace: nat -> nat, works: nat -> bool)
      returns (ok: bool, left: seq<Report>)
      requires Valid() && phase == Pumping && !config.sameThread
      modifies this
      ensures Valid() && |left| <= |todo| && Told() + left == old(Told()) + todo
      ensures ok ==> phase == Pumping && queue == []
      ensures !ok ==> phase == Raised
    {
      left := GoOn(todo, pace(|delivered|));
      while queue != []
        invariant Valid() && phase == Pumping && |left| <= |todo| && Told() + left == old(Told()) + todo
        decreases Ahead(left, pending), |queue|
      {
        ok := Dispatch(works);
        if !ok {
          return;
        }
        left := GoOn(left, pace(|delivered|));
      }
      ok := true;
    }

    /** One turn: pump, then let the build go on with what is left of its reports. */
    method Turn(reports: seq<Report>, pace: nat -> nat, works: nat -> bool)
      returns (ok: bool, blocked: bool, left: seq<Report>)
      requires Valid() && phase == Pumping && (config.sameThread ==> pending.None?)
      modifies this
      ensures Valid() && |left| <= |reports| && Told() + left == old(Told()) + reports
      ensures !ok ==> phase == Raised
      ensures ok ==> phase == Waiting
      ensures ok && blocked ==> pending.Some? && Full(View()) && pending.value.kind != Progress && |left| < |reports|
      ensures ok && !blocked ==> pending.None? && left == []
    {
      blocked, left := false, reports;
      if config.sameThread {
        ghost var n;
        ok, n := Drain(works);
      } else {
        ok, left := DrainWhileBuilding(reports, pace, works);
      }
      if !ok {
        return;
      }
      PumpDone();
      if pending.Some? {
        var sent := Send();
      }
      blocked, left := Work(left);
    }

    /** The last pump, and how the call ends. */
    method Close(works: nat -> bool) returns (ended: Ended)
      requires Valid() && phase == Closing
      modifies this
      ensures Valid() && phase == (if ended == Finished then Returned else Raised) && Told() == old(Told())
      ensures ended != Blocked && (ended == Finished ==> TellAll(offered, Told()))
      ensures ended == Finished && !failed ==>
        && queue == [] && |kept| == |offered| && delivered == Kept(offered, kept)
        && Lifecycle(delivered) == Lifecycle(offered) && AllConsistent(offered)
    {
      var ok, n := Drain(works);
      if ok {
        PumpDone();
      }
      ended := if phase == Raised then CallbackError else Finished;
      if phase == Returned {
        OfferedTellReports(config, trace);
      }
      if phase == Returned && !failed {
        NothingLeftBehind(config, trace);
      }
    }

    /** One turn, and then the next pump unless the call is at its end: the build may have
        to go on with the same reports, or is done with them. */
    method TurnAndWake(reports: seq<Report>, last: bool, pace: nat -> nat, works: nat -> bool)
      returns (turned: Turned, left: seq<Report>)
      requires Valid() && phase == Pumping && (config.sameThread ==> pending.None?)
      modifies this
      ensures Valid() && Told() + left == old(Told()) + reports
      ensures turned == Stopped(CallbackError) ==> phase == Raised
      ensures turned == Stopped(Blocked) ==> Stuck(config, View())
      ensures turned == Again ==> phase == Pumping && !config.sameThread && |left| < |reports|
      ensures turned == Over ==> phase == (if last then Closing else Pumping) && pending.None? && left == []
      ensures turned != Stopped(Finished)
    {
      var ok, blocked, rest := Turn(reports, pace, works);
      left := rest;
      if !ok {
        return Stopped(CallbackError), left;
      }
      if blocked && config.sameThread {
        return Stopped(Blocked), left;
      }
      Wake(!blocked && last);
      turned := if blocked then Again else Over;
    }

    /** Pumps and waits until the build is done or cannot go on. */
    method PumpAndWait(waits: seq<seq<Report>>, pace: nat -> nat, works: nat -> bool) returns (ended: Ended)
      requires Valid() && View() == INITIAL && waits != []
      modifies this
      ensures Valid() && Told() <= Flat(waits)
      ensures ended == Finished ==> phase == Closing && Told() == Flat(waits)
      ensures ended == CallbackError ==> phase == Raised
      ensures ended == Blocked ==> Stuck(config, View())
    {
      EventsTellReports(config, trace);
      ghost var all := Flat(waits);
      NextTurn(Told(), waits, 0, all);
      var round, todo := 0, waits[0];
      while true
        invariant 0 <= round < |waits|
        invariant Valid() && phase == Pumping && (config.sameThread ==> pending.None?)
        invariant AllThere(Told(), todo, Flat(waits[round + 1..]), all)
        decreases |waits| - round, |todo|
      {
        ghost var told := Told();
        var turned, left := TurnAndWake(todo, round + 1 == |waits|, pace, works);
        GoesOn(told, Told(), todo, left, Flat(waits[round + 1..]), all);
        if turned.Stopped? {
          return turned.ended;
        }
        todo := left;
        if turned == Over {
          round := round + 1;
          NextTurn(Told(), waits, round, all);
          if round == |waits| {
            return Finished;
          }
          todo := waits[round];
        }
      }
    }

    /** Pumps, waits and pumps a last time; `waits` holds what the build reports in each
        turn, `pace` how much of it while the loop pumps. A build that finds no room goes
        on when there is some, unless it runs on the pumping thread itself. */
    method BlockOnPumping(waits: seq<seq<Report>>, pace: nat -> nat, works: nat -> bool) returns (ended: Ended)
      requires Valid() && View() == INITIAL && waits != []
      modifies this
      ensures Valid() && Told() <= Flat(waits)
      ensures ended == Finished ==> Told() == Flat(waits) && TellAll(offered, Flat(waits))
      ensures ended == Finished <==> phase == Returned
      ensures ended == CallbackError <==> phase == Raised
      ensures ended == Blocked <==> Stuck(config, View())
      ensures ended == Finished && !failed ==>
        && queue == [] && |kept| == |offered| && delivered == Kept(offered, kept)
        && Lifecycle(delivered) == Lifecycle(offered) && AllConsistent(offered)
    {
      ended := PumpAndWait(waits, pace, works);
      if ended == Finished {
        ended := Close(works);
      }
    }
  }
}
