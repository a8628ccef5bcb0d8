/** The bounded event queue between an index build and the thread that pumps it. */
module ProgressRuns {
  import opened Numbers
  import opened ProgressEvents

  const QUEUE_SIZE: nat := 1024

  datatype Phase = Pumping | Waiting | Closing | Returned | Raised

  /** Whether an error of the last pump is raised, and whether the build runs on the pumping thread. */
  datatype Config = Config(propagate: bool, sameThread: bool)

  /** `offered` and `kept` record the events offered to the queue and which entered it. */
  datatype State = State(phase: Phase, active: Active, pending: Option<Event>, queue: seq<Event>,
                         delivered: seq<Event>, failed: bool, offered: seq<Event>, kept: seq<bool>)

  datatype Step = Call(report: Report) | Offer | Receive(ok: bool) | PumpDone | Tick | Finish

  const INITIAL := State(Pumping, NO_STAGE, None, [], [], false, [], [])

  /** The build may take a step. */
  predicate Building(c: Config, s: State) {
    s.phase == Waiting || (s.phase == Pumping && !c.sameThread)
  }

  predicate Full(s: State) {
    |s.queue| >= QUEUE_SIZE
  }

  predicate Enabled(c: Config, s: State, step: Step) {
    match step
    case Call(_) => Building(c, s) && s.pending.None?
    case Offer => Building(c, s) && s.pending.Some? && (s.pending.value.kind == Progress || !Full(s))
    case Receive(_) => s.phase in {Pumping, Closing} && s.queue != []
    case PumpDone => s.phase in {Pumping, Closing} && s.queue == []
    case Tick => s.phase == Waiting && (c.sameThread ==> s.pending.None?)
    case Finish => s.phase == Waiting && s.pending.None?
  }

  /** An accepted event is queued; a progress event that finds the queue full is dropped. */
  function Offered(s: State): State
    requires s.pending.Some?
  {
    var e := s.pending.value;
    s.(pending := None, queue := if Full(s) then s.queue else s.queue + [e],
       offered := s.offered + [e], kept := s.kept + [!Full(s)])
  }

  /** The callback sees the first event; its error counts unless the event is a complete. */
  function Received(c: Config, s: State, ok: bool): State
    requires s.queue != []
  {
    var e := s.queue[0];
    var t := s.(queue := s.queue[1..], delivered := s.delivered + [e]);
    if ok || e.kind == Complete then t
    else t.(failed := true, phase := if s.phase == Closing && !c.propagate then Returned else Raised)
  }

  function After(c: Config, s: State, step: Step): State
    requires Enabled(c, s, step)
  {
    match step
    case Call(r) => s.(active := Next(s.active, r), pending := Some(EventOf(s.active, r)))
    case Offer => Offered(s)
    case Receive(ok) => Received(c, s, ok)
    case PumpDone => s.(phase := if s.phase == Closing then Returned else Waiting)
    case Tick => s.(phase := Pumping)
    case Finish => s.(phase := Closing)
  }

  predicate IsRun(c: Config, s: State, steps: seq<Step>)
    decreases |steps|
  {
    steps == [] || (Enabled(c, s, steps[0]) && IsRun(c, After(c, s, steps[0]), steps[1..]))
  }

  function Outcome(c: Config, s: State, steps: seq<Step>): State
    requires IsRun(c, s, steps)
    decreases |steps|
  {
    if steps == [] then s else Outcome(c, After(c, s, steps[0]), steps[1..])
  }

  // ---- what every step keeps ----

  /** All events reported so far. */
  function Reported(s: State): seq<Event> {
    s.offered + (if s.pending.Some? then [s.pending.value] else [])
  }

  ghost predicate AllConsistent(events: seq<Event>) {
    forall i :: 0 <= i < |events| ==> Consistent(events, i)
  }

  /** What was kept is delivered or queued, in order; only progress was dropped. */
  ghost predicate Accounted(s: State) {
    && |s.kept| == |s.offered| && |s.queue| <= QUEUE_SIZE
    && Kept(s.offered, s.kept) == s.delivered + s.queue
    && forall i :: 0 <= i < |s.kept| && !s.kept[i] ==> s.offered[i].kind == Progress
  }

  ghost predicate Phased(c: Config, s: State) {
    && (s.phase in {Closing, Returned} ==> s.pending.None?)
    && (s.phase == Returned && s.queue != [] ==> s.failed && !c.propagate)
    && (s.phase == Raised ==> s.failed)
    && (s.failed ==> s.phase in {Returned, Raised})
  }

  ghost predicate Valid(c: Config, s: State) {
    Accounted(s) && Phased(c, s) && AllConsistent(Reported(s)) && Reflects(s.active, Reported(s))
  }

  lemma OfferAccounts(c: Config, s: State)
    requires Accounted(s) && Enabled(c, s, Offer)
    ensures Accounted(Offered(s))
  {
    var e := s.pending.value;
    KeptAppend(s.offered, s.kept, e, !Full(s));
    assert s.delivered + (s.queue + [e]) == (s.delivered + s.queue) + [e];
  }

  lemma ReceiveAccounts(c: Config, s: State, ok: bool)
    requires Accounted(s) && s.queue != []
    ensures Accounted(Received(c, s, ok))
  {
    assert (s.delivered + [s.queue[0]]) + s.queue[1..] == s.delivered + s.queue;
  }

  lemma CallReflects(c: Config, s: State, r: Report)
    requires Valid(c, s) && Enabled(c, s, Call(r))
    ensures var t := After(c, s, Call(r)); AllConsistent(Reported(t)) && Reflects(t.active, Reported(t))
  {
    var events, e := Reported(s), EventOf(s.active, r);
    assert events == s.offered;
    ReportReflects(s.active, events, r);
    forall i | 0 <= i < |events| ensures Consistent(events + [e], i) {
      ConsistentPrefix(events, e, i);
    }
  }

  lemma StepKeepsValid(c: Config, s: State, step: Step)
    requires Valid(c, s) && Enabled(c, s, step)
    ensures Valid(c, After(c, s, step))
  {
    match step
    case Call(r) => CallReflects(c, s, r);
    case Offer =>
      OfferAccounts(c, s);
      assert Reported(After(c, s, step)) == Reported(s);
    case Receive(ok) => ReceiveAccounts(c, s, ok);
    case _ =>
  }

  lemma {:induction false} EveryRun(c: Config, s: State, steps: seq<Step>)
    requires Valid(c, s) && IsRun(c, s, steps)
    ensures Valid(c, Outcome(c, s, steps))
    decreases |steps|
  {
    if steps != [] {
      StepKeepsValid(c, s, steps[0]);
      EveryRun(c, After(c, s, steps[0]), steps[1..]);
    }
  }

  lemma InitialIsValid(c: Config)
    ensures Valid(c, INITIAL)
  {
  }

  // ---- what a run means ----

  /** When the call has returned and no callback failed, everything reported was either
      delivered in order or is a progress event that was dropped. */
  lemma NothingLeftBehind(c: Config, steps: seq<Step>)
    requires IsRun(c, INITIAL, steps) && Outcome(c, INITIAL, steps).phase == Returned
    requires !Outcome(c, INITIAL, steps).failed
    ensures var s := Outcome(c, INITIAL, steps);
      && s.queue == [] && s.pending.None? && |s.kept| == |s.offered|
      && s.delivered == Kept(s.offered, s.kept)
      && Lifecycle(s.delivered) == Lifecycle(s.offered)
      && AllConsistent(s.offered)
  {
    InitialIsValid(c);
    EveryRun(c, INITIAL, steps);
    var s := Outcome(c, INITIAL, steps);
    assert Kept(s.offered, s.kept) == s.delivered + [];
    assert Reported(s) == s.offered;
    LifecycleKept(s.offered, s.kept);
  }

  /** At any time what was delivered, then what is queued, holds every start and
      complete offered so far once and in order. */
  lemma InOrderAtAnyTime(c: Config, steps: seq<Step>)
    requires IsRun(c, INITIAL, steps)
    ensures var s := Outcome(c, INITIAL, steps);
      |s.kept| == |s.offered| && s.delivered + s.queue == Kept(s.offered, s.kept)
      && Lifecycle(s.delivered + s.queue) == Lifecycle(s.offered) && AllConsistent(Reported(s))
  {
    InitialIsValid(c);
    EveryRun(c, INITIAL, steps);
    var s := Outcome(c, INITIAL, steps);
    LifecycleKept(s.offered, s.kept);
  }

  /** A step drops an event exactly when it offers progress to a queue of 1024. */
  lemma DropsIffFull(c: Config, s: State, step: Step)
    requires Enabled(c, s, step)
    ensures (exists i :: |s.kept| <= i < |After(c, s, step).kept| && !After(c, s, step).kept[i])
      <==> step == Offer && s.pending.value.kind == Progress && |s.queue| >= 1024
  {
    if step == Offer && Full(s) {
      assert !After(c, s, step).kept[|s.kept|];
    }
  }

  /** Events stay undelivered after a return exactly when the last pump stopped at a
      callback error that is not raised. */
  lemma LeftBehindOnlyAfterError(c: Config, s: State, step: Step)
    requires Valid(c, s) && Enabled(c, s, step) && After(c, s, step).phase == Returned
    ensures After(c, s, step).queue != [] <==>
      (step == Receive(false) && s.queue[0].kind != Complete && |s.queue| > 1)
  {
  }

  // ---- what the events tell ----

  function ReportOf(step: Step): seq<Report> {
    if step.Call? then [step.report] else []
  }

  /** What the build reported, in order. */
  function Reports(steps: seq<Step>): seq<Report> {
    if steps == [] then [] else ReportOf(steps[0]) + Reports(steps[1..])
  }

  lemma Regroup(a: seq<Report>, b: seq<Report>, c: seq<Report>)
    ensures (a + b) + c == a + (b + c)
  {
  }

  lemma {:induction false} ReportsAppend(steps: seq<Step>, step: Step)
    ensures Reports(steps + [step]) == Reports(steps) + ReportOf(step)
  {
    if steps == [] {
      assert [step][1..] == [] && steps + [step] == [step];
    } else {
      ReportsAppend(steps[1..], step);
      assert (steps + [step])[1..] == steps[1..] + [step];
      Regroup(ReportOf(steps[0]), Reports(steps[1..]), ReportOf(step));
    }
  }

  /** The event has the kind and the stage's name of its report, a start its total and
      unit, and a progress event its count. */
  ghost predicate Tells(e: Event, r: Report) {
    match r
    case StageStart(name, total, unit) => e == Event(Start, name, Some(0), total, unit)
    case StageProgress(name, completed) => e.kind == Progress && e.stage == name && e.completed == Some(completed)
    case StageComplete(name) => e.kind == Complete && e.stage == name
  }

  ghost predicate TellAll(events: seq<Event>, reports: seq<Report>) {
    |events| == |reports| && forall j :: 0 <= j < |events| ==> Tells(events[j], reports[j])
  }

  lemma StepTells(c: Config, s: State, step: Step, reports: seq<Report>)
    requires Enabled(c, s, step) && TellAll(Reported(s), reports)
    ensures TellAll(Reported(After(c, s, step)), reports + ReportOf(step))
  {
    if step.Offer? {
      assert Reported(After(c, s, step)) == Reported(s);
    }
  }

  lemma {:induction false} RunTells(c: Config, s: State, steps: seq<Step>, reports: seq<Report>)
    requires IsRun(c, s, steps) && TellAll(Reported(s), reports)
    ensures TellAll(Reported(Outcome(c, s, steps)), reports + Reports(steps))
    decreases |steps|
  {
    if steps == [] {
      assert reports + [] == reports;
    } else {
      StepTells(c, s, steps[0], reports);
      RunTells(c, After(c, s, steps[0]), steps[1..], reports + ReportOf(steps[0]));
      Regroup(reports, ReportOf(steps[0]), Reports(steps[1..]));
    }
  }

  /** In every run there is one event for each report, in the same order, which tells it. */
  lemma EventsTellReports(c: Config, steps: seq<Step>)
    requires IsRun(c, INITIAL, steps)
    ensures TellAll(Reported(Outcome(c, INITIAL, steps)), Reports(steps))
  {
    RunTells(c, INITIAL, steps, []);
    assert [] + Reports(steps) == Reports(steps);
  }

  /** Once the call has returned that is what was offered to the queue. */
  lemma OfferedTellReports(c: Config, steps: seq<Step>)
    requires IsRun(c, INITIAL, steps) && Outcome(c, INITIAL, steps).phase == Returned
    ensures TellAll(Outcome(c, INITIAL, steps).offered, Reports(steps))
  {
    InitialIsValid(c);
    EveryRun(c, INITIAL, steps);
    EventsTellReports(c, steps);
    assert Reported(Outcome(c, INITIAL, steps)) == Outcome(c, INITIAL, steps).offered;
  }

  // ---- errors of the callback ----

  /** The callback fails on a start or progress event. */
  predicate FailsAt(s: State, step: Step) {
    step == Receive(false) && s.queue != [] && s.queue[0].kind != Complete
  }

  /** Somewhere in the run it does, in the last pump only if `lastCounts`. */
  ghost predicate SomeFailure(c: Config, s: State, steps: seq<Step>, lastCounts: bool)
    requires IsRun(c, s, steps)
    decreases |steps|
  {
    steps != [] &&
    ((FailsAt(s, steps[0]) && (s.phase != Closing || lastCounts)) || SomeFailure(c, After(c, s, steps[0]), steps[1..], lastCounts))
  }

  lemma {:induction false} NothingAfterEnd(c: Config, s: State, steps: seq<Step>)
    requires IsRun(c, s, steps) && s.phase in {Returned, Raised}
    ensures steps == []
  {
    BlockedIff(c, s);
  }

  lemma {:induction false} FailuresFrom(c: Config, s: State, steps: seq<Step>)
    requires IsRun(c, s, steps) && Phased(c, s) && !s.failed
    ensures Outcome(c, s, steps).failed <==> SomeFailure(c, s, steps, true)
    ensures Outcome(c, s, steps).phase == Raised <==> SomeFailure(c, s, steps, c.propagate)
    decreases |steps|
  {
    if steps != [] {
      var s1 := After(c, s, steps[0]);
      if FailsAt(s, steps[0]) {
        NothingAfterEnd(c, s1, steps[1..]);
      } else {
        FailuresFrom(c, s1, steps[1..]);
      }
    }
  }

  /** A run has failed exactly if the callback failed on a start or progress event, and
      raises exactly if it did so before the last pump, or there too if errors of the
      last pump count. */
  lemma RaisesIff(c: Config, steps: seq<Step>)
    requires IsRun(c, INITIAL, steps)
    ensures Outcome(c, INITIAL, steps).failed <==> SomeFailure(c, INITIAL, steps, true)
    ensures Outcome(c, INITIAL, steps).phase == Raised <==> SomeFailure(c, INITIAL, steps, c.propagate)
  {
    FailuresFrom(c, INITIAL, steps);
  }

  // ---- when the build and the pump block each other ----

  predicate Stuck(c: Config, s: State) {
    c.sameThread && s.phase == Waiting && Full(s) && s.pending.Some? && s.pending.value.kind != Progress
  }

  /** Short of the end some step is always possible, unless the pumping thread itself
      waits to send a start or complete into a full queue. */
  lemma BlockedIff(c: Config, s: State)
    ensures (forall step :: !Enabled(c, s, step)) <==> s.phase in {Returned, Raised} || Stuck(c, s)
  {
    if s.phase in {Pumping, Closing} {
      assert Enabled(c, s, Receive(true)) || Enabled(c, s, PumpDone);
    } else if s.phase == Waiting && !Stuck(c, s) {
      assert Enabled(c, s, Finish) || Enabled(c, s, Offer) || Enabled(c, s, Tick);
    }
  }

  lemma {:induction false} RunsCompose(c: Config, s: State, steps: seq<Step>, more: seq<Step>)
    requires IsRun(c, s, steps) && IsRun(c, Outcome(c, s, steps), more)
    ensures IsRun(c, s, steps + more) && Outcome(c, s, steps + more) == Outcome(c, Outcome(c, s, steps), more)
    decreases |steps|
  {
    if steps == [] {
      assert steps + more == more;
    } else {
      RunsCompose(c, After(c, s, steps[0]), steps[1..], more);
      assert (steps + more)[1..] == steps[1..] + more;
    }
  }

  /** Enough progress in one wait fills the queue. */
  lemma {:induction false} ProgressFills(c: Config, s: State, n: nat) returns (steps: seq<Step>)
    requires s.phase == Waiting && s.pending.None? && |s.queue| + n <= QUEUE_SIZE
    ensures IsRun(c, s, steps)
    ensures var t := Outcome(c, s, steps); t.phase == Waiting && t.pending.None? && |t.queue| == |s.queue| + n
    decreases n
  {
    if n == 0 {
      steps := [];
    } else {
      var call := Call(StageProgress("", 0));
      var t := After(c, s, call);
      var u := After(c, t, Offer);
      var rest := ProgressFills(c, u, n - 1);
      assert [Offer] + rest != [] && ([Offer] + rest)[1..] == rest;
      assert IsRun(c, t, [Offer] + rest);
      steps := [call] + ([Offer] + rest);
      assert steps[1..] == [Offer] + rest;
    }
  }

  /** A build on the pumping thread can block for good. */
  lemma SticksWhenFull(c: Config) returns (steps: seq<Step>)
    requires c.sameThread
    ensures IsRun(c, INITIAL, steps) && Stuck(c, Outcome(c, INITIAL, steps))
  {
    var waiting := After(c, INITIAL, PumpDone);
    var fill := ProgressFills(c, waiting, QUEUE_SIZE);
    var full := Outcome(c, waiting, fill);
    var call := Call(StageComplete(""));
    assert IsRun(c, After(c, full, call), []);
    assert [call][1..] == [];
    assert IsRun(c, full, [call]);
    RunsCompose(c, waiting, fill, [call]);
    steps := [PumpDone] + (fill + [call]);
    assert steps[1..] == fill + [call];
  }

  // ---- exactly when it happens ----

  /** Reports made so far in the current wait. */
  function InWait(made: nat, step: Step): nat {
    if step.PumpDone? then 0 else if step.Call? then made + 1 else made
  }

  /** A start or complete reported when the wait has already seen as many reports as
      the queue holds. */
  predicate Excessive(step: Step, made: nat) {
    step.Call? && !step.report.StageProgress? && made >= QUEUE_SIZE
  }

  /** In each wait fewer reports than the queue holds come before any start or complete. */
  ghost predicate Modest(steps: seq<Step>, made: nat)
    decreases |steps|
  {
    steps == [] || (!Excessive(steps[0], made) && Modest(steps[1..], InWait(made, steps[0])))
  }

  /** Each wait starts with an empty queue, so the queue holds the reports made in it
      and offered, as far as there was room. */
  ghost predicate Measured(s: State, made: nat) {
    var waiting := if s.pending.Some? then 1 else 0;
    && (s.phase == Waiting ==> waiting <= made && |s.queue| == Min(QUEUE_SIZE, made - waiting))
    && (s.phase != Waiting ==> s.pending.None?)
  }

  lemma StepKeepsMeasure(c: Config, s: State, step: Step, made: nat)
    requires c.sameThread && Enabled(c, s, step) && Measured(s, made) && !Stuck(c, s)
    ensures Measured(After(c, s, step), InWait(made, step))
    ensures Stuck(c, After(c, s, step)) <==> Excessive(step, made)
  {
  }

  lemma {:induction false} SticksIffExcessive(c: Config, s: State, steps: seq<Step>, made: nat)
    requires c.sameThread && IsRun(c, s, steps) && Measured(s, made) && !Stuck(c, s)
    ensures Stuck(c, Outcome(c, s, steps)) <==> !Modest(steps, made)
    decreases |steps|
  {
    if steps != [] {
      var s1 := After(c, s, steps[0]);
      StepKeepsMeasure(c, s, steps[0], made);
      if Excessive(steps[0], made) {
        BlockedIff(c, s1);
        assert steps[1..] == [];
      } else {
        SticksIffExcessive(c, s1, steps[1..], InWait(made, steps[0]));
      }
    }
  }

  /** A build on the pumping thread blocks for good exactly when it reports a start or
      complete behind 1024 or more other reports of the same wait. */
  lemma RunSticksIff(c: Config, steps: seq<Step>)
    requires c.sameThread && IsRun(c, INITIAL, steps)
    ensures Stuck(c, Outcome(c, INITIAL, steps)) <==> !Modest(steps, 0)
  {
    SticksIffExcessive(c, INITIAL, steps, 0);
  }

  // ---- a build on other threads ----

  lemma Prepend(c: Config, s: State, step: Step, rest: seq<Step>)
    requires Enabled(c, s, step) && IsRun(c, After(c, s, step), rest)
    ensures IsRun(c, s, [step] + rest) && Outcome(c, s, [step] + rest) == Outcome(c, After(c, s, step), rest)
  {
    assert ([step] + rest)[1..] == rest;
  }

  lemma OfferNow(c: Config, s: State) returns (steps: seq<Step>)
    requires Enabled(c, s, Offer)
    ensures IsRun(c, s, steps) && Outcome(c, s, steps) == Offered(s)
  {
    steps := [Offer];
    assert steps[1..] == [];
  }

  /** From every state of a run an event that waits to be sent gets through, and a start
      or complete then enters the queue: the pump makes room. */
  lemma WaitingSendGetsThrough(c: Config, s: State) returns (steps: seq<Step>)
    requires !c.sameThread && Valid(c, s) && s.pending.Some? && s.phase in {Pumping, Waiting}
    ensures IsRun(c, s, steps)
    ensures var t := Outcome(c, s, steps);
      && t.pending.None? && t.offered == s.offered + [s.pending.value]
      && (s.pending.value.kind != Progress ==> t.kept == s.kept + [true])
    decreases s.phase == Waiting
  {
    if Enabled(c, s, Offer) {
      steps := OfferNow(c, s);
    } else if s.phase == Waiting {
      StepKeepsValid(c, s, Tick);
      var rest := WaitingSendGetsThrough(c, After(c, s, Tick));
      steps := [Tick] + rest;
      Prepend(c, s, Tick, rest);
    } else {
      var received := After(c, s, Receive(true));
      var rest := OfferNow(c, received);
      steps := [Receive(true)] + rest;
      Prepend(c, s, Receive(true), rest);
    }
  }

  /** In every run a build on other threads is never blocked for good. */
  lemma OtherThreadsNeverStick(c: Config, steps: seq<Step>) returns (more: seq<Step>)
    requires !c.sameThread && IsRun(c, INITIAL, steps) && Outcome(c, INITIAL, steps).pending.Some?
    requires Outcome(c, INITIAL, steps).phase != Raised
    ensures IsRun(c, INITIAL, steps + more)
    ensures var s, t := Outcome(c, INITIAL, steps), Outcome(c, INITIAL, steps + more);
      && t.pending.None? && t.offered == s.offered + [s.pending.value]
      && (s.pending.value.kind != Progress ==> t.kept == s.kept + [true])
  {
    InitialIsValid(c);
    EveryRun(c, INITIAL, steps);
    more := WaitingSendGetsThrough(c, Outcome(c, INITIAL, steps));
    RunsCompose(c, INITIAL, steps, more);
  }
}
