/** The events of one index build and what a sequence of reported stages makes of them. */
module ProgressEvents {

  datatype Option<T> = None | Some(value: T)

  datatype Kind = Start | Progress | Complete

  datatype Event = Event(kind: Kind, stage: string, completed: Option<nat>, total: Option<nat>, unit: string)

  /** The stage under way, as far as it was reported. */
  datatype Active = Active(stage: Option<string>, completed: Option<nat>, total: Option<nat>, unit: string)

  const NO_STAGE := Active(None, None, None, "")

  datatype Report =
    | StageStart(name: string, total: Option<nat>, unit: string)
    | StageProgress(name: string, completed: nat)
    | StageComplete(name: string)

  function Or<T>(a: Option<T>, b: Option<T>): Option<T> {
    if a.Some? then a else b
  }

  /** The stage after a report. */
  function Next(a: Active, r: Report): Active {
    match r
    case StageStart(name, total, unit) => Active(Some(name), Some(0), total, unit)
    case StageProgress(name, completed) => a.(stage := Or(a.stage, Some(name)), completed := Some(completed))
    case StageComplete(_) => NO_STAGE
  }

  /** The event a report sends. */
  function EventOf(a: Active, r: Report): Event {
    match r
    case StageStart(name, total, unit) => Event(Start, name, Some(0), total, unit)
    case StageProgress(name, completed) => Event(Progress, name, Some(completed), a.total, a.unit)
    case StageComplete(name) => Event(Complete, name, Or(a.completed, a.total), a.total, a.unit)
  }

  // ---- what the events themselves tell ----

  /** The last count reported since the last completed stage, a start counting as zero. */
  function LastCount(events: seq<Event>): Option<nat> {
    if events == [] || events[|events| - 1].kind == Complete then None
    else events[|events| - 1].completed
  }

  /** The latest start since the last completed stage. */
  function LastStart(events: seq<Event>): Option<Event> {
    if events == [] || events[|events| - 1].kind == Complete then None
    else if events[|events| - 1].kind == Start then Some(events[|events| - 1])
    else LastStart(events[..|events| - 1])
  }

  /** The stage under way: that of the latest start since the last completed stage, or
      without one that of the first progress. */
  function LastStage(events: seq<Event>): Option<string> {
    if events == [] || events[|events| - 1].kind == Complete then None
    else if events[|events| - 1].kind == Start then Some(events[|events| - 1].stage)
    else
      var before := LastStage(events[..|events| - 1]);
      if before.Some? then before else Some(events[|events| - 1].stage)
  }

  function TotalOf(start: Option<Event>): Option<nat> {
    if start.Some? then start.value.total else None
  }

  function UnitOf(start: Option<Event>): string {
    if start.Some? then start.value.unit else ""
  }

  /** Event `i` repeats the total and unit of its stage's start, and a complete event
      carries the last count reported before it. */
  ghost predicate Consistent(events: seq<Event>, i: nat)
    requires i < |events|
  {
    var before, e := events[..i], events[i];
    && (e.kind == Start ==> e.completed == Some(0))
    && (e.kind == Progress ==> e.completed.Some?)
    && (e.kind == Complete ==> e.completed == LastCount(before))
    && (e.kind != Start ==> e.total == TotalOf(LastStart(before)) && e.unit == UnitOf(LastStart(before)))
  }

  /** The stage under way says what the events so far told. */
  ghost predicate Reflects(a: Active, events: seq<Event>) {
    && a.stage == LastStage(events) && a.completed == LastCount(events)
    && a.total == TotalOf(LastStart(events)) && a.unit == UnitOf(LastStart(events))
    && (a.completed.None? ==> a == NO_STAGE)
  }

  lemma ReportReflects(a: Active, events: seq<Event>, r: Report)
    requires Reflects(a, events)
    ensures Reflects(Next(a, r), events + [EventOf(a, r)])
    ensures Consistent(events + [EventOf(a, r)], |events|)
  {
    var more := events + [EventOf(a, r)];
    assert more[..|events|] == events;
    assert more[..|more| - 1] == events;
  }

  lemma ConsistentPrefix(events: seq<Event>, e: Event, i: nat)
    requires i < |events| && Consistent(events, i)
    ensures Consistent(events + [e], i)
  {
    assert (events + [e])[..i] == events[..i];
  }

  // ---- what is kept ----

  /** The events whose flag is set, in order. */
  function Kept(events: seq<Event>, flags: seq<bool>): (k: seq<Event>)
    requires |events| == |flags|
  {
    if events == [] then []
    else
      var n := |events| - 1;
      Kept(events[..n], flags[..n]) + (if flags[n] then [events[n]] else [])
  }

  function Lifecycle(events: seq<Event>): seq<Event> {
    if events == [] then []
    else
      var n := |events| - 1;
      Lifecycle(events[..n]) + (if events[n].kind == Progress then [] else [events[n]])
  }

  lemma KeptAppend(events: seq<Event>, flags: seq<bool>, e: Event, flag: bool)
    requires |events| == |flags|
    ensures Kept(events + [e], flags + [flag]) == Kept(events, flags) + (if flag then [e] else [])
  {
    assert (events + [e])[..|events|] == events && (flags + [flag])[..|flags|] == flags;
  }

  lemma LifecycleAppend(events: seq<Event>, e: Event)
    ensures Lifecycle(events + [e]) == Lifecycle(events) + (if e.kind == Progress then [] else [e])
  {
    assert (events + [e])[..|events|] == events;
  }

  /** If only progress is left out, every start and complete is kept once and in order. */
  lemma {:induction false} LifecycleKept(events: seq<Event>, flags: seq<bool>)
    requires |events| == |flags| && forall i :: 0 <= i < |flags| && !flags[i] ==> events[i].kind == Progress
    ensures Lifecycle(Kept(events, flags)) == Lifecycle(events)
  {
    if events != [] {
      var n := |events| - 1;
      LifecycleKept(events[..n], flags[..n]);
      if flags[n] {
        LifecycleAppend(Kept(events[..n], flags[..n]), events[n]);
      } else {
        assert Kept(events, flags) == Kept(events[..n], flags[..n]);
      }
    }
  }
}
