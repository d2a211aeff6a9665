/** The time/duration controller (`PlayControls`) over the timeline's
    shared state.

    The timeline owns `time` and `duration`; the controller wires two
    number fields to them, the time field bounded by `[0, duration]` and
    the duration field by `[MinDuration, MaxDuration]`, both with step ten.
    A committed duration below the current time pulls the time down with
    it. `calls` records the state setters in the order they are invoked. */
module Controls {
  import opened NumberInput

  const MinDuration: int := 100
  const MaxDuration: int := 6000
  const DefaultDuration: int := 2000
  const TimeStep: int := 10

  /** A call of one of the timeline's two setters. */
  datatype Call = SetTime(time: int) | SetDuration(duration: int)

  datatype Timing = Timing(time: int, duration: int, calls: seq<Call>)

  /** The timeline's invariant: the time lies within the duration, the
      duration within its bounds, and both on the step grid. */
  predicate Consistent(t: Timing)
    ensures Consistent(t) ==> 0 <= t.time <= MaxDuration
  {
    && 0 <= t.time <= t.duration
    && MinDuration <= t.duration <= MaxDuration
    && t.time % TimeStep == 0 && t.duration % TimeStep == 0
  }

  /** The state the timeline mounts with. */
  function Initial(): (t: Timing)
    ensures Consistent(t)
  {
    Timing(0, DefaultDuration, [])
  }

  /** `handleDurationChange(v)`: set the duration, then cap the time. */
  function AfterDurationChange(t: Timing, v: int): (r: Timing)
    ensures r.duration == v
    ensures r.time <= t.time && r.time <= v && (r.time == t.time || r.time == v)
    ensures |r.calls| > |t.calls| && r.calls[..|t.calls|] == t.calls
    ensures r.calls[|t.calls|] == SetDuration(v)
    ensures r.calls[|t.calls| + 1..] == if r.time != t.time then [SetTime(v)] else []
  {
    if v < t.time then
      Timing(v, v, t.calls + [SetDuration(v), SetTime(v)])
    else
      Timing(t.time, v, t.calls + [SetDuration(v)])
  }

  /** `onTimeChange(v)`: forward the value to `setTime`. */
  function AfterTimeChange(t: Timing, v: int): (r: Timing)
    ensures r.time == v && r.duration == t.duration
    ensures r.calls == t.calls + [SetTime(v)]
  {
    t.(time := v, calls := t.calls + [SetTime(v)])
  }

  /** The duration field reports `Validate(x, MinDuration, MaxDuration)`
      for whatever `x` it commits; the handler then runs. */
  function CommitDuration(t: Timing, x: real): (r: Timing)
    ensures r.duration == Validate(x, MinDuration, MaxDuration)
    ensures MinDuration <= r.duration <= MaxDuration
    ensures Consistent(t) ==> Consistent(r)
  {
    AfterDurationChange(t, Validate(x, MinDuration, MaxDuration))
  }

  /** The time field reports `Validate(x, 0, duration)`. */
  function CommitTime(t: Timing, x: real): (r: Timing)
    ensures r.time == Validate(x, 0, t.duration) && r.duration == t.duration
    ensures Consistent(t) ==> Consistent(r)
  {
    AfterTimeChange(t, Validate(x, 0, t.duration))
  }

  datatype Commit = TimeCommit(x: real) | DurationCommit(x: real)

  function Apply(t: Timing, c: Commit): Timing {
    match c
    case TimeCommit(x) => CommitTime(t, x)
    case DurationCommit(x) => CommitDuration(t, x)
  }

  function ApplyAll(t: Timing, cs: seq<Commit>): Timing
    decreases |cs|
  {
    if cs == [] then t else ApplyAll(Apply(t, cs[0]), cs[1..])
  }

  /** From the initial state, no sequence of commits on the two fields can
      break `0 <= time <= duration` or the duration bounds. */
  lemma {:induction false} CommitsKeepConsistent(t: Timing, cs: seq<Commit>)
    requires Consistent(t)
    ensures Consistent(ApplyAll(t, cs))
    decreases |cs|
  {
    if cs != [] {
      CommitsKeepConsistent(Apply(t, cs[0]), cs[1..]);
    }
  }

  /** Time 200 and duration 1000; one commit of 50 by the duration field
      gives duration 100 and pulls the time to 100. */
  lemma ShortDurationPullsTimeExample()
    ensures var r := CommitDuration(Timing(200, 1000, []), 50.0);
            r.duration == 100 && r.time == 100 && r.calls == [SetDuration(100), SetTime(100)]
  {
    assert Validate(50.0, MinDuration, MaxDuration) == 100 by {
      Utils.TenMultipleFixes(100);
    }
  }

  /** Out-of-range entries are pulled into the bounds of each field. */
  lemma BoundsExamples()
    ensures CommitTime(Timing(0, DefaultDuration, []), -1.0).time == 0
    ensures CommitTime(Timing(0, DefaultDuration, []), 2001.0).time == DefaultDuration
    ensures CommitDuration(Timing(1000, 2000, []), 99.0).duration == MinDuration
    ensures CommitDuration(Timing(1000, 2000, []), 6001.0).duration == MaxDuration
    ensures CommitDuration(Timing(1000, 2000, []), 500.0).calls == [SetDuration(500), SetTime(500)]
  {
    Utils.TenMultipleFixes(0);
    Utils.TenMultipleFixes(2000);
    Utils.TenMultipleFixes(100);
    Utils.TenMultipleFixes(6000);
    Utils.TenMultipleFixes(500);
  }

  class PlayControls {
    var time: int
    var duration: int
    var calls: seq<Call>

    function State(): Timing
      reads this
    {
      Timing(time, duration, calls)
    }

    predicate Valid()
      reads this
    {
      Consistent(State())
    }

    /** The timeline's initial state: time 0, the default duration. */
    constructor ()
      ensures State() == Initial() && Valid()
    {
      time := 0;
      duration := DefaultDuration;
      calls := [];
    }

    /** Called with what the duration field reports: a duration on the
        grid within its bounds. */
    method HandleDurationChange(v: int)
      requires Valid()
      requires MinDuration <= v <= MaxDuration && v % TimeStep == 0
      modifies this
      ensures Valid()
      ensures State() == AfterDurationChange(old(State()), v)
    {
      var before := time;
      duration := v;
      calls := calls + [SetDuration(v)];
      if v < before {
        time := v;
        calls := calls + [SetTime(v)];
      }
    }

    /** Called with what the time field reports: a time on the grid within
        the current duration. */
    method OnTimeChange(v: int)
      requires Valid()
      requires 0 <= v <= duration && v % TimeStep == 0
      modifies this
      ensures Valid()
      ensures State() == AfterTimeChange(old(State()), v)
    {
      time := v;
      calls := calls + [SetTime(v)];
    }

    /** The duration field commits `x`. */
    method CommitDurationField(x: real)
      requires Valid()
      modifies this
      ensures Valid()
      ensures State() == CommitDuration(old(State()), x)
    {
      HandleDurationChange(Validate(x, MinDuration, MaxDuration));
    }

    /** The time field, bounded by the current duration, commits `x`. */
    method CommitTimeField(x: real)
      requires Valid()
      modifies this
      ensures Valid()
      ensures State() == CommitTime(old(State()), x)
    {
      OnTimeChange(Validate(x, 0, duration));
    }
  }
}
