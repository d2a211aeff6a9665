/** Seeking on the ruler (`Ruler`).

    A click on the ruler bar reports the clicked offset, rounded to tens,
    through `setTime`. A mouse-down on the bar opens a drag session; while
    it is open every mouse-move over the bar reports its offset the same
    way; a mouse-up anywhere on the page closes it. Offsets are pixels from
    the bar's left edge, and one pixel is one millisecond: the bar is
    `duration` pixels wide. */
module RulerSeek {
  import opened Wrappers
  import opened Utils
  import opened Controls

  /** `dragging` is `draggingRef.current`; `calls` the setter calls made. */
  datatype Seeker = Seeker(dragging: bool, calls: seq<Call>)

  /** `handleClick`: an event without a target is ignored; otherwise the
      offset `x` within the target is reported, dragging or not. */
  function AfterClick(s: Seeker, target: Option<int>): (r: Seeker)
    ensures target.None? ==> r == s
    ensures target.Some? ==>
              r.dragging == s.dragging && r.calls == s.calls + [SetTime(TenMultiple(target.value))]
  {
    match target
    case None => s
    case Some(x) => s.(calls := s.calls + [SetTime(TenMultiple(x))])
  }

  /** `handleMouseDown`: a drag session begins. */
  function AfterMouseDown(s: Seeker): (r: Seeker)
    ensures r.dragging && r.calls == s.calls
  {
    s.(dragging := true)
  }

  /** The page-wide mouse-up listener: the drag session ends. */
  function AfterMouseUp(s: Seeker): (r: Seeker)
    ensures !r.dragging && r.calls == s.calls
  {
    s.(dragging := false)
  }

  /** `handleMouseMove`: report the offset only inside a drag session. */
  function AfterMouseMove(s: Seeker, x: int): (r: Seeker)
    ensures r.dragging == s.dragging
    ensures s.dragging ==> r.calls == s.calls + [SetTime(TenMultiple(x))]
    ensures !s.dragging ==> r.calls == s.calls
  {
    if s.dragging then s.(calls := s.calls + [SetTime(TenMultiple(x))]) else s
  }

  /** The offsets of a run of mouse moves. */
  function MoveAll(s: Seeker, xs: seq<int>): Seeker
    decreases |xs|
  {
    if xs == [] then s else MoveAll(AfterMouseMove(s, xs[0]), xs[1..])
  }

  /** Inside a drag session each move reports its own offset, in order. */
  lemma {:induction false} DragReportsEveryMove(s: Seeker, xs: seq<int>)
    requires s.dragging
    ensures MoveAll(s, xs).dragging
    ensures MoveAll(s, xs).calls == s.calls + seq(|xs|, i requires 0 <= i < |xs| => SetTime(TenMultiple(xs[i])))
    decreases |xs|
  {
    if xs != [] {
      var s' := AfterMouseMove(s, xs[0]);
      DragReportsEveryMove(s', xs[1..]);
      assert s'.calls + seq(|xs[1..]|, i requires 0 <= i < |xs[1..]| => SetTime(TenMultiple(xs[1..][i])))
          == s.calls + seq(|xs|, i requires 0 <= i < |xs| => SetTime(TenMultiple(xs[i])));
    }
  }

  /** Once the mouse is up, no amount of moving reports anything. */
  lemma {:induction false} MovesAfterMouseUpAreSilent(s: Seeker, xs: seq<int>)
    ensures MoveAll(AfterMouseUp(s), xs) == AfterMouseUp(s)
    decreases |xs|
  {
    if xs != [] {
      MovesAfterMouseUpAreSilent(s, xs[1..]);
    }
  }

  datatype MouseEvent = Click(target: Option<int>) | MouseDown | MouseUp | MouseMove(x: int)

  function Handle(s: Seeker, e: MouseEvent): Seeker {
    match e
    case Click(target) => AfterClick(s, target)
    case MouseDown => AfterMouseDown(s)
    case MouseUp => AfterMouseUp(s)
    case MouseMove(x) => AfterMouseMove(s, x)
  }

  function HandleAll(s: Seeker, es: seq<MouseEvent>): Seeker
    decreases |es|
  {
    if es == [] then s else HandleAll(Handle(s, es[0]), es[1..])
  }

  /** Every call the ruler makes sets the time to a multiple of ten. */
  predicate OnlyGridSeeks(calls: seq<Call>) {
    forall i :: 0 <= i < |calls| ==> calls[i].SetTime? && calls[i].time % 10 == 0
  }

  /** Whatever the mouse does, the ruler never calls `setDuration`, and
      every time it reports is on the ten grid. */
  lemma {:induction false} RulerOnlySeeks(s: Seeker, es: seq<MouseEvent>)
    requires OnlyGridSeeks(s.calls)
    ensures OnlyGridSeeks(HandleAll(s, es).calls)
    decreases |es|
  {
    if es != [] {
      RulerOnlySeeks(Handle(s, es[0]), es[1..]);
    }
  }

  /** A seek anywhere on a bar whose width is a multiple of ten reports a
      time on the step grid that lies within the duration. */
  lemma SeekWithinBar(x: int, duration: int)
    requires 0 <= x <= duration && duration % 10 == 0
    ensures 0 <= TenMultiple(x) <= duration && TenMultiple(x) % 10 == 0
  {
    TenMultipleBetween(0, x, duration);
  }

  /** Clicks at 100 and 234, then a drag from 100 to 300: the reports are
      100, 230 and 300, and the session is over afterwards. */
  lemma ClickAndDragExample()
    ensures var s := AfterClick(AfterClick(Seeker(false, []), Some(100)), Some(234));
            var d := AfterMouseUp(AfterMouseMove(AfterMouseDown(s), 300));
            d.calls == [SetTime(100), SetTime(230), SetTime(300)] && !d.dragging
  {
    TenMultipleFixes(100);
    TenMultipleFixes(300);
  }

  class Ruler {
    /** The bar is as wide, in pixels, as the duration in milliseconds. */
    const duration: int
    var dragging: bool
    var calls: seq<Call>

    function State(): Seeker
      reads this
    {
      Seeker(dragging, calls)
    }

    constructor (duration: int)
      ensures this.duration == duration && State() == Seeker(false, [])
    {
      this.duration := duration;
      dragging := false;
      calls := [];
    }

    /** The ruler only ever calls `setTime`, never `setDuration`. */
    predicate OnlySetsTime()
      reads this
    {
      forall i :: 0 <= i < |calls| ==> calls[i].SetTime?
    }

    method HandleClick(target: Option<int>)
      modifies this
      ensures State() == AfterClick(old(State()), target)
      ensures old(OnlySetsTime()) ==> OnlySetsTime()
    {
      if target.None? {
        return;
      }
      calls := calls + [SetTime(TenMultiple(target.value))];
    }

    method HandleMouseDown()
      modifies this
      ensures State() == AfterMouseDown(old(State()))
    {
      dragging := true;
    }

    method HandleMouseUp()
      modifies this
      ensures State() == AfterMouseUp(old(State()))
    {
      dragging := false;
    }

    method HandleMouseMove(x: int)
      modifies this
      ensures State() == AfterMouseMove(old(State()), x)
      ensures old(OnlySetsTime()) ==> OnlySetsTime()
    {
      if dragging {
        calls := calls + [SetTime(TenMultiple(x))];
      }
    }
  }
}
