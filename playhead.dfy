/** Where the playhead is drawn (`Playhead`).

    The playhead sits at `time` pixels along the track, shifted left by the
    ruler's horizontal scroll. It is hidden once it has scrolled more than
    15 pixels past the left edge (the ruler's left padding less one pixel).
    There is no rule for the right edge. */
module PlayheadPosition {

  /** The part of the ruler's left padding a playhead may still occupy. */
  const LeftPadding: int := 15

  /** `offset` is the translation from the anchor, `visible` whether it is
      displayed. */
  datatype Placement = Placement(offset: int, visible: bool)

  /** The placement for `time`, with `scrollLeft` defaulting to 0. */
  function Locate(time: int, scrollLeft: int := 0): (r: Placement)
    ensures r.offset + scrollLeft == time
    ensures r.visible <==> r.offset >= -LeftPadding
  {
    var outOfView := time < scrollLeft - LeftPadding;
    Placement(time - scrollLeft, !outOfView)
  }

  /** Without scrolling, a playhead at a non-negative time is shown exactly
      at its time. */
  lemma UnscrolledShowsTime(time: int)
    requires time >= 0
    ensures Locate(time) == Placement(time, true)
  {
  }

  /** A later time, or less scrolling, never hides a visible playhead. */
  lemma VisibilityMonotone(time: int, scrollLeft: int, laterTime: int, lessScroll: int)
    requires Locate(time, scrollLeft).visible
    requires time <= laterTime && lessScroll <= scrollLeft
    ensures Locate(laterTime, scrollLeft).visible && Locate(time, lessScroll).visible
  {
  }

  /** Moving the time and the scroll together changes nothing on screen. */
  lemma ShiftInvariant(time: int, scrollLeft: int, d: int)
    ensures Locate(time + d, scrollLeft + d) == Locate(time, scrollLeft)
  {
  }

  /** Time 500 unscrolled sits at 500 and at 300 after scrolling 200; time
      200 is hidden at scroll 300 and shown at scroll 200. */
  lemma PlayheadExamples()
    ensures Locate(500).offset == 500 && Locate(500, 200).offset == 300
    ensures !Locate(200, 300).visible && Locate(200, 200).visible
  {
  }
}
