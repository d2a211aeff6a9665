/** The staged numeric edit field (`NumberInputField`).

    The field shows a draft (`inputValue`) that follows what is typed, and
    reports a value upward through `onChange` only at commit points: Enter,
    Escape, the arrow keys, blur, a native step-button nudge and emptied
    text. Every reported value goes through `Validate` first.

    The pure functions below give the field's reaction to each event as a
    function of the state before it; the class `NumberInputField` at the end
    performs the same reactions in place. */
module NumberInput {
  import opened Wrappers
  import opened Utils
  import opened NumberParse

  // ---------------------------------------------------------------------
  // Quantisation (`validateValue`)
  // ---------------------------------------------------------------------

  /** JavaScript's `Math.round`: the nearest integer, halves going up. */
  function Round(x: real): (r: int)
    ensures r as real - 0.5 <= x < r as real + 0.5
  {
    (x + 0.5).Floor
  }

  predicate IsInteger(x: real) {
    x.Floor as real == x
  }

  /** `Number.isInteger(x) ? x : Math.round(x)`: the nearest integer. */
  function ToInteger(x: real): (r: int)
    ensures r as real - 0.5 <= x < r as real + 0.5
    ensures IsInteger(x) ==> r as real == x
  {
    if IsInteger(x) then x.Floor else Round(x)
  }

  /** `Math.min(Math.max(x, lo), hi)`. */
  function Clamp(x: real, lo: int, hi: int): (r: real)
    ensures lo <= hi ==> lo as real <= r <= hi as real
    ensures lo as real <= x <= hi as real ==> r == x
    ensures lo <= hi && x < lo as real ==> r == lo as real
    ensures x > hi as real ==> r == hi as real
    ensures hi < lo ==> r == hi as real
  {
    var atLeast := if x > lo as real then x else lo as real;
    if atLeast < hi as real then atLeast else hi as real
  }

  /** An integer inside `[lo, hi]` that is a multiple of ten. */
  predicate InRange(v: int, lo: int, hi: int) {
    lo <= v <= hi && v % 10 == 0
  }

  /** Bounds the quantiser can always honour: ordered multiples of ten. */
  predicate QuantisedBounds(lo: int, hi: int) {
    lo <= hi && lo % 10 == 0 && hi % 10 == 0
  }

  /** `validateValue`: clamp to `[min, max]`, round to an integer, then
      round to a multiple of ten. The field's `step` plays no part. */
  function Validate(x: real, min: int, max: int): (r: int)
    ensures r % 10 == 0
    ensures var w := ToInteger(Clamp(x, min, max)); w - 5 < r <= w + 5
    ensures QuantisedBounds(min, max) ==> InRange(r, min, max)
  {
    var clamped := Clamp(x, min, max);
    var whole := ToInteger(clamped);
    if QuantisedBounds(min, max) then
      TenMultipleBetween(min, whole, max);
      TenMultiple(whole)
    else
      TenMultiple(whole)
  }

  /** A value that already satisfies the bounds is left alone. */
  lemma ValidateKeepsValid(v: int, min: int, max: int)
    requires InRange(v, min, max)
    ensures Validate(v as real, min, max) == v
  {
    assert IsInteger(v as real);
    TenMultipleFixes(v);
  }

  /** Validating twice is validating once, whatever the bounds. */
  lemma ValidateIdempotent(x: real, min: int, max: int)
    ensures Validate(Validate(x, min, max) as real, min, max) == Validate(x, min, max)
  {
    var v := Validate(x, min, max);
    var whole := ToInteger(Clamp(x, min, max));
    assert v == TenMultiple(whole);
    TenMultipleFixes(v);
    if max < min {
      assert Clamp(v as real, min, max) == max as real;
    } else if v < min {
      assert Clamp(v as real, min, max) == min as real;
      assert IsInteger(min as real);
      TenMultipleMonotone(min, whole);
      TenMultipleMonotone(v, min);
    } else if v > max {
      assert Clamp(v as real, min, max) == max as real;
      assert IsInteger(max as real);
      TenMultipleMonotone(whole, max);
      TenMultipleMonotone(max, v);
    } else {
      assert Clamp(v as real, min, max) == v as real;
      assert IsInteger(v as real);
    }
  }

  /** `Math.round` preserves order. */
  lemma ToIntegerMonotone(x: real, y: real)
    requires x <= y
    ensures ToInteger(x) <= ToInteger(y)
  {
  }

  /** A larger entry never validates to a smaller value. */
  lemma ValidateMonotone(x: real, y: real, min: int, max: int)
    requires x <= y
    ensures Validate(x, min, max) <= Validate(y, min, max)
  {
    var cx, cy := Clamp(x, min, max), Clamp(y, min, max);
    assert cx <= cy;
    ToIntegerMonotone(cx, cy);
    TenMultipleMonotone(ToInteger(cx), ToInteger(cy));
  }

  lemma NegativeClampsToMinExample()
    ensures Validate(-100.0, 10, 2000) == 10
  {
    TenMultipleFixes(10);
  }

  lemma DecimalRoundingExamples()
    ensures Validate(104.5, 0, 2000) == 110
    ensures Validate(100.4, 0, 2000) == 100
  {
    assert !IsInteger(104.5) && Round(104.5) == 105;
    assert !IsInteger(100.4) && Round(100.4) == 100;
    TenMultipleFixes(100);
  }

  // ---------------------------------------------------------------------
  // The field's state and its reactions
  // ---------------------------------------------------------------------

  /** The props the field's logic reads. */
  datatype Props = Props(min: int, max: int, step: int)

  /** `value` is the committed prop, `draft` the shown `inputValue`,
      `calls` the arguments of every `onChange` call so far, in order. */
  datatype Field = Field(value: int, draft: real, focused: bool, calls: seq<int>)

  datatype Key = Enter | Escape | ArrowUp | ArrowDown | OtherKey

  /** Every reported value respects the bounds of `p`. */
  predicate CallsInRange(calls: seq<int>, p: Props) {
    forall i :: 0 <= i < |calls| ==> InRange(calls[i], p.min, p.max)
  }

  /** The field is marked invalid (red text) while its draft is not what
      validation would make of it. */
  predicate IsInvalid(f: Field, p: Props) {
    f.draft != Validate(f.draft, p.min, p.max) as real
  }

  /** With quantised bounds the field is marked invalid exactly when its
      draft is not an in-bounds multiple of ten. */
  lemma InvalidIffOffGrid(f: Field, p: Props)
    requires QuantisedBounds(p.min, p.max)
    ensures IsInvalid(f, p) <==> !(IsInteger(f.draft) && InRange(f.draft.Floor, p.min, p.max))
  {
    if IsInteger(f.draft) && InRange(f.draft.Floor, p.min, p.max) {
      ValidateKeepsValid(f.draft.Floor, p.min, p.max);
    }
  }

  /** `submitChange(v)`: report the validated value and show it. */
  function Commit(f: Field, p: Props, v: real): (r: Field)
    ensures r.calls == f.calls + [Validate(v, p.min, p.max)]
    ensures r.draft == Validate(v, p.min, p.max) as real
    ensures r.value == f.value && r.focused == f.focused
    ensures !IsInvalid(r, p)
  {
    ValidateIdempotent(v, p.min, p.max);
    var valid := Validate(v, p.min, p.max);
    f.(calls := f.calls + [valid], draft := valid as real)
  }

  /** The change handler's guess that a native step button was pressed:
      the new number is one step away from the draft rounded to tens, or,
      when the new number equals the step itself, one step away from the
      draft. */
  predicate IsStepNudge(draft: real, newValue: real, step: int) {
    var rounded := if newValue != step as real then (Round(draft / 10.0) * 10) as real else draft;
    newValue == rounded + step as real || newValue == rounded - step as real
  }

  /** When the draft is already on the ten grid, a nudge is exactly one
      step up or down from the draft, special case or not. */
  lemma StepNudgeFromGrid(draft: real, newValue: real, step: int)
    requires IsInteger(draft) && draft.Floor % 10 == 0
    ensures IsStepNudge(draft, newValue, step) <==>
              newValue == draft + step as real || newValue == draft - step as real
  {
    var k := draft.Floor / 10;
    assert draft / 10.0 == k as real;
    assert Round(k as real) == k;
  }

  /** `handleInputChange`: empty (or blanked) text commits the committed
      value again; a number is shown as typed, and is committed first only
      when it looks like a step-button nudge. */
  function AfterChange(f: Field, p: Props, text: string): (r: Field)
    ensures r.value == f.value && r.focused == f.focused
    ensures ParseNumber(text).None? ==>
              r.calls == f.calls + [Validate(f.value as real, p.min, p.max)] && !IsInvalid(r, p)
    ensures ParseNumber(text).None? ==> r.draft == Validate(f.value as real, p.min, p.max) as real
    ensures ParseNumber(text).Some? ==> r.draft == ParseNumber(text).value
    ensures ParseNumber(text).Some? && !IsStepNudge(f.draft, ParseNumber(text).value, p.step) ==>
              r.calls == f.calls
    ensures ParseNumber(text).Some? && IsStepNudge(f.draft, ParseNumber(text).value, p.step) ==>
              r.calls == f.calls + [Validate(ParseNumber(text).value, p.min, p.max)]
  {
    match ParseNumber(text)
    case None => Commit(f, p, f.value as real)
    case Some(n) =>
      var committed := if IsStepNudge(f.draft, n, p.step) then Commit(f, p, n) else f;
      committed.(draft := n)
  }

  /** `handleInputBlur`: commit the draft; focus is gone. */
  function AfterBlur(f: Field, p: Props): (r: Field)
    ensures r.calls == f.calls + [Validate(f.draft, p.min, p.max)]
    ensures r.draft == Validate(f.draft, p.min, p.max) as real && !IsInvalid(r, p)
    ensures r.value == f.value && !r.focused
  {
    Commit(f, p, f.draft).(focused := false)
  }

  /** `clearFocus()`: blurring a focused input runs the blur handler. */
  function AfterClearFocus(f: Field, p: Props): (r: Field)
    ensures !r.focused && r.value == f.value
    ensures !f.focused ==> r == f
    ensures f.focused ==> r.calls == f.calls + [Validate(f.draft, p.min, p.max)]
    ensures f.focused ==> r.draft == Validate(f.draft, p.min, p.max) as real && !IsInvalid(r, p)
  {
    if f.focused then AfterBlur(f, p) else f
  }

  /** `handleInputKeyDown`. Enter commits the draft and Escape commits the
      committed value; both then drop focus, and the blur that follows
      commits what the field now shows, which is the same value again. The
      arrow keys commit the draft moved by one step. */
  function AfterKeyDown(f: Field, p: Props, key: Key): (r: Field)
    ensures r.value == f.value
    ensures |f.calls| <= |r.calls| && r.calls[..|f.calls|] == f.calls
    ensures key in {Enter, Escape} ==>
              |r.calls| == |f.calls| + (if f.focused then 2 else 1) && !IsInvalid(r, p)
    ensures key == Enter ==>
              r.calls[|r.calls| - 1] == Validate(f.draft, p.min, p.max)
              && r.draft == Validate(f.draft, p.min, p.max) as real && !r.focused
    ensures key == Escape ==>
              r.calls[|r.calls| - 1] == Validate(f.value as real, p.min, p.max)
              && r.draft == Validate(f.value as real, p.min, p.max) as real && !r.focused
    ensures key == Enter ==> var v := Validate(f.draft, p.min, p.max);
              r.calls == f.calls + (if f.focused then [v, v] else [v])
    ensures key == Escape ==> var v := Validate(f.value as real, p.min, p.max);
              r.calls == f.calls + (if f.focused then [v, v] else [v])
    ensures key == ArrowUp ==>
              r == f.(calls := f.calls + [Validate(f.draft + p.step as real, p.min, p.max)],
                      draft := Validate(f.draft + p.step as real, p.min, p.max) as real)
    ensures key == ArrowDown ==>
              r == f.(calls := f.calls + [Validate(f.draft - p.step as real, p.min, p.max)],
                      draft := Validate(f.draft - p.step as real, p.min, p.max) as real)
    ensures key == OtherKey ==> r == f
  {
    match key
    case Enter =>
      var g := Commit(f, p, f.draft);
      ValidateIdempotent(f.draft, p.min, p.max);
      AfterClearFocus(g, p)
    case Escape =>
      var g := Commit(f, p, f.value as real);
      ValidateIdempotent(f.value as real, p.min, p.max);
      AfterClearFocus(g, p)
    case ArrowUp => Commit(f, p, f.draft + p.step as real)
    case ArrowDown => Commit(f, p, f.draft - p.step as real)
    case OtherKey => f
  }

  /** `handleInputFocus`: only the text selection, which is not modelled. */
  function AfterFocus(f: Field): (r: Field)
    ensures r.focused && r.calls == f.calls && r.draft == f.draft && r.value == f.value
  {
    f.(focused := true)
  }

  /** The value-sync effect: a new committed value replaces the draft. */
  function AfterValueProp(f: Field, v: int): (r: Field)
    ensures r.value == v && r.calls == f.calls && r.focused == f.focused
    ensures v != f.value ==> r.draft == v as real
    ensures v == f.value ==> r == f
  {
    if v != f.value then f.(value := v, draft := v as real) else f
  }

  // ---------------------------------------------------------------------
  // Sequences of events
  // ---------------------------------------------------------------------

  datatype Event = Change(text: string) | KeyDown(key: Key) | Focus | Blur | ValueProp(v: int)

  function Step(f: Field, p: Props, e: Event): (r: Field)
    ensures |f.calls| <= |r.calls| <= |f.calls| + 2 && r.calls[..|f.calls|] == f.calls
    ensures QuantisedBounds(p.min, p.max) && CallsInRange(f.calls, p) ==> CallsInRange(r.calls, p)
  {
    match e
    case Change(text) => AfterChange(f, p, text)
    case KeyDown(key) => AfterKeyDown(f, p, key)
    case Focus => AfterFocus(f)
    case Blur => AfterBlur(f, p)
    case ValueProp(v) => AfterValueProp(f, v)
  }

  function Run(f: Field, p: Props, events: seq<Event>): Field
    decreases |events|
  {
    if events == [] then f else Run(Step(f, p, events[0]), p, events[1..])
  }

  /** Whatever the events, `onChange` only ever receives values inside the
      bounds and on a multiple of ten, and earlier calls are never undone. */
  lemma {:induction false} RunReportsOnlyValidValues(f: Field, p: Props, events: seq<Event>)
    requires QuantisedBounds(p.min, p.max) && CallsInRange(f.calls, p)
    ensures CallsInRange(Run(f, p, events).calls, p)
    ensures |f.calls| <= |Run(f, p, events).calls|
    ensures Run(f, p, events).calls[..|f.calls|] == f.calls
    decreases |events|
  {
    if events != [] {
      var g := Step(f, p, events[0]);
      RunReportsOnlyValidValues(g, p, events[1..]);
      var r := Run(g, p, events[1..]);
      assert r.calls[..|f.calls|] == r.calls[..|g.calls|][..|f.calls|];
    }
  }

  /** Typing numbers none of which looks like a step-button nudge (each
      judged against the draft the previous keystroke left). */
  predicate QuietTyping(draft: real, texts: seq<string>, step: int)
    decreases |texts|
  {
    texts == []
    || (ParseNumber(texts[0]).Some?
        && !IsStepNudge(draft, ParseNumber(texts[0]).value, step)
        && QuietTyping(ParseNumber(texts[0]).value, texts[1..], step))
  }

  function Changes(texts: seq<string>): (es: seq<Event>)
    ensures |es| == |texts|
    ensures forall i :: 0 <= i < |texts| ==> es[i] == Change(texts[i])
  {
    if texts == [] then [] else [Change(texts[0])] + Changes(texts[1..])
  }

  /** Typing never reports anything: `onChange` stays silent and the
      committed value untouched until a commit event. */
  lemma {:induction false} TypingNeverCommits(f: Field, p: Props, texts: seq<string>)
    requires QuietTyping(f.draft, texts, p.step)
    ensures Run(f, p, Changes(texts)).calls == f.calls
    ensures Run(f, p, Changes(texts)).value == f.value
    decreases |texts|
  {
    if texts != [] {
      var es := Changes(texts);
      assert es[1..] == Changes(texts[1..]);
      TypingNeverCommits(AfterChange(f, p, texts[0]), p, texts[1..]);
    }
  }

  /** Escape restores a committed value that satisfies the bounds. */
  lemma EscapeRevertsToValue(f: Field, p: Props)
    requires InRange(f.value, p.min, p.max)
    ensures AfterKeyDown(f, p, Escape).draft == f.value as real
    ensures AfterKeyDown(f, p, Escape).calls[|AfterKeyDown(f, p, Escape).calls| - 1] == f.value
  {
    ValidateKeepsValid(f.value, p.min, p.max);
  }

  /** Typing "100" into a field at 0 shows 100 and reports nothing; Enter
      then reports 100. */
  lemma TypeThenEnterExample()
    ensures var p := Props(0, 2000, 10);
            var typed := AfterChange(Field(0, 0.0, false, []), p, "100");
            typed.calls == [] && typed.draft == 100.0
            && AfterKeyDown(typed, p, Enter).calls == [100]
  {
    ParseThreeDigits("100", 100);
    ValidateKeepsValid(100, 0, 2000);
  }

  /** The native step buttons at 150 (step 10): 160 is reported at once,
      and so is the way back to 150. */
  lemma StepButtonsExample()
    ensures var p := Props(0, 2000, 10);
            var up := AfterChange(Field(150, 150.0, false, []), p, "160");
            var down := AfterChange(up, p, "150");
            up.calls == [160] && up.draft == 160.0 && down.calls == [160, 150] && down.draft == 150.0
  {
    ParseThreeDigits("160", 160);
    ParseThreeDigits("150", 150);
    assert Round(15.0) == 15 && Round(16.0) == 16;
    ValidateKeepsValid(160, 0, 2000);
    ValidateKeepsValid(150, 0, 2000);
  }

  /** ArrowUp then ArrowDown at 150 (step 10) reports 160, then 150. */
  lemma ArrowKeysExample()
    ensures var p := Props(0, 2000, 10);
            var up := AfterKeyDown(Field(150, 150.0, true, []), p, ArrowUp);
            up.calls == [160] && AfterKeyDown(up, p, ArrowDown).calls == [160, 150]
  {
    ValidateKeepsValid(160, 0, 2000);
    ValidateKeepsValid(150, 0, 2000);
  }

  // ---------------------------------------------------------------------
  // Escape as written
  // ---------------------------------------------------------------------

  /** `submitChange(v)` as it runs inside a handler whose `inputValue` is
      `stale`: the draft is only set when the validated value differs from
      `stale`, so an earlier update in the same event survives otherwise. */
  function StaleCommit(f: Field, p: Props, v: real, stale: real): (r: Field)
    ensures r.calls == f.calls + [Validate(v, p.min, p.max)]
    ensures r.value == f.value && r.focused == f.focused
    ensures stale == f.draft ==> r == Commit(f, p, v)
    ensures Validate(v, p.min, p.max) as real != stale ==> r.draft == Validate(v, p.min, p.max) as real
    ensures stale != f.draft && Validate(v, p.min, p.max) as real == stale ==> r.draft == f.draft
  {
    var valid := Validate(v, p.min, p.max);
    f.(calls := f.calls + [valid], draft := if valid as real != stale then valid as real else f.draft)
  }

  /** Escape as the handler is written: `clearFocus()` runs the blur handler
      of the same render, which commits the draft from before the key. */
  function EscapeAsWritten(f: Field, p: Props): (r: Field)
    ensures |r.calls| == |f.calls| + (if f.focused then 2 else 1)
    ensures r.calls[..|f.calls| + 1] == f.calls + [Validate(f.value as real, p.min, p.max)]
    ensures f.focused ==> r.calls == f.calls + [Validate(f.value as real, p.min, p.max), Validate(f.draft, p.min, p.max)]
  {
    var g := StaleCommit(f, p, f.value as real, f.draft);
    if f.focused then StaleCommit(g, p, f.draft, f.draft).(focused := false) else g
  }

  /** The field holds 150 and the user has typed 100; Escape reports 150,
      then the blur reports 100, and the parent's next render shows 100. */
  lemma EscapeAsWrittenKeepsTypedValue()
    ensures var p := Props(0, 2000, 10);
            var f := Field(150, 100.0, true, []);
            var r := EscapeAsWritten(f, p);
            r.calls == [150, 100] && AfterValueProp(r, r.calls[1]).draft == 100.0
  {
    var p := Props(0, 2000, 10);
    ValidateKeepsValid(150, 0, 2000);
    ValidateKeepsValid(100, 0, 2000);
    var f := Field(150, 100.0, true, []);
    var r := EscapeAsWritten(f, p);
    assert r.calls == [150, 100];
  }

  /** Away from Escape the stale reading makes no difference: Enter as
      written reports the validated draft twice, like `AfterKeyDown`. */
  lemma EnterAsWrittenAgrees(f: Field, p: Props)
    ensures var g := StaleCommit(f, p, f.draft, f.draft);
            (if f.focused then StaleCommit(g, p, f.draft, f.draft).(focused := false) else g)
            == AfterKeyDown(f, p, Enter)
  {
    ValidateIdempotent(f.draft, p.min, p.max);
  }

  // ---------------------------------------------------------------------
  // The component
  // ---------------------------------------------------------------------

  class NumberInputField {
    const props: Props
    var value: int
    var draft: real
    var focused: bool
    var calls: seq<int>

    function State(): Field
      reads this
    {
      Field(value, draft, focused, calls)
    }

    /** Mounting: the draft starts as the committed value. */
    constructor (value: int, props: Props)
      ensures this.props == props
      ensures State() == Field(value, value as real, false, [])
    {
      this.props := props;
      this.value := value;
      this.draft := value as real;
      this.focused := false;
      this.calls := [];
    }

    /** The red-text flag. */
    predicate Invalid()
      reads this
    {
      IsInvalid(State(), props)
    }

    method SubmitChange(v: real)
      modifies this
      ensures State() == Commit(old(State()), props, v)
    {
      var valid := Validate(v, props.min, props.max);
      calls := calls + [valid];
      if valid as real != draft {
        draft := valid as real;
      }
    }

    method HandleInputChange(text: string)
      modifies this
      ensures State() == AfterChange(old(State()), props, text)
    {
      var parsed := ParseNumber(text);
      if parsed.None? {
        SubmitChange(value as real);
        return;
      }
      var newValue := parsed.value;
      var rounded := if newValue != props.step as real then (Round(draft / 10.0) * 10) as real else draft;
      if newValue == rounded + props.step as real || newValue == rounded - props.step as real {
        SubmitChange(newValue);
      }
      draft := newValue;
    }

    method HandleInputBlur()
      modifies this
      ensures State() == AfterBlur(old(State()), props)
    {
      SubmitChange(draft);
      focused := false;
    }

    method ClearFocus()
      modifies this
      ensures State() == AfterClearFocus(old(State()), props)
    {
      if focused {
        HandleInputBlur();
      }
    }

    method HandleInputKeyDown(key: Key)
      modifies this
      ensures State() == AfterKeyDown(old(State()), props, key)
    {
      match key
      case Enter =>
        SubmitChange(draft);
        ClearFocus();
      case Escape =>
        SubmitChange(value as real);
        ClearFocus();
      case ArrowUp =>
        SubmitChange(draft + props.step as real);
      case ArrowDown =>
        SubmitChange(draft - props.step as real);
      case OtherKey =>
    }

    method HandleInputFocus()
      modifies this
      ensures State() == AfterFocus(old(State()))
    {
      focused := true;
    }

    /** The effect that runs when the `value` prop changes. */
    method ReceiveValue(v: int)
      modifies this
      ensures State() == AfterValueProp(old(State()), v)
    {
      if v != value {
        value := v;
        if v as real != draft {
          draft := v as real;
        }
      }
    }
  }
}
