/** The scroll synchroniser (`SyncScroll`).

    At mount it records every pane that carries a `data-sync-scroll` tag.
    A pane is on the horizontal axis when its tag contains "horizontal" and
    on the vertical axis when it contains "vertical", so
    "horizontal|vertical" is on both. When a registered pane scrolls, every
    other registered pane that shares an axis with it is given its offset
    on that axis, but only where the two offsets differ. Pane offsets belong
    to the page: they are the arrays `left` (`scrollLeft`) and `top`
    (`scrollTop`), indexed like the registry. */
module ScrollSync {
  import opened Wrappers

  // ---------------------------------------------------------------------
  // Tags
  // ---------------------------------------------------------------------

  predicate OccursAt(s: string, sub: string, j: nat) {
    j + |sub| <= |s| && s[j..j + |sub|] == sub
  }

  /** `s.indexOf(sub, from)`: the first position at or after `from` where
      `sub` occurs in `s`, or -1. */
  function IndexFrom(s: string, sub: string, from: nat): (r: int)
    ensures r == -1 || (from <= r && OccursAt(s, sub, r))
    ensures r == -1 ==> forall j :: from <= j ==> !OccursAt(s, sub, j)
    ensures r != -1 ==> forall j :: from <= j < r ==> !OccursAt(s, sub, j)
    decreases |s| - from
  {
    if from + |sub| > |s| then -1
    else if s[from..from + |sub|] == sub then from
    else IndexFrom(s, sub, from + 1)
  }

  /** `tag.indexOf(axis) !== -1`. */
  predicate OnAxis(tag: string, axis: string)
    ensures OnAxis(tag, axis) <==> exists j :: 0 <= j && OccursAt(tag, axis, j)
  {
    IndexFrom(tag, axis, 0) != -1
  }

  /** Which registered panes take part in each axis. */
  datatype Registry = Registry(horizontal: seq<bool>, vertical: seq<bool>) {
    predicate WellFormed() {
      |horizontal| == |vertical|
    }
  }

  /** The registry built from the tags of the panes present at mount. */
  function Mount(tags: seq<string>): (r: Registry)
    ensures r.WellFormed() && |r.horizontal| == |tags|
    ensures forall i :: 0 <= i < |tags| ==>
              (r.horizontal[i] <==> OnAxis(tags[i], "horizontal"))
              && (r.vertical[i] <==> OnAxis(tags[i], "vertical"))
  {
    Registry(seq(|tags|, i requires 0 <= i < |tags| => OnAxis(tags[i], "horizontal")),
             seq(|tags|, i requires 0 <= i < |tags| => OnAxis(tags[i], "vertical")))
  }

  /** The ruler's tag joins only the horizontal axis; the keyframe list's
      joins both. */
  lemma TagExamples()
    ensures OnAxis("horizontal", "horizontal") && !OnAxis("horizontal", "vertical")
    ensures OnAxis("horizontal|vertical", "horizontal") && OnAxis("horizontal|vertical", "vertical")
  {
    var ruler, keyframes := "horizontal", "horizontal|vertical";
    assert OccursAt(ruler, "horizontal", 0) by { assert ruler[0..10] == "horizontal"; }
    assert OccursAt(keyframes, "horizontal", 0) by { assert keyframes[0..10] == "horizontal"; }
    assert OccursAt(keyframes, "vertical", 11) by { assert keyframes[11..19] == "vertical"; }
    assert IndexFrom(ruler, "vertical", 3) == -1;
    assert ruler[2..10][0] != 'v';
    assert ruler[1..9][0] != 'v';
    assert ruler[0..8][0] != 'v';
  }

  // ---------------------------------------------------------------------
  // What one scroll event does
  // ---------------------------------------------------------------------

  /** The offsets along one axis after pane `p` has been copied to every
      other pane on that axis. */
  function SyncedAt(offsets: seq<int>, onAxis: seq<bool>, p: nat, i: nat): int
    requires |onAxis| == |offsets| && p < |offsets| && i < |offsets|
  {
    if i != p && onAxis[p] && onAxis[i] then offsets[p] else offsets[i]
  }

  function Synced(offsets: seq<int>, onAxis: seq<bool>, p: nat): (r: seq<int>)
    requires |onAxis| == |offsets| && p < |offsets|
    ensures |r| == |offsets| && r[p] == offsets[p]
    ensures onAxis[p] ==> forall i :: 0 <= i < |r| && onAxis[i] ==> r[i] == offsets[p]
    ensures forall i :: 0 <= i < |r| && !(onAxis[p] && onAxis[i]) ==> r[i] == offsets[i]
  {
    seq(|offsets|, i requires 0 <= i < |offsets| => SyncedAt(offsets, onAxis, p, i))
  }

  /** A programmatic assignment to one pane's offset. */
  datatype Write = ScrollLeft(pane: nat, offset: int) | ScrollTop(pane: nat, offset: int)

  /** The assignments the handler makes to pane `i` for a scroll of `p`. */
  function PaneWrites(reg: Registry, left: seq<int>, top: seq<int>, p: nat, i: nat): seq<Write>
    requires reg.WellFormed() && |left| == |top| == |reg.horizontal|
    requires p < |left| && i < |left|
  {
    if i == p then []
    else
      (if reg.horizontal[p] && reg.horizontal[i] && left[i] != left[p] then [ScrollLeft(i, left[p])] else [])
      + (if reg.vertical[p] && reg.vertical[i] && top[i] != top[p] then [ScrollTop(i, top[p])] else [])
  }

  /** Pane `i` keeps both offsets when pane `p` is synced. */
  predicate Unmoved(reg: Registry, left: seq<int>, top: seq<int>, p: nat, i: nat)
    requires reg.WellFormed() && |left| == |top| == |reg.horizontal|
    requires p < |left| && i < |left|
  {
    SyncedAt(left, reg.horizontal, p, i) == left[i] && SyncedAt(top, reg.vertical, p, i) == top[i]
  }

  /** A pane receives an assignment exactly when syncing moves it. */
  lemma PaneWritesIffMoved(reg: Registry, left: seq<int>, top: seq<int>, p: nat, i: nat)
    requires reg.WellFormed() && |left| == |top| == |reg.horizontal|
    requires p < |left| && i < |left|
    ensures PaneWrites(reg, left, top, p, i) == [] <==> Unmoved(reg, left, top, p, i)
  {
  }

  /** The assignments made to the first `k` registered panes, in order. */
  function WritesUpTo(reg: Registry, left: seq<int>, top: seq<int>, p: nat, k: nat): seq<Write>
    requires reg.WellFormed() && |left| == |top| == |reg.horizontal|
    requires p < |left| && k <= |left|
  {
    if k == 0 then [] else WritesUpTo(reg, left, top, p, k - 1) + PaneWrites(reg, left, top, p, k - 1)
  }

  /** The assignments of one scroll event of pane `p`, in pane order. */
  function Writes(reg: Registry, left: seq<int>, top: seq<int>, p: nat): seq<Write>
    requires reg.WellFormed() && |left| == |top| == |reg.horizontal| && p < |left|
  {
    WritesUpTo(reg, left, top, p, |left|)
  }

  /** One scroll event of `p` assigns nothing exactly when it leaves every
      offset as it was. */
  lemma NoWritesIffUnchanged(reg: Registry, left: seq<int>, top: seq<int>, p: nat)
    requires reg.WellFormed() && |left| == |top| == |reg.horizontal| && p < |left|
    ensures Writes(reg, left, top, p) == [] <==>
              Synced(left, reg.horizontal, p) == left && Synced(top, reg.vertical, p) == top
  {
    WritesUpToEmpty(reg, left, top, p, |left|);
    if WritesUpTo(reg, left, top, p, |left|) == [] {
      forall i | 0 <= i < |left|
        ensures SyncedAt(left, reg.horizontal, p, i) == left[i] && SyncedAt(top, reg.vertical, p, i) == top[i]
      {
        assert Unmoved(reg, left, top, p, i);
      }
      SyncedKeepsIff(left, reg.horizontal, p);
      SyncedKeepsIff(top, reg.vertical, p);
    } else {
      var i :| 0 <= i < |left| && !Unmoved(reg, left, top, p, i);
      var movedLeft, movedTop := Synced(left, reg.horizontal, p), Synced(top, reg.vertical, p);
      assert movedLeft[i] != left[i] || movedTop[i] != top[i];
    }
  }

  /** The first `k` panes receive no assignment exactly when the event
      leaves all of their offsets as they were. */
  lemma {:induction false} WritesUpToEmpty(reg: Registry, left: seq<int>, top: seq<int>, p: nat, k: nat)
    requires reg.WellFormed() && |left| == |top| == |reg.horizontal| && p < |left| && k <= |left|
    ensures WritesUpTo(reg, left, top, p, k) == [] <==> forall i :: 0 <= i < k ==> Unmoved(reg, left, top, p, i)
  {
    if k > 0 {
      WritesUpToEmpty(reg, left, top, p, k - 1);
      PaneWritesIffMoved(reg, left, top, p, k - 1);
      var earlier, last := WritesUpTo(reg, left, top, p, k - 1), PaneWrites(reg, left, top, p, k - 1);
      assert WritesUpTo(reg, left, top, p, k) == earlier + last;
      if earlier + last == [] {
        assert |earlier| + |last| == 0;
        forall i | 0 <= i < k
          ensures Unmoved(reg, left, top, p, i)
        {
          if i < k - 1 {
            assert earlier == [];
          } else {
            assert last == [];
          }
        }
      } else if earlier != [] {
        var i :| 0 <= i < k - 1 && !Unmoved(reg, left, top, p, i);
      } else {
        assert !Unmoved(reg, left, top, p, k - 1);
      }
    }
  }

  /** Syncing leaves an axis as it was exactly when every pane keeps its
      offset. */
  lemma SyncedKeepsIff(offsets: seq<int>, onAxis: seq<bool>, p: nat)
    requires |onAxis| == |offsets| && p < |offsets|
    ensures Synced(offsets, onAxis, p) == offsets <==>
              forall i :: 0 <= i < |offsets| ==> SyncedAt(offsets, onAxis, p, i) == offsets[i]
  {
    var r := Synced(offsets, onAxis, p);
    assert forall i :: 0 <= i < |offsets| ==> r[i] == SyncedAt(offsets, onAxis, p, i);
  }

  // ---------------------------------------------------------------------
  // Convergence and the absence of a second round
  // ---------------------------------------------------------------------

  /** All panes on an axis show the same offset. */
  predicate Aligned(offsets: seq<int>, onAxis: seq<bool>)
    requires |onAxis| == |offsets|
  {
    forall i, j :: 0 <= i < |offsets| && 0 <= j < |offsets| && onAxis[i] && onAxis[j] ==> offsets[i] == offsets[j]
  }

  /** All panes but `p` on an axis show the same offset. */
  predicate AlignedExcept(offsets: seq<int>, onAxis: seq<bool>, p: nat)
    requires |onAxis| == |offsets|
  {
    forall i, j :: 0 <= i < |offsets| && 0 <= j < |offsets| && i != p && j != p && onAxis[i] && onAxis[j]
      ==> offsets[i] == offsets[j]
  }

  /** When the panes were aligned before `p` moved, one scroll event of `p`
      aligns them again. */
  lemma SyncAligns(offsets: seq<int>, onAxis: seq<bool>, p: nat)
    requires |onAxis| == |offsets| && p < |offsets|
    requires AlignedExcept(offsets, onAxis, p)
    ensures Aligned(Synced(offsets, onAxis, p), onAxis)
  {
  }

  /** Aligned panes produce no assignment, whichever pane scrolls. */
  lemma {:induction false} AlignedWritesNothing(reg: Registry, left: seq<int>, top: seq<int>, q: nat, k: nat)
    requires reg.WellFormed() && |left| == |top| == |reg.horizontal| && q < |left| && k <= |left|
    requires Aligned(left, reg.horizontal) && Aligned(top, reg.vertical)
    ensures WritesUpTo(reg, left, top, q, k) == []
  {
    if k > 0 {
      AlignedWritesNothing(reg, left, top, q, k - 1);
    }
  }

  /** The equality guard stops the feedback loop: after `p`'s event has
      been handled, the scroll events that its own assignments fire, and
      `p`'s event handled again, assign nothing. */
  lemma NoSecondRound(reg: Registry, left: seq<int>, top: seq<int>, p: nat, q: nat)
    requires reg.WellFormed() && |left| == |top| == |reg.horizontal| && p < |left| && q < |left|
    requires AlignedExcept(left, reg.horizontal, p) && AlignedExcept(top, reg.vertical, p)
    ensures Writes(reg, Synced(left, reg.horizontal, p), Synced(top, reg.vertical, p), q) == []
  {
    SyncAligns(left, reg.horizontal, p);
    SyncAligns(top, reg.vertical, p);
    AlignedWritesNothing(reg, Synced(left, reg.horizontal, p), Synced(top, reg.vertical, p), q, |left|);
  }

  /** Handling the same event twice: the second time assigns nothing,
      whatever the other panes showed before. */
  lemma {:induction false} RehandlingWritesNothing(reg: Registry, left: seq<int>, top: seq<int>, p: nat, k: nat)
    requires reg.WellFormed() && |left| == |top| == |reg.horizontal| && p < |left| && k <= |left|
    ensures WritesUpTo(reg, Synced(left, reg.horizontal, p), Synced(top, reg.vertical, p), p, k) == []
  {
    if k > 0 {
      RehandlingWritesNothing(reg, left, top, p, k - 1);
    }
  }

  /** Each assignment moves a pane that shares the axis with `p` and showed
      a different offset, to `p`'s offset. */
  lemma {:induction false} WritesOnlyDifferingPanes(reg: Registry, left: seq<int>, top: seq<int>, p: nat, k: nat)
    requires reg.WellFormed() && |left| == |top| == |reg.horizontal| && p < |left| && k <= |left|
    ensures forall w :: w in WritesUpTo(reg, left, top, p, k) ==>
              w.pane < k && w.pane != p
              && (w.ScrollLeft? ==> reg.horizontal[p] && reg.horizontal[w.pane] && w.offset == left[p] != left[w.pane])
              && (w.ScrollTop? ==> reg.vertical[p] && reg.vertical[w.pane] && w.offset == top[p] != top[w.pane])
  {
    if k > 0 {
      WritesOnlyDifferingPanes(reg, left, top, p, k - 1);
    }
  }

  /** The ruler scrolled to 100 next to the keyframe list: the list's
      horizontal offset follows, its vertical offset stays. */
  lemma RulerScrollExample()
    ensures var reg := Mount(["horizontal", "horizontal|vertical"]);
            Synced([100, 0], reg.horizontal, 0) == [100, 100]
            && Synced([0, 40], reg.vertical, 0) == [0, 40]
            && Writes(reg, [100, 0], [0, 40], 0) == [ScrollLeft(1, 100)]
  {
    TagExamples();
    var reg := Mount(["horizontal", "horizontal|vertical"]);
    assert reg.horizontal == [true, true] && reg.vertical == [false, true];
  }

  // ---------------------------------------------------------------------
  // The component
  // ---------------------------------------------------------------------

  class SyncScroll {
    /** `elementRefs.current`, fixed at mount. */
    const registry: Registry

    constructor (tags: seq<string>)
      ensures registry == Mount(tags)
    {
      registry := Mount(tags);
    }

    /** `handleScroll`: `target` is the scrolled pane, or `None` for an
        event without a target. `written` lists the assignments made. */
    method HandleScroll(left: array<int>, top: array<int>, target: Option<nat>) returns (written: seq<Write>)
      requires registry.WellFormed() && left != top
      requires left.Length == top.Length == |registry.horizontal|
      requires target.Some? ==> target.value < left.Length
      modifies left, top
      ensures target.None? ==> left[..] == old(left[..]) && top[..] == old(top[..]) && written == []
      ensures target.Some? ==> left[..] == Synced(old(left[..]), registry.horizontal, target.value)
      ensures target.Some? ==> top[..] == Synced(old(top[..]), registry.vertical, target.value)
      ensures target.Some? ==> written == Writes(registry, old(left[..]), old(top[..]), target.value)
    {
      written := [];
      if target.None? {
        return;
      }
      var p := target.value;
      var scrollLeft, scrollTop := left[p], top[p];
      ghost var left0, top0 := left[..], top[..];
      var i := 0;
      while i < left.Length
        invariant 0 <= i <= left.Length
        invariant left[p] == scrollLeft && top[p] == scrollTop
        invariant forall k :: 0 <= k < i ==> left[k] == SyncedAt(left0, registry.horizontal, p, k)
        invariant forall k :: 0 <= k < i ==> top[k] == SyncedAt(top0, registry.vertical, p, k)
        invariant forall k :: i <= k < left.Length ==> left[k] == left0[k] && top[k] == top0[k]
        invariant written == WritesUpTo(registry, left0, top0, p, i)
      {
        if i != p {
          if registry.horizontal[p] && registry.horizontal[i] {
            if left[i] != scrollLeft {
              left[i] := scrollLeft;
              written := written + [ScrollLeft(i, scrollLeft)];
            }
          }
          if registry.vertical[p] && registry.vertical[i] {
            if top[i] != scrollTop {
              top[i] := scrollTop;
              written := written + [ScrollTop(i, scrollTop)];
            }
          }
        }
        i := i + 1;
      }
      assert left[..] == Synced(left0, registry.horizontal, p);
      assert top[..] == Synced(top0, registry.vertical, p);
    }
  }
}
