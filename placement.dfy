/** The side-selection decision of TryShowNear, as a function of the geometry,
    the preference order, the margin and the overflow flag, and what it
    guarantees. The method in PopupExtension is proved to follow it. */
module Placement {
  import opened Layout
  import opened Alignment
  import PreferenceOrders

  /** How a call of TryShowNear ends. `index` is the position in the
      preference order of the side that passed its main-axis test.
      CrossFailed: the main-axis offset was written but alignment failed, and
      the call returns false. Placed: both offsets are set and the popup opens. */
  datatype Outcome =
    | NoFit
    | CrossFailed(index: nat, mainOffset: real)
    | Placed(index: nat, horizontalOffset: real, verticalOffset: real)

  /** The main-axis offset for `side`: the popup sits beside the target with a
      gap of exactly `margin` between the facing edges. */
  function MainOffset(s: Scene, side: Side, margin: real): (off: real)
    ensures side == Left ==>
              s.popupCoords.X + off + s.popupMax.Width + margin == s.targetCoords.X
    ensures side == Right ==>
              s.popupCoords.X + off == s.targetCoords.X + s.targetSize.Width + margin
    ensures side == Top ==>
              s.popupCoords.Y + off + s.popupMax.Height + margin == s.targetCoords.Y
    ensures side == Bottom ==>
              s.popupCoords.Y + off == s.targetCoords.Y + s.targetSize.Height + margin
  {
    match side
    case Left => s.DistanceX() - s.popupMax.Width - margin
    case Right => s.DistanceX() + s.targetSize.Width + margin
    case Top => s.DistanceY() - s.popupMax.Height - margin
    case Bottom => s.DistanceY() + s.targetSize.Height + margin
  }

  /** The side's main-axis test: only the window edge the popup moves towards
      is checked. */
  predicate MainAxisFits(s: Scene, side: Side, off: real) {
    match side
    case Left => s.popupCoords.X + off >= 0.0
    case Right => s.popupCoords.X + off + s.popupMax.Width <= s.window.Width
    case Top => s.popupCoords.Y + off >= 0.0
    case Bottom => s.popupCoords.Y + off + s.popupMax.Height <= s.window.Height
  }

  predicate SideFits(s: Scene, side: Side, margin: real) {
    MainAxisFits(s, side, MainOffset(s, side, margin))
  }

  /** The alignment on the axis perpendicular to `side`. */
  function CrossOffset(s: Scene, side: Side, isOverflowAllowed: bool): (r: Option<real>) {
    if side.IsHorizontal() then
      OffsetForAlignment(s.popupCoords.Y, s.targetCoords.Y, s.DistanceY(), s.popupMax.Height,
                         s.targetSize.Height, s.window.Height, isOverflowAllowed)
    else
      OffsetForAlignment(s.popupCoords.X, s.targetCoords.X, s.DistanceX(), s.popupMax.Width,
                         s.targetSize.Width, s.window.Width, isOverflowAllowed)
  }

  /** A side on which the popup can be fully placed: main-axis test and
      alignment both succeed. */
  predicate Achievable(s: Scene, side: Side, margin: real, isOverflowAllowed: bool) {
    SideFits(s, side, margin) && CrossOffset(s, side, isOverflowAllowed).Some?
  }

  /** The decision for the sides order[k..]: the first side that passes its
      main-axis test decides the outcome, and later sides are never looked at. */
  function DecideFrom(s: Scene, order: seq<Side>, k: nat, margin: real, isOverflowAllowed: bool): (o: Outcome)
    requires k <= |order|
    decreases |order| - k
    ensures !o.NoFit? ==> k <= o.index < |order|
  {
    if k == |order| then NoFit
    else
      var side := order[k];
      var off := MainOffset(s, side, margin);
      if MainAxisFits(s, side, off) then
        match CrossOffset(s, side, isOverflowAllowed)
        case None => CrossFailed(k, off)
        case Some(c) => if side.IsHorizontal() then Placed(k, off, c) else Placed(k, c, off)
      else
        DecideFrom(s, order, k + 1, margin, isOverflowAllowed)
  }

  /** What the decision for order[k..] guarantees: the side chosen is the first
      one that passes its main-axis test, no side is chosen exactly when none
      passes, and the offsets are the chosen side's main offset and its
      alignment. */
  lemma {:induction false} DecideFromFirstFit(s: Scene, order: seq<Side>, k: nat, margin: real,
                                              isOverflowAllowed: bool)
    requires k <= |order|
    decreases |order| - k
    ensures var o := DecideFrom(s, order, k, margin, isOverflowAllowed);
            // no side is chosen exactly when none of order[k..] passes its test
            && (o.NoFit? <==> forall j :: k <= j < |order| ==> !SideFits(s, order[j], margin))
            // the chosen side is the first one of order[k..] that passes its test
            && (!o.NoFit? ==>
                  k <= o.index < |order| && SideFits(s, order[o.index], margin) &&
                  forall j :: k <= j < o.index ==> !SideFits(s, order[j], margin))
            && (o.CrossFailed? ==>
                  o.mainOffset == MainOffset(s, order[o.index], margin) &&
                  CrossOffset(s, order[o.index], isOverflowAllowed).None?)
            // on success the side's axis gets its main offset, the other axis the alignment
            && (o.Placed? ==>
                  CrossOffset(s, order[o.index], isOverflowAllowed).Some? &&
                  if order[o.index].IsHorizontal() then
                    o.horizontalOffset == MainOffset(s, order[o.index], margin) &&
                    o.verticalOffset == CrossOffset(s, order[o.index], isOverflowAllowed).value
                  else
                    o.verticalOffset == MainOffset(s, order[o.index], margin) &&
                    o.horizontalOffset == CrossOffset(s, order[o.index], isOverflowAllowed).value)
  {
    if k < |order| && !SideFits(s, order[k], margin) {
      DecideFromFirstFit(s, order, k + 1, margin, isOverflowAllowed);
    }
  }

  /** One step of the decision: the outcome at position k, by side test and
      alignment of order[k]. */
  lemma DecideFromStep(s: Scene, order: seq<Side>, k: nat, margin: real, isOverflowAllowed: bool)
    requires k < |order|
    ensures var off := MainOffset(s, order[k], margin);
            var c := CrossOffset(s, order[k], isOverflowAllowed);
            DecideFrom(s, order, k, margin, isOverflowAllowed) ==
            if !MainAxisFits(s, order[k], off) then DecideFrom(s, order, k + 1, margin, isOverflowAllowed)
            else if c.None? then CrossFailed(k, off)
            else if order[k].IsHorizontal() then Placed(k, off, c.value)
            else Placed(k, c.value, off)
  {
  }

  function Decide(s: Scene, order: seq<Side>, margin: real, isOverflowAllowed: bool): (o: Outcome) {
    DecideFrom(s, order, 0, margin, isOverflowAllowed)
  }

  /** On success the popup is inside the window on the side's main axis. */
  lemma PlacedMainAxisBound(s: Scene, order: seq<Side>, margin: real, isOverflowAllowed: bool)
    ensures var o := Decide(s, order, margin, isOverflowAllowed);
            o.Placed? ==>
              match order[o.index]
              case Left => s.popupCoords.X + o.horizontalOffset >= 0.0
              case Right => s.popupCoords.X + o.horizontalOffset + s.popupMax.Width <= s.window.Width
              case Top => s.popupCoords.Y + o.verticalOffset >= 0.0
              case Bottom => s.popupCoords.Y + o.verticalOffset + s.popupMax.Height <= s.window.Height
  {
    DecideFromFirstFit(s, order, 0, margin, isOverflowAllowed);
  }

  /** With overflow allowed alignment never fails, so the call succeeds exactly
      when some side passes its main-axis test, and the cross axis is centred. */
  lemma OverflowCentresCrossAxis(s: Scene, order: seq<Side>, margin: real)
    ensures var o := Decide(s, order, margin, true);
            !o.CrossFailed? &&
            (o.Placed? ==>
               if order[o.index].IsHorizontal() then
                 o.verticalOffset == CenterOffset(s.DistanceY(), s.popupMax.Height, s.targetSize.Height)
               else
                 o.horizontalOffset == CenterOffset(s.DistanceX(), s.popupMax.Width, s.targetSize.Width))
  {
    DecideFromFirstFit(s, order, 0, margin, true);
  }

  /** With a non-negative margin and a target inside the window, a successful
      placement keeps the popup inside the window on both edges of the side's
      own axis, whatever the overflow flag, although each side test checks only
      one window edge; without overflow the popup is inside on the cross axis
      too. */
  lemma PlacedInsideWindow(s: Scene, order: seq<Side>, margin: real, isOverflowAllowed: bool)
    requires 0.0 <= margin
    requires s.TargetInsideWindow()
    ensures var o := Decide(s, order, margin, isOverflowAllowed);
            o.Placed? ==>
              (order[o.index].IsHorizontal() || !isOverflowAllowed ==>
                 Fits(s.popupCoords.X, o.horizontalOffset, s.popupMax.Width, s.window.Width)) &&
              (!order[o.index].IsHorizontal() || !isOverflowAllowed ==>
                 Fits(s.popupCoords.Y, o.verticalOffset, s.popupMax.Height, s.window.Height))
  {
    DecideFromFirstFit(s, order, 0, margin, isOverflowAllowed);
    var o := Decide(s, order, margin, isOverflowAllowed);
    if o.Placed? && !isOverflowAllowed {
      if order[o.index].IsHorizontal() {
        AlignedFits(s.popupCoords.Y, s.targetCoords.Y, s.popupMax.Height, s.targetSize.Height, s.window.Height);
      } else {
        AlignedFits(s.popupCoords.X, s.targetCoords.X, s.popupMax.Width, s.targetSize.Width, s.window.Width);
      }
    }
  }

  /** With a non-negative margin and target size, an alignment that fails for
      one side that passes its main-axis test fails for every such side: the
      sides on the same axis share the alignment, and a side on the other axis
      cannot pass its test when the alignment along that axis fails. */
  lemma CrossFailureIsShared(s: Scene, a: Side, b: Side, margin: real, isOverflowAllowed: bool)
    requires 0.0 <= margin && 0.0 <= s.targetSize.Width && 0.0 <= s.targetSize.Height
    requires SideFits(s, a, margin) && CrossOffset(s, a, isOverflowAllowed).None?
    requires SideFits(s, b, margin)
    ensures CrossOffset(s, b, isOverflowAllowed).None?
  {
  }

  /** With a non-negative margin and target size, returning false as soon as
      the first fitting side fails its alignment loses nothing: the call
      succeeds exactly when some side of the order can be fully placed. */
  lemma PlacedIffSomeSideAchievable(s: Scene, order: seq<Side>, margin: real, isOverflowAllowed: bool)
    requires 0.0 <= margin && 0.0 <= s.targetSize.Width && 0.0 <= s.targetSize.Height
    ensures Decide(s, order, margin, isOverflowAllowed).Placed? <==>
            exists j :: 0 <= j < |order| && Achievable(s, order[j], margin, isOverflowAllowed)
  {
    DecideFromFirstFit(s, order, 0, margin, isOverflowAllowed);
    var o := Decide(s, order, margin, isOverflowAllowed);
    if o.Placed? {
      assert Achievable(s, order[o.index], margin, isOverflowAllowed);
    } else if o.CrossFailed? {
      forall j | 0 <= j < |order| ensures !Achievable(s, order[j], margin, isOverflowAllowed) {
        if SideFits(s, order[j], margin) {
          CrossFailureIsShared(s, order[o.index], order[j], margin, isOverflowAllowed);
        }
      }
    }
  }

  /** Whether some side passes its main-axis test does not depend on the order
      of the sides. */
  lemma NoFitIsOrderIndependent(s: Scene, order1: seq<Side>, order2: seq<Side>, margin: real,
                                isOverflowAllowed: bool)
    requires forall side :: side in order1 <==> side in order2
    ensures Decide(s, order1, margin, isOverflowAllowed).NoFit? <==>
            Decide(s, order2, margin, isOverflowAllowed).NoFit?
  {
    DecideFromFirstFit(s, order1, 0, margin, isOverflowAllowed);
    DecideFromFirstFit(s, order2, 0, margin, isOverflowAllowed);
    SomeSideFitsTransfers(s, order1, order2, margin);
    SomeSideFitsTransfers(s, order2, order1, margin);
  }

  lemma SomeSideFitsTransfers(s: Scene, order1: seq<Side>, order2: seq<Side>, margin: real)
    requires forall side :: side in order1 ==> side in order2
    ensures (exists j :: 0 <= j < |order1| && SideFits(s, order1[j], margin)) ==>
            (exists j :: 0 <= j < |order2| && SideFits(s, order2[j], margin))
  {
    if j :| 0 <= j < |order1| && SideFits(s, order1[j], margin) {
      assert order1[j] in order2;
      var k :| 0 <= k < |order2| && order2[k] == order1[j];
    }
  }

  /** With a non-negative margin and target size, reordering the preference
      order may change the side chosen but never whether the popup is shown. */
  lemma SuccessIsOrderIndependent(s: Scene, order1: seq<Side>, order2: seq<Side>, margin: real,
                                  isOverflowAllowed: bool)
    requires 0.0 <= margin && 0.0 <= s.targetSize.Width && 0.0 <= s.targetSize.Height
    requires forall side :: side in order1 <==> side in order2
    ensures Decide(s, order1, margin, isOverflowAllowed).Placed? <==>
            Decide(s, order2, margin, isOverflowAllowed).Placed?
  {
    PlacedIffSomeSideAchievable(s, order1, margin, isOverflowAllowed);
    PlacedIffSomeSideAchievable(s, order2, margin, isOverflowAllowed);
    AchievableTransfers(s, order1, order2, margin, isOverflowAllowed);
    AchievableTransfers(s, order2, order1, margin, isOverflowAllowed);
  }

  lemma AchievableTransfers(s: Scene, order1: seq<Side>, order2: seq<Side>, margin: real,
                             isOverflowAllowed: bool)
    requires forall side :: side in order1 ==> side in order2
    ensures (exists j :: 0 <= j < |order1| && Achievable(s, order1[j], margin, isOverflowAllowed)) ==>
            (exists j :: 0 <= j < |order2| && Achievable(s, order2[j], margin, isOverflowAllowed))
  {
    if j :| 0 <= j < |order1| && Achievable(s, order1[j], margin, isOverflowAllowed) {
      assert order1[j] in order2;
      var k :| 0 <= k < |order2| && order2[k] == order1[j];
    }
  }

  /** With a negative margin the early return does lose a placement: Left
      passes its test but the vertical alignment fails, so [Left, Top] is not
      shown while [Top, Left] is placed above the target. */
  lemma NegativeMarginMakesOrderMatter()
    ensures var s := Scene(Point(0.0, 0.0), Point(300.0, 40.0), Size(10.0, 10.0),
                           Size(100.0, 50.0), Size(400.0, 60.0));
            Decide(s, [Left, Top], -10.0, false) == CrossFailed(0, 210.0) &&
            Decide(s, [Top, Left], -10.0, false) == Placed(0, 255.0, 0.0)
  {
  }

  /** An empty preference order never places the popup. */
  lemma EmptyOrderNoFit(s: Scene, margin: real, isOverflowAllowed: bool)
    ensures Decide(s, [], margin, isOverflowAllowed) == NoFit
  {
  }

  /** A target at the window's left edge with a popup wider than the window:
      the only preferred side, Left, fails its test. */
  lemma LeftAtWindowEdgeNoFit(margin: real)
    requires 0.0 <= margin
    ensures var s := Scene(Point(0.0, 0.0), Point(0.0, 0.0), Size(20.0, 20.0),
                           Size(500.0, 80.0), Size(400.0, 300.0));
            Decide(s, PreferenceOrders.Left, margin, false) == NoFit
  {
  }
}
