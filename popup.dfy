/** The popup extension: a popup object whose offsets and open state are
    written in place, and TryShowNear, which places it next to a target. */
module PopupExtension {
  import opened Layout
  import opened Alignment
  import opened Placement

  /** The three fields TryShowNear writes, and the maximum size it reads
      (which the caller must have set before the call). */
  class Popup {
    var HorizontalOffset: real
    var VerticalOffset: real
    var IsOpen: bool
    var MaxWidth: real
    var MaxHeight: real

    constructor (maxWidth: real, maxHeight: real)
      ensures MaxWidth == maxWidth && MaxHeight == maxHeight
      ensures HorizontalOffset == 0.0 && VerticalOffset == 0.0 && !IsOpen
    {
      MaxWidth, MaxHeight := maxWidth, maxHeight;
      HorizontalOffset, VerticalOffset, IsOpen := 0.0, 0.0, false;
    }
  }

  /** The geometry a call sees: the root-relative origins and the target and
      window sizes are the framework's answers, the maximum size the popup's. */
  function SceneOf(popup: Popup, popupCoords: Point, targetCoords: Point, targetSize: Size,
                   windowBounds: Size): (s: Scene)
    reads popup
  {
    Scene(popupCoords, targetCoords, targetSize, Size(popup.MaxWidth, popup.MaxHeight), windowBounds)
  }

  /** Walks `preferenceOrder`; on the first side whose main-axis test passes it
      writes that axis's offset and asks for the alignment on the other axis.
      If that alignment fails it returns false at once, leaving the main-axis
      offset written; otherwise it writes the alignment, opens the popup and
      returns true. If no side passes, nothing is written. */
  method TryShowNear(popup: Popup, popupCoords: Point, targetCoords: Point, targetSize: Size,
                     windowBounds: Size, preferenceOrder: seq<Side>, margin: real := 10.0,
                     isOverflowAllowed: bool := false)
    returns (shown: bool)
    modifies popup`HorizontalOffset, popup`VerticalOffset, popup`IsOpen
    ensures var o := Decide(SceneOf(popup, popupCoords, targetCoords, targetSize, windowBounds),
                            preferenceOrder, margin, isOverflowAllowed);
            && shown == o.Placed?
            && (o.NoFit? ==>
                  popup.HorizontalOffset == old(popup.HorizontalOffset) &&
                  popup.VerticalOffset == old(popup.VerticalOffset) &&
                  popup.IsOpen == old(popup.IsOpen))
            && (o.CrossFailed? ==>
                  popup.IsOpen == old(popup.IsOpen) &&
                  if preferenceOrder[o.index].IsHorizontal() then
                    popup.HorizontalOffset == o.mainOffset &&
                    popup.VerticalOffset == old(popup.VerticalOffset)
                  else
                    popup.VerticalOffset == o.mainOffset &&
                    popup.HorizontalOffset == old(popup.HorizontalOffset))
            && (o.Placed? ==>
                  popup.IsOpen &&
                  popup.HorizontalOffset == o.horizontalOffset &&
                  popup.VerticalOffset == o.verticalOffset)
  {
    ghost var s := SceneOf(popup, popupCoords, targetCoords, targetSize, windowBounds);
    var distanceX := targetCoords.X - popupCoords.X;
    var distanceY := targetCoords.Y - popupCoords.Y;
    var verticalOffsetForAlignment: Option<real> := None;
    var horizontalOffsetForAlignment: Option<real> := None;

    for i := 0 to |preferenceOrder|
      invariant Decide(s, preferenceOrder, margin, isOverflowAllowed)
                == DecideFrom(s, preferenceOrder, i, margin, isOverflowAllowed)
      invariant popup.HorizontalOffset == old(popup.HorizontalOffset)
      invariant popup.VerticalOffset == old(popup.VerticalOffset)
      invariant popup.IsOpen == old(popup.IsOpen)
      // every path that fills the alignment cache returns, so it stays empty
      invariant verticalOffsetForAlignment.None? && horizontalOffsetForAlignment.None?
    {
      DecideFromStep(s, preferenceOrder, i, margin, isOverflowAllowed);
      match preferenceOrder[i]
      case Left =>
        var horizontalOffset := distanceX - popup.MaxWidth - margin;
        if popupCoords.X + horizontalOffset >= 0.0 {
          popup.HorizontalOffset := horizontalOffset;
          if verticalOffsetForAlignment.None? {
            verticalOffsetForAlignment :=
              OffsetForAlignment(popupCoords.Y, targetCoords.Y, distanceY, popup.MaxHeight,
                                 targetSize.Height, windowBounds.Height, isOverflowAllowed);
            if verticalOffsetForAlignment.None? {
              return false;
            }
          }
          popup.VerticalOffset := verticalOffsetForAlignment.value;
          popup.IsOpen := true;
          return true;
        }
      case Right =>
        var horizontalOffset := distanceX + targetSize.Width + margin;
        if popupCoords.X + horizontalOffset + popup.MaxWidth <= windowBounds.Width {
          popup.HorizontalOffset := horizontalOffset;
          if verticalOffsetForAlignment.None? {
            verticalOffsetForAlignment :=
              OffsetForAlignment(popupCoords.Y, targetCoords.Y, distanceY, popup.MaxHeight,
                                 targetSize.Height, windowBounds.Height, isOverflowAllowed);
            if verticalOffsetForAlignment.None? {
              return false;
            }
          }
          popup.VerticalOffset := verticalOffsetForAlignment.value;
          popup.IsOpen := true;
          return true;
        }
      case Top =>
        var verticalOffset := distanceY - popup.MaxHeight - margin;
        if popupCoords.Y + verticalOffset >= 0.0 {
          popup.VerticalOffset := verticalOffset;
          if horizontalOffsetForAlignment.None? {
            horizontalOffsetForAlignment :=
              OffsetForAlignment(popupCoords.X, targetCoords.X, distanceX, popup.MaxWidth,
                                 targetSize.Width, windowBounds.Width, isOverflowAllowed);
            if horizontalOffsetForAlignment.None? {
              return false;
            }
          }
          popup.HorizontalOffset := horizontalOffsetForAlignment.value;
          popup.IsOpen := true;
          return true;
        }
      case Bottom =>
        var verticalOffset := distanceY + targetSize.Height + margin;
        if popupCoords.Y + verticalOffset + popup.MaxHeight <= windowBounds.Height {
          popup.VerticalOffset := verticalOffset;
          if horizontalOffsetForAlignment.None? {
            horizontalOffsetForAlignment :=
              OffsetForAlignment(popupCoords.X, targetCoords.X, distanceX, popup.MaxWidth,
                                 targetSize.Width, windowBounds.Width, isOverflowAllowed);
            if horizontalOffsetForAlignment.None? {
              return false;
            }
          }
          popup.HorizontalOffset := horizontalOffsetForAlignment.value;
          popup.IsOpen := true;
          return true;
        }
    }
    return false;
  }

  /** The host page's button click: preference [Bottom, Right], margin 8 and
      the default overflow flag. The geometry is assumed, not taken from the
      page: a 200 x 80 popup at the root origin and a 50 x 50 button at
      (100, 100) in a 400 x 300 window. The popup opens below the button,
      centred on it. */
  method OpenPopupScenario() returns (shown: bool, horizontalOffset: real, verticalOffset: real)
    ensures shown && horizontalOffset == 25.0 && verticalOffset == 158.0
  {
    var popup := new Popup(200.0, 80.0);
    shown := TryShowNear(popup, Point(0.0, 0.0), Point(100.0, 100.0), Size(50.0, 50.0),
                         Size(400.0, 300.0), [Bottom, Right], margin := 8.0);
    horizontalOffset, verticalOffset := popup.HorizontalOffset, popup.VerticalOffset;
  }
}
