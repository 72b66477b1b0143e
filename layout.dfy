/** The values the placement algorithm works on: the four sides of a target
    element and the plain geometry taken from the XAML framework (root-relative
    origins, element sizes, window bounds). */
module Layout {

  /** The side of the target element the popup is placed against. */
  datatype Side = Left | Top | Right | Bottom {
    /** Left and Right resolve the horizontal axis by the side test and the
        vertical axis by alignment; Top and Bottom the other way round. */
    predicate IsHorizontal() { this == Left || this == Right }
  }

  datatype Point = Point(X: real, Y: real)

  datatype Size = Size(Width: real, Height: real)

  /** Everything one placement reads: the root-relative origin of the popup and
      of the target, the target's actual size, the popup's maximum size and the
      window's size. */
  datatype Scene = Scene(popupCoords: Point, targetCoords: Point, targetSize: Size,
                         popupMax: Size, window: Size)
  {
    /** Positive when the target lies to the right of the popup's origin. */
    function DistanceX(): (d: real) { targetCoords.X - popupCoords.X }

    /** Positive when the target lies below the popup's origin. */
    function DistanceY(): (d: real) { targetCoords.Y - popupCoords.Y }

    /** The target element lies inside the window and has no negative size;
        the alignment fallbacks rely on this without checking it. */
    predicate TargetInsideWindow() {
      0.0 <= targetSize.Width && 0.0 <= targetSize.Height &&
      0.0 <= targetCoords.X && targetCoords.X + targetSize.Width <= window.Width &&
      0.0 <= targetCoords.Y && targetCoords.Y + targetSize.Height <= window.Height
    }
  }
}

/** The predefined preference orders a caller can pass to TryShowNear. */
module PreferenceOrders {
  import L = Layout

  const TopBottomLeft: seq<L.Side> := [L.Side.Top, L.Side.Bottom, L.Side.Left]
  const TopBottomLeftRight: seq<L.Side> := [L.Side.Top, L.Side.Bottom, L.Side.Left, L.Side.Right]
  const Left: seq<L.Side> := [L.Side.Left]
}
