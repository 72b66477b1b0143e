# Popup placement next to a target element

A Dafny model of the popup extension of UWPPlayground: `TryShowNear` places a
popup next to a target element on the first side of a caller-given preference
order (Left, Top, Right, Bottom) whose test passes. That test checks only the
window edge the popup moves towards. It writes that axis's offset into the popup. It then aligns the
popup on the other axis with `GetOffsetForAlignment`: centred on the target,
else leading edges aligned, else trailing edges aligned. If an alignment is
found it writes it and opens the popup.

Layout of the project:

- `layout.dfy`: module `Layout` (the `Side` enum, points, sizes and the `Scene`
  one call reads) and module `PreferenceOrders` (the three predefined orders).
- `alignment.dfy`: module `Alignment`, the pure cross-axis resolver
  `OffsetForAlignment` and what it guarantees.
- `placement.dfy`: module `Placement`, the side decision as a function
  (`DecideFrom`, `Decide`) and the lemmas about it.
- `popup.dfy`: module `PopupExtension`, the class `Popup` with the three fields
  the source writes (`HorizontalOffset`, `VerticalOffset`, `IsOpen`) and the
  maximum size it reads, the imperative `TryShowNear` proved to follow
  `Decide`, and the host page's button click as a concrete scenario.

The model follows the code as written:

- When the first side that passes its main-axis test fails its alignment,
  `TryShowNear` returns false at once and does not try later sides. By then it
  has already written that side's main-axis offset: the method writes the
  popup's fields in place.
  `Placement.PlacedIffSomeSideAchievable` shows that, with a non-negative margin
  and target size, the early return loses nothing. A failure of the alignment
  along one axis rules out every side that pushes the popup along that axis.
  `Placement.NegativeMarginMakesOrderMatter` shows a negative margin where the
  early return does lose a placement.
- The trailing-edge fallback tests `popupCoord + distance - popupMaxDimension >= 0`,
  which is not the leading edge of the popup it returns
  (`distance - popupMaxDimension + targetElementDimension`).
  `Alignment.AlignedFits` proves the returned popup still fits when the target
  lies inside the window. `Alignment.TrailingTestIsConservative` gives an input
  where the test refuses a trailing alignment that would fit.
- The alignment cache variables `verticalOffsetForAlignment` and
  `horizontalOffsetForAlignment` are kept. The loop invariant of `TryShowNear`
  records that they stay empty, because every path that fills one returns.
- `margin` defaults to 10 and `isOverflowAllowed` to false, as in the source's
  signature.
- `GetOffsetForAlignment`'s `targetElementCoord` parameter is accepted and
  never read, as in the source.

Inputs from the XAML framework are parameters: the root-relative origins of the
popup and of the target, the target's `ActualWidth`/`ActualHeight`, and the
window's `Width`/`Height`. `double` is modelled as `real`.

## Model

| member | source | states |
|---|---|---|
| `Alignment.CenterOffset` | UWPPlayground/Extensions/PopupExtensions.cs:193-194 | the centred offset puts the popup's centre on the target's centre |
| `Alignment.TrailingOffset` | UWPPlayground/Extensions/PopupExtensions.cs:213 | the trailing fallback offset puts the popup's trailing edge on the target's trailing edge |
| `Alignment.OffsetForAlignment` | UWPPlayground/Extensions/PopupExtensions.cs:185-217 | overflow allowed gives the centred offset, never null; a fitting centred offset is returned; once centring is rejected, the leading alignment wins when its trailing-edge test passes, then the trailing alignment when its test passes; null exactly when centring is rejected and both fallback tests fail |
| `Alignment.AlignedFits` | UWPPlayground/Extensions/PopupExtensions.cs:196-214 | without overflow, if the target lies inside the window on the axis, any returned offset keeps the whole popup inside the window, for all three alignments |
| `Alignment.NoneMeansCenterAndLeadingOverflow` | UWPPlayground/Extensions/PopupExtensions.cs:197-216 | a null result implies overflow was not allowed and neither the centred nor the leading alignment fits |
| `Alignment.TrailingTestIsConservative` | UWPPlayground/Extensions/PopupExtensions.cs:211-216 | a concrete input where the trailing test returns null although the trailing-aligned popup fits |
| `Placement.MainOffset` | UWPPlayground/Extensions/PopupExtensions.cs:52-143 | each side's main offset leaves a gap of exactly `margin` between the popup's and the target's facing edges |
| `Placement.DecideFrom` | UWPPlayground/Extensions/PopupExtensions.cs:59-167 | a chosen side lies in the remaining part of the preference order; its helpers `MainAxisFits` (the four accept tests at :67, :92, :119, :144) and `CrossOffset` (the alignment arguments at :72-78, :97-103, :124-130, :149-155) carry no contract of their own |
| `Placement.DecideFromFirstFit` | UWPPlayground/Extensions/PopupExtensions.cs:59-165 | first fit: the chosen side passes its test and every earlier side failed its own; no side is chosen iff none passes; a cross failure carries the side's main offset; a success carries the main offset on the side's axis and the non-null alignment on the other axis |
| `Placement.PlacedMainAxisBound` | UWPPlayground/Extensions/PopupExtensions.cs:63-146 | on success the popup is inside the window edge its side moves towards (Left: `X + HorizontalOffset >= 0`, Right: right edge within width, Top, Bottom likewise) |
| `Placement.OverflowCentresCrossAxis` | UWPPlayground/Extensions/PopupExtensions.cs:194-201 | with overflow allowed no cross failure occurs, and a success is centred on the cross axis |
| `Placement.PlacedInsideWindow` | UWPPlayground/Extensions/PopupExtensions.cs:63-163 | with a non-negative margin and the target inside the window, a success keeps the popup inside the window on both edges of the side's own axis for either overflow flag, and on the cross axis too when overflow is not allowed |
| `Placement.CrossFailureIsShared` | UWPPlayground/Extensions/PopupExtensions.cs:70-159 | with non-negative margin and target size, if one side that passes its test fails alignment, every side that passes its test fails alignment |
| `Placement.PlacedIffSomeSideAchievable` | UWPPlayground/Extensions/PopupExtensions.cs:59-172 | with non-negative margin and target size, success iff some side of the order passes both its main test and its alignment |
| `Placement.NoFitIsOrderIndependent` | UWPPlayground/Extensions/PopupExtensions.cs:59-167 | whether any side passes its main-axis test does not depend on the order of the sides |
| `Placement.SuccessIsOrderIndependent` | UWPPlayground/Extensions/PopupExtensions.cs:59-172 | with non-negative margin and target size, reordering the sides never changes whether the popup is shown |
| `Placement.NegativeMarginMakesOrderMatter` | UWPPlayground/Extensions/PopupExtensions.cs:63-138 | a concrete negative-margin scene where [Left, Top] ends in a cross failure but [Top, Left] places the popup |
| `Placement.EmptyOrderNoFit` | UWPPlayground/Extensions/PopupExtensions.cs:59-172 | an empty preference order places nothing |
| `Placement.LeftAtWindowEdgeNoFit` | UWPPlayground/Extensions/PopupExtensions.cs:19-88 | a target at the window's left edge with `PreferenceOrders.Left` and a popup wider than the window: no side fits |
| `PopupExtension.TryShowNear` | UWPPlayground/Extensions/PopupExtensions.cs:39-173 | with `margin` defaulting to 10 and overflow to false, returns true iff `Decide` places the popup; then both offsets are the decided ones and `IsOpen` is set; on a cross failure only the side's main-axis offset changed; with no fitting side nothing changed |
| `PopupExtension.OpenPopupScenario` | UWPPlayground/MainPage.xaml.cs:33 | the button click with [Bottom, Right], margin 8 and the default overflow flag, on an assumed geometry (a 200 x 80 popup at the origin, a 50 x 50 button at (100, 100), a 400 x 300 window), shows the popup below the button with offsets 25 and 158 |

## Left out

- Coordinate transforms (`TransformToVisual`, `TransformPoint`, `Window.Current`): their results are parameters.
- The `try`/`catch (Exception)` around the method: it guards the framework calls, and it also turns a null `preferenceOrder` (the `foreach` would throw) into `false`; a Dafny `seq` cannot be null, so that case does not arise in the model. The arithmetic does not throw.
- Floating point: `double` is modelled by exact `real` arithmetic, so rounding and NaN/infinite sizes are not modelled.
- Rendering and visibility of the popup beyond the three fields written.
- The host page's empty key handlers in `UWPPlayground/MainPage.xaml.cs`: they hold no logic.
- `PopupExtension.Popup.constructor`: a stand-in for the framework's popup object, used only to build the scenario.
