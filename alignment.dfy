/** Cross-axis alignment of a popup against its target element, on one axis. */
module Alignment {

  datatype Option<T> = None | Some(value: T)

  /** A popup whose origin is at `popupCoord`, shifted by `off`, with extent
      `popupMaxDimension`, lies within [0, windowDimension] on this axis. */
  predicate Fits(popupCoord: real, off: real, popupMaxDimension: real, windowDimension: real) {
    0.0 <= popupCoord + off && popupCoord + off + popupMaxDimension <= windowDimension
  }

  /** The offset that puts the popup's centre on the target's centre. */
  function CenterOffset(distance: real, popupMaxDimension: real, targetElementDimension: real): (off: real)
    ensures off + popupMaxDimension / 2.0 == distance + targetElementDimension / 2.0
  {
    distance - (popupMaxDimension - targetElementDimension) / 2.0
  }

  /** The offset that puts the popup's trailing (right or bottom) edge on the
      target's trailing edge. */
  function TrailingOffset(distance: real, popupMaxDimension: real, targetElementDimension: real): (off: real)
    ensures off + popupMaxDimension == distance + targetElementDimension
  {
    distance - popupMaxDimension + targetElementDimension
  }

  /** The offset on one axis that aligns the popup with the target: centred if
      overflow is allowed or the centred popup fits; otherwise leading edges
      aligned, then trailing edges aligned, each behind its own test; otherwise
      no offset. `distance` is the target's coordinate minus the popup's, so
      `popupCoord + distance` is where the target starts. `targetElementCoord`
      is passed by the caller but never read. */
  function OffsetForAlignment(popupCoord: real, targetElementCoord: real, distance: real,
                              popupMaxDimension: real, targetElementDimension: real,
                              windowDimension: real, isOverflowAllowed: bool): (r: Option<real>)
    // centring wins whenever overflow is allowed or the centred popup fits
    ensures isOverflowAllowed ==> r == Some(CenterOffset(distance, popupMaxDimension, targetElementDimension))
    ensures Fits(popupCoord, CenterOffset(distance, popupMaxDimension, targetElementDimension),
                 popupMaxDimension, windowDimension)
            ==> r == Some(CenterOffset(distance, popupMaxDimension, targetElementDimension))
    // the fallbacks, in priority order, once centring is rejected
    ensures !isOverflowAllowed &&
            !Fits(popupCoord, CenterOffset(distance, popupMaxDimension, targetElementDimension),
                  popupMaxDimension, windowDimension) &&
            popupCoord + distance + popupMaxDimension <= windowDimension
            ==> r == Some(distance)
    ensures !isOverflowAllowed &&
            !Fits(popupCoord, CenterOffset(distance, popupMaxDimension, targetElementDimension),
                  popupMaxDimension, windowDimension) &&
            windowDimension < popupCoord + distance + popupMaxDimension &&
            0.0 <= popupCoord + distance - popupMaxDimension
            ==> r == Some(TrailingOffset(distance, popupMaxDimension, targetElementDimension))
    // the only failure: centring rejected and both fallback tests fail
    ensures r.None? <==>
            !isOverflowAllowed &&
            !Fits(popupCoord, CenterOffset(distance, popupMaxDimension, targetElementDimension),
                  popupMaxDimension, windowDimension) &&
            windowDimension < popupCoord + distance + popupMaxDimension &&
            popupCoord + distance - popupMaxDimension < 0.0
  {
    var offsetForCenterAlignment := distance - (popupMaxDimension - targetElementDimension) / 2.0;
    if isOverflowAllowed ||
       (popupCoord + offsetForCenterAlignment >= 0.0 &&
        popupCoord + offsetForCenterAlignment + popupMaxDimension <= windowDimension)
    then Some(offsetForCenterAlignment)
    else if popupCoord + distance + popupMaxDimension <= windowDimension then Some(distance)
    else if popupCoord + distance - popupMaxDimension >= 0.0
    then Some(distance - popupMaxDimension + targetElementDimension)
    else None
  }

  /** When overflow is not allowed and the target lies inside the window on
      this axis, every offset the resolver returns keeps the whole popup inside
      the window, whichever of the three alignments produced it. */
  lemma AlignedFits(popupCoord: real, targetElementCoord: real, popupMaxDimension: real,
                    targetElementDimension: real, windowDimension: real)
    requires 0.0 <= targetElementDimension
    requires 0.0 <= targetElementCoord && targetElementCoord + targetElementDimension <= windowDimension
    ensures var r := OffsetForAlignment(popupCoord, targetElementCoord, targetElementCoord - popupCoord,
                                        popupMaxDimension, targetElementDimension, windowDimension, false);
            r.Some? ==> Fits(popupCoord, r.value, popupMaxDimension, windowDimension)
  {
  }

  /** No offset means that neither the centred nor the leading-edge alignment
      fits; in particular an overflow-permitting call never fails. */
  lemma NoneMeansCenterAndLeadingOverflow(popupCoord: real, targetElementCoord: real, distance: real,
                                          popupMaxDimension: real, targetElementDimension: real,
                                          windowDimension: real, isOverflowAllowed: bool)
    requires OffsetForAlignment(popupCoord, targetElementCoord, distance, popupMaxDimension,
                                targetElementDimension, windowDimension, isOverflowAllowed).None?
    ensures !isOverflowAllowed
    ensures !Fits(popupCoord, CenterOffset(distance, popupMaxDimension, targetElementDimension),
                  popupMaxDimension, windowDimension)
    ensures !Fits(popupCoord, distance, popupMaxDimension, windowDimension)
  {
  }

  /** The trailing-edge test checks `popupCoord + distance - popupMaxDimension`
      rather than the leading edge of the trailing-aligned popup, so it can
      refuse a trailing alignment that would fit: target [50, 100] in a window
      of 110, popup 80 wide; the trailing-aligned popup spans [20, 100]. */
  lemma TrailingTestIsConservative()
    ensures OffsetForAlignment(0.0, 50.0, 50.0, 80.0, 50.0, 110.0, false).None?
    ensures Fits(0.0, TrailingOffset(50.0, 80.0, 50.0), 80.0, 110.0)
  {
  }
}
