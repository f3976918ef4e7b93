/** `resizeTrigger`: a window `resize` listener that calls back when the window has moved far
    enough from the size recorded at the last callback (or at registration), and then records the
    new size. The decision as written compares the new width with the recorded height; the
    corrected decision compares each dimension with its own recorded value. */
module ResizeTrigger {
  import opened Wrappers

  function Abs(x: int): (r: nat)
    ensures r == x || r == -x
  {
    if x < 0 then -x else x
  }

  /** `option.resizeBasicValue ?? 50`, where an omitted `option` defaults to
      `{ resizeBasicValue: 50 }`: `None` is an omitted argument, `Some(None)` an object whose
      `resizeBasicValue` is `undefined` or `null`. */
  function Threshold(option: Option<Option<int>>): int {
    match option
    case None => 50
    case Some(None) => 50
    case Some(Some(v)) => v
  }

  /** `??` only replaces a missing value: a configured `0` or a negative value is kept. */
  lemma ThresholdKeepsConfigured(v: int)
    ensures Threshold(Some(Some(v))) == v
    ensures Threshold(None) == Threshold(Some(None)) == 50
  {
  }

  /** The decision as written: the width against the recorded width, then the width again
      against the recorded height. */
  predicate FiresAsWritten(threshold: int, lastWidth: int, lastHeight: int, currentWidth: int) {
    Abs(currentWidth - lastWidth) >= threshold || Abs(currentWidth - lastHeight) >= threshold
  }

  /** The evidently intended decision: either dimension against its own recorded value. */
  predicate FiresIntended(threshold: int, lastWidth: int, lastHeight: int, currentWidth: int, currentHeight: int) {
    Abs(currentWidth - lastWidth) >= threshold || Abs(currentHeight - lastHeight) >= threshold
  }

  /** The corrected listener stays quiet exactly while the new size lies strictly inside the
      square of half-side `threshold` around the recorded size. */
  lemma IntendedQuietIffNear(threshold: int, lastWidth: int, lastHeight: int, currentWidth: int, currentHeight: int)
    ensures !FiresIntended(threshold, lastWidth, lastHeight, currentWidth, currentHeight) <==>
      lastWidth - threshold < currentWidth < lastWidth + threshold &&
      lastHeight - threshold < currentHeight < lastHeight + threshold
  {
  }

  /** As written, the listener stays quiet exactly while the new WIDTH is near both the recorded
      width and the recorded height; the new height plays no part. */
  lemma AsWrittenQuietIffNear(threshold: int, lastWidth: int, lastHeight: int, currentWidth: int)
    ensures !FiresAsWritten(threshold, lastWidth, lastHeight, currentWidth) <==>
      lastWidth - threshold < currentWidth < lastWidth + threshold &&
      lastHeight - threshold < currentWidth < lastHeight + threshold
  {
  }

  /** A threshold of zero or less makes every `resize` event call back, on both decisions. */
  lemma NonPositiveThresholdAlwaysFires(threshold: int, lastWidth: int, lastHeight: int, currentWidth: int, currentHeight: int)
    requires threshold <= 0
    ensures FiresAsWritten(threshold, lastWidth, lastHeight, currentWidth)
    ensures FiresIntended(threshold, lastWidth, lastHeight, currentWidth, currentHeight)
  {
  }

  /** The two decisions agree on an event that leaves the height as recorded, as long as the new
      width is near the recorded height. */
  lemma AgreeWhileOnlyWidthMoves(threshold: int, lastWidth: int, lastHeight: int, currentWidth: int)
    requires Abs(currentWidth - lastHeight) < threshold
    ensures FiresAsWritten(threshold, lastWidth, lastHeight, currentWidth) <==>
      FiresIntended(threshold, lastWidth, lastHeight, currentWidth, lastHeight)
  {
  }

  /** The discrepancy, both ways. A 1000x800 window widened by one pixel calls back as written
      (the width is 201 away from the recorded height) although nothing moved by 50; a 1000x1000
      window halved in height does not call back as written. */
  lemma AsWrittenCounterexamples()
    ensures FiresAsWritten(50, 1000, 800, 1001) && !FiresIntended(50, 1000, 800, 1001, 800)
    ensures !FiresAsWritten(50, 1000, 1000, 1000) && FiresIntended(50, 1000, 1000, 1000, 500)
  {
  }

  /** The listener's state: the threshold and the size recorded at the last callback. */
  class ResizeListener {
    const threshold: int
    var lastWidth: int
    var lastHeight: int
    /** How many times the callback has run. */
    var callbacks: nat

    /** `resizeTrigger(callback, option)` with the window's size at registration. */
    constructor(option: Option<Option<int>>, innerWidth: int, innerHeight: int)
      ensures threshold == Threshold(option)
      ensures lastWidth == innerWidth && lastHeight == innerHeight && callbacks == 0
    {
      threshold := Threshold(option);
      lastWidth := innerWidth;
      lastHeight := innerHeight;
      callbacks := 0;
    }

    /** `onResize` as written. */
    method OnResizeAsWritten(currentWidth: int, currentHeight: int) returns (fired: bool)
      modifies this
      ensures fired == FiresAsWritten(threshold, old(lastWidth), old(lastHeight), currentWidth)
      ensures fired ==> lastWidth == currentWidth && lastHeight == currentHeight && callbacks == old(callbacks) + 1
      ensures !fired ==> lastWidth == old(lastWidth) && lastHeight == old(lastHeight) && callbacks == old(callbacks)
    {
      fired := Abs(currentWidth - lastWidth) >= threshold || Abs(currentWidth - lastHeight) >= threshold;
      if fired {
        lastWidth := currentWidth;
        lastHeight := currentHeight;
        callbacks := callbacks + 1;
      }
    }

    /** `onResize` with the height compared with the recorded height. */
    method OnResize(currentWidth: int, currentHeight: int) returns (fired: bool)
      modifies this
      ensures fired == FiresIntended(threshold, old(lastWidth), old(lastHeight), currentWidth, currentHeight)
      ensures fired ==> lastWidth == currentWidth && lastHeight == currentHeight && callbacks == old(callbacks) + 1
      ensures !fired ==> lastWidth == old(lastWidth) && lastHeight == old(lastHeight) && callbacks == old(callbacks)
    {
      fired := Abs(currentWidth - lastWidth) >= threshold || Abs(currentHeight - lastHeight) >= threshold;
      if fired {
        lastWidth := currentWidth;
        lastHeight := currentHeight;
        callbacks := callbacks + 1;
      }
    }
  }

  /** The listener's recorded size and callback count after a sequence of `resize` events, with
      the corrected decision. */
  datatype Recorded = Recorded(width: int, height: int, callbacks: nat)

  function AfterEvents(threshold: int, r: Recorded, events: seq<(int, int)>): Recorded
    decreases |events|
  {
    if events == [] then r
    else
      var (w, h) := events[0];
      var next := if FiresIntended(threshold, r.width, r.height, w, h) then Recorded(w, h, r.callbacks + 1) else r;
      AfterEvents(threshold, next, events[1..])
  }

  /** Each event calls back at most once, and the recorded size is the starting size or the
      size of an event that called back. */
  lemma {:induction false} AfterEventsRecordsObservedSizes(threshold: int, r: Recorded, events: seq<(int, int)>)
    ensures var e := AfterEvents(threshold, r, events);
      r.callbacks <= e.callbacks <= r.callbacks + |events| &&
      ((e.width, e.height) == (r.width, r.height) || (e.width, e.height) in events)
    ensures AfterEvents(threshold, r, events).callbacks == r.callbacks ==> AfterEvents(threshold, r, events) == r
    decreases |events|
  {
    if events != [] {
      var (w, h) := events[0];
      var next := if FiresIntended(threshold, r.width, r.height, w, h) then Recorded(w, h, r.callbacks + 1) else r;
      AfterEventsRecordsObservedSizes(threshold, next, events[1..]);
      var e := AfterEvents(threshold, r, events);
      assert e == AfterEvents(threshold, next, events[1..]);
      if (e.width, e.height) in events[1..] {
        var k :| 0 <= k < |events[1..]| && events[1..][k] == (e.width, e.height);
        assert events[k + 1] == (e.width, e.height);
      }
      assert events[0] == (w, h);
    }
  }

  /** Distances are measured from the size recorded at the last callback, not from the previous
      event: two steps of 30 pixels call back on the second with a threshold of 50. */
  lemma DriftAccumulates(width: int, height: int)
    ensures AfterEvents(50, Recorded(width, height, 0), [(width + 30, height), (width + 60, height)]) ==
      Recorded(width + 60, height, 1)
  {
    var events := [(width + 30, height), (width + 60, height)];
    var start := Recorded(width, height, 0);
    assert !FiresIntended(50, width, height, width + 30, height);
    assert AfterEvents(50, start, events) == AfterEvents(50, start, events[1..]);
    assert events[1..] == [(width + 60, height)];
    assert FiresIntended(50, width, height, width + 60, height);
    assert AfterEvents(50, start, events[1..]) == AfterEvents(50, Recorded(width + 60, height, 1), events[1..][1..]);
    assert events[1..][1..] == [];
  }
}
