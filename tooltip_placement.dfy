/** Where the time-slot cell puts its detail tooltip
    (`calculateTooltipPosition` in src/components/TimeSlotCell.tsx).
    Pixel values are modelled as reals; the anchor box and the window size
    are inputs rather than browser queries. */
module TooltipPlacement {

  /** Estimated tooltip height. */
  const TooltipHeight: real := 180.0
  /** Tooltip width. */
  const TooltipWidth: real := 200.0
  /** Distance kept between the tooltip and the anchor, and the top used
      when the tooltip would start above the window. */
  const Gap: real := 8.0
  /** Margin kept to the right window edge when the tooltip is pulled left. */
  const RightMargin: real := 16.0

  /** The part of the anchor's bounding box that placement reads. */
  datatype Rect = Rect(top: real, bottom: real, left: real)

  /** The window's inner size. */
  datatype Viewport = Viewport(width: real, height: real)

  /** Fixed-position coordinates of the tooltip's top-left corner. */
  datatype Position = Position(top: real, left: real)

  /** Does the tooltip go above the anchor? Only the anchor's bottom plus the
      tooltip height is compared with the window height. */
  predicate FlipsAbove(anchor: Rect, view: Viewport) {
    anchor.bottom + TooltipHeight > view.height
  }

  /** Is the tooltip pulled left from the anchor's left edge? */
  predicate PullsLeft(anchor: Rect, view: Viewport) {
    anchor.left + TooltipWidth > view.width
  }

  /** The placement rules, applied in order: below the anchor; above it when
      the bottom would overflow; pulled in from the right edge; and a top
      above the window replaced by `Gap`. */
  function Placement(anchor: Rect, view: Viewport): (p: Position)
    ensures p.top >= 0.0
    ensures p.left + TooltipWidth <= view.width
    ensures p.left <= anchor.left
    ensures !PullsLeft(anchor, view) <==> p.left == anchor.left
    ensures PullsLeft(anchor, view) ==> p.left == view.width - TooltipWidth - RightMargin
  {
    var top := if FlipsAbove(anchor, view) then anchor.top - TooltipHeight - Gap else anchor.bottom + Gap;
    var left := if PullsLeft(anchor, view) then view.width - TooltipWidth - RightMargin else anchor.left;
    Position(if top < 0.0 then Gap else top, left)
  }

  /** The statement-by-statement computation: `top` and `left` start at the
      default and each rule may overwrite them. */
  method CalculatePosition(anchor: Rect, view: Viewport) returns (p: Position)
    ensures p == Placement(anchor, view)
  {
    var top := anchor.bottom + Gap;
    var left := anchor.left;
    if anchor.bottom + TooltipHeight > view.height {
      top := anchor.top - TooltipHeight - Gap;
    }
    if left + TooltipWidth > view.width {
      left := view.width - TooltipWidth - RightMargin;
    }
    if top < 0.0 {
      top := Gap;
    }
    p := Position(top, left);
  }

  /** When there is room below, the tooltip starts `Gap` below the anchor
      (unless the anchor itself is above the window). */
  lemma {:induction false} BelowWhenRoom(anchor: Rect, view: Viewport)
    requires !FlipsAbove(anchor, view) && anchor.bottom + Gap >= 0.0
    ensures Placement(anchor, view).top == anchor.bottom + Gap
    ensures Placement(anchor, view).top > anchor.bottom
  {
  }

  /** When the tooltip goes above and fits there, it ends `Gap` above the
      anchor's top edge and lies inside the window vertically. */
  lemma {:induction false} AboveWhenNoRoom(anchor: Rect, view: Viewport)
    requires FlipsAbove(anchor, view) && anchor.top >= TooltipHeight + Gap
    ensures Placement(anchor, view).top + TooltipHeight + Gap == anchor.top
    ensures anchor.top <= view.height ==> Placement(anchor, view).top + TooltipHeight <= view.height
  {
  }

  /** A tooltip that would start above the window starts at `Gap` instead. */
  lemma {:induction false} TopClampedToGap(anchor: Rect, view: Viewport)
    requires if FlipsAbove(anchor, view) then anchor.top - TooltipHeight - Gap < 0.0 else anchor.bottom + Gap < 0.0
    ensures Placement(anchor, view).top == Gap
  {
  }

  /** Below the anchor the tooltip may overshoot the window's bottom edge,
      but by no more than `Gap`: the flip test omits the gap. */
  lemma {:induction false} BelowOvershootBounded(anchor: Rect, view: Viewport)
    requires !FlipsAbove(anchor, view) && anchor.bottom + Gap >= 0.0
    ensures Placement(anchor, view).top + TooltipHeight <= view.height + Gap
  {
  }

  /** An anchor whose bottom is 615 in an 800-high window keeps the tooltip
      below, where it spans 623..803 and so ends past the window's bottom. */
  lemma {:induction false} BelowCanOvershoot()
    ensures var p := Placement(Rect(600.0, 615.0, 0.0), Viewport(1000.0, 800.0));
      p.top + TooltipHeight > 800.0
  {
  }

  /** A worked example: an anchor 900 from the left of a 1000-wide window
      is pulled in so that the tooltip ends `RightMargin` before the edge. */
  lemma {:induction false} PullLeftScenario()
    ensures Placement(Rect(100.0, 120.0, 900.0), Viewport(1000.0, 800.0)) == Position(128.0, 784.0)
  {
  }

  /** A worked example: an anchor near the bottom of the window flips above it. */
  lemma {:induction false} FlipScenario()
    ensures Placement(Rect(700.0, 750.0, 50.0), Viewport(1000.0, 800.0)) == Position(512.0, 50.0)
  {
  }
}
