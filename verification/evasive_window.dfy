/** The evasive window: a borderless window that sits in a corner of its
    screen and jumps to the next corner (clockwise) whenever the pointer
    enters it or right-clicks it. A window may be stuck to another one (its
    anchor); it then never moves on its own but follows its anchor, placed
    directly below or above it, and passes its interactions on to it.

    Coordinates are Cocoa's: the origin of a rectangle is its bottom-left
    corner and y grows upwards. */
module EvasiveWindows {
  import opened Wrappers

  datatype Point = Point(x: real, y: real)

  datatype Rect = Rect(x: real, y: real, width: real, height: real)

  /** Whether `p` lies in `r` (bottom and left edges included). */
  predicate Contains(r: Rect, p: Point)
  {
    r.x <= p.x < r.x + r.width && r.y <= p.y < r.y + r.height
  }

  /** The screen corner a free window sits in: 0 top-left, 1 top-right,
      2 bottom-right, 3 bottom-left. No other value exists, so the placement
      switch has no reachable default case. */
  type Orientation = o: int | 0 <= o < 4

  const DefaultOrientation: Orientation := 2

  const XPadding: real := 5.0
  const YPadding: real := 5.0

  /** The next corner, clockwise. The operand is never negative, so Swift's
      remainder and Dafny's agree. */
  function Next(o: Orientation): (r: Orientation)
    ensures o < 3 ==> r == o + 1
    ensures o == 3 ==> r == 0
  {
    (o + 1) % 4
  }

  /** The frame of the window's screen. A window is always created for a
      screen, so `None` only models the source's fallback to an all-zero
      frame, which it cannot reach. */
  function ScreenFrame(screen: Option<Rect>): (r: Rect)
    ensures screen.Some? ==> r == screen.value
    ensures screen.None? ==> r == Rect(0.0, 0.0, 0.0, 0.0)
  {
    match screen
    case None => Rect(0.0, 0.0, 0.0, 0.0)
    case Some(frame) => frame
  }

  /** Where a free window of the given size goes for corner `o`: against
      that corner of the screen, `XPadding` and `YPadding` in from its
      edges. */
  function CornerOrigin(o: Orientation, screen: Rect, width: real, height: real): (p: Point)
    ensures (o == 0 || o == 3) ==> p.x == screen.x + XPadding
    ensures (o == 1 || o == 2) ==> p.x + width + XPadding == screen.x + screen.width
    ensures o < 2 ==> p.y + height + YPadding == screen.y + screen.height
    ensures o >= 2 ==> p.y == screen.y + YPadding
  {
    var left := screen.x + XPadding;
    var right := screen.x + screen.width - width - XPadding;
    var top := screen.y + screen.height - height - YPadding;
    var bottom := screen.y + YPadding;
    match o
    case 0 => Point(left, top)
    case 1 => Point(right, top)
    case 2 => Point(right, bottom)
    case 3 => Point(left, bottom)
  }

  /** Where a window of height `height` stuck to `anchor` goes when the pair
      is in corner `o`: same x as the anchor; below the anchor when the pair
      is in a top corner, above it when in a bottom corner. */
  function StuckOrigin(o: Orientation, anchor: Rect, height: real): (p: Point)
    ensures p.x == anchor.x
    ensures o < 2 ==> p.y + height == anchor.y
    ensures o >= 2 ==> p.y == anchor.y + anchor.height
  {
    if o < 2 then Point(anchor.x, anchor.y - height)
    else Point(anchor.x, anchor.y + anchor.height)
  }

  /** Four moves bring a free window back to its corner and so, on an
      unchanged screen, to the same origin; fewer than four never do. */
  lemma FourMovesRestore(o: Orientation, screen: Rect, width: real, height: real)
    ensures Next(Next(Next(Next(o)))) == o
    ensures CornerOrigin(Next(Next(Next(Next(o)))), screen, width, height)
         == CornerOrigin(o, screen, width, height)
    ensures Next(o) != o && Next(Next(o)) != o && Next(Next(Next(o))) != o
  {
  }

  /** On a screen with room for the window and its padding, every corner
      placement keeps the window inside the screen, `XPadding` and
      `YPadding` in from its edges. */
  lemma CornerInsideScreen(o: Orientation, screen: Rect, width: real, height: real)
    requires 0.0 <= width && 0.0 <= height
    requires width + 2.0 * XPadding <= screen.width
    requires height + 2.0 * YPadding <= screen.height
    ensures var p := CornerOrigin(o, screen, width, height);
            screen.x + XPadding <= p.x && p.x + width <= screen.x + screen.width - XPadding
            && screen.y + YPadding <= p.y && p.y + height <= screen.y + screen.height - YPadding
  {
  }

  /** On a screen at least twice the window's size (plus padding) in each
      direction, the next corner's placement shares no point with the
      current one, so the window always leaves the spot the pointer is on. */
  lemma MoveEvadesPointer(o: Orientation, screen: Rect, width: real, height: real, pointer: Point)
    requires 2.0 * width + 2.0 * XPadding <= screen.width
    requires 2.0 * height + 2.0 * YPadding <= screen.height
    requires Contains(WindowRect(CornerOrigin(o, screen, width, height), width, height), pointer)
    ensures !Contains(WindowRect(CornerOrigin(Next(o), screen, width, height), width, height), pointer)
  {
  }

  /** The rectangle of a window of the given size at `origin`. */
  function WindowRect(origin: Point, width: real, height: real): Rect
  {
    Rect(origin.x, origin.y, width, height)
  }

  /** A stuck window of its anchor's width shares no point with the anchor
      and touches it along a whole horizontal edge: its top edge is the
      anchor's bottom edge in a top corner, its bottom edge the anchor's top
      edge in a bottom corner. */
  lemma StuckBesideAnchor(o: Orientation, anchor: Rect, height: real, p: Point)
    requires 0.0 <= anchor.height
    ensures var s := StuckOrigin(o, anchor, height);
            s.x == anchor.x
            && (o < 2 ==> s.y + height == anchor.y)
            && (o >= 2 ==> s.y == anchor.y + anchor.height)
            && !(Contains(anchor, p) && Contains(WindowRect(s, anchor.width, height), p))
  {
  }

  /** Placing the stuck window below its anchor in the top corners and
      above it in the bottom corners keeps the pair on the screen whenever
      the screen has room for both windows stacked, plus padding. */
  lemma StuckPairStaysOnScreen(o: Orientation, screen: Rect, width: real, anchorHeight: real, height: real)
    requires 0.0 <= width && 0.0 <= anchorHeight && 0.0 <= height
    requires width + 2.0 * XPadding <= screen.width
    requires anchorHeight + height + 2.0 * YPadding <= screen.height
    ensures var a := CornerOrigin(o, screen, width, anchorHeight);
            var s := StuckOrigin(o, WindowRect(a, width, anchorHeight), height);
            screen.x + XPadding <= s.x && s.x + width <= screen.x + screen.width - XPadding
            && screen.y + YPadding <= s.y && s.y + height <= screen.y + screen.height - YPadding
  {
  }

  /** The mouse events a window receives. */
  datatype MouseEvent = MouseEntered | MouseExited | MouseDown | RightMouseDown

  /** Hovering into a window and right-clicking it make it move; a left
      click and the pointer leaving do not. */
  predicate TriggersMove(e: MouseEvent): (b: bool)
    ensures !b <==> e == MouseExited || e == MouseDown
  {
    e == MouseEntered || e == RightMouseDown
  }

  class EvasiveWindow {
    /** The window this one is stuck to, if any; fixed at creation. */
    const stickTo: EvasiveWindow?
    /** Length of the chain of anchors above this window; it justifies
        recursion through `stickTo`. */
    ghost const depth: nat
    const width: real
    const height: real
    /** The screen the window was created for. The source always has one;
        `None` models its unreachable fallback to an all-zero frame. */
    const screen: Option<Rect>
    /** The last window created stuck to this one, if any. */
    var stuckToMe: EvasiveWindow?
    var orientation: Orientation
    var origin: Point

    /** Following `stickTo` always reaches a free window. */
    ghost predicate Acyclic()
      decreases depth
    {
      stickTo != null ==> stickTo.depth < depth && stickTo.Acyclic()
    }

    /** The free window at the end of this window's chain of anchors. */
    ghost function Root(): (r: EvasiveWindow)
      requires Acyclic()
      ensures r.stickTo == null && r.Acyclic()
      decreases depth
    {
      if stickTo == null then this else stickTo.Root()
    }

    /** The window whose origin a move of this window's chain may rewrite
        besides the root's: the root's dependent, or the root itself when it
        has none. */
    ghost function Follower(): EvasiveWindow
      requires Acyclic()
      reads Root()`stuckToMe
    {
      if Root().stuckToMe != null then Root().stuckToMe else Root()
    }

    /** The window's frame. */
    function Frame(): Rect
      reads this
    {
      WindowRect(origin, width, height)
    }

    /** The corner the window is in: its own orientation when free, its
        anchor's when stuck. */
    function GetOrientation(): (r: Orientation)
      requires Acyclic()
      reads Root()`orientation
      ensures r == Root().orientation
      decreases depth
    {
      if stickTo == null then orientation else stickTo.GetOrientation()
    }

    /** The window registered as stuck to this one is indeed stuck to it,
        with the same width. */
    ghost predicate Linked()
      reads this
    {
      stuckToMe != null ==>
        stuckToMe.stickTo == this && stuckToMe.Acyclic() && stuckToMe.width == width
    }

    /** The window sits where its orientation and its anchor put it. */
    ghost predicate Placed()
      requires Acyclic()
      reads this, stickTo, Root()`orientation
    {
      if stickTo == null then
        origin == CornerOrigin(orientation, ScreenFrame(screen), width, height)
      else
        origin == StuckOrigin(GetOrientation(), stickTo.Frame(), height)
    }

    /** A stuck window is placed against its anchor: same x, same width, and
        sharing a horizontal edge with it. */
    ghost predicate Adjacent()
      requires Acyclic()
      reads this, stickTo, Root()`orientation
    {
      stickTo != null ==>
        Placed() && width == stickTo.width
    }

    /** A window of the given size on `screen`, optionally stuck to
        `stickWin`; a stuck window takes its anchor's width. It starts in the
        bottom-right orientation, registers itself as its anchor's dependent
        (replacing any earlier one) and is placed at once. */
    constructor (winWidth: real, winHeight: real, screen: Option<Rect>, stickWin: EvasiveWindow?)
      requires stickWin != null ==> stickWin.Acyclic()
      modifies stickWin
      ensures stickTo == stickWin && this.screen == screen
      ensures width == (if stickWin == null then winWidth else stickWin.width)
      ensures height == winHeight
      ensures orientation == DefaultOrientation && stuckToMe == null
      ensures Acyclic() && Linked() && Placed()
      ensures stickWin != null ==>
                stickWin.stuckToMe == this && stickWin.Linked()
                && stickWin.orientation == old(stickWin.orientation)
                && stickWin.origin == old(stickWin.origin)
    {
      stickTo := stickWin;
      depth := if stickWin == null then 0 else stickWin.depth + 1;
      width := if stickWin == null then winWidth else stickWin.width;
      height := winHeight;
      this.screen := screen;
      orientation := DefaultOrientation;
      origin := Point(0.0, 0.0);
      stuckToMe := null;
      new;
      if stickWin != null {
        stickWin.stuckToMe := this;
      }
      RefreshOrigin();
    }

    /** Recomputes the window's origin from its orientation and, when stuck,
        from its anchor's frame. Only the origin changes. */
    method RefreshOrigin()
      requires Acyclic()
      modifies this`origin
      ensures Placed()
    {
      if stickTo != null {
        var o := GetOrientation();
        var anchor := stickTo.Frame();
        if o < 2 {
          origin := Point(anchor.x, anchor.y - height);
        } else {
          origin := Point(anchor.x, anchor.y + anchor.height);
        }
      } else {
        var frame := ScreenFrame(screen);
        var x: real;
        var y: real;
        match GetOrientation() {
          case 0 =>
            x := XPadding + frame.x;
            y := frame.height - height - YPadding + frame.y;
          case 1 =>
            x := frame.width - width - XPadding + frame.x;
            y := frame.height - height - YPadding + frame.y;
          case 2 =>
            x := frame.width - width - XPadding + frame.x;
            y := YPadding + frame.y;
          case 3 =>
            x := XPadding + frame.x;
            y := YPadding + frame.y;
        }
        origin := Point(x, y);
      }
    }

    /** The reaction to an interaction. A free window advances to the next
        corner, is placed there, and has its dependent re-placed against it;
        a stuck window passes the interaction to its anchor. Either way the
        free window at the root of the chain is the one that turns, and no
        window other than it and its dependent changes. */
    method Move()
      requires Acyclic() && Root().Linked()
      modifies Root()`orientation, Root()`origin, Follower()`origin
      ensures Root().orientation == Next(old(Root().orientation))
      ensures Root().Placed()
      ensures Root().stuckToMe != null ==> Root().stuckToMe.Adjacent()
      ensures stickTo != null ==> orientation == old(orientation)
      decreases depth
    {
      if stickTo == null {
        orientation := Next(GetOrientation());
        RefreshOrigin();
        if stuckToMe != null {
          stuckToMe.RefreshOrigin();
        }
      } else {
        stickTo.Move();
      }
    }

    /** Four interactions with a free window bring it back to the corner,
        and the origin, it started from. */
    method MoveFullCircle()
      requires Acyclic() && stickTo == null && Linked() && Placed()
      modifies this`orientation, this`origin, Follower()`origin
      ensures orientation == old(orientation) && origin == old(origin)
    {
      FourMovesRestore(orientation, ScreenFrame(screen), width, height);
      Move();
      Move();
      Move();
      Move();
    }

    /** Dispatches a mouse event: only a hover-enter or a right-click moves
        the window; the other events change nothing. */
    method HandleMouse(e: MouseEvent)
      requires Acyclic() && Root().Linked()
      modifies Root()`orientation, Root()`origin, Follower()`origin
      ensures TriggersMove(e) ==> Root().orientation == Next(old(Root().orientation))
      ensures TriggersMove(e) ==> Root().Placed()
      ensures TriggersMove(e) && Root().stuckToMe != null ==> Root().stuckToMe.Adjacent()
      ensures !TriggersMove(e) ==> Root().orientation == old(Root().orientation)
      ensures !TriggersMove(e) ==> Root().origin == old(Root().origin)
      ensures !TriggersMove(e) && Root().stuckToMe != null ==>
                Root().stuckToMe.origin == old(Root().stuckToMe.origin)
    {
      match e {
        case MouseEntered => Move();
        case RightMouseDown => Move();
        case MouseExited =>
        case MouseDown =>
      }
    }
  }
}
