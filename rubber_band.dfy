/** Rubber-band selection over the library view (`useRubberBandSelect.ts`): a left-button press
    on empty space starts a rectangle, moves beyond a 4-pixel threshold select the tracks whose
    rows the rectangle strictly overlaps, and the release ends the drag and swallows the next
    click when a drag took place. Element rectangles and pointer coordinates are inputs. */
module RubberBand {
  import opened Wrappers
  import opened Entities

  datatype Point = Point(x: real, y: real)

  /** `SelectionRect`: the rectangle drawn on screen. */
  datatype Rect = Rect(left: real, top: real, width: real, height: real)

  /** A row's bounding box, as `getBoundingClientRect` reports it. */
  datatype Box = Box(left: real, top: real, right: real, bottom: real)

  /** An element carrying `data-track-path`, in document order. */
  datatype Row = Row(box: Box, path: string)

  /** The smallest pixel extent that counts as a drag. */
  const Threshold: real := 4.0

  function Min(a: real, b: real): real { if a <= b then a else b }
  function Abs(a: real): real { if a < 0.0 then -a else a }

  /** The rectangle spanned by the press point and the pointer. */
  function Span(start: Point, x: real, y: real): (r: Rect)
    ensures r.width >= 0.0 && r.height >= 0.0
    ensures r.left == start.x || r.left == x
    ensures r.left <= start.x <= r.left + r.width && r.left <= x <= r.left + r.width
    ensures r.top <= start.y <= r.top + r.height && r.top <= y <= r.top + r.height
    ensures r.width == (if x >= start.x then x - start.x else start.x - x)
  {
    Rect(Min(start.x, x), Min(start.y, y), Abs(x - start.x), Abs(y - start.y))
  }

  /** Strict overlap of a row's box with the selection: touching edges do not count. */
  predicate Hit(b: Box, r: Rect) {
    b.right > r.left && b.left < r.left + r.width && b.bottom > r.top && b.top < r.top + r.height
  }

  /** One rectangle inside another. */
  predicate Within(r: Rect, s: Rect) {
    s.left <= r.left && r.left + r.width <= s.left + s.width &&
    s.top <= r.top && r.top + r.height <= s.top + s.height
  }

  /** The non-empty paths of the rows the rectangle hits, collected front to back. */
  function HitPaths(rows: seq<Row>, r: Rect): set<string>
    decreases |rows|
  {
    if |rows| == 0 then {}
    else
      var last := rows[|rows| - 1];
      HitPaths(rows[..|rows| - 1], r) + (if Hit(last.box, r) && last.path != "" then {last.path} else {})
  }

  /** A path is collected exactly when it is non-empty and some row with that path is hit. */
  lemma {:induction false} HitPathsMembers(rows: seq<Row>, r: Rect)
    ensures forall p :: p in HitPaths(rows, r) <==>
      p != "" && exists i :: 0 <= i < |rows| && rows[i].path == p && Hit(rows[i].box, r)
    decreases |rows|
  {
    if |rows| > 0 {
      var init := rows[..|rows| - 1];
      HitPathsMembers(init, r);
      assert forall i :: 0 <= i < |init| ==> init[i] == rows[i];
    }
  }

  /** A rectangle that covers another hits every row the smaller one hits. */
  lemma HitPathsGrow(rows: seq<Row>, r: Rect, s: Rect)
    requires Within(r, s)
    ensures HitPaths(rows, r) <= HitPaths(rows, s)
  {
    HitPathsMembers(rows, r);
    HitPathsMembers(rows, s);
  }

  /** `flatTracks.filter((t) => paths.has(t.absolutePath))`. */
  function FilterByPaths(tracks: seq<Track>, paths: set<string>): (r: seq<Track>)
    ensures |r| <= |tracks|
    ensures forall t :: t in r <==> t in tracks && t.absolutePath in paths
    decreases |tracks|
  {
    if |tracks| == 0 then []
    else
      var init := tracks[..|tracks| - 1];
      var last := tracks[|tracks| - 1];
      assert tracks == init + [last];
      FilterByPaths(init, paths) + (if last.absolutePath in paths then [last] else [])
  }

  /** Filtering distributes over concatenation, so the selection keeps the list's order. */
  lemma {:induction false} FilterByPathsAppend(xs: seq<Track>, ys: seq<Track>, paths: set<string>)
    ensures FilterByPaths(xs + ys, paths) == FilterByPaths(xs, paths) + FilterByPaths(ys, paths)
    decreases |ys|
  {
    if |ys| == 0 {
      assert xs + ys == xs;
    } else {
      var init := ys[..|ys| - 1];
      assert (xs + ys)[..|xs + ys| - 1] == xs + init;
      assert (xs + ys)[|xs + ys| - 1] == ys[|ys| - 1];
      FilterByPathsAppend(xs, init, paths);
    }
  }

  /** The hook's state: the press point, the rectangle on screen, whether this press became a
      drag, whether the move/up listeners are installed, whether text selection is disabled, the
      pending one-shot click suppression, and the last selection reported to `onSelect`. */
  class Selector {
    const flatTracks: seq<Track>
    var start: Option<Point>
    var selectionRect: Option<Rect>
    var didDrag: bool
    var listening: bool
    var textSelectionOff: bool
    var suppressClick: bool
    var selected: Option<seq<Track>>

    /** The listeners are installed exactly while a press is in progress, and a rectangle is
        only shown during a press that became a drag. */
    predicate Valid()
      reads this
    {
      && (listening <==> start.Some?)
      && (selectionRect.Some? ==> start.Some? && didDrag)
      && (selectionRect.Some? ==> selectionRect.value.width >= 0.0 && selectionRect.value.height >= 0.0)
    }

    constructor(flatTracks: seq<Track>)
      ensures Valid() && this.flatTracks == flatTracks
      ensures start.None? && selectionRect.None? && !didDrag && !listening
      ensures !textSelectionOff && !suppressClick && selected.None?
    {
      this.flatTracks := flatTracks;
      start := None;
      selectionRect := None;
      didDrag := false;
      listening := false;
      textSelectionOff := false;
      suppressClick := false;
      selected := None;
    }

    /** `handleMouseDown`: only a left-button press (button 0) on empty space of a mounted
        container starts a selection. `onControl` says the target lies inside a `button`, a
        track row or a folder header. */
    method MouseDown(button: int, onControl: bool, mounted: bool, x: real, y: real)
      requires Valid()
      modifies this
      ensures Valid()
      ensures button != 0 || onControl || !mounted ==>
        start == old(start) && selectionRect == old(selectionRect) && didDrag == old(didDrag) &&
        listening == old(listening) && textSelectionOff == old(textSelectionOff)
      ensures button == 0 && !onControl && mounted ==>
        start == Some(Point(x, y)) && selectionRect.None? && !didDrag && listening &&
        textSelectionOff
      ensures suppressClick == old(suppressClick) && selected == old(selected)
    {
      if button != 0 { return; }
      if onControl { return; }
      if !mounted { return; }
      textSelectionOff := true;
      start := Some(Point(x, y));
      didDrag := false;
      selectionRect := None;
      listening := true;
    }

    /** The `mousemove` listener: below the threshold in both directions nothing happens;
        beyond it the press becomes a drag, the rectangle is shown, and the tracks hit are
        reported when there is at least one. */
    method MouseMove(x: real, y: real, rows: seq<Row>)
      requires Valid()
      modifies this
      ensures Valid()
      ensures start == old(start) && listening == old(listening)
      ensures textSelectionOff == old(textSelectionOff) && suppressClick == old(suppressClick)
      ensures old(start).None? || (Span(old(start).value, x, y).width < Threshold &&
                                   Span(old(start).value, x, y).height < Threshold) ==>
        selectionRect == old(selectionRect) && didDrag == old(didDrag) && selected == old(selected)
      ensures old(start).Some? && !(Span(old(start).value, x, y).width < Threshold &&
                                    Span(old(start).value, x, y).height < Threshold) ==>
        var r := Span(old(start).value, x, y);
        && didDrag && selectionRect == Some(r)
        && selected == (if HitPaths(rows, r) != {} then Some(FilterByPaths(flatTracks, HitPaths(rows, r)))
                        else old(selected))
    {
      if start.None? { return; }
      var r := Span(start.value, x, y);
      if r.width < Threshold && r.height < Threshold { return; }
      didDrag := true;
      selectionRect := Some(r);
      var paths := CollectHits(rows, r);
      if |paths| > 0 {
        selected := Some(FilterByPaths(flatTracks, paths));
      }
    }

    /** The `forEach` over the rows, adding the path of every row the rectangle hits. */
    static method CollectHits(rows: seq<Row>, r: Rect) returns (paths: set<string>)
      ensures paths == HitPaths(rows, r)
    {
      paths := {};
      for i := 0 to |rows|
        invariant paths == HitPaths(rows[..i], r)
      {
        var row := rows[i];
        if Hit(row.box, r) && row.path != "" {
          paths := paths + {row.path};
        }
        assert rows[..i + 1][..i] == rows[..i];
      }
      assert rows[..|rows|] == rows;
    }

    /** The `mouseup` listener: the press ends, the rectangle disappears, the listeners are
        removed, and the next click is swallowed when this press became a drag. */
    method MouseUp()
      requires Valid()
      modifies this
      ensures Valid()
      ensures !old(listening) ==>
        start == old(start) && selectionRect == old(selectionRect) &&
        textSelectionOff == old(textSelectionOff) && suppressClick == old(suppressClick)
      ensures old(listening) ==>
        start.None? && selectionRect.None? && !listening && !textSelectionOff &&
        suppressClick == (old(suppressClick) || old(didDrag))
      ensures didDrag == old(didDrag) && selected == old(selected)
    {
      if !listening { return; }
      start := None;
      selectionRect := None;
      textSelectionOff := false;
      listening := false;
      if didDrag {
        suppressClick := true;
      }
    }

    /** A click on the container: swallowed once by a pending suppression, delivered
        otherwise. */
    method Click() returns (delivered: bool)
      requires Valid()
      modifies this
      ensures Valid()
      ensures delivered == !old(suppressClick) && !suppressClick
      ensures start == old(start) && selectionRect == old(selectionRect) && didDrag == old(didDrag)
      ensures listening == old(listening) && textSelectionOff == old(textSelectionOff)
      ensures selected == old(selected)
    {
      delivered := !suppressClick;
      suppressClick := false;
    }
  }
}
