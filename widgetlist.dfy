/** The edits of a dashboard's widget list in components/dashboard/DashboardGrid.tsx:
    the adjacent move buttons, drag reordering, width and height resizing, and delete.
    Each produces the dashboard handed to onUpdateDashboard. */
module WidgetList {
  import opened Common
  import opened Model

  datatype Direction = UP | DOWN

  // ---------------------------------------------------------------------------
  // moveWidget

  /** s with the elements at i and j exchanged. */
  function Swapped<T>(s: seq<T>, i: nat, j: nat): (r: seq<T>)
    requires i < |s| && j < |s|
    ensures |r| == |s| && r[i] == s[j] && r[j] == s[i]
    ensures forall k :: 0 <= k < |s| && k != i && k != j ==> r[k] == s[k]
    ensures multiset(r) == multiset(s)
  {
    s[i := s[j]][j := s[i]]
  }

  /** The neighbour a widget trades places with, or None at the first widget moving up
      and at the last moving down. */
  function Neighbour(count: nat, index: nat, dir: Direction): (r: Option<nat>)
    requires index < count
    ensures r.None? <==> (dir == UP && index == 0) || (dir == DOWN && index == count - 1)
    ensures r.Some? ==> r.value < count && (if dir == UP then r.value + 1 == index else r.value == index + 1)
  {
    match dir
    case UP => if index == 0 then None else Some(index - 1)
    case DOWN => if index + 1 == count then None else Some(index + 1)
  }

  /** The widget list after moving the widget at index one place. */
  function Moved(ws: seq<Widget>, index: nat, dir: Direction): seq<Widget>
    requires index < |ws|
  {
    match Neighbour(|ws|, index, dir)
    case None => ws
    case Some(j) => Swapped(ws, index, j)
  }

  /** Copies the list into an array, swaps the two slots in place and hands over the result. */
  method MoveWidget(d: Dashboard, index: nat, dir: Direction) returns (r: Dashboard)
    requires index < |d.widgets|
    ensures r == d.(widgets := Moved(d.widgets, index, dir))
  {
    if dir == UP && index == 0 { return d; }
    if dir == DOWN && index == |d.widgets| - 1 { return d; }
    var a := new Widget[|d.widgets|](i requires 0 <= i < |d.widgets| => d.widgets[i]);
    assert a[..] == d.widgets;
    var j := if dir == UP then index - 1 else index + 1;
    a[index], a[j] := a[j], a[index];
    r := d.(widgets := a[..]);
  }

  /** Moving keeps the same widgets, leaves the list alone at its ends, and is undone by
      the opposite move of the same widget. */
  lemma MovedMeaning(ws: seq<Widget>, index: nat, dir: Direction)
    requires index < |ws|
    ensures multiset(Moved(ws, index, dir)) == multiset(ws) && |Moved(ws, index, dir)| == |ws|
    ensures (dir == UP && index == 0) || (dir == DOWN && index == |ws| - 1) ==> Moved(ws, index, dir) == ws
    ensures dir == UP && index > 0 ==> Moved(Moved(ws, index, UP), index - 1, DOWN) == ws
    ensures dir == DOWN && index < |ws| - 1 ==> Moved(Moved(ws, index, DOWN), index + 1, UP) == ws
  {
    if dir == UP && index > 0 {
      var m := Moved(ws, index, UP);
      assert m == Swapped(ws, index, index - 1);
      assert Moved(m, index - 1, DOWN) == Swapped(m, index - 1, index);
      SwapTwice(ws, index, index - 1);
    }
    if dir == DOWN && index < |ws| - 1 {
      var m := Moved(ws, index, DOWN);
      assert m == Swapped(ws, index, index + 1);
      assert Moved(m, index + 1, UP) == Swapped(m, index + 1, index);
      SwapTwice(ws, index, index + 1);
    }
  }

  /** Exchanging the same two places twice restores the list. */
  lemma SwapTwice<T>(s: seq<T>, i: nat, j: nat)
    requires i < |s| && j < |s|
    ensures Swapped(Swapped(s, i, j), j, i) == s
  {
    var r := Swapped(Swapped(s, i, j), j, i);
    assert forall k :: 0 <= k < |s| ==> r[k] == s[k];
  }

  // ---------------------------------------------------------------------------
  // handleWidgetDrop

  /** s without its element at i. */
  function RemoveAt<T>(s: seq<T>, i: nat): (r: seq<T>)
    requires i < |s|
    ensures |r| == |s| - 1
  {
    s[..i] + s[i + 1..]
  }

  /** s with x inserted so that it sits at index i. */
  function InsertAt<T>(s: seq<T>, i: nat, x: T): (r: seq<T>)
    requires i <= |s|
    ensures |r| == |s| + 1
  {
    s[..i] + [x] + s[i..]
  }

  /** The list after dragging the element at `from` onto position `to`. */
  function MovedTo<T>(s: seq<T>, from: nat, to: nat): seq<T>
    requires from < |s| && to < |s|
  {
    InsertAt(RemoveAt(s, from), to, s[from])
  }

  /** The drop handler: nothing outside edit mode or onto the widget's own place;
      otherwise the dragged widget is spliced out of a copy of the list and spliced back
      in at the drop position. */
  method ReorderWidgets(d: Dashboard, editMode: bool, dragIndex: nat, dropIndex: nat) returns (r: Dashboard)
    requires dragIndex < |d.widgets| && dropIndex < |d.widgets|
    ensures !editMode || dragIndex == dropIndex ==> r == d
    ensures editMode && dragIndex != dropIndex ==> r == d.(widgets := MovedTo(d.widgets, dragIndex, dropIndex))
  {
    if !editMode { return d; }
    if dragIndex == dropIndex { return d; }
    var widgets := d.widgets;
    var moved := widgets[dragIndex];
    widgets := widgets[..dragIndex] + widgets[dragIndex + 1..];
    widgets := widgets[..dropIndex] + [moved] + widgets[dropIndex..];
    r := d.(widgets := widgets);
  }

  /** Dragging from `from` to `to` is a permutation that puts the dragged element at `to`
      and keeps all others in their relative order. */
  lemma MovedToMeaning<T>(s: seq<T>, from: nat, to: nat)
    requires from < |s| && to < |s|
    ensures |MovedTo(s, from, to)| == |s|
    ensures multiset(MovedTo(s, from, to)) == multiset(s)
    ensures MovedTo(s, from, to)[to] == s[from]
    ensures RemoveAt(MovedTo(s, from, to), to) == RemoveAt(s, from)
  {
    var rest := RemoveAt(s, from);
    var r := MovedTo(s, from, to);
    assert s == s[..from] + [s[from]] + s[from + 1..];
    assert r == rest[..to] + [s[from]] + rest[to..];
    assert rest == rest[..to] + rest[to..];
    assert RemoveAt(r, to) == r[..to] + r[to + 1..];
    assert r[..to] == rest[..to];
    assert r[to + 1..] == rest[to..];
    calc {
      multiset(r);
      multiset(rest[..to]) + multiset([s[from]]) + multiset(rest[to..]);
      multiset(rest) + multiset([s[from]]);
      multiset(s[..from]) + multiset(s[from + 1..]) + multiset([s[from]]);
      multiset(s);
    }
  }

  /** Dragging the element back from `to` to `from` restores the list, and a drop onto
      the same place changes nothing. */
  lemma MovedToInverse<T>(s: seq<T>, from: nat, to: nat)
    requires from < |s| && to < |s|
    ensures MovedTo(MovedTo(s, from, to), to, from) == s
    ensures MovedTo(s, from, from) == s
  {
    MovedToMeaning(s, from, to);
    var r := MovedTo(s, from, to);
    assert MovedTo(r, to, from) == InsertAt(RemoveAt(s, from), from, s[from]);
    assert s == s[..from] + [s[from]] + s[from + 1..];
    var rest := RemoveAt(s, from);
    assert rest[..from] == s[..from];
    assert rest[from..] == s[from + 1..];
  }

  // ---------------------------------------------------------------------------
  // handleResizeWidth and the height drag

  /** Math.min(hi, Math.max(lo, v)) */
  function Clamp(lo: int, hi: int, v: int): (r: int)
    requires lo <= hi
    ensures lo <= r <= hi
    ensures lo <= v <= hi ==> r == v
  {
    if v < lo then lo else if v > hi then hi else v
  }

  /** The widget list with every widget of the given id updated by f and all others kept. */
  predicate UpdatesOnly(before: seq<Widget>, after: seq<Widget>, id: string, f: Widget -> Widget)
  {
    |after| == |before|
    && forall i :: 0 <= i < |before| ==>
      after[i] == if before[i].id == id then f(before[i]) else before[i]
  }

  function WithWidth(delta: int): Widget -> Widget
  {
    (w: Widget) => w.(layout := w.layout.(w := Clamp(1, 3, w.layout.w + delta)))
  }

  /** The width buttons: the widget's width moves by delta and stays within 1 to 3 grid
      columns; nothing else changes. */
  function ResizeWidth(d: Dashboard, id: string, delta: int): (r: Dashboard)
    ensures r == d.(widgets := r.widgets)
    ensures UpdatesOnly(d.widgets, r.widgets, id, WithWidth(delta))
  {
    d.(widgets := seq(|d.widgets|, i requires 0 <= i < |d.widgets| =>
      if d.widgets[i].id == id then WithWidth(delta)(d.widgets[i]) else d.widgets[i]))
  }

  /** Every resized widget ends up between 1 and 3 columns wide, keeping its id, title,
      data, configuration and height; a delta within range is applied exactly. */
  lemma ResizedWidthInRange(d: Dashboard, id: string, delta: int, i: nat)
    requires i < |d.widgets| && d.widgets[i].id == id
    ensures var w := ResizeWidth(d, id, delta).widgets[i];
      1 <= w.layout.w <= 3
      && w == d.widgets[i].(layout := d.widgets[i].layout.(w := w.layout.w))
      && (1 <= d.widgets[i].layout.w + delta <= 3 ==> w.layout.w == d.widgets[i].layout.w + delta)
  {
  }

  /** The drag that changes a widget's height: the widget, the pointer's start and the
      height it started from. */
  datatype HeightDrag = HeightDrag(id: string, startY: int, startH: int)

  /** Pressing the resize handle: only in edit mode; widget.layout.h || 300 is where the
      drag starts. */
  function BeginHeightDrag(editMode: bool, w: Widget, clientY: int): (r: Option<HeightDrag>)
    ensures r.Some? <==> editMode
    ensures r.Some? ==> (r.value.id == w.id && r.value.startY == clientY
                         && r.value.startH == (if w.layout.h == 0 then 300 else w.layout.h))
  {
    if !editMode then None
    else Some(HeightDrag(w.id, clientY, if w.layout.h == 0 then 300 else w.layout.h))
  }

  function WithHeight(h: int): Widget -> Widget
  {
    (w: Widget) => w.(layout := w.layout.(h := h))
  }

  /** Math.max(150, startH + deltaY) */
  function DraggedHeight(drag: HeightDrag, clientY: int): (h: int)
    ensures h >= 150
    ensures h >= drag.startH + (clientY - drag.startY)
    ensures h == 150 || h == drag.startH + (clientY - drag.startY)
  {
    var h := drag.startH + (clientY - drag.startY);
    if h < 150 then 150 else h
  }

  /** Moving the pointer while dragging sets the dragged widget's height, never below 150
      pixels; nothing else changes. */
  function ResizeHeight(d: Dashboard, drag: HeightDrag, clientY: int): (r: Dashboard)
    ensures r == d.(widgets := r.widgets)
    ensures UpdatesOnly(d.widgets, r.widgets, drag.id, WithHeight(DraggedHeight(drag, clientY)))
  {
    var h := DraggedHeight(drag, clientY);
    d.(widgets := seq(|d.widgets|, i requires 0 <= i < |d.widgets| =>
      if d.widgets[i].id == drag.id then WithHeight(h)(d.widgets[i]) else d.widgets[i]))
  }

  lemma ResizedHeightFloor(d: Dashboard, drag: HeightDrag, clientY: int, i: nat)
    requires i < |d.widgets| && d.widgets[i].id == drag.id
    ensures ResizeHeight(d, drag, clientY).widgets[i].layout.h >= 150
    ensures ResizeHeight(d, drag, clientY).widgets[i].layout.w == d.widgets[i].layout.w
  {
  }

  // ---------------------------------------------------------------------------
  // handleDeleteWidget

  function WithoutId(ws: seq<Widget>, id: string): seq<Widget>
    decreases |ws|
  {
    if ws == [] then [] else (if ws[0].id == id then [] else [ws[0]]) + WithoutId(ws[1..], id)
  }

  /** Deleting after the confirmation removes the widgets with that id; declining changes
      nothing. */
  function DeleteWidget(d: Dashboard, id: string, confirmed: bool): (r: Dashboard)
    ensures !confirmed ==> r == d
    ensures r == d.(widgets := r.widgets)
  {
    if confirmed then d.(widgets := WithoutId(d.widgets, id)) else d
  }

  /** Delete keeps, in order and as often as they occur, exactly the widgets with
      another id. */
  lemma WithoutIdMeaning(ws: seq<Widget>, id: string)
    ensures IsSubsequence(WithoutId(ws, id), ws)
    ensures forall w :: w in WithoutId(ws, id) <==> w in ws && w.id != id
    ensures forall w :: multiset(WithoutId(ws, id))[w] == if w.id != id then multiset(ws)[w] else 0
    ensures (forall w :: w in ws ==> w.id != id) ==> WithoutId(ws, id) == ws
  {
    WithoutIdOrder(ws, id);
    WithoutIdIsKeep(ws, id);
    KeepCount(ws, (w: Widget) => w.id != id);
  }

  /** WithoutId is the filter of the widgets by a differing id. */
  lemma {:induction false} WithoutIdIsKeep(ws: seq<Widget>, id: string)
    ensures WithoutId(ws, id) == Keep(ws, (w: Widget) => w.id != id)
    decreases |ws|
  {
    if ws != [] {
      WithoutIdIsKeep(ws[1..], id);
    }
  }

  lemma {:induction false} WithoutIdOrder(ws: seq<Widget>, id: string)
    ensures IsSubsequence(WithoutId(ws, id), ws)
    ensures forall w :: w in WithoutId(ws, id) <==> w in ws && w.id != id
    ensures (forall w :: w in ws ==> w.id != id) ==> WithoutId(ws, id) == ws
    decreases |ws|
  {
    if ws != [] {
      WithoutIdOrder(ws[1..], id);
      assert ws == [ws[0]] + ws[1..];
      if ws[0].id == id {
        assert WithoutId(ws, id) == WithoutId(ws[1..], id);
        SubsequenceSkip(WithoutId(ws[1..], id), ws);
      } else {
        assert WithoutId(ws, id)[1..] == WithoutId(ws[1..], id);
      }
    }
  }
}
