/** The flow layout: items are put side by side and wrapped into lines. */
module FlowLayout {

  datatype Alignment = VCenter | Bottom | Other

  /** A layout item: its size hint and its vertical alignment. */
  datatype Item = Item(width: int, height: int, alignment: Alignment)

  datatype Rect = Rect(x: int, y: int, width: int, height: int)

  datatype Point = Point(x: int, y: int)

  /** The effective rectangle and the spacing: first column, first row, last column that may be used. */
  datatype Frame = Frame(x: int, y: int, right: int, spaceX: int, spaceY: int)

  function Max(a: int, b: int): int {
    if a >= b then a else b
  }

  // ----- Where the lines break and the items go -----

  /** The column of item `k` in a line that begins with item `s`. */
  function XAt(f: Frame, items: seq<Item>, s: nat, k: nat): int
    requires s <= k <= |items|
    decreases k
  {
    if k == s then f.x else XAt(f, items, s, k - 1) + items[k - 1].width + f.spaceX
  }

  /** The height of a line that holds the items from `s` to before `k`. */
  function HeightAt(items: seq<Item>, s: nat, k: nat): (h: int)
    requires s <= k <= |items|
    ensures h >= 0
    ensures forall j | s <= j < k :: items[j].height <= h
    decreases k
  {
    if k == s then 0 else Max(HeightAt(items, s, k - 1), items[k - 1].height)
  }

  /** Item `k` would reach beyond the last column of a line that already has some height. */
  predicate BreaksAt(f: Frame, items: seq<Item>, s: nat, k: nat)
    requires s <= k < |items|
  {
    XAt(f, items, s, k) + items[k].width > f.right && HeightAt(items, s, k) > 0
  }

  /** The first item of the line that item `k` is on. */
  function StartOf(f: Frame, items: seq<Item>, k: nat): (s: nat)
    requires k < |items|
    ensures s <= k
  {
    if k == 0 then 0
    else
      var s := StartOf(f, items, k - 1);
      if BreaksAt(f, items, s, k) then k else s
  }

  /** The row at which the line of item `k` begins. */
  function YAt(f: Frame, items: seq<Item>, k: nat): int
    requires k < |items|
  {
    if k == 0 then f.y
    else
      var s := StartOf(f, items, k - 1);
      if BreaksAt(f, items, s, k) then YAt(f, items, k - 1) + HeightAt(items, s, k) + f.spaceY
      else YAt(f, items, k - 1)
  }

  /** Where a line that begins with item `s` and has not ended before `k` ends. */
  function LineEnd(f: Frame, items: seq<Item>, s: nat, k: nat): (e: nat)
    requires s < k <= |items|
    ensures k <= e <= |items|
    ensures e < |items| ==> BreaksAt(f, items, s, e)
    ensures forall j | k <= j < e :: !BreaksAt(f, items, s, j)
    decreases |items| - k
  {
    if k == |items| || BreaksAt(f, items, s, k) then k else LineEnd(f, items, s, k + 1)
  }

  function EndOf(f: Frame, items: seq<Item>, s: nat): nat
    requires s < |items|
  {
    LineEnd(f, items, s, s + 1)
  }

  /** An item at `point` in a line of the given height, moved down by its alignment. */
  function Placed(item: Item, point: Point, lineHeight: int): Rect {
    var space := lineHeight - item.height;
    var shift := match item.alignment case VCenter => space / 2 case Bottom => space case Other => 0;
    Rect(point.x, point.y + shift, item.width, item.height)
  }

  /** The geometry of item `k`. */
  function Geometry(f: Frame, items: seq<Item>, k: nat): Rect
    requires k < |items|
  {
    var s := StartOf(f, items, k);
    Placed(items[k], Point(XAt(f, items, s, k), YAt(f, items, k)), HeightAt(items, s, EndOf(f, items, s)))
  }

  /** The row below the last line. */
  function BottomOf(f: Frame, items: seq<Item>): int {
    if items == [] then f.y
    else
      var n := |items| - 1;
      YAt(f, items, n) + HeightAt(items, StartOf(f, items, n), n + 1)
  }

  lemma HasGeometries(f: Frame, items: seq<Item>)
    ensures var all := LaidOut(f, items, |items|);
            forall k: nat | k < |items| :: k in all && all[k] == Geometry(f, items, k)
  {
  }

  /** The last line runs to the last item. */
  lemma LastLineEnds(f: Frame, items: seq<Item>)
    requires items != []
    ensures EndOf(f, items, StartOf(f, items, |items| - 1)) == |items|
  {
    ItemBeforeEnd(f, items, |items| - 1);
  }

  /** The geometry of the first `n` items. */
  function LaidOut(f: Frame, items: seq<Item>, n: nat): map<nat, Rect>
    requires n <= |items|
  {
    map k: nat | 0 <= k < n :: Geometry(f, items, k)
  }

  /** The points of the items from `s` to before `i`, in one line at row `y`. */
  function LinePoints(f: Frame, items: seq<Item>, s: nat, i: nat, y: int): map<nat, Point>
    requires s <= i <= |items|
  {
    map k: nat | s <= k < i :: Point(XAt(f, items, s, k), y)
  }

  function PlacedLine(items: seq<Item>, points: map<nat, Point>, lineHeight: int): map<nat, Rect>
    requires forall k | k in points :: k < |items|
  {
    map k | k in points :: Placed(items[k], points[k], lineHeight)
  }

  /** The items from `s` to before `i` are on one line, at row `y`, that is still open. */
  ghost predicate OpenLine(f: Frame, items: seq<Item>, s: nat, i: nat, y: int) {
    && s <= i <= |items| && (i == 0 ==> y == f.y) && (i > 0 ==> s < i)
    && (forall k | s <= k < i :: StartOf(f, items, k) == s && YAt(f, items, k) == y)
    && (forall k | s < k < i :: !BreaksAt(f, items, s, k))
  }

  /** The next item of a line that does not break there. */
  lemma JoinsLine(f: Frame, items: seq<Item>, s: nat, i: nat, y: int)
    requires OpenLine(f, items, s, i, y) && i < |items| && !BreaksAt(f, items, s, i)
    ensures StartOf(f, items, i) == s && YAt(f, items, i) == y
  {
    if i > 0 {
      assert StartOf(f, items, i - 1) == s && YAt(f, items, i - 1) == y;
      NextItem(f, items, i);
    }
  }

  lemma LineGoesOn(f: Frame, items: seq<Item>, s: nat, i: nat, y: int)
    requires OpenLine(f, items, s, i, y) && i < |items| && !BreaksAt(f, items, s, i)
    ensures OpenLine(f, items, s, i + 1, y)
  {
    hide XAt;
    hide HeightAt;
    hide BreaksAt;
    hide StartOf;
    hide YAt;
    JoinsLine(f, items, s, i, y);
  }

  lemma LineBreaks(f: Frame, items: seq<Item>, s: nat, i: nat, y: int)
    requires OpenLine(f, items, s, i, y) && i < |items| && BreaksAt(f, items, s, i)
    ensures OpenLine(f, items, i, i + 1, y + HeightAt(items, s, i) + f.spaceY)
  {
    hide XAt;
    hide HeightAt;
    hide BreaksAt;
    hide StartOf;
    hide YAt;
    BreakIsLater(f, items, s, i);
    NextItem(f, items, i);
    assert StartOf(f, items, i - 1) == s && YAt(f, items, i - 1) == y;
  }

  lemma BreakIsLater(f: Frame, items: seq<Item>, s: nat, i: nat)
    requires s <= i < |items| && BreaksAt(f, items, s, i)
    ensures s < i
  {
  }

  /** The line and row of an item, from those of the item before it. */
  lemma NextItem(f: Frame, items: seq<Item>, k: nat)
    requires 0 < k < |items|
    ensures var s := StartOf(f, items, k - 1);
            && StartOf(f, items, k) == (if BreaksAt(f, items, s, k) then k else s)
            && YAt(f, items, k) == YAt(f, items, k - 1) + if BreaksAt(f, items, s, k) then HeightAt(items, s, k) + f.spaceY else 0
  {
  }

  /** How the column and the height of a line go on, and when it breaks. */
  lemma LineStep(f: Frame, items: seq<Item>, s: nat, i: nat)
    requires s <= i < |items|
    ensures XAt(f, items, s, i + 1) == XAt(f, items, s, i) + items[i].width + f.spaceX
    ensures HeightAt(items, s, i + 1) == Max(HeightAt(items, s, i), items[i].height)
    ensures XAt(f, items, i, i) == f.x && HeightAt(items, i, i) == 0
    ensures BreaksAt(f, items, s, i) <==> XAt(f, items, s, i) + items[i].width > f.right && HeightAt(items, s, i) > 0
  {
  }

  lemma NoItemsYet(f: Frame, items: seq<Item>)
    ensures OpenLine(f, items, 0, 0, f.y)
    ensures XAt(f, items, 0, 0) == f.x && HeightAt(items, 0, 0) == 0
    ensures LaidOut(f, items, 0) == map[] && forall s: nat, y | s <= |items| :: LinePoints(f, items, s, s, y) == map[]
  {
  }

  lemma LineIsBottom(f: Frame, items: seq<Item>, s: nat, y: int)
    requires OpenLine(f, items, s, |items|, y)
    ensures BottomOf(f, items) == y + HeightAt(items, s, |items|)
  {
  }

  lemma LinePointsOneMore(f: Frame, items: seq<Item>, s: nat, i: nat, y: int)
    requires s <= i < |items|
    ensures LinePoints(f, items, s, i + 1, y) == LinePoints(f, items, s, i, y)[i := Point(XAt(f, items, s, i), y)]
  {
    hide XAt;
  }

  /** The items of a line that ends at `e` get their geometry from the height of the whole line. */
  lemma LineItemGeometry(f: Frame, items: seq<Item>, s: nat, e: nat, y: int, k: nat)
    requires OpenLine(f, items, s, e, y) && (e < |items| ==> BreaksAt(f, items, s, e)) && s <= k < e
    ensures Geometry(f, items, k) == Placed(items[k], Point(XAt(f, items, s, k), y), HeightAt(items, s, e))
  {
    LineEndIs(f, items, s, s + 1, e);
    assert StartOf(f, items, k) == s && YAt(f, items, k) == y;
  }

  lemma LineIsLaidOut(f: Frame, items: seq<Item>, s: nat, e: nat, y: int, start: map<nat, Rect>)
    requires OpenLine(f, items, s, e, y) && (e < |items| ==> BreaksAt(f, items, s, e))
    ensures var line := PlacedLine(items, LinePoints(f, items, s, e, y), HeightAt(items, s, e));
            start + LaidOut(f, items, s) + line == start + LaidOut(f, items, e)
  {
    hide XAt;
    hide HeightAt;
    hide BreaksAt;
    hide StartOf;
    hide YAt;
    hide Geometry;
    hide Placed;
    var line := PlacedLine(items, LinePoints(f, items, s, e, y), HeightAt(items, s, e));
    forall k: nat | s <= k < e
      ensures line[k] == Geometry(f, items, k)
    {
      LineItemGeometry(f, items, s, e, y, k);
    }
    assert LaidOut(f, items, s) + line == LaidOut(f, items, e);
    assert start + LaidOut(f, items, s) + line == start + (LaidOut(f, items, s) + line);
  }

  lemma {:induction false} LineEndIs(f: Frame, items: seq<Item>, s: nat, k: nat, e: nat)
    requires s < k <= e <= |items| && (e < |items| ==> BreaksAt(f, items, s, e))
    requires forall j | k <= j < e :: !BreaksAt(f, items, s, j)
    ensures LineEnd(f, items, s, k) == e
    decreases e - k
  {
    if k < e {
      LineEndIs(f, items, s, k + 1, e);
    }
  }

  /** What can be read off a layout: where an item is, the first item of its line, and the row and height of that line. */
  datatype Place = Place(rect: Rect, start: nat, row: int, lineHeight: int)

  /** The item has its own size and stands in its line where its alignment puts it. */
  predicate StandsIn(p: Place, item: Item) {
    var space := p.lineHeight - item.height;
    && p.rect.width == item.width && p.rect.height == item.height
    && p.rect.y == p.row + match item.alignment case VCenter => space / 2 case Bottom => space case Other => 0
  }

  /** The lines are as high as their highest items, and at least zero. */
  ghost predicate LineHeights(items: seq<Item>, places: seq<Place>)
    requires |places| == |items|
  {
    && (forall j, k | 0 <= j < |items| && 0 <= k < |items| && places[j].start == places[k].start ::
          places[j].lineHeight == places[k].lineHeight >= items[j].height)
    && (forall k | 0 <= k < |items| :: places[k].lineHeight >= 0)
    && (forall k | 0 <= k < |items| && places[k].lineHeight > 0 ::
          exists j | 0 <= j < |items| :: places[j].start == places[k].start && items[j].height == places[k].lineHeight)
  }

  lemma {:induction false} HeightIsOfItem(items: seq<Item>, s: nat, k: nat) returns (j: nat)
    requires s <= k <= |items| && HeightAt(items, s, k) > 0
    ensures s <= j < k && items[j].height == HeightAt(items, s, k)
    decreases k
  {
    if items[k - 1].height == HeightAt(items, s, k) {
      j := k - 1;
    } else {
      j := HeightIsOfItem(items, s, k - 1);
    }
  }

  /** The items of a line up to its end begin where it begins. */
  lemma {:induction false} ItemsOfLine(f: Frame, items: seq<Item>, s: nat, j: nat)
    requires s <= j < |items| && StartOf(f, items, s) == s && j < EndOf(f, items, s)
    ensures StartOf(f, items, j) == s
    decreases j
  {
    if s < j {
      ItemsOfLine(f, items, s, j - 1);
      NextItem(f, items, j);
      assert !BreaksAt(f, items, s, j);
    }
  }

  /** The places that the layout gives. */
  function PlacesOf(f: Frame, items: seq<Item>): seq<Place> {
    seq(|items|, k requires 0 <= k < |items| =>
      var s := StartOf(f, items, k);
      Place(Geometry(f, items, k), s, YAt(f, items, k), HeightAt(items, s, EndOf(f, items, s))))
  }

  lemma PlaceStands(f: Frame, items: seq<Item>, k: nat)
    requires k < |items|
    ensures StandsIn(PlacesOf(f, items)[k], items[k]) && PlacesOf(f, items)[k].rect == Geometry(f, items, k)
  {
    hide XAt;
    hide YAt;
    hide StartOf;
    hide HeightAt;
    hide EndOf;
  }

  lemma FirstAndLastPlace(f: Frame, items: seq<Item>)
    ensures var places := PlacesOf(f, items);
            && |places| == |items|
            && (items != [] ==> places[0].start == 0 && places[0].rect.x == f.x && places[0].row == f.y)
            && BottomOf(f, items) == if items == [] then f.y else places[|items| - 1].row + places[|items| - 1].lineHeight
  {
    hide StartOf;
    hide YAt;
    hide Geometry;
    hide BottomOf;
    hide XAt;
    hide HeightAt;
    hide EndOf;
    hide Placed;
    if items != [] {
      FirstItem(f, items);
      LastLineEnds(f, items);
      LastRow(f, items);
      PlacedAt(f, items, 0);
    } else {
      NoItemsBottom(f);
    }
  }

  lemma NoItemsBottom(f: Frame)
    ensures BottomOf(f, []) == f.y
  {
  }

  lemma FirstItem(f: Frame, items: seq<Item>)
    requires items != []
    ensures StartOf(f, items, 0) == 0 && YAt(f, items, 0) == f.y && XAt(f, items, 0, 0) == f.x
  {
  }

  lemma PlacedAt(f: Frame, items: seq<Item>, k: nat)
    requires k < |items|
    ensures Geometry(f, items, k).x == XAt(f, items, StartOf(f, items, k), k)
  {
    hide XAt;
    hide YAt;
    hide StartOf;
    hide HeightAt;
    hide EndOf;
  }

  lemma LastRow(f: Frame, items: seq<Item>)
    requires items != []
    ensures var n := |items| - 1;
            BottomOf(f, items) == YAt(f, items, n) + HeightAt(items, StartOf(f, items, n), |items|)
  {
    hide YAt;
    hide StartOf;
    hide HeightAt;
  }

  lemma PlacesHaveLineHeights(f: Frame, items: seq<Item>)
    ensures LineHeights(items, PlacesOf(f, items))
  {
    hide XAt;
    hide YAt;
    hide StartOf;
    hide HeightAt;
    hide EndOf;
    hide Geometry;
    var places := PlacesOf(f, items);
    forall j: nat | j < |items|
      ensures 0 <= places[j].lineHeight && items[j].height <= places[j].lineHeight
    {
      ItemBeforeEnd(f, items, j);
    }
    forall k: nat | k < |items| && places[k].lineHeight > 0
      ensures exists j | 0 <= j < |items| :: places[j].start == places[k].start && items[j].height == places[k].lineHeight
    {
      var s := StartOf(f, items, k);
      LinesAreWhereItemsAre(f, items, k);
      EndIsWithin(f, items, s);
      var j := HeightIsOfItem(items, s, EndOf(f, items, s));
      ItemsOfLine(f, items, s, j);
      assert places[j].start == places[k].start;
    }
  }

  lemma EndIsWithin(f: Frame, items: seq<Item>, s: nat)
    requires s < |items|
    ensures s < EndOf(f, items, s) <= |items|
  {
  }

  /** From one item to the next: on, or to a new line. */
  lemma NextPlace(f: Frame, items: seq<Item>, k: nat)
    requires 0 < k < |items|
    ensures var p, q := PlacesOf(f, items)[k - 1], PlacesOf(f, items)[k];
            var nextX := p.rect.x + items[k - 1].width + f.spaceX;
            if nextX + items[k].width > f.right && exists j | p.start <= j < k :: items[j].height > 0 then
              q.start == k && q.rect.x == f.x && q.row == p.row + p.lineHeight + f.spaceY
            else
              q.start == p.start && q.rect.x == nextX && q.row == p.row && q.lineHeight == p.lineHeight
  {
    hide StartOf;
    hide YAt;
    hide EndOf;
    hide HeightAt;
    var s := StartOf(f, items, k - 1);
    NextItem(f, items, k);
    FlatHeight(items, s, k);
    assert XAt(f, items, s, k) == XAt(f, items, s, k - 1) + items[k - 1].width + f.spaceX;
    if BreaksAt(f, items, s, k) {
      BreakEndsLine(f, items, k);
    }
  }

  lemma BreakEndsLine(f: Frame, items: seq<Item>, k: nat)
    requires 0 < k < |items| && BreaksAt(f, items, StartOf(f, items, k - 1), k)
    ensures EndOf(f, items, StartOf(f, items, k - 1)) == k
  {
    hide XAt;
    hide HeightAt;
    hide StartOf;
    hide YAt;
    LineOf(f, items, k - 1);
    LineEndIs(f, items, StartOf(f, items, k - 1), StartOf(f, items, k - 1) + 1, k);
  }

  class FlowLayout {
    const items: seq<Item>
    const left: int
    const top: int
    const right: int
    const bottom: int
    const spaceX: int
    const spaceY: int
    /** The geometry given to the items so far, by index. */
    var geometry: map<nat, Rect>

    constructor (items: seq<Item>, left: int, top: int, right: int, bottom: int, spaceX: int, spaceY: int)
      ensures this.items == items && this.left == left && this.top == top && this.right == right && this.bottom == bottom
      ensures this.spaceX == spaceX && this.spaceY == spaceY && geometry == map[]
    {
      this.items, this.left, this.top, this.right, this.bottom := items, left, top, right, bottom;
      this.spaceX, this.spaceY := spaceX, spaceY;
      geometry := map[];
    }

    /** The rectangle without the margins; its last column is one less than left plus width, as in QRect. */
    function FrameOf(rect: Rect): Frame {
      Frame(rect.x + left, rect.y + top, rect.x + rect.width - 1 - right, spaceX, spaceY)
    }

    /**
     * Behind an item with height the next one stays on the line exactly when it ends before the width
     * between the margins is used up: an item that ends with it is wrapped.
     */
    lemma StaysIffNarrower(rect: Rect, k: nat)
      requires 0 < k < |items| && items[k - 1].height > 0
      ensures var f := FrameOf(rect);
              var s := StartOf(f, items, k - 1);
              StartOf(f, items, k) == s <==> XAt(f, items, s, k) - f.x + items[k].width < rect.width - left - right
    {
      var f := FrameOf(rect);
      NextItem(f, items, k);
      assert HeightAt(items, StartOf(f, items, k - 1), k) >= items[k - 1].height;
    }

    /** The places make up a layout in the rectangle, as read off the fields and the rectangle alone. */
    ghost predicate Arranged(rect: Rect, places: seq<Place>) {
      && |places| == |items|
      && (forall k | 0 <= k < |items| :: StandsIn(places[k], items[k]))
      && LineHeights(items, places)
      && (items != [] ==> places[0].start == 0 && places[0].rect.x == rect.x + left && places[0].row == rect.y + top)
      && forall k | 0 < k < |items| :: GoesOn(rect, places[k - 1], places[k], k)
    }

    /**
     * The next item stands beside the one before, by its width and the spacing, or at the left margin of
     * a new line below; the latter exactly if it would reach beyond the last column behind some height.
     */
    ghost predicate GoesOn(rect: Rect, p: Place, q: Place, k: nat)
      requires 0 < k < |items|
    {
      var nextX := p.rect.x + items[k - 1].width + spaceX;
      if nextX + items[k].width > rect.x + rect.width - 1 - right && exists j | p.start <= j < k :: items[j].height > 0 then
        q.start == k && q.rect.x == rect.x + left && q.row == p.row + p.lineHeight + spaceY
      else
        q.start == p.start && q.rect.x == nextX && q.row == p.row && q.lineHeight == p.lineHeight
    }

    /** The height from the top of the rectangle to below the last line, margins included. */
    ghost function HeightOf(rect: Rect, places: seq<Place>): int
      requires |places| == |items|
    {
      if places == [] then top + bottom
      else places[|places| - 1].row + places[|places| - 1].lineHeight - rect.y + bottom
    }

    /** A layout in the rectangle takes this height. */
    ghost predicate TakesHeight(rect: Rect, height: int) {
      exists places: seq<Place> :: Arranged(rect, places) && height == HeightOf(rect, places)
    }

    lemma LayoutIsArranged(rect: Rect)
      ensures var f := FrameOf(rect);
              && Arranged(rect, PlacesOf(f, items))
              && HeightOf(rect, PlacesOf(f, items)) == BottomOf(f, items) - rect.y + bottom
              && forall k: nat | k < |items| :: PlacesOf(f, items)[k].rect == Geometry(f, items, k)
    {
      hide PlacesOf;
      hide Geometry;
      hide BottomOf;
      hide LineHeights;
      hide StandsIn;
      hide GoesOn;
      var f := FrameOf(rect);
      var places := PlacesOf(f, items);
      PlacesHaveLineHeights(f, items);
      FirstAndLastPlace(f, items);
      forall k: nat | k < |items|
        ensures StandsIn(places[k], items[k]) && places[k].rect == Geometry(f, items, k)
      {
        PlaceStands(f, items, k);
      }
      forall k: nat | 0 < k < |items|
        ensures GoesOn(rect, places[k - 1], places[k], k)
      {
        PlaceGoesOn(rect, k);
      }
    }

    lemma PlaceGoesOn(rect: Rect, k: nat)
      requires 0 < k < |items|
      ensures GoesOn(rect, PlacesOf(FrameOf(rect), items)[k - 1], PlacesOf(FrameOf(rect), items)[k], k)
    {
      hide PlacesOf;
      NextPlace(FrameOf(rect), items, k);
    }

    method ApplyItemsGeometry(lineItems: map<nat, Point>, lineHeight: int)
      requires forall k | k in lineItems :: k < |items|
      modifies this
      ensures geometry == old(geometry) + PlacedLine(items, lineItems, lineHeight)
    {
      hide Placed;
      var rest := lineItems.Keys;
      ghost var done: set<nat> := {};
      while rest != {}
        invariant rest <= lineItems.Keys && done == lineItems.Keys - rest
        invariant geometry == old(geometry) + map k | k in done :: Placed(items[k], lineItems[k], lineHeight)
        decreases rest
      {
        var k :| k in rest;
        geometry := geometry[k := Placed(items[k], lineItems[k], lineHeight)];
        rest, done := rest - {k}, done + {k};
      }
      assert (map k | k in done :: Placed(items[k], lineItems[k], lineHeight)) == PlacedLine(items, lineItems, lineHeight);
    }

    /** Lays the items out, or only computes the height this takes. */
    method DoLayout(rect: Rect, testOnly: bool) returns (height: int)
      modifies this
      ensures height == BottomOf(FrameOf(rect), items) - rect.y + bottom
      ensures testOnly ==> geometry == old(geometry)
      ensures !testOnly ==> geometry == old(geometry) + LaidOut(FrameOf(rect), items, |items|)
      ensures exists places: seq<Place> ::
                Arranged(rect, places) && height == HeightOf(rect, places)
                && (!testOnly ==> forall k: nat | k < |items| :: k in geometry && geometry[k] == places[k].rect)
    {
      hide XAt;
      hide HeightAt;
      hide BreaksAt;
      hide OpenLine;
      hide LaidOut;
      hide PlacedLine;
      hide BottomOf;
      var f := FrameOf(rect);
      var x, y, lineHeight := f.x, f.y, 0;
      NoItemsYet(f, items);
      var lineItems: map<nat, Point> := map[];
      ghost var s: nat := 0;
      ghost var start := geometry;
      for i := 0 to |items|
        invariant s <= i && OpenLine(f, items, s, i, y)
        invariant x == XAt(f, items, s, i) && lineHeight == HeightAt(items, s, i)
        invariant testOnly ==> geometry == start
        invariant !testOnly ==> lineItems == LinePoints(f, items, s, i, y)
        invariant !testOnly ==> geometry == start + LaidOut(f, items, s)
      {
        var item := items[i];
        var nextX := x + item.width + f.spaceX;
        LineStep(f, items, s, i);
        if nextX - f.spaceX > f.right && lineHeight > 0 {
          LineBreaks(f, items, s, i, y);
          if !testOnly {
            LineIsLaidOut(f, items, s, i, y, start);
            ApplyItemsGeometry(lineItems, lineHeight);
            lineItems := map[];
          }
          x := f.x;
          y := y + lineHeight + f.spaceY;
          nextX := x + item.width + f.spaceX;
          lineHeight := 0;
          s := i;
          LineStep(f, items, i, i);
        } else {
          LineGoesOn(f, items, s, i, y);
        }
        if !testOnly {
          LinePointsOneMore(f, items, s, i, y);
          lineItems := lineItems[i := Point(x, y)];
        }
        x := nextX;
        lineHeight := Max(lineHeight, item.height);
      }
      LineIsBottom(f, items, s, y);
      if !testOnly {
        LineIsLaidOut(f, items, s, |items|, y, start);
        ApplyItemsGeometry(lineItems, lineHeight);
      }
      height := y + lineHeight - rect.y + bottom;
      LayoutIsArranged(rect);
      HasGeometries(f, items);
      assert Arranged(rect, PlacesOf(f, items));
    }

    method HeightForWidth(width: int) returns (height: int)
      modifies this
      ensures geometry == old(geometry)
      ensures forall x, y, h {:trigger FrameOf(Rect(x, y, width, h))} ::
                height == BottomOf(FrameOf(Rect(x, y, width, h)), items) - y + bottom
      ensures forall x, y, h :: TakesHeight(Rect(x, y, width, h), height)
    {
      hide PlacesOf;
      hide BottomOf;
      hide Arranged;
      hide HeightOf;
      height := DoLayout(Rect(0, 0, width, 0), true);
      forall x, y, h
        ensures height == BottomOf(FrameOf(Rect(x, y, width, h)), items) - y + bottom
        ensures TakesHeight(Rect(x, y, width, h), height)
      {
        LayoutIsArranged(Rect(x, y, width, h));
        HeightDependsOnWidth(FrameOf(Rect(0, 0, width, 0)), items, x, y);
        assert FrameOf(Rect(x, y, width, h)) == Moved(FrameOf(Rect(0, 0, width, 0)), x, y);
      }
    }
  }

  // ----- Lines -----

  /** Spacing and widths are not negative. */
  ghost predicate WellSized(f: Frame, items: seq<Item>) {
    f.spaceX >= 0 && f.spaceY >= 0 && forall i | 0 <= i < |items| :: items[i].width >= 0
  }

  /** Every item that another one follows has some height. */
  ghost predicate TallButLast(items: seq<Item>) {
    forall i | 0 <= i < |items| - 1 :: items[i].height > 0
  }

  lemma {:induction false} XAdvances(f: Frame, items: seq<Item>, s: nat, j: nat, k: nat)
    requires s <= j < k <= |items| && WellSized(f, items)
    ensures XAt(f, items, s, j) + items[j].width + f.spaceX <= XAt(f, items, s, k)
    decreases k
  {
    if j + 1 < k {
      XAdvances(f, items, s, j, k - 1);
    }
  }

  /** All items from the start of a line to one of its items are on that line. */
  lemma {:induction false} LineOf(f: Frame, items: seq<Item>, k: nat)
    requires k < |items|
    ensures OpenLine(f, items, StartOf(f, items, k), k + 1, YAt(f, items, k))
  {
    hide XAt;
    hide HeightAt;
    if k == 0 {
      NothingBreaksFirst(f, items);
      LineGoesOn(f, items, 0, 0, f.y);
    } else {
      LineOf(f, items, k - 1);
      NextItem(f, items, k);
      if BreaksAt(f, items, StartOf(f, items, k - 1), k) {
        LineBreaks(f, items, StartOf(f, items, k - 1), k, YAt(f, items, k - 1));
      } else {
        LineGoesOn(f, items, StartOf(f, items, k - 1), k, YAt(f, items, k - 1));
      }
    }
  }

  lemma NothingBreaksFirst(f: Frame, items: seq<Item>)
    requires items != []
    ensures !BreaksAt(f, items, 0, 0)
  {
  }

  lemma ItemBeforeEnd(f: Frame, items: seq<Item>, k: nat)
    requires k < |items|
    ensures k < EndOf(f, items, StartOf(f, items, k))
  {
    LineOf(f, items, k);
  }

  /** Vertical alignment keeps an item inside its line: at the bottom, in the middle up to half a row, or at the top. */
  lemma InsideLine(f: Frame, items: seq<Item>, k: nat)
    requires k < |items|
    ensures var s := StartOf(f, items, k);
            var g, y, h := Geometry(f, items, k), YAt(f, items, k), HeightAt(items, s, EndOf(f, items, s));
            && y <= g.y && g.y + g.height <= y + h
            && (items[k].alignment == Bottom ==> g.y + g.height == y + h)
            && (items[k].alignment == VCenter ==> 0 <= (y + h - g.y - g.height) - (g.y - y) <= 1)
            && (items[k].alignment == Other ==> g.y == y)
  {
    ItemBeforeEnd(f, items, k);
    hide StartOf;
    hide YAt;
  }

  /** A later line begins below all of an earlier one. */
  lemma {:induction false} RowsAdvance(f: Frame, items: seq<Item>, j: nat, k: nat)
    requires j < k < |items| && WellSized(f, items) && StartOf(f, items, j) != StartOf(f, items, k)
    ensures var s := StartOf(f, items, j);
            YAt(f, items, k) >= YAt(f, items, j) + HeightAt(items, s, EndOf(f, items, s)) + f.spaceY
    decreases k
  {
    hide XAt;
    hide HeightAt;
    hide StartOf;
    hide YAt;
    var s := StartOf(f, items, k - 1);
    NextItem(f, items, k);
    LineOf(f, items, k - 1);
    if StartOf(f, items, j) == s {
      assert BreaksAt(f, items, s, k);
      LineEndIs(f, items, s, s + 1, k);
      LineOf(f, items, j);
      assert YAt(f, items, j) == YAt(f, items, k - 1) by {
        assert s <= j < k;
      }
    } else {
      RowsAdvance(f, items, j, k - 1);
    }
  }

  predicate Disjoint(a: Rect, b: Rect) {
    a.x + a.width <= b.x || b.x + b.width <= a.x || a.y + a.height <= b.y || b.y + b.height <= a.y
  }

  /** No two items overlap. */
  lemma ItemsAreDisjoint(f: Frame, items: seq<Item>, j: nat, k: nat)
    requires j < k < |items| && WellSized(f, items)
    ensures Disjoint(Geometry(f, items, j), Geometry(f, items, k))
  {
    if StartOf(f, items, j) == StartOf(f, items, k) {
      XAdvances(f, items, StartOf(f, items, j), j, k);
    } else {
      RowsAdvance(f, items, j, k);
      InsideLine(f, items, j);
      InsideLine(f, items, k);
    }
  }

  // ----- Lines fit, and there are as few as can be -----

  /** The items from `s` to before `e` make a proper line: they all end by the last column, or there is only one. */
  ghost predicate ProperLine(f: Frame, items: seq<Item>, s: nat, e: nat)
    requires s < e <= |items|
  {
    e == s + 1 || forall k | s <= k < e :: XAt(f, items, s, k) + items[k].width <= f.right
  }

  /** A line that begins with item `s` is proper as soon as the items followed by others have height. */
  lemma LinesAreProper(f: Frame, items: seq<Item>, s: nat)
    requires s < |items| && WellSized(f, items) && TallButLast(items)
    ensures ProperLine(f, items, s, EndOf(f, items, s))
  {
    var e := EndOf(f, items, s);
    if e > s + 1 {
      forall k | s < k < e
        ensures XAt(f, items, s, k) + items[k].width <= f.right
      {
        assert items[s].height <= HeightAt(items, s, k);
        assert !BreaksAt(f, items, s, k);
      }
      XAdvances(f, items, s, s, s + 1);
      assert XAt(f, items, s, s + 1) + items[s + 1].width <= f.right;
    }
  }

  /** All lines of the layout are proper. */
  ghost predicate AllProper(f: Frame, items: seq<Item>) {
    forall s: nat | s < |items| && StartOf(f, items, s) == s :: ProperLine(f, items, s, EndOf(f, items, s))
  }

  /** A frame in which no item fits. */
  const NARROW := Frame(0, 0, -1, 0, 0)

  lemma NothingFitsNarrow(items: seq<Item>, s: nat, k: nat)
    requires s <= k < |items| && WellSized(NARROW, items)
    ensures XAt(NARROW, items, s, k) + items[k].width > NARROW.right
    ensures BreaksAt(NARROW, items, s, k) <==> HeightAt(items, s, k) > 0
  {
    if s < k {
      XAdvances(NARROW, items, s, s, k);
    }
  }

  /** In the narrow frame the next item joins an item without height. */
  lemma FlatTakesNext(items: seq<Item>, i: nat)
    requires i < |items| - 1 && items[i].height <= 0 && WellSized(NARROW, items)
    ensures StartOf(NARROW, items, i + 1) == StartOf(NARROW, items, i)
    ensures !AllProper(NARROW, items)
  {
    hide XAt;
    var s := StartOf(NARROW, items, i);
    LineOf(NARROW, items, i);
    assert HeightAt(items, s, i) <= 0 by {
      if i > 0 {
        NextItem(NARROW, items, i);
        NothingFitsNarrow(items, StartOf(NARROW, items, i - 1), i);
      }
    }
    assert HeightAt(items, s, i + 1) == Max(HeightAt(items, s, i), items[i].height);
    NothingFitsNarrow(items, s, i + 1);
    NextItem(NARROW, items, i + 1);
    LinesAreWhereItemsAre(NARROW, items, i + 1);
    NothingFitsNarrow(items, s, s);
  }

  /**
   * For these items every line of every layout is proper exactly when all items but the last have
   * height, which can be told before laying them out.
   */
  lemma LinesAreProperIff(items: seq<Item>)
    requires forall i | 0 <= i < |items| :: items[i].width >= 0
    ensures (forall f: Frame | f.spaceX >= 0 && f.spaceY >= 0 :: AllProper(f, items)) <==> TallButLast(items)
  {
    if TallButLast(items) {
      forall f: Frame | f.spaceX >= 0 && f.spaceY >= 0
        ensures AllProper(f, items)
      {
        forall s: nat | s < |items|
          ensures ProperLine(f, items, s, EndOf(f, items, s))
        {
          LinesAreProper(f, items, s);
        }
      }
    } else {
      var i: nat :| i < |items| - 1 && items[i].height <= 0;
      FlatTakesNext(items, i);
    }
  }

  /** An item stays on the line of the item before, without fitting on it, exactly when that line has only items without height. */
  lemma OverflowIffBehindFlat(f: Frame, items: seq<Item>, k: nat)
    requires 0 < k < |items|
    ensures var s := StartOf(f, items, k - 1);
            XAt(f, items, s, k) + items[k].width > f.right ==>
              (StartOf(f, items, k) == s <==> forall j | s <= j < k :: items[j].height <= 0)
  {
    var s := StartOf(f, items, k - 1);
    NextItem(f, items, k);
    FlatHeight(items, s, k);
  }

  lemma {:induction false} FlatHeight(items: seq<Item>, s: nat, k: nat)
    requires s <= k <= |items|
    ensures HeightAt(items, s, k) == 0 <==> forall j | s <= j < k :: items[j].height <= 0
    decreases k
  {
    if s < k {
      FlatHeight(items, s, k - 1);
    }
  }

  /** All items are on one line. */
  ghost predicate OneLine(f: Frame, items: seq<Item>) {
    forall k: nat | k < |items| :: StartOf(f, items, k) == 0
  }

  lemma {:induction false} FlatStayOnFirstLine(f: Frame, items: seq<Item>, k: nat)
    requires k < |items| && forall i | 0 <= i < |items| - 1 :: items[i].height <= 0
    ensures StartOf(f, items, k) == 0
    decreases k
  {
    if k > 0 {
      FlatStayOnFirstLine(f, items, k - 1);
      FlatHeight(items, 0, k);
      NextItem(f, items, k);
    }
  }

  /** In the narrow frame an item with height sends the next one to a new line. */
  lemma TallSendsNextOn(items: seq<Item>, i: nat)
    requires i < |items| - 1 && items[i].height > 0 && WellSized(NARROW, items)
    ensures StartOf(NARROW, items, i + 1) == i + 1
  {
    var s := StartOf(NARROW, items, i);
    NextItem(NARROW, items, i + 1);
    NothingFitsNarrow(items, s, i + 1);
    assert items[i].height <= HeightAt(items, s, i + 1);
  }

  /** Items are on one line in every frame, however narrow, exactly when all but the last have no height. */
  lemma FlatItemsNeverWrapIff(items: seq<Item>)
    requires forall i | 0 <= i < |items| :: items[i].width >= 0
    ensures (forall f: Frame :: OneLine(f, items)) <==> forall i | 0 <= i < |items| - 1 :: items[i].height <= 0
  {
    if forall i | 0 <= i < |items| - 1 :: items[i].height <= 0 {
      forall f: Frame, k: nat | k < |items|
        ensures StartOf(f, items, k) == 0
      {
        FlatStayOnFirstLine(f, items, k);
      }
    } else {
      var i: nat :| i < |items| - 1 && items[i].height > 0;
      TallSendsNextOn(items, i);
      assert !OneLine(NARROW, items);
    }
  }

  /** The lines of the layout from item `s` on. */
  function LineCount(f: Frame, items: seq<Item>, s: nat): nat
    requires s <= |items|
    decreases |items| - s
  {
    if s == |items| then 0 else 1 + LineCount(f, items, EndOf(f, items, s))
  }

  /** `ends` cut the items from `s` on, in order, into proper lines. */
  ghost predicate ProperLines(f: Frame, items: seq<Item>, s: nat, ends: seq<nat>)
    requires s <= |items|
    decreases |ends|
  {
    if ends == [] then s == |items|
    else s < ends[0] <= |items| && ProperLine(f, items, s, ends[0]) && ProperLines(f, items, ends[0], ends[1..])
  }

  /** A line begun later has the same items further left. */
  lemma {:induction false} LaterStartIsLeft(f: Frame, items: seq<Item>, s: nat, t: nat, k: nat)
    requires s <= t <= k <= |items| && WellSized(f, items)
    ensures XAt(f, items, t, k) <= XAt(f, items, s, k)
    decreases k
  {
    if k > t {
      LaterStartIsLeft(f, items, s, t, k - 1);
    } else if s < t {
      XAdvances(f, items, s, s, t);
    }
  }

  /** Greedy wrapping uses as few lines as any way to cut the items into proper lines. */
  lemma {:induction false} GreedyIsMinimal(f: Frame, items: seq<Item>, s: nat, t: nat, ends: seq<nat>)
    requires s <= t <= |items| && WellSized(f, items) && ProperLines(f, items, s, ends)
    ensures LineCount(f, items, t) <= |ends|
    decreases |ends|
  {
    if t < |items| {
      assert ends != [];
      var e := ends[0];
      if e <= t {
        GreedyIsMinimal(f, items, e, t, ends[1..]);
      } else {
        forall k | t < k < e
          ensures !BreaksAt(f, items, t, k)
        {
          LaterStartIsLeft(f, items, s, t, k);
          assert XAt(f, items, s, k) + items[k].width <= f.right;
        }
        var greedy := EndOf(f, items, t);
        assert e <= greedy;
        GreedyIsMinimal(f, items, e, greedy, ends[1..]);
      }
    }
  }

  /** The ends of the lines of the layout. */
  function LineEnds(f: Frame, items: seq<Item>, s: nat): seq<nat>
    requires s <= |items|
    decreases |items| - s
  {
    if s == |items| then [] else [EndOf(f, items, s)] + LineEnds(f, items, EndOf(f, items, s))
  }

  /** The layout is itself one of the ways to cut, so its number of lines is the least. */
  lemma {:induction false} GreedyIsProper(f: Frame, items: seq<Item>, s: nat)
    requires s <= |items| && WellSized(f, items) && TallButLast(items)
    ensures ProperLines(f, items, s, LineEnds(f, items, s)) && |LineEnds(f, items, s)| == LineCount(f, items, s)
    decreases |items| - s
  {
    if s < |items| {
      LinesAreProper(f, items, s);
      GreedyIsProper(f, items, EndOf(f, items, s));
      assert LineEnds(f, items, s)[1..] == LineEnds(f, items, EndOf(f, items, s));
    }
  }

  /** These are the lines that the items are placed in: the line of a start runs to its end, where the next one starts. */
  lemma LinesAreWhereItemsAre(f: Frame, items: seq<Item>, k: nat)
    requires k < |items|
    ensures var s := StartOf(f, items, k);
            var e := EndOf(f, items, s);
            && s <= k < e && StartOf(f, items, s) == s
            && (k + 1 < e ==> StartOf(f, items, k + 1) == s)
            && (k + 1 == e < |items| ==> StartOf(f, items, e) == e)
  {
    ItemBeforeEnd(f, items, k);
    LineOf(f, items, k);
    if k + 1 < |items| {
      NextItem(f, items, k + 1);
    }
  }

  // ----- Height for width -----

  function Moved(f: Frame, dx: int, dy: int): Frame {
    Frame(f.x + dx, f.y + dy, f.right + dx, f.spaceX, f.spaceY)
  }

  lemma {:induction false} XMoves(f: Frame, items: seq<Item>, s: nat, k: nat, dx: int, dy: int)
    requires s <= k <= |items|
    ensures XAt(Moved(f, dx, dy), items, s, k) == XAt(f, items, s, k) + dx
    decreases k
  {
    if k > s {
      XMoves(f, items, s, k - 1, dx, dy);
    }
  }

  lemma {:induction false} LinesMove(f: Frame, items: seq<Item>, k: nat, dx: int, dy: int)
    requires k < |items|
    ensures StartOf(Moved(f, dx, dy), items, k) == StartOf(f, items, k)
    ensures YAt(Moved(f, dx, dy), items, k) == YAt(f, items, k) + dy
  {
    if k > 0 {
      LinesMove(f, items, k - 1, dx, dy);
      XMoves(f, items, StartOf(f, items, k - 1), k, dx, dy);
    }
  }

  /** Moving the rectangle moves the layout: the height for a width is the height that the layout in any rectangle of that width takes. */
  lemma HeightDependsOnWidth(f: Frame, items: seq<Item>, dx: int, dy: int)
    ensures BottomOf(Moved(f, dx, dy), items) == BottomOf(f, items) + dy
  {
    if items != [] {
      LinesMove(f, items, |items| - 1, dx, dy);
    }
  }
}
