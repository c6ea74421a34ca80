/** `AlignedFlowLayout`: a flow layout that keeps the base layout's rows but pushes every item
    of a row to the left. Each item's frame keeps the base layout's y, width and height; only
    its x changes: the first item of a section, and every item that starts a new line, sits at
    the left edge; an item on the same line as its predecessor follows the predecessor's
    (already aligned) frame after the inter-item spacing.
    Geometry is exact real arithmetic; the base layout (`super`) is an input. */
module AlignedFlowLayout {
  import opened Foundation

  datatype Rect = Rect(x: real, y: real, width: real, height: real)
  datatype Size = Size(width: real, height: real)
  datatype EdgeInsets = EdgeInsets(top: real, left: real, bottom: real, right: real)

  /** What the layout reads of its collection view: the frame's width and the adjusted content inset. */
  datatype CollectionView = CollectionView(frameWidth: real, adjustedContentInset: EdgeInsets)

  /** The layout's configuration and what the base flow layout computes: the frame of each
      item it lays out and its content size. */
  datatype Layout = Layout(
    collectionView: Option<CollectionView>,
    sectionInset: EdgeInsets,
    minimumInteritemSpacing: real,
    base: map<IndexPath, Rect>,
    baseContentSize: Size)

  /** `leftEdge`: the section inset's left, plus the content inset's left when there is a
      collection view. */
  function LeftEdge(l: Layout): (r: real)
    ensures l.collectionView.None? ==> r == l.sectionInset.left
    ensures l.collectionView.Some? ==> r - l.sectionInset.left == l.collectionView.value.adjustedContentInset.left
  {
    match l.collectionView
    case None => l.sectionInset.left
    case Some(cv) => cv.adjustedContentInset.left + l.sectionInset.left
  }

  /** `contentWidth`: the collection view's width less both content insets and both section
      insets; absent without a collection view. */
  function ContentWidth(l: Layout): (r: Option<real>)
    ensures r.Some? <==> l.collectionView.Some?
    ensures r.Some? ==>
              LeftEdge(l) + r.value
              == l.collectionView.value.frameWidth - l.collectionView.value.adjustedContentInset.right - l.sectionInset.right
  {
    match l.collectionView
    case None => None
    case Some(cv) =>
      Some(cv.frameWidth - cv.adjustedContentInset.left - cv.adjustedContentInset.right
           - l.sectionInset.left - l.sectionInset.right)
  }

  /** `collectionViewContentSize`. */
  function ContentSize(l: Layout): (r: Size)
    ensures r.height == l.baseContentSize.height
    ensures l.collectionView.None? ==> r.width == l.baseContentSize.width
    ensures l.collectionView.Some? ==> r.width == ContentWidth(l).value
  {
    Size(ContentWidth(l).GetOr(l.baseContentSize.width), l.baseContentSize.height)
  }

  /** The left and right edges of a rectangle after standardising a negative width. */
  function MinX(r: Rect): real { if r.width >= 0.0 then r.x else r.x + r.width }
  function MaxX(r: Rect): real { if r.width >= 0.0 then r.x + r.width else r.x }
  function MinY(r: Rect): real { if r.height >= 0.0 then r.y else r.y + r.height }
  function MaxY(r: Rect): real { if r.height >= 0.0 then r.y + r.height else r.y }

  /** `CGRect.intersects`, read as: the standardised rectangles overlap in an area. */
  predicate Intersects(a: Rect, b: Rect) {
    (if MinX(a) < MinX(b) then MinX(b) else MinX(a)) < (if MaxX(a) < MaxX(b) then MaxX(a) else MaxX(b))
    && (if MinY(a) < MinY(b) then MinY(b) else MinY(a)) < (if MaxY(a) < MaxY(b) then MaxY(a) else MaxY(b))
  }

  /** The line of an item: from the left edge, the content width wide, at the item's y and
      with the item's height. */
  function LineFrame(l: Layout, item: Rect, lineWidth: real): Rect {
    Rect(LeftEdge(l), item.y, lineWidth, item.height)
  }

  /** `isFrame(for:inSameLineAsFrameFor:)`: false without a content width; otherwise whether
      the first item's line meets the second item's frame. */
  predicate IsSameLine(l: Layout, first: Rect, second: Rect): (r: bool)
    ensures ContentWidth(l).None? ==> !r
    ensures r ==> MinY(second) < MaxY(first) && MinY(first) < MaxY(second)
  {
    match ContentWidth(l)
    case None => false
    case Some(lineWidth) => Intersects(LineFrame(l, first, lineWidth), second)
  }

  /** The same-line test reads only the first item's row (its y and height), never its x or
      its width: whatever the base layout put there, the answer is the same. */
  lemma SameLineReadsOnlyRow(l: Layout, first: Rect, second: Rect, x: real, width: real)
    ensures IsSameLine(l, first.(x := x, width := width), second) == IsSameLine(l, first, second)
  {
  }

  function Previous(p: IndexPath): IndexPath
    requires p.item > 0
  {
    IndexPath(p.section, p.item - 1)
  }

  /** `layoutAttributesForItem(at:)`: the frame of item `p`, absent when the base layout has
      none; it recurses on the previous item of the same section. Only x differs from the
      base frame. */
  function AlignedFrame(l: Layout, p: IndexPath): (r: Option<Rect>)
    ensures r.Some? <==> p in l.base
    ensures r.Some? ==> r.value.y == l.base[p].y && r.value.width == l.base[p].width && r.value.height == l.base[p].height
    decreases p.item
  {
    if p !in l.base then None
    else
      var frame := l.base[p];
      if p.item == 0 then Some(frame.(x := LeftEdge(l)))
      else
        match AlignedFrame(l, Previous(p))
        case None => Some(frame.(x := LeftEdge(l)))
        case Some(previous) =>
          if IsSameLine(l, frame, previous) then Some(frame.(x := MaxX(previous) + l.minimumInteritemSpacing))
          else Some(frame.(x := LeftEdge(l)))
  }

  /** The rule for each item: at the left edge when it is the first of its section, when the
      base layout has no previous item, or when it does not share its predecessor's line; right
      after its predecessor, plus the spacing, when it does. */
  lemma AlignmentRules(l: Layout, p: IndexPath)
    requires p in l.base
    ensures p.item == 0 ==> AlignedFrame(l, p).value.x == LeftEdge(l)
    ensures p.item > 0 && Previous(p) !in l.base ==> AlignedFrame(l, p).value.x == LeftEdge(l)
    ensures p.item > 0 && Previous(p) in l.base ==>
              var previous := AlignedFrame(l, Previous(p)).value;
              AlignedFrame(l, p).value.x
              == if IsSameLine(l, l.base[p], previous) then MaxX(previous) + l.minimumInteritemSpacing else LeftEdge(l)
  {
  }

  /** The content size is as wide as the content area when there is a collection view and as
      wide as the base layout's otherwise; its height is always the base layout's. */
  lemma ContentSizeRule(l: Layout)
    ensures ContentSize(l).height == l.baseContentSize.height
    ensures l.collectionView.None? ==> ContentSize(l).width == l.baseContentSize.width
    ensures l.collectionView.Some? ==>
              LeftEdge(l) + ContentSize(l).width
              == l.collectionView.value.frameWidth - l.collectionView.value.adjustedContentInset.right - l.sectionInset.right
  {
  }

  /** Without a collection view no two items share a line, so every item sits at the section
      inset's left. */
  lemma NoCollectionViewLeftAligns(l: Layout, p: IndexPath)
    requires l.collectionView.None? && p in l.base
    ensures AlignedFrame(l, p).value.x == l.sectionInset.left
  {
  }

  /** With a non-negative spacing no item starts left of the left edge. */
  lemma {:induction false} NeverLeftOfEdge(l: Layout, p: IndexPath)
    requires l.minimumInteritemSpacing >= 0.0 && p in l.base
    ensures AlignedFrame(l, p).value.x >= LeftEdge(l)
    decreases p.item
  {
    if p.item > 0 && Previous(p) in l.base {
      NeverLeftOfEdge(l, Previous(p));
    }
  }

  /** An item placed on its predecessor's line starts at least the spacing to the right of the
      predecessor's right edge: consecutive items of one line do not overlap. */
  lemma SameLineItemsDoNotOverlap(l: Layout, p: IndexPath)
    requires l.minimumInteritemSpacing >= 0.0 && p in l.base && p.item > 0 && Previous(p) in l.base
    requires l.base[p].width >= 0.0
    requires IsSameLine(l, l.base[p], AlignedFrame(l, Previous(p)).value)
    ensures MinX(AlignedFrame(l, p).value) >= MaxX(AlignedFrame(l, Previous(p)).value) + l.minimumInteritemSpacing
  {
  }

  /** The sum of widths plus spacings of items `0` to `n - 1` of section `s`. */
  function PackedWidth(l: Layout, s: nat, n: nat): real
    requires forall k :: 0 <= k < n ==> IndexPath(s, k) in l.base
  {
    if n == 0 then 0.0 else PackedWidth(l, s, n - 1) + l.base[IndexPath(s, n - 1)].width + l.minimumInteritemSpacing
  }

  /** When items `0` to `n` of a section all share one line, item `n` starts right after the
      widths and spacings of all items before it. */
  lemma {:induction false} OneLinePacksLeft(l: Layout, s: nat, n: nat)
    requires forall k :: 0 <= k <= n ==> IndexPath(s, k) in l.base && l.base[IndexPath(s, k)].width >= 0.0
    requires forall k :: 0 < k <= n ==> IsSameLine(l, l.base[IndexPath(s, k)], AlignedFrame(l, IndexPath(s, k - 1)).value)
    ensures AlignedFrame(l, IndexPath(s, n)).value.x == LeftEdge(l) + PackedWidth(l, s, n)
  {
    if n > 0 {
      OneLinePacksLeft(l, s, n - 1);
      assert Previous(IndexPath(s, n)) == IndexPath(s, n - 1);
    }
  }

  /** Two layouts that differ only in the x of base frames. */
  predicate SameButX(l: Layout, m: Layout) {
    && l.collectionView == m.collectionView
    && l.sectionInset == m.sectionInset
    && l.minimumInteritemSpacing == m.minimumInteritemSpacing
    && l.base.Keys == m.base.Keys
    && (forall p :: p in l.base ==> l.base[p].(x := 0.0) == m.base[p].(x := 0.0))
  }

  /** The aligned frames never read the base frames' x. */
  lemma {:induction false} IgnoresBaseX(l: Layout, m: Layout, p: IndexPath)
    requires SameButX(l, m)
    ensures AlignedFrame(l, p) == AlignedFrame(m, p)
    decreases p.item
  {
    if p in l.base {
      assert l.base[p].(x := 0.0) == m.base[p].(x := 0.0);
      assert l.base[p].y == m.base[p].y && l.base[p].width == m.base[p].width && l.base[p].height == m.base[p].height;
      if p.item > 0 {
        IgnoresBaseX(l, m, Previous(p));
      }
    }
  }

  /** The base layout with every frame replaced by its aligned frame. */
  function Realigned(l: Layout): (m: Layout)
    ensures SameButX(l, m)
  {
    var frames := map p | p in l.base :: AlignedFrame(l, p).value;
    var m := l.(base := frames);
    assert forall p :: p in l.base ==> l.base[p].(x := 0.0) == m.base[p].(x := 0.0);
    m
  }

  /** Aligning is idempotent: a base layout that already holds the aligned frames (as when
      the base layout hands out the attribute objects it caches) aligns to the same frames. */
  lemma AlignmentIsIdempotent(l: Layout, p: IndexPath)
    ensures AlignedFrame(Realigned(l), p) == AlignedFrame(l, p)
  {
    IgnoresBaseX(l, Realigned(l), p);
  }

  // ---------------------------------------------------------------------------------------
  // `layoutAttributesForElements(in:)`

  datatype ElementCategory = Cell | SupplementaryView | DecorationView

  /** A layout attributes object: its category and index path are fixed, its frame is assigned. */
  class LayoutAttributes {
    const category: ElementCategory
    const indexPath: IndexPath
    var frame: Rect

    constructor (category: ElementCategory, indexPath: IndexPath, frame: Rect)
      ensures this.category == category && this.indexPath == indexPath && this.frame == frame
    {
      this.category := category;
      this.indexPath := indexPath;
      this.frame := frame;
    }
  }

  /** The frame an attributes object ends with: a cell that the layout lays out takes its
      aligned frame; every other element keeps its frame. */
  function FrameAfterAlignment(l: Layout, category: ElementCategory, indexPath: IndexPath, frame: Rect): (r: Rect)
    ensures category != Cell ==> r == frame
    ensures category == Cell && indexPath !in l.base ==> r == frame
    ensures category == Cell && indexPath in l.base ==> r == AlignedFrame(l, indexPath).value
  {
    if category == Cell then AlignedFrame(l, indexPath).GetOr(frame) else frame
  }

  /** `layoutAttributesForElements(in:)`: the base layout's attributes for the rectangle
      (absent or an array of objects) come back as they are, with the frame of every cell
      rewritten in place. */
  method LayoutAttributesForElements(l: Layout, attributes: Option<array<LayoutAttributes>>)
    returns (result: Option<array<LayoutAttributes>>)
    modifies if attributes.Some? then set j | 0 <= j < attributes.value.Length :: attributes.value[j] else {}
    ensures result == attributes
    ensures attributes.Some? ==>
              forall j :: 0 <= j < attributes.value.Length ==>
                attributes.value[j].frame
                == FrameAfterAlignment(l, attributes.value[j].category, attributes.value[j].indexPath, old(attributes.value[j].frame))
  {
    result := attributes;
    if attributes.None? {
      return;
    }
    var a := attributes.value;
    var i := 0;
    while i < a.Length
      invariant 0 <= i <= a.Length
      invariant forall j :: 0 <= j < i && a[j].category == Cell && a[j].indexPath in l.base ==>
                  a[j].frame == AlignedFrame(l, a[j].indexPath).value
      invariant forall j :: 0 <= j < a.Length ==>
                  a[j].frame == old(a[j].frame)
                  || (a[j].category == Cell && a[j].indexPath in l.base && a[j].frame == AlignedFrame(l, a[j].indexPath).value)
    {
      var attribute := a[i];
      if attribute.category == Cell {
        var aligned := AlignedFrame(l, attribute.indexPath);
        if aligned.Some? {
          attribute.frame := aligned.value;
        }
      }
      i := i + 1;
    }
  }
}
