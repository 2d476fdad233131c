/** The zoom tool's bounding boxes, over real coordinates: clamp, check, enlarge, shift and round. */
module ZoomBox {
  import opened Wrappers

  datatype Box = Box(left: real, top: real, right: real, bottom: real) {
    function Width(): real { right - left }
    function Height(): real { bottom - top }
  }

  const MIN_DIMENSION := 28.0

  function Min(x: real, y: real): real { if y < x then y else x }
  function Max(x: real, y: real): real { if y > x then y else x }
  function Floor(x: real): real { x.Floor as real }
  function Ceil(x: real): real { -((-x).Floor as real) }

  /** One box inside another. */
  predicate Inside(inner: Box, outer: Box) {
    outer.left <= inner.left && outer.top <= inner.top && inner.right <= outer.right && inner.bottom <= outer.bottom
  }

  function Image(width: int, height: int): Box {
    Box(0.0, 0.0, width as real, height as real)
  }

  /** The part of a requested box that lies in the image. */
  function Clamp(b: Box, width: int, height: int): Box {
    Box(Max(0.0, b.left), Max(0.0, b.top), Min(width as real, b.right), Min(height as real, b.bottom))
  }

  /** The aspect ratio never exceeds 100; written without a division, for boxes that have an area. */
  predicate Proportioned(b: Box) {
    b.left < b.right && b.top < b.bottom && b.Width() <= 100.0 * b.Height() && b.Height() <= 100.0 * b.Width()
  }

  /** `_validate_bbox`. */
  predicate Validate(b: Box)
    ensures Validate(b) <==> Proportioned(b)
  {
    if !(b.left < b.right && b.top < b.bottom) then false
    else
      var (height, width) := (b.bottom - b.top, b.right - b.left);
      if Min(height, width) == 0.0 then false
      else
        RatioBound(Max(height, width), Min(height, width));
        !(Max(height, width) / Min(height, width) > 100.0)
  }

  lemma RatioBound(x: real, y: real)
    requires y > 0.0
    ensures x / y <= 100.0 <==> x <= 100.0 * y
  {
    Grows(x / y, 100.0, y);
    Grows(100.0, x / y, y);
  }

  /** Multiplying by a positive number keeps the order. */
  lemma Grows(x: real, y: real, m: real)
    requires m > 0.0
    ensures x < y ==> x * m < y * m
    ensures x <= y ==> x * m <= y * m
  {
    assert x < y ==> (y - x) * m > 0.0;
  }

  // ---------------------------------------------------------------- what the enlarged box should be

  /** Both sides of a box are at least MIN_DIMENSION. */
  predicate LargeEnough(b: Box) {
    b.Width() >= MIN_DIMENSION && b.Height() >= MIN_DIMENSION
  }

  /** Sides counted in whole pixels. */
  predicate PixelsEnough(b: Box) {
    Floor(b.right) - Floor(b.left) >= MIN_DIMENSION && Floor(b.bottom) - Floor(b.top) >= MIN_DIMENSION
  }

  /** The largest factor that brings the short side to MIN_DIMENSION and keeps both sides in the image. */
  function Scale(w: real, h: real, width: real, height: real): real
    requires w > 0.0 && h > 0.0
  {
    Min(Min(MIN_DIMENSION / Min(h, w), width / w), height / h)
  }

  /** A segment of the given size around a centre, pushed back into [0, limit]. */
  function Start(center: real, size: real, limit: real): real {
    Max(0.0, Min(center - size / 2.0, limit - size))
  }

  datatype Size = Size(width: real, height: real)

  /** The sides after scaling. */
  function Target(w: real, h: real, width: real, height: real): Size
    requires w > 0.0 && h > 0.0
  {
    Size(w * Scale(w, h, width, height), h * Scale(w, h, width, height))
  }

  function TargetOf(b: Box, width: int, height: int): Size
    requires b.left < b.right && b.top < b.bottom
  {
    Target(b.Width(), b.Height(), width as real, height as real)
  }

  /** A box of the given size around the centre of b, pushed back into the image. */
  function Placed(b: Box, t: Size, width: int, height: int): Box {
    var left := Start((b.left + b.right) / 2.0, t.width, width as real);
    var top := Start((b.top + b.bottom) / 2.0, t.height, height as real);
    Box(left, top, left + t.width, top + t.height)
  }

  /** The enlarged box before rounding. */
  function Enlarged(b: Box, width: int, height: int): Box
    requires b.left < b.right && b.top < b.bottom
  {
    Placed(b, TargetOf(b, width, height), width, height)
  }

  function Outward(b: Box): Box {
    Box(Floor(b.left), Floor(b.top), Ceil(b.right), Ceil(b.bottom))
  }

  /** The box chosen for a valid clamped request, before the last check. */
  function Chosen(b: Box, width: int, height: int): Box
    requires Proportioned(b)
  {
    if LargeEnough(b) then b else Outward(Enlarged(b, width, height))
  }

  /** The box returned for a request, if any. */
  function Resized(bbox: Box, width: int, height: int): Option<Box> {
    var b := Clamp(bbox, width, height);
    if Proportioned(b) && Proportioned(Chosen(b, width, height)) && PixelsEnough(Chosen(b, width, height))
    then Some(Chosen(b, width, height)) else None
  }

  // ---------------------------------------------------------------- the code

  /** `_maybe_resize_bbox`, assignment by assignment. */
  method MaybeResizeBbox(bbox: Box, imageWidth: int, imageHeight: int) returns (r: Option<Box>)
    ensures r == Resized(bbox, imageWidth, imageHeight)
  {
    var left := Max(0.0, bbox.left);
    var top := Max(0.0, bbox.top);
    var right := Min(imageWidth as real, bbox.right);
    var bottom := Min(imageHeight as real, bbox.bottom);
    if !Validate(Box(left, top, right, bottom)) {
      return None;
    }
    var current := Box(left, top, right, bottom);
    var height := bottom - top;
    var width := right - left;
    if height < MIN_DIMENSION || width < MIN_DIMENSION {
      var minDim := Min(height, width);
      if minDim == 0.0 {
        return None;
      }
      current := Enlarge(current, imageWidth, imageHeight);
    }
    if !Validate(current) {
      return None;
    }
    var finalHeight := Floor(current.bottom) - Floor(current.top);
    var finalWidth := Floor(current.right) - Floor(current.left);
    if finalHeight < MIN_DIMENSION || finalWidth < MIN_DIMENSION {
      return None;
    }
    return Some(current);
  }

  method Enlarge(b: Box, imageWidth: int, imageHeight: int) returns (box: Box)
    requires Proportioned(b) && Inside(b, Image(imageWidth, imageHeight))
    ensures box == Outward(Enlarged(b, imageWidth, imageHeight))
  {
    hide Target;
    var targetWidth, targetHeight := TargetSize(b.Width(), b.Height(), imageWidth as real, imageHeight as real);
    var newLeft := Place((b.left + b.right) / 2.0, targetWidth, imageWidth as real);
    var newTop := Place((b.top + b.bottom) / 2.0, targetHeight, imageHeight as real);
    var newRight := newLeft + targetWidth;
    var newBottom := newTop + targetHeight;
    box := Box(Floor(newLeft), Floor(newTop), Ceil(newRight), Ceil(newBottom));
  }

  /** Scale up until the short side is MIN_DIMENSION, then down until each side fits: two steps, one factor. */
  method TargetSize(width: real, height: real, imageWidth: real, imageHeight: real)
    returns (targetWidth: real, targetHeight: real)
    requires width > 0.0 && height > 0.0 && imageWidth > 0.0 && imageHeight > 0.0
    ensures Size(targetWidth, targetHeight) == Target(width, height, imageWidth, imageHeight)
    ensures targetWidth <= imageWidth && targetHeight <= imageHeight
  {
    hide Scale, Min;
    ghost var p, q, r := ScaleParts(width, height, imageWidth, imageHeight);
    var minDim := Min(height, width);
    var ratio := MIN_DIMENSION / minDim;
    targetWidth := width * ratio;
    targetHeight := height * ratio;
    targetWidth, targetHeight := FitSide(width, height, p, q, targetWidth, targetHeight, imageWidth);
    targetHeight, targetWidth := FitSide(height, width, Min(p, q), r, targetHeight, targetWidth, imageHeight);
  }

  /** One scale-down step: if the side (scaled by s) exceeds the limit, scale both sides down to it. */
  method FitSide(ghost side: real, ghost other: real, ghost s: real, ghost q: real, x: real, y: real, limit: real)
    returns (x': real, y': real)
    requires side > 0.0 && s > 0.0 && q > 0.0 && limit > 0.0
    requires side * q == limit && x == side * s && y == other * s
    ensures x' == side * Min(s, q) && y' == other * Min(s, q)
    ensures x' <= limit && x' <= x && (other > 0.0 ==> y' <= y) && Min(s, q) > 0.0
  {
    x', y' := x, y;
    Shrink(side, other, s, q, limit, x, y);
    if x > limit {
      var scaleDown := limit / x;
      x' := limit;
      y' := y * scaleDown;
    }
  }

  /** Scaling `side` by s and then down to the limit is scaling by the smaller factor. */
  lemma Shrink(side: real, other: real, s: real, q: real, limit: real, x: real, y: real)
    requires side > 0.0 && s > 0.0 && limit > 0.0 && side * q == limit && x == side * s && y == other * s
    ensures x > limit <==> q < s
    ensures x > 0.0 && y * (limit / x) == other * q
    ensures other > 0.0 && q < s ==> other * q <= y
  {
    Grows(s, q, side);
    Grows(q, s, side);
    Grows(0.0, s, side);
    Quotient(limit, x);
    SameShare(side, other, s, limit / x, q);
    if other > 0.0 {
      Grows(q, s, other);
    }
  }

  lemma Quotient(x: real, y: real)
    requires y > 0.0 && x > 0.0
    ensures x == y * (x / y) && x / y > 0.0
  {}

  lemma SameShare(side: real, other: real, s: real, p: real, q: real)
    requires side > 0.0 && s > 0.0 && (side * s) * p == side * q
    ensures (other * s) * p == other * q
  {
    assert side * (s * p - q) == 0.0;
    assert s * p == q;
    assert (other * s) * p == other * (s * p);
  }

  method Place(center: real, size: real, limit: real) returns (start: real)
    requires size <= limit
    ensures start == Start(center, size, limit)
  {
    start := center - size / 2.0;
    if start < 0.0 {
      start := 0.0;
    }
    if start + size > limit {
      start := limit - size;
    }
  }

  // ---------------------------------------------------------------- what the returned box satisfies

  /** The one factor: never shrinks a small box, keeps both sides in the image, and stops at the first limit met. */
  lemma {:induction false} ScaleLimits(b: Box, width: int, height: int)
    requires Proportioned(b) && Inside(b, Image(width, height)) && 0.0 <= b.left && 0.0 <= b.top && !LargeEnough(b)
    ensures var t := TargetOf(b, width, height);
            && b.Width() <= t.width <= width as real && b.Height() <= t.height <= height as real
            && Min(t.width, t.height) <= MIN_DIMENSION
            && (Min(t.width, t.height) == MIN_DIMENSION || t.width == width as real || t.height == height as real)
  {
    hide Target;
    FactorLimits(b.Width(), b.Height(), width as real, height as real);
  }

  /** The enlarged box has the shape of the request. */
  lemma ShapeKept(b: Box, width: int, height: int)
    requires Proportioned(b)
    ensures SameShape(TargetOf(b, width, height), b)
  {
    Reorder(b.Width(), b.Height(), Scale(b.Width(), b.Height(), width as real, height as real));
  }

  lemma FactorLimits(w: real, h: real, width: real, height: real)
    requires 0.0 < w <= width && 0.0 < h <= height && Min(h, w) <= MIN_DIMENSION
    ensures var t := Target(w, h, width, height);
            && w <= t.width <= width && h <= t.height <= height && Min(t.width, t.height) <= MIN_DIMENSION
            && (Min(t.width, t.height) == MIN_DIMENSION || t.width == width || t.height == height)
  {
    hide Scale, Min;
    var s := Scale(w, h, width, height);
    var p, q, r := ScaleParts(w, h, width, height);
    ScaledLimits(w, h, width, height, Min(h, w), p, q, r, s, w * s, h * s);
  }

  lemma ScaleParts(w: real, h: real, width: real, height: real) returns (p: real, q: real, r: real)
    requires w > 0.0 && h > 0.0 && width > 0.0 && height > 0.0
    ensures Min(h, w) * p == MIN_DIMENSION && w * q == width && h * r == height
    ensures Scale(w, h, width, height) == Min(Min(p, q), r) && p > 0.0 && q > 0.0 && r > 0.0
    ensures Min(h, w) > 0.0 && p == MIN_DIMENSION / Min(h, w)
  {
    p, q, r := MIN_DIMENSION / Min(h, w), width / w, height / h;
    Quotient(MIN_DIMENSION, Min(h, w));
    Quotient(width, w);
    Quotient(height, h);
  }

  lemma ScaledLimits(w: real, h: real, width: real, height: real,
                     m: real, p: real, q: real, r: real, s: real, tw: real, th: real)
    requires 0.0 < w <= width && 0.0 < h <= height && 0.0 < m <= MIN_DIMENSION && m == Min(h, w)
    requires m * p == MIN_DIMENSION && w * q == width && h * r == height && s == Min(Min(p, q), r)
    requires tw == w * s && th == h * s
    ensures w <= tw <= width && h <= th <= height && Min(tw, th) <= MIN_DIMENSION
    ensures Min(tw, th) == MIN_DIMENSION || tw == width || th == height
  {
    hide Min;
    var least := m * s;
    Share(MIN_DIMENSION, m, p, s, least);
    Share(width, w, q, s, tw);
    Share(height, h, r, s, th);
    FirstLimit(p, q, r, s, least <= MIN_DIMENSION, least == MIN_DIMENSION, w <= tw <= width, tw == width,
               h <= th <= height, th == height);
    MinScales(w, h, s);
  }

  /** The smallest of three factors, each at least 1, respects all three limits and meets one. */
  lemma FirstLimit(p: real, q: real, r: real, s: real, x: bool, x': bool, y: bool, y': bool, z: bool, z': bool)
    requires p >= 1.0 && q >= 1.0 && r >= 1.0 && s == Min(Min(p, q), r)
    requires 1.0 <= s <= p ==> x
    requires 1.0 <= s <= q ==> y
    requires 1.0 <= s <= r ==> z
    requires (s == p ==> x') && (s == q ==> y') && (s == r ==> z')
    ensures s >= 1.0 && x && y && z && (x' || y' || z')
  {}

  lemma MinScales(w: real, h: real, s: real)
    requires s > 0.0
    ensures Min(w * s, h * s) == Min(h, w) * s
  {
    Grows(w, h, s);
    Grows(h, w, s);
  }

  lemma Share(limit: real, side: real, q: real, s: real, scaled: real)
    requires 0.0 < side <= limit && side * q == limit && scaled == side * s
    ensures q >= 1.0
    ensures s <= q ==> scaled <= limit
    ensures s == q ==> scaled == limit
    ensures s >= 1.0 ==> scaled >= side
  {
    Grows(s, q, side);
    Grows(q, 1.0, side);
    Grows(1.0, s, side);
  }

  lemma Reorder(w: real, h: real, s: real)
    ensures (w * s) * h == (h * s) * w
  {}

  /** A segment at least as long as [lo, hi], placed around its middle and pushed into [0, limit], still covers it. */
  lemma StartCovers(lo: real, hi: real, size: real, limit: real)
    requires 0.0 <= lo <= hi <= limit && hi - lo <= size <= limit
    ensures 0.0 <= Start((lo + hi) / 2.0, size, limit) <= lo
    ensures hi <= Start((lo + hi) / 2.0, size, limit) + size <= limit
  {}

  lemma {:induction false} ChosenCovers(b: Box, width: int, height: int)
    requires Proportioned(b) && Inside(b, Image(width, height))
    requires 0.0 <= b.left && 0.0 <= b.top
    ensures Inside(b, Chosen(b, width, height)) && Inside(Chosen(b, width, height), Image(width, height))
  {
    if !LargeEnough(b) {
      ScaleLimits(b, width, height);
      CoversWhenPlaced(b, TargetOf(b, width, height), width, height);
    }
  }

  lemma {:induction false} CoversWhenPlaced(b: Box, t: Size, width: int, height: int)
    requires Proportioned(b) && Inside(b, Image(width, height)) && 0.0 <= b.left && 0.0 <= b.top
    requires b.Width() <= t.width <= width as real && b.Height() <= t.height <= height as real
    ensures Inside(b, Outward(Placed(b, t, width, height)))
    ensures Inside(Outward(Placed(b, t, width, height)), Image(width, height))
  {
    AxisCovers(b.left, b.right, t.width, width);
    AxisCovers(b.top, b.bottom, t.height, height);
  }

  lemma {:induction false} AxisCovers(lo: real, hi: real, size: real, limit: int)
    requires 0.0 <= lo <= hi <= limit as real && hi - lo <= size <= limit as real
    ensures 0.0 <= Floor(Start((lo + hi) / 2.0, size, limit as real)) <= lo
    ensures hi <= Ceil(Start((lo + hi) / 2.0, size, limit as real) + size) <= limit as real
  {
    StartCovers(lo, hi, size, limit as real);
    FloorBetween(0, Start((lo + hi) / 2.0, size, limit as real));
    CeilBetween(Start((lo + hi) / 2.0, size, limit as real) + size, limit);
  }

  lemma FloorAtLeast(n: int, x: real)
    requires n as real <= x
    ensures n <= x.Floor
  {}

  lemma {:induction false} FloorBetween(n: int, x: real)
    requires n as real <= x
    ensures n as real <= Floor(x) <= x
  {
    FloorAtLeast(n, x);
  }

  lemma {:induction false} CeilBetween(x: real, n: int)
    requires x <= n as real
    ensures x <= Ceil(x) <= n as real
  {
    FloorBetween(-n, -x);
  }

  /** Every returned box holds the clamped request, stays in the image, is large enough and well proportioned. */
  lemma {:induction false} ReturnedBox(bbox: Box, width: int, height: int)
    requires Resized(bbox, width, height).Some?
    ensures var r := Resized(bbox, width, height).value;
            && Inside(Clamp(bbox, width, height), r) && Inside(r, Image(width, height))
            && PixelsEnough(r) && Proportioned(r)
  {
    ChosenCovers(Clamp(bbox, width, height), width, height);
  }

  /** A valid request of at least MIN_DIMENSION on both sides is never refused and never changed, only clamped. */
  lemma {:induction false} LargeIsKept(bbox: Box, width: int, height: int)
    requires Proportioned(Clamp(bbox, width, height)) && LargeEnough(Clamp(bbox, width, height))
    ensures Resized(bbox, width, height) == Some(Clamp(bbox, width, height))
  {
    var b := Clamp(bbox, width, height);
    FloorGap(b.left, b.right);
    FloorGap(b.top, b.bottom);
  }

  /** Clamping keeps exactly what request and image have in common. */
  lemma ClampMeets(b: Box, width: int, height: int, c: Box)
    ensures Inside(c, Clamp(b, width, height)) <==> Inside(c, b) && Inside(c, Image(width, height))
  {
  }

  /** A well-proportioned request in the image, of at least MIN_DIMENSION on both sides, is returned as it is. */
  lemma {:induction false} GoodIsKept(bbox: Box, width: int, height: int)
    requires Proportioned(bbox) && LargeEnough(bbox) && Inside(bbox, Image(width, height))
    ensures Resized(bbox, width, height) == Some(bbox)
  {
    assert Clamp(bbox, width, height) == bbox;
    LargeIsKept(bbox, width, height);
  }

  /** x is a whole number of pixels. */
  ghost predicate Whole(x: real) {
    x == x.Floor as real
  }

  /** The smallest box with whole-pixel corners around e. */
  ghost predicate TightAround(r: Box, e: Box) {
    && Whole(r.left) && Whole(r.top) && Whole(r.right) && Whole(r.bottom)
    && r.left <= e.left < r.left + 1.0 && r.top <= e.top < r.top + 1.0
    && r.right - 1.0 < e.right <= r.right && r.bottom - 1.0 < e.bottom <= r.bottom
  }

  /** The segment [lo', hi'] has the centre of [lo, hi], unless a border of the image stops it. */
  ghost predicate CentredOrStopped(lo': real, hi': real, lo: real, hi: real, limit: real) {
    && (lo' + hi' > lo + hi ==> lo' == 0.0)
    && (lo' + hi' < lo + hi ==> hi' == limit)
  }

  ghost predicate SameShape(t: Size, b: Box) {
    t.width * b.Height() == t.height * b.Width()
  }

  /** A box of the request's shape that is no smaller, lies in the image, has the request's centre unless a border
      stops it, and has reached MIN_DIMENSION on its short side or a whole side of the image, whichever comes first. */
  ghost predicate Enlarges(e: Box, b: Box, width: int, height: int) {
    && SameShape(Size(e.Width(), e.Height()), b) && b.Width() <= e.Width() && b.Height() <= e.Height()
    && Inside(e, Image(width, height))
    && CentredOrStopped(e.left, e.right, b.left, b.right, width as real)
    && CentredOrStopped(e.top, e.bottom, b.top, b.bottom, height as real)
    && Min(e.Width(), e.Height()) <= MIN_DIMENSION
    && (Min(e.Width(), e.Height()) == MIN_DIMENSION || e.Width() == width as real || e.Height() == height as real)
  }

  lemma StartCentred(lo: real, hi: real, size: real, limit: real)
    requires 0.0 <= lo <= hi <= limit && size <= limit
    ensures var start := Start((lo + hi) / 2.0, size, limit); CentredOrStopped(start, start + size, lo, hi, limit)
  {
  }

  lemma OutwardIsTight(e: Box)
    ensures TightAround(Outward(e), e)
  {
    FloorTight(e.left);
    FloorTight(e.top);
    FloorTight(-e.right);
    FloorTight(-e.bottom);
    assert Ceil(e.right) == (-(-e.right).Floor) as real && Ceil(e.bottom) == (-(-e.bottom).Floor) as real;
  }

  lemma FloorTight(x: real)
    ensures Whole(Floor(x)) && Floor(x) <= x < Floor(x) + 1.0
  {
    assert Floor(x) == x.Floor as real;
  }

  /** What comes back for a small request that is served: the smallest pixel box around the enlarged request. */
  lemma {:induction false} SmallIsEnlarged(bbox: Box, width: int, height: int) returns (e: Box)
    requires Proportioned(Clamp(bbox, width, height)) && !LargeEnough(Clamp(bbox, width, height))
    requires Resized(bbox, width, height).Some?
    ensures Enlarges(e, Clamp(bbox, width, height), width, height)
    ensures TightAround(Resized(bbox, width, height).value, e)
  {
    var b := Clamp(bbox, width, height);
    e := Enlarged(b, width, height);
    EnlargedEnlarges(b, width, height);
    OutwardIsTight(e);
  }

  lemma {:induction false} EnlargedEnlarges(b: Box, width: int, height: int)
    requires Proportioned(b) && Inside(b, Image(width, height)) && 0.0 <= b.left && 0.0 <= b.top && !LargeEnough(b)
    ensures Enlarges(Enlarged(b, width, height), b, width, height)
  {
    var t := TargetOf(b, width, height);
    hide Target, Start, SameShape, Proportioned, Min;
    ScaleLimits(b, width, height);
    ShapeKept(b, width, height);
    StartCovers(b.left, b.right, t.width, width as real);
    StartCovers(b.top, b.bottom, t.height, height as real);
    StartCentred(b.left, b.right, t.width, width as real);
    StartCentred(b.top, b.bottom, t.height, height as real);
    var e := Enlarged(b, width, height);
    assert e.Width() == t.width && e.Height() == t.height;
  }

  lemma FloorGap(lo: real, hi: real)
    requires hi - lo >= 28.0
    ensures hi.Floor - lo.Floor >= 28
  {
    assert hi >= lo.Floor as real + 28.0;
  }

  /** Scaling the short side up to MIN_DIMENSION stays in the image. */
  predicate FitsAtFullScale(b: Box, width: int, height: int) {
    var m := Min(b.Height(), b.Width());
    MIN_DIMENSION * b.Width() <= width as real * m && MIN_DIMENSION * b.Height() <= height as real * m
  }

  /** ... and the ratio leaves room for rounding. */
  predicate FitsFully(b: Box, width: int, height: int) {
    FitsAtFullScale(b, width, height) && Max(b.Width(), b.Height()) <= 99.0 * Min(b.Height(), b.Width())
  }

  /** Pixels covered along one axis by a segment of this size placed around this centre. */
  function Pixels(center: real, size: real, limit: int): real {
    Ceil(Start(center, size, limit as real) + size) - Floor(Start(center, size, limit as real))
  }

  function PixelWidth(b: Box, width: int, height: int): real
    requires b.left < b.right && b.top < b.bottom
  {
    Pixels((b.left + b.right) / 2.0, TargetOf(b, width, height).width, width)
  }

  function PixelHeight(b: Box, width: int, height: int): real
    requires b.left < b.right && b.top < b.bottom
  {
    Pixels((b.top + b.bottom) / 2.0, TargetOf(b, width, height).height, height)
  }

  lemma WholeSides(box: Box)
    ensures var o := Outward(box);
            Floor(o.right) - Floor(o.left) == o.Width() && Floor(o.bottom) - Floor(o.top) == o.Height()
  {
    WholeFloor(box.left.Floor);
    WholeFloor(box.top.Floor);
    WholeFloor(-(-box.right).Floor);
    WholeFloor(-(-box.bottom).Floor);
  }

  /** A small request is refused exactly when the pixels its enlarged box covers are too few along one axis, or more
      than a hundred times as many along one axis as along the other. */
  lemma {:induction false} SmallRefusedExactly(bbox: Box, width: int, height: int)
    requires Proportioned(Clamp(bbox, width, height)) && !LargeEnough(Clamp(bbox, width, height))
    ensures var b := Clamp(bbox, width, height);
            var x, y := PixelWidth(b, width, height), PixelHeight(b, width, height);
            Resized(bbox, width, height).None? <==> Min(x, y) < MIN_DIMENSION || Max(x, y) > 100.0 * Min(x, y)
  {
    var b := Clamp(bbox, width, height);
    assert b.left < b.right && b.top < b.bottom;
    hide Target, Floor, Ceil, Start, Proportioned, PixelsEnough, Min, Max;
    WholeSides(Enlarged(b, width, height));
    ChecksOnSides(Outward(Enlarged(b, width, height)));
  }

  /** The final checks on a box with whole-pixel corners. */
  lemma ChecksOnSides(o: Box)
    requires Floor(o.right) - Floor(o.left) == o.Width() && Floor(o.bottom) - Floor(o.top) == o.Height()
    ensures Proportioned(o) && PixelsEnough(o) <==>
            !(|| Min(o.Width(), o.Height()) < MIN_DIMENSION
              || Max(o.Width(), o.Height()) > 100.0 * Min(o.Width(), o.Height()))
  {
    hide Floor;
  }

  /** When the box fits the image at full scale, only the shape of the rounded box can make it refused. */
  lemma {:induction false} RefusedForShape(bbox: Box, width: int, height: int)
    requires Proportioned(Clamp(bbox, width, height)) && !LargeEnough(Clamp(bbox, width, height))
    requires FitsAtFullScale(Clamp(bbox, width, height), width, height)
    ensures var b := Clamp(bbox, width, height);
            var x, y := PixelWidth(b, width, height), PixelHeight(b, width, height);
            Resized(bbox, width, height).None? <==> Max(x, y) > 100.0 * Min(x, y)
  {
    var b := Clamp(bbox, width, height);
    SmallRefusedExactly(bbox, width, height);
    ShortSide(b, width, height);
    SideRounded(Placed(b, TargetOf(b, width, height), width, height).left, TargetOf(b, width, height).width);
    SideRounded(Placed(b, TargetOf(b, width, height), width, height).top, TargetOf(b, width, height).height);
    hide Target, FitsAtFullScale, Floor, Ceil, Start, Resized;
  }

  lemma ShortSide(b: Box, width: int, height: int)
    requires b.left < b.right && b.top < b.bottom && FitsAtFullScale(b, width, height)
    ensures Min(TargetOf(b, width, height).width, TargetOf(b, width, height).height) == MIN_DIMENSION
  {
    hide Target;
    ShortTarget(b.Width(), b.Height(), width as real, height as real);
  }

  lemma ShortTarget(w: real, h: real, width: real, height: real)
    requires w > 0.0 && h > 0.0
    requires MIN_DIMENSION * w <= width * Min(h, w) && MIN_DIMENSION * h <= height * Min(h, w)
    ensures Min(Target(w, h, width, height).width, Target(w, h, width, height).height) == MIN_DIMENSION
  {
    hide Scale, Min;
    FullFactor(w, h, width, height);
    ShortScaled(w, h, Scale(w, h, width, height), Target(w, h, width, height));
  }

  lemma ShortScaled(w: real, h: real, s: real, t: Size)
    requires s > 0.0 && s * Min(h, w) == MIN_DIMENSION && t == Size(w * s, h * s)
    ensures Min(t.width, t.height) == MIN_DIMENSION
  {
    MinScales(w, h, s);
  }

  /** An image with a side shorter than MIN_DIMENSION serves no request. */
  lemma {:induction false} NarrowImageRefuses(bbox: Box, width: int, height: int)
    ensures Resized(bbox, width, height).Some? ==> width >= 28 && height >= 28
  {
    if Resized(bbox, width, height).Some? {
      ReturnedBox(bbox, width, height);
      SidesInImage(Resized(bbox, width, height).value, width, height);
    }
  }

  lemma SidesInImage(r: Box, width: int, height: int)
    requires Inside(r, Image(width, height)) && 0.0 <= r.left && 0.0 <= r.top && PixelsEnough(r)
    ensures width >= 28 && height >= 28
  {
    FloorAtMost(r.right, width);
    FloorAtMost(r.bottom, height);
    FloorAtLeast(0, r.left);
    FloorAtLeast(0, r.top);
  }

  lemma FloorAtMost(x: real, n: int)
    requires x <= n as real
    ensures x.Floor <= n
  {}

  /** A small request whose enlarged box fits is always served. */
  lemma {:induction false} SmallIsServed(bbox: Box, width: int, height: int)
    requires Proportioned(Clamp(bbox, width, height)) && !LargeEnough(Clamp(bbox, width, height))
    requires FitsFully(Clamp(bbox, width, height), width, height)
    ensures Resized(bbox, width, height).Some?
  {
    hide FitsFully, Target;
    var b := Clamp(bbox, width, height);
    FullScale(b, width, height);
    PlacedSides(b, TargetOf(b, width, height), width, height);
  }

  lemma FullScale(b: Box, width: int, height: int)
    requires b.left < b.right && b.top < b.bottom && FitsFully(b, width, height)
    ensures var t := TargetOf(b, width, height);
            Min(t.width, t.height) == MIN_DIMENSION && Max(t.width, t.height) <= 99.0 * MIN_DIMENSION
  {
    hide Target;
    FullTarget(b.Width(), b.Height(), width as real, height as real);
  }

  lemma {:induction false} FullTarget(w: real, h: real, width: real, height: real)
    requires w > 0.0 && h > 0.0
    requires MIN_DIMENSION * w <= width * Min(h, w) && MIN_DIMENSION * h <= height * Min(h, w)
    requires Max(w, h) <= 99.0 * Min(h, w)
    ensures var t := Target(w, h, width, height);
            Min(t.width, t.height) == MIN_DIMENSION && Max(t.width, t.height) <= 99.0 * MIN_DIMENSION
  {
    hide Scale, Min, Max;
    FullFactor(w, h, width, height);
    FullSides(w, h, Scale(w, h, width, height), Target(w, h, width, height));
  }

  lemma FullFactor(w: real, h: real, width: real, height: real)
    requires w > 0.0 && h > 0.0
    requires MIN_DIMENSION * w <= width * Min(h, w) && MIN_DIMENSION * h <= height * Min(h, w)
    ensures Scale(w, h, width, height) * Min(h, w) == MIN_DIMENSION && Scale(w, h, width, height) > 0.0
  {
    var m := Min(h, w);
    Quotient(MIN_DIMENSION, m);
    SmallerShare(MIN_DIMENSION, m, width, w);
    SmallerShare(MIN_DIMENSION, m, height, h);
  }

  lemma FullSides(w: real, h: real, s: real, t: Size)
    requires s > 0.0 && Max(w, h) <= 99.0 * Min(h, w) && s * Min(h, w) == MIN_DIMENSION
    requires t == Size(w * s, h * s)
    ensures Min(t.width, t.height) == MIN_DIMENSION && Max(t.width, t.height) <= 99.0 * MIN_DIMENSION
  {
    var m := Min(h, w);
    Grows(w, 99.0 * m, s);
    Grows(h, 99.0 * m, s);
    MinScales(w, h, s);
  }

  lemma SmallerShare(x: real, m: real, y: real, w: real)
    requires m > 0.0 && w > 0.0 && x * w <= y * m
    ensures x / m <= y / w
  {
    var p, q := x / m, y / w;
    assert p * m == x && q * w == y;
    assert (p - q) * (m * w) == x * w - y * m;
    Grows(0.0, w, m);
    assert p > q ==> (p - q) * (m * w) > 0.0;
  }

  lemma {:induction false} PlacedSides(b: Box, t: Size, width: int, height: int)
    requires Min(t.width, t.height) == MIN_DIMENSION && Max(t.width, t.height) <= 99.0 * MIN_DIMENSION
    ensures PixelsEnough(Outward(Placed(b, t, width, height))) && Proportioned(Outward(Placed(b, t, width, height)))
  {
    var p := Placed(b, t, width, height);
    SideRounded(p.left, t.width);
    SideRounded(p.top, t.height);
  }

  /** Rounding outward adds less than two pixels to a side. */
  lemma {:induction false} SideRounded(start: real, size: real)
    ensures size <= Ceil(start + size) - Floor(start) < size + 2.0
    ensures Floor(Ceil(start + size)) == Ceil(start + size) && Floor(Floor(start)) == Floor(start)
  {
    WholeFloor(start.Floor);
    WholeFloor(-(-(start + size)).Floor);
  }

  lemma WholeFloor(n: int)
    ensures Floor(n as real) == n as real
  {}
}
