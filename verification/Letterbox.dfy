/** Letterboxed model input and decoding of raw detector output
    (crates/labello-inference/src/lib.rs, crates/labello-domain/src/prelabel/model.rs).

    An image is scaled into a square, the cells around it are gray, and the detector's boxes are mapped back.
    `BoxRoundTrip` joins the two directions. The tensor is one array of cells, channel by channel and row by
    row; `CellsDistinct` and `CellsCover` make every cell the place of exactly one pixel and channel. */
module Letterbox {
  import opened Domain
  import opened Geometry

  // ---------------------------------------------------------------------------------------------
  // Placement
  // ---------------------------------------------------------------------------------------------

  /** Rounds half away from zero. */
  function Round(value: real): int {
    if value >= 0.0 then (value + 0.5).Floor else -(0.5 - value).Floor
  }

  function Ratio(size: nat, width: nat, height: nat): real
    requires width > 0 && height > 0
  {
    Min(size as real / width as real, size as real / height as real)
  }

  /** A side of the resized image: at least one pixel. */
  function Resized(side: nat, ratio: real): (r: nat)
    ensures r >= 1
  {
    var rounded := Round(side as real * ratio);
    if rounded < 1 then 1 else rounded
  }

  /** From a coordinate in the square back to a normalized one. */
  function Back(v: real, offset: real, scale: real, side: real): real
    requires scale > 0.0 && side > 0.0
  {
    Clamp((v - offset) / scale / side, 0.0, 1.0)
  }

  datatype Letterbox = Letterbox(width: nat, height: nat, scaleX: real, scaleY: real, left: nat, top: nat) {
    /** Where a pixel coordinate of the original image lies in the square. */
    function ForwardX(px: real): real { left as real + px * scaleX }
    function ForwardY(py: real): real { top as real + py * scaleY }

    predicate Proper() { width > 0 && height > 0 && scaleX > 0.0 && scaleY > 0.0 }

    /** From a coordinate in the square back to the normalized image. */
    function X(v: real): (r: real)
      requires Proper()
      ensures 0.0 <= r <= 1.0
    {
      Back(v, left as real, scaleX, width as real)
    }

    function Y(v: real): (r: real)
      requires Proper()
      ensures 0.0 <= r <= 1.0
    {
      Back(v, top as real, scaleY, height as real)
    }
  }

  lemma DivideMultiply(a: real, b: real)
    requires b > 0.0
    ensures a / b * b == a && a * b / b == a
  {
  }

  /** One axis attains the ratio exactly, and neither exceeds the square. */
  lemma RatioFits(size: nat, width: nat, height: nat)
    requires size > 0 && width > 0 && height > 0
    ensures var r := Ratio(size, width, height);
            && r > 0.0 && width as real * r <= size as real && height as real * r <= size as real
            && (width as real * r == size as real || height as real * r == size as real)
  {
    var s, w, h := size as real, width as real, height as real;
    DivideMultiply(s, w);
    DivideMultiply(s, h);
    ScaleCompare(s / w, w);
    ScaleCompare(s / h, h);
    if s / w <= s / h {
      ProductMonotone(s / w, s / h, h, h);
    } else {
      ProductMonotone(s / h, s / w, w, w);
    }
  }

  lemma RoundWhole(n: nat)
    ensures Round(n as real) == n
  {
  }

  lemma RoundBelow(value: real, bound: nat)
    requires 0.0 <= value <= bound as real
    ensures 0 <= Round(value) <= bound
  {
  }

  /** The resized image fits the square, has a pixel on each axis, and fills the square on one of them. */
  lemma FitsSquare(size: nat, width: nat, height: nat)
    requires size > 0 && width > 0 && height > 0
    ensures var r := Ratio(size, width, height);
            && 1 <= Resized(width, r) <= size && 1 <= Resized(height, r) <= size
            && (Resized(width, r) == size || Resized(height, r) == size)
  {
    var r := Ratio(size, width, height);
    RatioFits(size, width, height);
    ProductMonotone(0.0, width as real, 0.0, r);
    ProductMonotone(0.0, height as real, 0.0, r);
    RoundBelow(width as real * r, size);
    RoundBelow(height as real * r, size);
    RoundWhole(size);
  }

  /** Each resized side is within half a pixel of the scaled side, unless it would vanish. */
  lemma ResizedNearest(side: nat, ratio: real)
    requires ratio > 0.0
    ensures var exact := side as real * ratio;
            -0.5 <= Resized(side, ratio) as real - exact <= 0.5 || (exact < 0.5 && Resized(side, ratio) == 1)
  {
    ProductMonotone(0.0, side as real, 0.0, ratio);
  }

  // ---------------------------------------------------------------------------------------------
  // Tensor writes
  // ---------------------------------------------------------------------------------------------

  datatype Pixel = Pixel(r: nat, g: nat, b: nat) {
    function Channel(c: nat): real
      requires c < 3
    {
      (if c == 0 then r else if c == 1 then g else b) as real / 255.0
    }
  }

  const GRAY := 114.0 / 255.0

  function Plane(size: nat): nat { size * size }

  /** Position of channel `c` of pixel (x, y) in planar order. */
  function At(size: nat, c: nat, x: nat, y: nat): nat {
    c * Plane(size) + Offset(size, x, y)
  }

  function Offset(size: nat, x: nat, y: nat): nat {
    y * size + x
  }

  lemma MultiplyMonotone(a: nat, b: nat, n: nat)
    requires a <= b
    ensures a * n <= b * n
  {
    assert b * n - a * n == (b - a) * n;
  }

  lemma NextMultiple(a: nat, b: nat, n: nat)
    requires a < b
    ensures a * n + n <= b * n
  {
    MultiplyMonotone(a + 1, b, n);
  }

  lemma Digits(base: nat, q: nat, r: nat, q2: nat, r2: nat)
    requires r < base && r2 < base && q * base + r == q2 * base + r2
    ensures q == q2 && r == r2
  {
    if q < q2 { NextMultiple(q, q2, base); }
    if q2 < q { NextMultiple(q2, q, base); }
  }

  lemma InPlane(size: nat, x: nat, y: nat)
    requires x < size && y < size
    ensures Offset(size, x, y) < Plane(size)
  {
    NextMultiple(y, size, size);
  }

  lemma OffsetsDistinct(size: nat, x: nat, y: nat, x2: nat, y2: nat)
    requires x < size && x2 < size && Offset(size, x, y) == Offset(size, x2, y2)
    ensures x == x2 && y == y2
  {
    Digits(size, y, x, y2, x2);
  }

  lemma ChannelsDistinct(plane: nat, c: nat, offset: nat, c2: nat, offset2: nat)
    requires offset < plane && offset2 < plane && c * plane + offset == c2 * plane + offset2
    ensures c == c2 && offset == offset2
  {
    Digits(plane, c, offset, c2, offset2);
  }

  /** Distinct pixels or channels never share a cell. */
  lemma CellsDistinct(size: nat, c: nat, x: nat, y: nat, c2: nat, x2: nat, y2: nat)
    requires x < size && y < size && x2 < size && y2 < size
    requires At(size, c, x, y) == At(size, c2, x2, y2)
    ensures c == c2 && x == x2 && y == y2
  {
    assert c == c2 && Offset(size, x, y) == Offset(size, x2, y2) by {
      InPlane(size, x, y);
      InPlane(size, x2, y2);
      ChannelsDistinct(Plane(size), c, Offset(size, x, y), c2, Offset(size, x2, y2));
    }
    OffsetsDistinct(size, x, y, x2, y2);
  }

  lemma CellInRange(size: nat, c: nat, x: nat, y: nat)
    requires c < 3 && x < size && y < size
    ensures At(size, c, x, y) < 3 * Plane(size)
  {
    InPlane(size, x, y);
    NextMultiple(c, 3, Plane(size));
  }

  lemma DivideBelow(i: nat, n: nat, d: nat)
    requires d > 0 && i < n * d
    ensures i / d < n && i == i / d * d + i % d
  {
    if i / d >= n { MultiplyMonotone(n, i / d, d); }
  }

  /** Every cell of the tensor belongs to some channel of some pixel. */
  lemma CellsCover(size: nat, i: nat) returns (c: nat, x: nat, y: nat)
    requires i < 3 * Plane(size)
    ensures c < 3 && x < size && y < size && i == At(size, c, x, y)
  {
    var plane := Plane(size);
    c := i / plane;
    var rest := i % plane;
    DivideBelow(i, 3, plane);
    DivideBelow(rest, size, size);
    x, y := rest % size, rest / size;
  }

  /** The pixel at (x, y) of the square once the first `rows` rows and `cols` further pixels are placed. */
  ghost predicate Placed(left: nat, top: nat, width: nat, rows: nat, cols: nat, x: nat, y: nat) {
    left <= x < left + width && top <= y && (y < top + rows || (y == top + rows && x < left + cols))
  }

  ghost predicate Filled(data: seq<real>, size: nat, left: nat, top: nat, width: nat, image: (nat, nat) -> Pixel,
                         rows: nat, cols: nat)
    requires |data| == 3 * Plane(size)
  {
    forall c: nat, x: nat, y: nat :: c < 3 && x < size && y < size ==>
      At(size, c, x, y) < |data|
      && data[At(size, c, x, y)]
         == if Placed(left, top, width, rows, cols, x, y) then image(x - left, y - top).Channel(c) else GRAY
  }

  method WritePixel(data: array<real>, size: nat, x: nat, y: nat, pixel: Pixel)
    requires data.Length == 3 * Plane(size) && x < size && y < size
    modifies data
    ensures forall c: nat, x2: nat, y2: nat :: c < 3 && x2 < size && y2 < size ==>
              At(size, c, x2, y2) < data.Length
              && data[At(size, c, x2, y2)]
                 == if x2 == x && y2 == y then pixel.Channel(c) else old(data[..])[At(size, c, x2, y2)]
  {
    forall c: nat, x2: nat, y2: nat | c < 3 && x2 < size && y2 < size
      ensures At(size, c, x2, y2) < data.Length
    {
      CellInRange(size, c, x2, y2);
    }
    for channel := 0 to 3
      invariant forall c: nat, x2: nat, y2: nat :: c < 3 && x2 < size && y2 < size ==>
                  data[At(size, c, x2, y2)]
                  == if x2 == x && y2 == y && c < channel then pixel.Channel(c)
                     else old(data[..])[At(size, c, x2, y2)]
    {
      forall c: nat, x2: nat, y2: nat | c < 3 && x2 < size && y2 < size
        && At(size, c, x2, y2) == At(size, channel, x, y)
        ensures c == channel && x2 == x && y2 == y
      {
        CellsDistinct(size, c, x2, y2, channel, x, y);
      }
      data[At(size, channel, x, y)] := pixel.Channel(channel);
    }
  }

  /** The square with the resized image centred in it and every other cell gray. */
  method FillTensor(size: nat, left: nat, top: nat, width: nat, height: nat, image: (nat, nat) -> Pixel)
    returns (tensor: seq<real>)
    requires left + width <= size && top + height <= size
    ensures |tensor| == 3 * Plane(size)
    ensures Filled(tensor, size, left, top, width, image, height, 0)
  {
    var data := new real[3 * Plane(size)](_ => GRAY);
    forall c: nat, x: nat, y: nat | c < 3 && x < size && y < size
      ensures At(size, c, x, y) < data.Length
    {
      CellInRange(size, c, x, y);
    }
    for y := 0 to height
      invariant Filled(data[..], size, left, top, width, image, y, 0)
    {
      for x := 0 to width
        invariant Filled(data[..], size, left, top, width, image, y, x)
      {
        WritePixel(data, size, x + left, y + top, image(x, y));
      }
    }
    tensor := data[..];
  }

  /** Where an image lands in the square: centred, scaled by the resized over the original side. */
  function Placement(width: nat, height: nat, size: nat): (box: Letterbox)
    requires size > 0 && width > 0 && height > 0
    ensures box.Proper()
    ensures box.left + Resized(width, Ratio(size, width, height)) <= size
    ensures box.top + Resized(height, Ratio(size, width, height)) <= size
  {
    var ratio := Ratio(size, width, height);
    var w, h := Resized(width, ratio), Resized(height, ratio);
    FitsSquare(size, width, height);
    PositiveQuotient(w, width);
    PositiveQuotient(h, height);
    Letterbox(width, height, w as real / width as real, h as real / height as real, (size - w) / 2, (size - h) / 2)
  }

  /** The image's edges land on the edges of the resized image, which lies in the middle of the square but for an odd
      pixel. */
  predicate Centred(box: Letterbox, w: nat, h: nat, size: nat) {
    && box.ForwardX(0.0) == box.left as real && box.ForwardX(box.width as real) == (box.left + w) as real
    && box.ForwardY(0.0) == box.top as real && box.ForwardY(box.height as real) == (box.top + h) as real
    && 0 <= size - (box.left + w) - box.left <= 1
    && 0 <= size - (box.top + h) - box.top <= 1
  }

  lemma PlacementCentred(width: nat, height: nat, size: nat)
    requires size > 0 && width > 0 && height > 0
    ensures var box, ratio := Placement(width, height, size), Ratio(size, width, height);
            && box.width == width && box.height == height
            && Centred(box, Resized(width, ratio), Resized(height, ratio), size)
  {
    FitsSquare(size, width, height);
    BoxCentred(Placement(width, height, size), Resized(width, Ratio(size, width, height)),
               Resized(height, Ratio(size, width, height)), size);
  }

  lemma BoxCentred(box: Letterbox, w: nat, h: nat, size: nat)
    requires box.width > 0 && box.height > 0 && w <= size && h <= size
    requires box == Letterbox(box.width, box.height, w as real / box.width as real, h as real / box.height as real,
                              (size - w) / 2, (size - h) / 2)
    ensures Centred(box, w, h, size)
  {
    EdgesPlaced(size, w, box.width);
    EdgesPlaced(size, h, box.height);
  }

  lemma EdgesPlaced(size: nat, resized: nat, side: nat)
    requires side > 0 && resized <= size
    ensures var near := (size - resized) / 2;
            && near as real + 0.0 * (resized as real / side as real) == near as real
            && near as real + side as real * (resized as real / side as real) == (near + resized) as real
            && 0 <= size - (near + resized) - near <= 1
  {
    DivideMultiply(resized as real, side as real);
  }

  /** The cells are laid out as the model reads them: the red plane, the green plane and the blue plane, each row by
      row, on a scale of one; where the image does not reach they are gray. */
  lemma CellsOfPrepared(data: seq<real>, size: nat, left: nat, top: nat, width: nat, height: nat,
                        image: (nat, nat) -> Pixel, x: nat, y: nat)
    requires |data| == 3 * Plane(size) && Filled(data, size, left, top, width, image, height, 0)
    requires x < size && y < size
    ensures 2 * (size * size) + y * size + x < |data|
    ensures var red, green, blue := data[y * size + x], data[size * size + y * size + x],
                                    data[2 * (size * size) + y * size + x];
            if left <= x < left + width && top <= y < top + height then
              var pixel := image(x - left, y - top);
              red == pixel.r as real / 255.0 && green == pixel.g as real / 255.0 && blue == pixel.b as real / 255.0
            else red == green == blue == 114.0 / 255.0
  {
    CellInRange(size, 2, x, y);
    assert At(size, 0, x, y) == y * size + x;
    assert At(size, 1, x, y) == size * size + y * size + x;
    assert At(size, 2, x, y) == 2 * (size * size) + y * size + x;
  }

  lemma PositiveQuotient(a: nat, b: nat)
    requires a > 0 && b > 0
    ensures a as real / b as real > 0.0
  {
    DivideMultiply(a as real, b as real);
    ScaleCompare(a as real / b as real, b as real);
  }

  /** `resize(w, h, x, y)` is pixel (x, y) of the image resized to w by h. */
  method Prepare(width: nat, height: nat, size: nat, resize: (nat, nat) -> (nat, nat) -> Pixel)
    returns (prepared: Option<(seq<real>, Letterbox)>)
    requires size > 0
    ensures prepared.None? <==> width == 0 || height == 0
    ensures prepared.Some? ==>
              var (tensor, box) := prepared.value;
              var w := Resized(width, Ratio(size, width, height));
              var h := Resized(height, Ratio(size, width, height));
              && box == Placement(width, height, size)
              && |tensor| == 3 * Plane(size)
              && Filled(tensor, size, box.left, box.top, w, resize(w, h), h, 0)
  {
    if width == 0 || height == 0 {
      return None;
    }
    var ratio := Ratio(size, width, height);
    var w, h := Resized(width, ratio), Resized(height, ratio);
    var box := Placement(width, height, size);
    var tensor := FillTensor(size, box.left, box.top, w, h, resize(w, h));
    prepared := Some((tensor, box));
  }

  // ---------------------------------------------------------------------------------------------
  // Undoing the placement
  // ---------------------------------------------------------------------------------------------

  lemma BackUndoes(v: real, p: real, offset: real, scale: real, side: real)
    requires scale > 0.0 && side > 0.0 && 0.0 <= p <= side && v == offset + p * scale
    ensures Back(v, offset, scale, side) == p / side
  {
    assert v - offset == p * scale;
    DivideMultiply(p, scale);
    DivideUpTo(p, side);
  }

  /** The decoder's inverse map takes every placed pixel coordinate back to its normalized position. */
  lemma InverseUndoesForward(box: Letterbox, px: real, py: real)
    requires box.Proper() && 0.0 <= px <= box.width as real && 0.0 <= py <= box.height as real
    ensures box.X(box.ForwardX(px)) == px / box.width as real
    ensures box.Y(box.ForwardY(py)) == py / box.height as real
  {
    BackUndoes(box.ForwardX(px), px, box.left as real, box.scaleX, box.width as real);
    BackUndoes(box.ForwardY(py), py, box.top as real, box.scaleY, box.height as real);
  }

  // ---------------------------------------------------------------------------------------------
  // Class mapping
  // ---------------------------------------------------------------------------------------------

  type ClassId = nat

  datatype Mapping = Mapping(modelClass: nat, class_: ClassId)

  datatype Spec = Spec(classIds: seq<Option<ClassId>>, classCount: Option<nat>, mappings: seq<Mapping>,
                       keypoints: seq<string>)
  {
    function ModelClassCount(): nat {
      if classCount.Some? then classCount.value else |classIds|
    }

    function DatasetClass(modelClass: nat): Option<ClassId> {
      if classCount.Some? then Lookup(mappings, modelClass)
      else if modelClass < |classIds| then classIds[modelClass] else None
    }

    /** Spells the positional mapping out. */
    function UseExplicitMapping(count: nat): Spec {
      if classCount.Some? then this.(classCount := Some(count))
      else this.(classCount := Some(count), mappings := Spelled(classIds), classIds := [])
    }

    function Channels(): nat { 4 + ModelClassCount() + 3 * |keypoints| }
  }

  function Lookup(mappings: seq<Mapping>, modelClass: nat): Option<ClassId> {
    if mappings == [] then None
    else if mappings[0].modelClass == modelClass then Some(mappings[0].class_)
    else Lookup(mappings[1..], modelClass)
  }

  function Spelled(classIds: seq<Option<ClassId>>): seq<Mapping> {
    if classIds == [] then []
    else
      var last := |classIds| - 1;
      Spelled(classIds[..last]) + if classIds[last].Some? then [Mapping(last, classIds[last].value)] else []
  }

  lemma {:induction false} LookupAppend(mappings: seq<Mapping>, last: Mapping, modelClass: nat)
    ensures Lookup(mappings + [last], modelClass)
         == if Lookup(mappings, modelClass).Some? then Lookup(mappings, modelClass)
            else if last.modelClass == modelClass then Some(last.class_) else None
  {
    if mappings == [] {
      assert (mappings + [last])[1..] == [];
    } else {
      assert (mappings + [last])[1..] == mappings[1..] + [last];
      LookupAppend(mappings[1..], last, modelClass);
    }
  }

  lemma {:induction false} SpelledLookup(classIds: seq<Option<ClassId>>, modelClass: nat)
    ensures Lookup(Spelled(classIds), modelClass)
         == if modelClass < |classIds| then classIds[modelClass] else None
  {
    if classIds != [] {
      var last := |classIds| - 1;
      SpelledLookup(classIds[..last], modelClass);
      if classIds[last].Some? {
        LookupAppend(Spelled(classIds[..last]), Mapping(last, classIds[last].value), modelClass);
      } else {
        assert Spelled(classIds) == Spelled(classIds[..last]);
      }
    }
  }

  /** Making the positional mapping explicit keeps the meaning of every model class. */
  lemma ExplicitMappingKeepsMeaning(spec: Spec, count: nat, modelClass: nat)
    ensures spec.UseExplicitMapping(count).DatasetClass(modelClass) == spec.DatasetClass(modelClass)
    ensures var explicit := spec.UseExplicitMapping(count);
            explicit.ModelClassCount() == count && explicit.keypoints == spec.keypoints
            && explicit.UseExplicitMapping(count) == explicit
  {
    SpelledLookup(spec.classIds, modelClass);
  }

  // ---------------------------------------------------------------------------------------------
  // Decoding
  // ---------------------------------------------------------------------------------------------

  const MAX_CANDIDATES := 35_000
  const MAX_VALUES := 8_000_000

  /** The classes of a task, and whether its skeleton (if any) forbids hidden keypoints. */
  datatype Task = Task(classIds: set<ClassId>, visibleOnly: bool)

  datatype Shape = Box(bounds: BoundingBox) | Skeleton(keypoints: seq<Keypoint>) {
    predicate Valid() {
      match this
      case Box(bounds) => bounds.Valid()
      case Skeleton(keypoints) => ValidSkeleton(keypoints)
    }
  }

  datatype Hint = Hint(index: nat, class_: ClassId, confidence: real, shape: Shape, bounds: BoundingBox)

  datatype DecodeError =
    | UnsupportedOutput | MissingClasses | InvalidConfidence | NegativeBox | InvalidKeypoint | InvalidGeometry

  datatype Candidate = Skip | Emit(hint: Hint) | Fail(error: DecodeError)

  datatype Decoded = Hints(hints: seq<Hint>) | Error(error: DecodeError)

  /** A tensor of `channels` rows of `count` values, with the placement it was computed under. */
  datatype Output = Output(data: seq<real>, channels: nat, count: nat, box: Letterbox) {
    predicate Proper() { |data| == channels * count && box.Proper() }

    function Read(channel: nat, index: nat): real
      requires Proper() && channel < channels && index < count
    {
      ReadInBounds(channel, channels, count, index);
      data[channel * count + index]
    }

    function Score(class_: nat, index: nat): real
      requires Proper() && 4 + class_ < channels && index < count
    {
      Read(4 + class_, index)
    }
  }

  lemma ReadInBounds(channel: nat, channels: nat, count: nat, index: nat)
    requires channel < channels && index < count
    ensures channel * count + index < channels * count
  {
    NextMultiple(channel, channels, count);
  }

  /** The least class attaining the highest score: the last of the maxima under the source's order, in which
      a lower class beats an equal score. */
  ghost predicate IsBest(out: Output, classes: nat, index: nat, best: nat)
    requires out.Proper() && 4 + classes <= out.channels && index < out.count
  {
    && best < classes
    && (forall c: nat :: c < classes ==> out.Score(c, index) <= out.Score(best, index))
    && (forall c: nat :: c < best ==> out.Score(c, index) < out.Score(best, index))
  }

  function Best(out: Output, classes: nat, index: nat): (best: nat)
    requires out.Proper() && 4 + classes <= out.channels && index < out.count && classes > 0
    ensures IsBest(out, classes, index, best)
  {
    if classes == 1 then 0
    else
      var best := Best(out, classes - 1, index);
      if out.Score(best, index) >= out.Score(classes - 1, index) then best else classes - 1
  }

  method BestClass(out: Output, classes: nat, index: nat) returns (best: nat)
    requires out.Proper() && 4 + classes <= out.channels && index < out.count && classes > 0
    ensures IsBest(out, classes, index, best)
  {
    best := 0;
    for class_ := 1 to classes
      invariant IsBest(out, class_, index, best)
    {
      if out.Score(best, index) < out.Score(class_, index) {
        best := class_;
      }
    }
  }

  lemma BestUnique(out: Output, classes: nat, index: nat, a: nat, b: nat)
    requires out.Proper() && 4 + classes <= out.channels && index < out.count
    requires IsBest(out, classes, index, a) && IsBest(out, classes, index, b)
    ensures a == b
  {
    assert out.Score(a, index) == out.Score(b, index);
  }

  predicate IsConfidence(v: real) { 0.0 <= v <= 1.0 }

  /** Keypoint `k`, or none when its visibility is not a confidence. */
  function KeypointAt(out: Output, spec: Spec, task: Task, index: nat, k: nat): Option<Keypoint>
    requires out.Proper() && out.channels == spec.Channels() && index < out.count && k < |spec.keypoints|
  {
    var offset := 4 + spec.ModelClassCount() + 3 * k;
    var visibility := out.Read(offset + 2, index);
    if !IsConfidence(visibility) then None
    else
      Some(Keypoint(spec.keypoints[k],
                    if visibility >= 0.5 || task.visibleOnly then Visible else Hidden,
                    Some(Point(out.box.X(out.Read(offset, index)), out.box.Y(out.Read(offset + 1, index))))))
  }

  function KeypointsUpTo(out: Output, spec: Spec, task: Task, index: nat, n: nat): Option<seq<Keypoint>>
    requires out.Proper() && out.channels == spec.Channels() && index < out.count && n <= |spec.keypoints|
  {
    if n == 0 then Some([])
    else
      var before := KeypointsUpTo(out, spec, task, index, n - 1);
      var next := KeypointAt(out, spec, task, index, n - 1);
      if before.Some? && next.Some? then Some(before.value + [next.value]) else None
  }

  /** The normalized corners of a candidate's box. */
  function Corners(out: Output, index: nat): (real, real, real, real)
    requires out.Proper() && 4 <= out.channels && index < out.count
  {
    var cx, cy, w, h := out.Read(0, index), out.Read(1, index), out.Read(2, index), out.Read(3, index);
    (out.box.X(cx - w / 2.0), out.box.Y(cy - h / 2.0), out.box.X(cx + w / 2.0), out.box.Y(cy + h / 2.0))
  }

  function DecodeCandidate(out: Output, spec: Spec, task: Task, index: nat): Candidate
    requires out.Proper() && out.channels == spec.Channels() && index < out.count
  {
    if spec.ModelClassCount() == 0 then Fail(MissingClasses)
    else
      var best := Best(out, spec.ModelClassCount(), index);
      var confidence := out.Score(best, index);
      var class_ := spec.DatasetClass(best);
      if !IsConfidence(confidence) then Fail(InvalidConfidence)
      else if class_.None? || class_.value !in task.classIds then Skip
      else if out.Read(2, index) < 0.0 || out.Read(3, index) < 0.0 then Fail(NegativeBox)
      else
        var (left, top, right, bottom) := Corners(out, index);
        if right <= left || bottom <= top then Skip
        else
          var bounds := BoundingBox(left, top, right - left, bottom - top);
          if spec.keypoints == [] then Emit(Hint(index, class_.value, confidence, Box(bounds), bounds))
          else
            var keypoints := KeypointsUpTo(out, spec, task, index, |spec.keypoints|);
            if keypoints.None? then Fail(InvalidKeypoint)
            else Emit(Hint(index, class_.value, confidence, Skeleton(keypoints.value), bounds))
  }

  /** The hints of the first `n` candidates, or the first failure among them. */
  function DecodeUpTo(out: Output, spec: Spec, task: Task, n: nat): Decoded
    requires out.Proper() && out.channels == spec.Channels() && n <= out.count
  {
    if n == 0 then Hints([])
    else
      var before := DecodeUpTo(out, spec, task, n - 1);
      if before.Error? then before
      else
        match DecodeCandidate(out, spec, task, n - 1)
        case Skip => before
        case Emit(hint) => Hints(before.hints + [hint])
        case Fail(error) => Error(error)
  }

  lemma {:induction false} KeypointsValid(out: Output, spec: Spec, task: Task, index: nat, n: nat)
    requires out.Proper() && out.channels == spec.Channels() && index < out.count && n <= |spec.keypoints|
    ensures var keypoints := KeypointsUpTo(out, spec, task, index, n);
            keypoints.Some? ==>
              && |keypoints.value| == n && ValidSkeleton(keypoints.value)
              && forall k :: 0 <= k < n ==>
                   keypoints.value[k].name == spec.keypoints[k] && !keypoints.value[k].state.Absent?
  {
    if n > 0 { KeypointsValid(out, spec, task, index, n - 1); }
  }

  /** Whatever finite numbers the model emits, an emitted shape and its box validate: the final geometry test
      of the decoder never fails. */
  lemma EmittedShapesValid(out: Output, spec: Spec, task: Task, index: nat)
    requires out.Proper() && out.channels == spec.Channels() && index < out.count
    requires DecodeCandidate(out, spec, task, index).Emit?
    ensures var hint := DecodeCandidate(out, spec, task, index).hint;
            && hint.shape.Valid() && hint.bounds.Valid()
            && 0.0 <= hint.bounds.x && hint.bounds.Right() <= 1.0
            && 0.0 <= hint.bounds.y && hint.bounds.Bottom() <= 1.0
            && hint.class_ in task.classIds && IsConfidence(hint.confidence)
  {
    KeypointsValid(out, spec, task, index, |spec.keypoints|);
    var (left, top, right, bottom) := Corners(out, index);
    CornersValid(left, top, right, bottom);
  }

  lemma CornersValid(left: real, top: real, right: real, bottom: real)
    requires 0.0 <= left < right <= 1.0 && 0.0 <= top < bottom <= 1.0
    ensures var b := BoundingBox(left, top, right - left, bottom - top);
            b.Valid() && 0.0 <= b.x && b.Right() <= 1.0 && 0.0 <= b.y && b.Bottom() <= 1.0
  {
  }

  lemma {:induction false} KeypointsFailExactly(out: Output, spec: Spec, task: Task, index: nat, n: nat)
    requires out.Proper() && out.channels == spec.Channels() && index < out.count && n <= |spec.keypoints|
    ensures KeypointsUpTo(out, spec, task, index, n).None?
            <==> exists k: nat :: k < n && KeypointAt(out, spec, task, index, k).None?
  {
    if n > 0 { KeypointsFailExactly(out, spec, task, index, n - 1); }
  }

  /** The visibility of keypoint `k` is not a confidence. */
  predicate BadVisibility(out: Output, spec: Spec, index: nat, k: nat)
    requires out.Proper() && out.channels == spec.Channels() && index < out.count && k < |spec.keypoints|
  {
    var v := out.Read(4 + spec.ModelClassCount() + 3 * k + 2, index);
    v < 0.0 || v > 1.0
  }

  /** When a candidate spoils the whole output: there are no classes to choose from, its best score is no confidence,
      or it is of a class of the task and its box has a negative side or, if there is a box at all, some visibility is
      no confidence. A candidate of another class is only looked at for its score. */
  lemma CandidateFailsExactly(out: Output, spec: Spec, task: Task, index: nat, best: nat)
    requires out.Proper() && out.channels == spec.Channels() && index < out.count
    requires spec.ModelClassCount() > 0 ==> IsBest(out, spec.ModelClassCount(), index, best)
    ensures var c := DecodeCandidate(out, spec, task, index);
            if spec.ModelClassCount() == 0 then c.Fail?
            else
              var score, class_ := out.Score(best, index), spec.DatasetClass(best);
              var (left, top, right, bottom) := Corners(out, index);
              && (c.Fail?
                  <==> || score < 0.0 || score > 1.0
                       || (class_.Some? && class_.value in task.classIds
                           && (|| out.Read(2, index) < 0.0 || out.Read(3, index) < 0.0
                               || (left < right && top < bottom
                                   && exists k: nat :: k < |spec.keypoints| && BadVisibility(out, spec, index, k)))))
              && (c.Emit? ==> class_.Some? && class_.value in task.classIds && left < right && top < bottom)
  {
    if spec.ModelClassCount() > 0 {
      BestUnique(out, spec.ModelClassCount(), index, best, Best(out, spec.ModelClassCount(), index));
      KeypointsFailExactly(out, spec, task, index, |spec.keypoints|);
      forall k: nat | k < |spec.keypoints|
        ensures KeypointAt(out, spec, task, index, k).None? <==> BadVisibility(out, spec, index, k)
      {
      }
    }
  }

  /** Hints come in candidate order, at most one per candidate, each as its candidate decodes. */
  lemma {:induction false} HintsFollowCandidates(out: Output, spec: Spec, task: Task, n: nat)
    requires out.Proper() && out.channels == spec.Channels() && n <= out.count
    requires DecodeUpTo(out, spec, task, n).Hints?
    ensures var hints := DecodeUpTo(out, spec, task, n).hints;
            && (forall i :: 0 <= i < |hints| ==>
                  hints[i].index < n && DecodeCandidate(out, spec, task, hints[i].index) == Emit(hints[i]))
            && (forall i, j :: 0 <= i < j < |hints| ==> hints[i].index < hints[j].index)
  {
    if n > 0 {
      HintsFollowCandidates(out, spec, task, n - 1);
      CandidateKeepsIndex(out, spec, task, n - 1);
    }
  }

  lemma CandidateKeepsIndex(out: Output, spec: Spec, task: Task, index: nat)
    requires out.Proper() && out.channels == spec.Channels() && index < out.count
    ensures var c := DecodeCandidate(out, spec, task, index); c.Emit? ==> c.hint.index == index
  {
  }

  /** When decoding succeeds, no candidate failed and every emitted hint is there. */
  lemma {:induction false} NothingDropped(out: Output, spec: Spec, task: Task, n: nat, k: nat)
    requires out.Proper() && out.channels == spec.Channels() && k < n <= out.count
    requires DecodeUpTo(out, spec, task, n).Hints?
    ensures var c := DecodeCandidate(out, spec, task, k);
            !c.Fail? && (c.Emit? ==> c.hint in DecodeUpTo(out, spec, task, n).hints)
  {
    if k < n - 1 { NothingDropped(out, spec, task, n - 1, k); }
  }

  /** A box given in original pixels and placed into the square decodes to its normalized self. */
  lemma BoxRoundTrip(out: Output, index: nat, x0: real, y0: real, x1: real, y1: real)
    requires out.Proper() && 4 <= out.channels && index < out.count
    requires 0.0 <= x0 <= x1 <= out.box.width as real && 0.0 <= y0 <= y1 <= out.box.height as real
    requires out.Read(0, index) == (out.box.ForwardX(x0) + out.box.ForwardX(x1)) / 2.0
    requires out.Read(1, index) == (out.box.ForwardY(y0) + out.box.ForwardY(y1)) / 2.0
    requires out.Read(2, index) == out.box.ForwardX(x1) - out.box.ForwardX(x0)
    requires out.Read(3, index) == out.box.ForwardY(y1) - out.box.ForwardY(y0)
    ensures Corners(out, index)
         == (x0 / out.box.width as real, y0 / out.box.height as real,
             x1 / out.box.width as real, y1 / out.box.height as real)
  {
    InverseUndoesForward(out.box, x0, y0);
    InverseUndoesForward(out.box, x1, y1);
  }

  // ---- a tensor that says what it should --------------------------------------------------------

  /** What a model may have found, in pixels of the original image. */
  datatype Mark = Mark(x: real, y: real, visibility: real)

  datatype Detection = Detection(modelClass: nat, confidence: real, x0: real, y0: real, x1: real, y1: real,
                                 marks: seq<Mark>)

  predicate InImage(d: Detection, spec: Spec, box: Letterbox) {
    && d.modelClass < spec.ModelClassCount() && 0.0 <= d.confidence <= 1.0
    && 0.0 <= d.x0 < d.x1 <= box.width as real && 0.0 <= d.y0 < d.y1 <= box.height as real
    && |d.marks| == |spec.keypoints|
    && forall k :: 0 <= k < |d.marks| ==>
         && 0.0 <= d.marks[k].x <= box.width as real && 0.0 <= d.marks[k].y <= box.height as real
         && 0.0 <= d.marks[k].visibility <= 1.0
  }

  /** Column `index` of the raw tensor holds the detection as the model writes it: the centre and size of the box, a
      score for each class and three values for each keypoint, one row of `count` after the other. */
  ghost predicate Encodes(out: Output, spec: Spec, index: nat, d: Detection)
    requires out.Proper() && out.channels == spec.Channels() && index < out.count && |d.marks| == |spec.keypoints|
  {
    var classes := spec.ModelClassCount();
    && out.Read(0, index) == (out.box.ForwardX(d.x0) + out.box.ForwardX(d.x1)) / 2.0
    && out.Read(1, index) == (out.box.ForwardY(d.y0) + out.box.ForwardY(d.y1)) / 2.0
    && out.Read(2, index) == out.box.ForwardX(d.x1) - out.box.ForwardX(d.x0)
    && out.Read(3, index) == out.box.ForwardY(d.y1) - out.box.ForwardY(d.y0)
    && (d.modelClass < classes ==> out.Score(d.modelClass, index) == d.confidence)
    && (forall c: nat :: c < classes ==> out.Score(c, index) <= d.confidence)
    && (forall c: nat :: c < classes && c < d.modelClass ==> out.Score(c, index) < d.confidence)
    && (forall k: nat :: k < |d.marks| ==> EncodesMark(out, spec, index, k, d.marks[k]))
  }

  predicate EncodesMark(out: Output, spec: Spec, index: nat, k: nat, mark: Mark)
    requires out.Proper() && out.channels == spec.Channels() && index < out.count && k < |spec.keypoints|
  {
    var row := 4 + spec.ModelClassCount() + 3 * k;
    && out.Read(row, index) == out.box.ForwardX(mark.x) && out.Read(row + 1, index) == out.box.ForwardY(mark.y)
    && out.Read(row + 2, index) == mark.visibility
  }

  /** Row `channel`, column `index`; the scores start at row 4. */
  lemma ReadMeans(out: Output, channel: nat, index: nat)
    requires out.Proper() && channel < out.channels && index < out.count
    ensures channel * out.count + index < |out.data|
    ensures out.Read(channel, index) == out.data[channel * out.count + index]
    ensures channel >= 4 ==> out.Score(channel - 4, index) == out.data[channel * out.count + index]
  {
    ReadInBounds(channel, out.channels, out.count, index);
  }

  /** The keypoint a mark stands for: on the normalized image, and visible from one half on or where the skeleton has
      no hidden points. */
  function KeypointFor(name: string, task: Task, box: Letterbox, mark: Mark): Keypoint
    requires box.Proper()
  {
    Keypoint(name, if mark.visibility < 0.5 && !task.visibleOnly then Hidden else Visible,
             Some(Point(mark.x / box.width as real, mark.y / box.height as real)))
  }

  lemma MarkDecodes(out: Output, spec: Spec, task: Task, index: nat, k: nat, mark: Mark)
    requires out.Proper() && out.channels == spec.Channels() && index < out.count && k < |spec.keypoints|
    requires EncodesMark(out, spec, index, k, mark) && 0.0 <= mark.visibility <= 1.0
    requires 0.0 <= mark.x <= out.box.width as real && 0.0 <= mark.y <= out.box.height as real
    ensures KeypointAt(out, spec, task, index, k) == Some(KeypointFor(spec.keypoints[k], task, out.box, mark))
  {
    InverseUndoesForward(out.box, mark.x, mark.y);
  }

  lemma {:induction false} MarksDecode(out: Output, spec: Spec, task: Task, index: nat, d: Detection, n: nat)
    requires out.Proper() && out.channels == spec.Channels() && index < out.count && n <= |spec.keypoints|
    requires InImage(d, spec, out.box) && Encodes(out, spec, index, d)
    ensures var keypoints := KeypointsUpTo(out, spec, task, index, n);
            && keypoints.Some? && |keypoints.value| == n
            && forall k :: 0 <= k < n ==>
                 keypoints.value[k] == KeypointFor(spec.keypoints[k], task, out.box, d.marks[k])
  {
    if n > 0 {
      MarksDecode(out, spec, task, index, d, n - 1);
      assert EncodesMark(out, spec, index, n - 1, d.marks[n - 1]);
      MarkDecodes(out, spec, task, index, n - 1, d.marks[n - 1]);
    }
  }

  lemma EncodedBest(out: Output, spec: Spec, index: nat, d: Detection)
    requires out.Proper() && out.channels == spec.Channels() && index < out.count
    requires InImage(d, spec, out.box) && Encodes(out, spec, index, d)
    ensures Best(out, spec.ModelClassCount(), index) == d.modelClass
  {
    var classes := spec.ModelClassCount();
    BestUnique(out, classes, index, Best(out, classes, index), d.modelClass);
  }

  lemma EncodedCorners(out: Output, spec: Spec, index: nat, d: Detection)
    requires out.Proper() && out.channels == spec.Channels() && index < out.count
    requires InImage(d, spec, out.box) && Encodes(out, spec, index, d)
    ensures out.Read(2, index) > 0.0 && out.Read(3, index) > 0.0
    ensures var w, h := out.box.width as real, out.box.height as real;
            Corners(out, index) == (d.x0 / w, d.y0 / h, d.x1 / w, d.y1 / h)
  {
    BoxRoundTrip(out, index, d.x0, d.y0, d.x1, d.y1);
    ProductStrict(d.x0, d.x1, out.box.scaleX, out.box.scaleX);
    ProductStrict(d.y0, d.y1, out.box.scaleY, out.box.scaleY);
  }

  lemma QuotientStrict(a: real, b: real, q: real)
    requires a < b && 0.0 < q
    ensures a / q < b / q
  {
    DivideMultiply(a, q);
    DivideMultiply(b, q);
    if a / q >= b / q { ProductOrder(b / q, a / q, q); }
  }

  lemma ProductOrder(a: real, b: real, q: real)
    requires a <= b && 0.0 < q
    ensures a * q <= b * q
  {
  }

  /** Decoding undoes encoding: a column that encodes a detection in the image becomes the hint of the task's class for
      it, over the same place of the normalized image; a class the task does not have is skipped. */
  lemma DetectionDecodes(out: Output, spec: Spec, task: Task, index: nat, d: Detection)
    requires out.Proper() && out.channels == spec.Channels() && index < out.count
    requires InImage(d, spec, out.box) && Encodes(out, spec, index, d)
    ensures var w, h := out.box.width as real, out.box.height as real;
            var class_ := spec.DatasetClass(d.modelClass);
            var bounds := BoundingBox(d.x0 / w, d.y0 / h, d.x1 / w - d.x0 / w, d.y1 / h - d.y0 / h);
            match DecodeCandidate(out, spec, task, index)
            case Fail(_) => false
            case Skip => class_.None? || class_.value !in task.classIds
            case Emit(hint) =>
              && hint == Hint(index, hint.class_, d.confidence, hint.shape, bounds)
              && class_ == Some(hint.class_) && hint.class_ in task.classIds
              && if spec.keypoints == [] then hint.shape == Box(bounds)
                 else
                   && hint.shape.Skeleton? && |hint.shape.keypoints| == |spec.keypoints|
                   && forall k :: 0 <= k < |spec.keypoints| ==>
                        hint.shape.keypoints[k] == KeypointFor(spec.keypoints[k], task, out.box, d.marks[k])
  {
    EncodedBest(out, spec, index, d);
    EncodedCorners(out, spec, index, d);
    QuotientStrict(d.x0, d.x1, out.box.width as real);
    QuotientStrict(d.y0, d.y1, out.box.height as real);
    MarksDecode(out, spec, task, index, d, |spec.keypoints|);
  }

  method DecodeKeypoints(out: Output, spec: Spec, task: Task, index: nat) returns (keypoints: Option<seq<Keypoint>>)
    requires out.Proper() && out.channels == spec.Channels() && index < out.count
    ensures keypoints == KeypointsUpTo(out, spec, task, index, |spec.keypoints|)
  {
    var decoded: seq<Keypoint> := [];
    for k := 0 to |spec.keypoints|
      invariant KeypointsUpTo(out, spec, task, index, k) == Some(decoded)
    {
      var next := KeypointAt(out, spec, task, index, k);
      if next.None? {
        NoKeypointsAfter(out, spec, task, index, k + 1, |spec.keypoints|);
        return None;
      }
      decoded := decoded + [next.value];
    }
    keypoints := Some(decoded);
  }

  lemma {:induction false} NoKeypointsAfter(out: Output, spec: Spec, task: Task, index: nat, k: nat, n: nat)
    requires out.Proper() && out.channels == spec.Channels() && index < out.count && k <= n <= |spec.keypoints|
    requires KeypointsUpTo(out, spec, task, index, k).None?
    ensures KeypointsUpTo(out, spec, task, index, n).None?
  {
    if k < n { NoKeypointsAfter(out, spec, task, index, k, n - 1); }
  }

  method DecodeOne(out: Output, spec: Spec, task: Task, index: nat) returns (candidate: Candidate)
    requires out.Proper() && out.channels == spec.Channels() && index < out.count
    ensures candidate == DecodeCandidate(out, spec, task, index)
  {
    if spec.ModelClassCount() == 0 {
      return Fail(MissingClasses);
    }
    var best := BestClass(out, spec.ModelClassCount(), index);
    BestUnique(out, spec.ModelClassCount(), index, best, Best(out, spec.ModelClassCount(), index));
    var confidence := out.Score(best, index);
    if !IsConfidence(confidence) {
      return Fail(InvalidConfidence);
    }
    var class_ := spec.DatasetClass(best);
    if class_.None? || class_.value !in task.classIds {
      return Skip;
    }
    if out.Read(2, index) < 0.0 || out.Read(3, index) < 0.0 {
      return Fail(NegativeBox);
    }
    var (left, top, right, bottom) := Corners(out, index);
    if right <= left || bottom <= top {
      return Skip;
    }
    var bounds := BoundingBox(left, top, right - left, bottom - top);
    var shape := Box(bounds);
    if spec.keypoints != [] {
      var keypoints := DecodeKeypoints(out, spec, task, index);
      if keypoints.None? {
        return Fail(InvalidKeypoint);
      }
      shape := Skeleton(keypoints.value);
    }
    EmittedShapesValid(out, spec, task, index);
    if !shape.Valid() {
      return Fail(InvalidGeometry);
    }
    candidate := Emit(Hint(index, class_.value, confidence, shape, bounds));
  }

  /** Decodes a raw output tensor of the given shape, or rejects it. */
  method Decode(shape: seq<int>, data: seq<real>, box: Letterbox, spec: Spec, task: Task) returns (decoded: Decoded)
    requires box.Proper()
    ensures var channels := spec.Channels();
            var supported :=
              && |shape| == 3 && shape[0] == 1 && shape[1] == channels && 0 <= shape[2] <= 35_000
              && |data| <= 8_000_000 && |data| == channels * shape[2];
            decoded == if supported then DecodeUpTo(Output(data, channels, shape[2], box), spec, task, shape[2])
                       else Error(UnsupportedOutput)
  {
    var channels := spec.Channels();
    if |shape| != 3 || shape[0] != 1 || shape[1] != channels || shape[2] < 0 || shape[2] > MAX_CANDIDATES
       || |data| > MAX_VALUES || |data| != channels * shape[2]
    {
      return Error(UnsupportedOutput);
    }
    var out := Output(data, channels, shape[2], box);
    var hints: seq<Hint> := [];
    for index := 0 to out.count
      invariant DecodeUpTo(out, spec, task, index) == Hints(hints)
    {
      var candidate := DecodeOne(out, spec, task, index);
      match candidate
      case Skip =>
      case Emit(hint) => hints := hints + [hint];
      case Fail(error) =>
        FailsAfter(out, spec, task, index + 1, out.count);
        return Error(error);
    }
    decoded := Hints(hints);
  }

  lemma {:induction false} FailsAfter(out: Output, spec: Spec, task: Task, k: nat, n: nat)
    requires out.Proper() && out.channels == spec.Channels() && k <= n <= out.count
    requires DecodeUpTo(out, spec, task, k).Error?
    ensures DecodeUpTo(out, spec, task, n) == DecodeUpTo(out, spec, task, k)
  {
    if k < n { FailsAfter(out, spec, task, k, n - 1); }
  }
}
