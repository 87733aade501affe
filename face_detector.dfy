/** The post-processing half of `FaceDetector.detect_faces`
    (backend/face_detector.py): the cascade's raw rectangles are clamped to
    the image, each clamped box is cut out of the image with numpy slicing,
    empty cut-outs are skipped and the rest are collected in detector order.
    Reading the image and running the cascade are foreign calls: the decoded
    image's shape (or its absence) and the cascade's rectangles are inputs. */
module FaceDetector {
  import opened Common
  import Config

  /** One `(x, y, w, h)` rectangle returned by `detectMultiScale` */
  datatype Rect = Rect(x: int, y: int, w: int, h: int)

  /** The shape of a decoded image: rows and columns */
  datatype ImageShape = ImageShape(height: nat, width: nat)

  /** The `bbox` dictionary of a detected face */
  datatype BBox = BBox(x: int, y: int, width: int, height: int)

  /** The region `image[a:b, c:d]` denotes, after Python's slice normalisation:
      `rows` rows from row `top`, `cols` columns from column `left` */
  datatype Crop = Crop(top: nat, rows: nat, left: nat, cols: nat)

  /** One entry of `faces_data` */
  datatype DetectedFace = DetectedFace(bbox: BBox, crop: Crop, confidence: real)

  /** `cv2.imread` returned None: a ValueError */
  datatype DetectError = CouldNotReadImage

  /** OpenCV's cascade gives no confidence; every face gets this one */
  const DefaultConfidence: real := 0.9

  /** The detector's promise about its rectangles (`minSize`) */
  predicate FromCascade(r: Rect) {
    r.w >= Config.MinFaceSize && r.h >= Config.MinFaceSize
  }

  /** A slice bound `i` on an axis of length `n`: negative bounds count from
      the end, and the result is cut to `0..n` */
  function SliceBound(i: int, n: nat): (b: nat)
    ensures b <= n
    ensures 0 <= i <= n ==> b == i
  {
    if i < 0 then Max(0, i + n) else Min(i, n)
  }

  /** `axis[start:stop]` as (first index, length) */
  function Slice(start: int, stop: int, n: nat): (r: (nat, nat))
    ensures r.0 + r.1 <= n
  {
    var a, b := SliceBound(start, n), SliceBound(stop, n);
    (a, if a < b then b - a else 0)
  }

  /** Lines 75-78: move the origin into the image and cut the size at the
      right and bottom edges */
  function Clamp(r: Rect, shape: ImageShape): BBox {
    var x := Max(0, r.x);
    var y := Max(0, r.y);
    BBox(x, y, Min(shape.width - x, r.w), Min(shape.height - y, r.h))
  }

  /** Line 88: `image[y:y+h, x:x+w]` */
  function CropOf(b: BBox, shape: ImageShape): Crop {
    var (top, rows) := Slice(b.y, b.y + b.height, shape.height);
    var (left, cols) := Slice(b.x, b.x + b.width, shape.width);
    Crop(top, rows, left, cols)
  }

  /** `face_image.size == 0` for a three-channel image */
  predicate IsEmpty(c: Crop) {
    c.rows == 0 || c.cols == 0
  }

  /** What one raw rectangle contributes to `faces_data`: nothing or one face */
  function Emit(r: Rect, shape: ImageShape): (faces: seq<DetectedFace>)
    ensures |faces| <= 1
  {
    var b := Clamp(r, shape);
    var c := CropOf(b, shape);
    if IsEmpty(c) then [] else [DetectedFace(b, c, DefaultConfidence)]
  }

  /** `faces_data` after the loop has seen the rectangles `raw` */
  function Validated(raw: seq<Rect>, shape: ImageShape): seq<DetectedFace> {
    if raw == [] then [] else Validated(raw[..|raw| - 1], shape) + Emit(raw[|raw| - 1], shape)
  }

  /** `detect_faces` from the decoded image on (lines 49-52 and 70-107) */
  method DetectFaces(image: Option<ImageShape>, raw: seq<Rect>) returns (r: Result<seq<DetectedFace>, DetectError>)
    ensures image.None? <==> r == Err(CouldNotReadImage)
    ensures image.Some? ==> r == Ok(Validated(raw, image.value))
    ensures r.Ok? ==> |r.value| <= |raw|
  {
    if image.None? {
      return Err(CouldNotReadImage);
    }
    var shape := image.value;
    var faces: seq<DetectedFace> := [];
    var i := 0;
    while i < |raw|
      invariant 0 <= i <= |raw|
      invariant faces == Validated(raw[..i], shape)
      invariant |faces| <= i
    {
      var x, y, w, h := raw[i].x, raw[i].y, raw[i].w, raw[i].h;
      x := Max(0, x);
      y := Max(0, y);
      w := Min(shape.width - x, w);
      h := Min(shape.height - y, h);
      var bbox := BBox(x, y, w, h);
      var crop := CropOf(bbox, shape);
      ValidatedStep(raw, i, shape);
      assert Emit(raw[i], shape) == if IsEmpty(crop) then [] else [DetectedFace(bbox, crop, DefaultConfidence)] by {
        assert bbox == Clamp(raw[i], shape);
      }
      if IsEmpty(crop) {
        i := i + 1;
        continue;
      }
      faces := faces + [DetectedFace(bbox, crop, DefaultConfidence)];
      i := i + 1;
    }
    assert raw[..|raw|] == raw;
    return Ok(faces);
  }

  /** What one more rectangle adds to `faces_data` */
  lemma ValidatedStep(raw: seq<Rect>, i: nat, shape: ImageShape)
    requires i < |raw|
    ensures Validated(raw[..i + 1], shape) == Validated(raw[..i], shape) + Emit(raw[i], shape)
  {
    assert raw[..i + 1][..i] == raw[..i];
  }

  // ---- properties of the validated faces ----

  /** The rectangles the loop keeps: with a positive size from the cascade, a
      rectangle is skipped exactly when its clamped origin lies outside the image */
  lemma EmitIff(r: Rect, shape: ImageShape)
    requires FromCascade(r)
    ensures |Emit(r, shape)| == 1 <==> Max(0, r.x) < shape.width && Max(0, r.y) < shape.height
  {
  }

  /** A kept rectangle is the clamped box, lies inside the image with a positive
      size, and its crop is exactly the box */
  lemma EmitInBounds(r: Rect, shape: ImageShape)
    requires FromCascade(r)
    ensures forall f :: f in Emit(r, shape) ==>
      && f.bbox == Clamp(r, shape)
      && 0 <= f.bbox.x && 0 <= f.bbox.y && 0 < f.bbox.width && 0 < f.bbox.height
      && f.bbox.x + f.bbox.width <= shape.width && f.bbox.y + f.bbox.height <= shape.height
      && f.crop == Crop(f.bbox.y, f.bbox.height, f.bbox.x, f.bbox.width)
      && f.confidence == DefaultConfidence
  {
  }

  /** Every face in `faces_data` lies inside the image, has a positive size and a
      crop of exactly its box, and carries the default confidence */
  lemma {:induction false} ValidatedInBounds(raw: seq<Rect>, shape: ImageShape)
    requires forall r :: r in raw ==> FromCascade(r)
    ensures forall f :: f in Validated(raw, shape) ==>
      && 0 <= f.bbox.x && 0 <= f.bbox.y && 0 < f.bbox.width && 0 < f.bbox.height
      && f.bbox.x + f.bbox.width <= shape.width && f.bbox.y + f.bbox.height <= shape.height
      && f.crop == Crop(f.bbox.y, f.bbox.height, f.bbox.x, f.bbox.width)
      && f.confidence == DefaultConfidence
  {
    if raw != [] {
      var init := raw[..|raw| - 1];
      assert forall r :: r in init ==> r in raw;
      ValidatedInBounds(init, shape);
      EmitInBounds(raw[|raw| - 1], shape);
    }
  }

  /** Order is kept: the faces of a concatenation are the faces of each part in turn */
  lemma {:induction false} ValidatedAppend(a: seq<Rect>, b: seq<Rect>, shape: ImageShape)
    ensures Validated(a + b, shape) == Validated(a, shape) + Validated(b, shape)
  {
    if b == [] {
      assert a + b == a;
    } else {
      var b', x := b[..|b| - 1], b[|b| - 1];
      ValidatedAppend(a, b', shape);
      SplitLast(a, b);
      ValidatedSnoc(a + b', x, shape);
      ValidatedSnoc(b', x, shape);
      AppendAssoc(Validated(a, shape), Validated(b', shape), Emit(x, shape));
    }
  }

  lemma SplitLast<T>(a: seq<T>, b: seq<T>)
    requires b != []
    ensures a + b == (a + b[..|b| - 1]) + [b[|b| - 1]]
    ensures b == b[..|b| - 1] + [b[|b| - 1]]
  {
  }

  lemma AppendAssoc<T>(p: seq<T>, q: seq<T>, r: seq<T>)
    ensures p + q + r == p + (q + r)
  {
  }

  /** One more rectangle adds its own faces at the end */
  lemma ValidatedSnoc(raw: seq<Rect>, x: Rect, shape: ImageShape)
    ensures Validated(raw + [x], shape) == Validated(raw, shape) + Emit(x, shape)
  {
    assert (raw + [x])[..|raw|] == raw;
  }

  /** Each face comes from one rectangle of the detector, clamped */
  lemma {:induction false} ValidatedFromRaw(raw: seq<Rect>, shape: ImageShape)
    ensures forall f :: f in Validated(raw, shape) ==> exists r :: r in raw && f.bbox == Clamp(r, shape) && f.crop == CropOf(f.bbox, shape)
  {
    if raw != [] {
      var init := raw[..|raw| - 1];
      ValidatedFromRaw(init, shape);
      forall f | f in Validated(raw, shape)
        ensures exists r :: r in raw && f.bbox == Clamp(r, shape) && f.crop == CropOf(f.bbox, shape)
      {
        if f in Validated(init, shape) {
          var r :| r in init && f.bbox == Clamp(r, shape) && f.crop == CropOf(f.bbox, shape);
          assert r in raw;
        } else {
          assert f in Emit(raw[|raw| - 1], shape);
        }
      }
    }
  }

  /** A detection hanging off the left edge is moved to column 0 without losing width */
  lemma ClampShiftsLeftEdge(r: Rect, shape: ImageShape)
    requires r.x < 0 && r.w <= shape.width
    ensures Clamp(r, shape).x == 0 && Clamp(r, shape).width == r.w
  {
  }
}
