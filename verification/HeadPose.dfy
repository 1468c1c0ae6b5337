/** Head pose from five landmarks: the engine's proxies, and the browser's. */
module HeadPose {
  import opened Results
  import opened Geometry

  datatype Landmarks = Landmarks(leftEye: Point, rightEye: Point, nose: Point, mouthLeft: Point, mouthRight: Point)

  datatype Pose = Pose(yaw: real, pitch: real, eyeDistance: real)

  /** The library's trigonometry, by contract. */
  datatype Trig = Trig(sin: real -> real, cos: real -> real, atan2: (real, real) -> real, hypot: (real, real) -> real) {
    ghost predicate Valid() {
      && (forall x, y :: PolarFacts(x, y))
      && (forall r :: AngleFacts(r))
      && atan2(0.0, 0.0) == 0.0 && cos(0.0) == 1.0 && sin(0.0) == 0.0
    }

    /** `hypot` and `atan2` are the polar form of `(x, y)`. */
    ghost predicate PolarFacts(x: real, y: real) {
      var d, roll := hypot(x, y), atan2(y, x);
      d >= 0.0 && d * d == x * x + y * y && d * cos(roll) == x && d * sin(roll) == y
    }

    ghost predicate AngleFacts(r: real) {
      sin(r) * sin(r) + cos(r) * cos(r) == 1.0 && cos(-r) == cos(r) && sin(-r) == -sin(r)
    }
  }

  // ---- The engine's estimate ----

  function EyeLine(l: Landmarks): Point {
    Minus(l.rightEye, l.leftEye)
  }

  function Eyes(l: Landmarks): Point {
    Midpoint(l.leftEye, l.rightEye)
  }

  function Roll(t: Trig, l: Landmarks): real {
    t.atan2(EyeLine(l).y, EyeLine(l).x)
  }

  /** In axes along and across the eye line: the picture turned back by the roll. */
  function Levelled(t: Trig, roll: real, v: Point): Point {
    Point(t.cos(-roll) * v.x + -t.sin(-roll) * v.y, t.sin(-roll) * v.x + t.cos(-roll) * v.y)
  }

  function LevelNose(t: Trig, l: Landmarks): Point {
    Levelled(t, Roll(t, l), Minus(l.nose, Eyes(l)))
  }

  function LevelMouth(t: Trig, l: Landmarks): Point {
    Levelled(t, Roll(t, l), Minus(Midpoint(l.mouthLeft, l.mouthRight), Eyes(l)))
  }

  const LEAST_DROP := 0.000001

  function Estimate(t: Trig, l: Landmarks): Pose {
    var nose := LevelNose(t, l);
    var mouth := LevelMouth(t, l);
    var eyeDistance := t.hypot(EyeLine(l).x, EyeLine(l).y);
    var mouthDrop := if mouth.y > LEAST_DROP then mouth.y else LEAST_DROP;
    Pose(if eyeDistance != 0.0 then nose.x / eyeDistance else 0.0, nose.y / mouthDrop, eyeDistance)
  }

  // ---- The browser's ----

  datatype BrowserPose = BrowserPose(yaw: real, pitch: real)

  const IMAGE_LEFT_EYE := [33, 133]
  const IMAGE_RIGHT_EYE := [362, 263]
  const NOSE_TIP := 1
  const MOUTH_CORNERS := [61, 291]

  /** The mesh points at `indices`, in pixels; those the mesh lacks are dropped. */
  function Found(mesh: seq<Point>, indices: seq<nat>, width: real, height: real): seq<Point> {
    if indices == [] then []
    else
      var rest := Found(mesh, indices[1..], width, height);
      if indices[0] < |mesh| then [Point(mesh[indices[0]].x * width, mesh[indices[0]].y * height)] + rest else rest
  }

  function At(mesh: seq<Point>, indices: seq<nat>, width: real, height: real): Option<Point>
    requires indices != []
  {
    var points := Found(mesh, indices, width, height);
    if |points| == |indices| then Some(Mean(points)) else None
  }

  function Max(x: real, y: real): real {
    if x >= y then x else y
  }

  function PoseOf(t: Trig, mesh: seq<Point>, width: real, height: real): Option<BrowserPose> {
    var leftEye := At(mesh, IMAGE_LEFT_EYE, width, height);
    var rightEye := At(mesh, IMAGE_RIGHT_EYE, width, height);
    var nose := At(mesh, [NOSE_TIP], width, height);
    var mouth := At(mesh, MOUTH_CORNERS, width, height);
    if leftEye.None? || rightEye.None? || nose.None? || mouth.None? then None
    else Some(BrowserPoseFrom(t, leftEye.value, rightEye.value, nose.value, mouth.value))
  }

  function BrowserPoseFrom(t: Trig, leftEye: Point, rightEye: Point, nose: Point, mouth: Point): BrowserPose {
    var eyes := Mean([leftEye, rightEye]);
    var roll := t.atan2(rightEye.y - leftEye.y, rightEye.x - leftEye.x);
    var noseX := (nose.x - eyes.x) * t.cos(roll) + (nose.y - eyes.y) * t.sin(roll);
    var noseY := -(nose.x - eyes.x) * t.sin(roll) + (nose.y - eyes.y) * t.cos(roll);
    var mouthY := -(mouth.x - eyes.x) * t.sin(roll) + (mouth.y - eyes.y) * t.cos(roll);
    var eyeDistance := t.hypot(rightEye.x - leftEye.x, rightEye.y - leftEye.y);
    BrowserPose(if eyeDistance != 0.0 then noseX / eyeDistance else 0.0, noseY / Max(mouthY, LEAST_DROP))
  }

  // ---- Both sides mean the same ----

  lemma MeanOfTwo(p: Point, q: Point)
    ensures Mean([p, q]) == Midpoint(p, q)
  {
    assert [p, q][1..] == [q];
    assert [q][1..] == [];
    assert Sum([q]) == q;
    assert Sum([p, q]) == Point(p.x + q.x, p.y + q.y);
  }

  lemma MeanOfOne(p: Point)
    ensures Mean([p]) == p
  {
    assert [p][1..] == [];
    assert Sum([p]) == p;
  }

  /** `v` in axes turned by an angle with cosine `c` and sine `s`. */
  function Level(c: real, s: real, v: Point): Point {
    Point(v.x * c + v.y * s, -v.x * s + v.y * c)
  }

  lemma LevelledIsLevel(t: Trig, roll: real, v: Point)
    requires t.Valid()
    ensures Levelled(t, roll, v) == Level(t.cos(roll), t.sin(roll), v)
  {
    var c, s := t.cos(roll), t.sin(roll);
    assert t.AngleFacts(roll);
    assert -(-s) * v.y == v.y * s;
    assert -s * v.x == -v.x * s;
  }

  /** The browser measures what the engine does, on the same five points: also when the
    * eyes coincide and when the mouth is not below them. */
  lemma BrowserAgreesWithEngine(t: Trig, l: Landmarks)
    requires t.Valid()
    ensures var b := BrowserPoseFrom(t, l.leftEye, l.rightEye, l.nose, Midpoint(l.mouthLeft, l.mouthRight));
            b == BrowserPose(Estimate(t, l).yaw, Estimate(t, l).pitch)
  {
    MeanOfTwo(l.leftEye, l.rightEye);
    LevelledIsLevel(t, Roll(t, l), Minus(l.nose, Eyes(l)));
    LevelledIsLevel(t, Roll(t, l), Minus(Midpoint(l.mouthLeft, l.mouthRight), Eyes(l)));
    BrowserForms(t, l);
  }

  lemma BrowserForms(t: Trig, l: Landmarks)
    requires Mean([l.leftEye, l.rightEye]) == Eyes(l)
    ensures var c, s := t.cos(Roll(t, l)), t.sin(Roll(t, l));
            var nose := Level(c, s, Minus(l.nose, Eyes(l)));
            var mouth := Level(c, s, Minus(Midpoint(l.mouthLeft, l.mouthRight), Eyes(l)));
            var d := t.hypot(EyeLine(l).x, EyeLine(l).y);
            && BrowserPoseFrom(t, l.leftEye, l.rightEye, l.nose, Midpoint(l.mouthLeft, l.mouthRight))
               == BrowserPose(if d != 0.0 then nose.x / d else 0.0, nose.y / Max(mouth.y, LEAST_DROP))
  {
  }

  function Pixel(mesh: seq<Point>, i: nat, width: real, height: real): Point
    requires i < |mesh|
  {
    Point(mesh[i].x * width, mesh[i].y * height)
  }

  /** The five points the browser takes from a mesh. */
  function FivePoints(mesh: seq<Point>, width: real, height: real): Landmarks
    requires |mesh| > 362
  {
    Landmarks(Midpoint(Pixel(mesh, 33, width, height), Pixel(mesh, 133, width, height)),
              Midpoint(Pixel(mesh, 362, width, height), Pixel(mesh, 263, width, height)),
              Pixel(mesh, 1, width, height), Pixel(mesh, 61, width, height), Pixel(mesh, 291, width, height))
  }

  lemma {:induction false} FoundWhenThere(mesh: seq<Point>, indices: seq<nat>, width: real, height: real)
    ensures |Found(mesh, indices, width, height)| <= |indices|
    ensures |Found(mesh, indices, width, height)| == |indices|
            <==> forall k :: 0 <= k < |indices| ==> indices[k] < |mesh|
    ensures |Found(mesh, indices, width, height)| == |indices| ==>
              forall k :: 0 <= k < |indices| ==>
                Found(mesh, indices, width, height)[k] == Pixel(mesh, indices[k], width, height)
  {
    if indices != [] {
      FoundWhenThere(mesh, indices[1..], width, height);
      assert forall k :: 1 <= k < |indices| ==> indices[k] == indices[1..][k - 1];
    }
  }

  lemma PairFound(mesh: seq<Point>, i: nat, j: nat, width: real, height: real)
    requires i < |mesh| && j < |mesh|
    ensures At(mesh, [i, j], width, height)
            == Some(Midpoint(Pixel(mesh, i, width, height), Pixel(mesh, j, width, height)))
  {
    FoundWhenThere(mesh, [i, j], width, height);
    assert Found(mesh, [i, j], width, height) == [Pixel(mesh, i, width, height), Pixel(mesh, j, width, height)];
    MeanOfTwo(Pixel(mesh, i, width, height), Pixel(mesh, j, width, height));
  }

  lemma OneFound(mesh: seq<Point>, i: nat, width: real, height: real)
    requires i < |mesh|
    ensures At(mesh, [i], width, height) == Some(Pixel(mesh, i, width, height))
  {
    FoundWhenThere(mesh, [i], width, height);
    assert Found(mesh, [i], width, height) == [Pixel(mesh, i, width, height)];
    MeanOfOne(Pixel(mesh, i, width, height));
  }

  /** From the mesh on: when all seven mesh points are there, `PoseOf` is the engine's
    * estimate of the five points they make, and it is null when the mesh stops short. */
  lemma MeshPoseIsTheEnginesEstimate(t: Trig, mesh: seq<Point>, width: real, height: real)
    requires t.Valid()
    ensures |mesh| <= 362 ==> PoseOf(t, mesh, width, height) == None
    ensures |mesh| > 362 ==>
              var e := Estimate(t, FivePoints(mesh, width, height));
              PoseOf(t, mesh, width, height) == Some(BrowserPose(e.yaw, e.pitch))
  {
    if |mesh| > 362 {
      PairFound(mesh, 33, 133, width, height);
      PairFound(mesh, 362, 263, width, height);
      PairFound(mesh, 61, 291, width, height);
      OneFound(mesh, 1, width, height);
      BrowserAgreesWithEngine(t, FivePoints(mesh, width, height));
    } else {
      FoundWhenThere(mesh, IMAGE_RIGHT_EYE, width, height);
      assert IMAGE_RIGHT_EYE[0] == 362;
    }
  }

  // ---- What the proxies do not see ----

  function Transformed(s: Similarity, l: Landmarks): Landmarks {
    Landmarks(s.Apply(l.leftEye), s.Apply(l.rightEye), s.Apply(l.nose), s.Apply(l.mouthLeft), s.Apply(l.mouthRight))
  }

  /** How a vector between points changes: turned and scaled, the shift gone. */
  function Turned(s: Similarity, v: Point): Point {
    Point(s.a * v.x - s.b * v.y, s.b * v.x + s.a * v.y)
  }

  lemma DifferencesTurn(s: Similarity, p: Point, q: Point)
    ensures Minus(s.Apply(p), s.Apply(q)) == Turned(s, Minus(p, q))
  {
    assert s.a * (p.x - q.x) == s.a * p.x - s.a * q.x && s.b * (p.x - q.x) == s.b * p.x - s.b * q.x;
    assert s.a * (p.y - q.y) == s.a * p.y - s.a * q.y && s.b * (p.y - q.y) == s.b * p.y - s.b * q.y;
  }

  lemma ProductOfMean(k: real, x: real, y: real)
    ensures Product(k, (x + y) / 2.0) == (Product(k, x) + Product(k, y)) / 2.0
  {
  }

  lemma MidpointsMove(s: Similarity, p: Point, q: Point)
    ensures Midpoint(s.Apply(p), s.Apply(q)) == s.Apply(Midpoint(p, q))
  {
    ProductOfMean(s.a, p.x, q.x);
    ProductOfMean(s.b, p.x, q.x);
    ProductOfMean(s.a, p.y, q.y);
    ProductOfMean(s.b, p.y, q.y);
  }

  function NoseArm(l: Landmarks): Point {
    Minus(l.nose, Eyes(l))
  }

  function MouthArm(l: Landmarks): Point {
    Minus(Midpoint(l.mouthLeft, l.mouthRight), Eyes(l))
  }

  lemma ArmsTurn(s: Similarity, l: Landmarks)
    ensures EyeLine(Transformed(s, l)) == Turned(s, EyeLine(l))
    ensures NoseArm(Transformed(s, l)) == Turned(s, NoseArm(l))
    ensures MouthArm(Transformed(s, l)) == Turned(s, MouthArm(l))
  {
    MidpointsMove(s, l.leftEye, l.rightEye);
    MidpointsMove(s, l.mouthLeft, l.mouthRight);
    DifferencesTurn(s, l.rightEye, l.leftEye);
    DifferencesTurn(s, l.nose, Eyes(l));
    DifferencesTurn(s, Midpoint(l.mouthLeft, l.mouthRight), Eyes(l));
  }

  /** `e` in polar form: length `d`, direction `(c, s)`. */
  ghost predicate Polar(e: Point, d: real, c: real, s: real) {
    d >= 0.0 && d * d == e.x * e.x + e.y * e.y && d * c == e.x && d * s == e.y
  }

  lemma EyeLineIsPolar(t: Trig, e: Point)
    requires t.Valid()
    ensures var roll := t.atan2(e.y, e.x);
            Polar(e, t.hypot(e.x, e.y), t.cos(roll), t.sin(roll))
  {
    assert t.PolarFacts(e.x, e.y);
  }

  /** Levelled along `e`, a vector's coordinates are its dot and cross product with `e`,
    * over the length of `e`. */
  lemma LevelAlong(e: Point, d: real, c: real, s: real, v: Point)
    requires Polar(e, d, c, s)
    ensures d * Level(c, s, v).x == e.x * v.x + e.y * v.y
    ensures d * Level(c, s, v).y == e.x * v.y - e.y * v.x
  {
    assert d * (v.x * c + v.y * s) == (d * c) * v.x + (d * s) * v.y;
    assert d * (-v.x * s + v.y * c) == (d * c) * v.y - (d * s) * v.x;
  }

  lemma TurnedProducts(s: Similarity, e: Point, v: Point)
    ensures var k2 := s.a * s.a + s.b * s.b;
            && Turned(s, e).x * Turned(s, v).x + Turned(s, e).y * Turned(s, v).y == k2 * (e.x * v.x + e.y * v.y)
            && Turned(s, e).x * Turned(s, v).y - Turned(s, e).y * Turned(s, v).x == k2 * (e.x * v.y - e.y * v.x)
  {
  }

  lemma LengthScales(m: Similarity, k: real, e: Point, d: real, d': real)
    requires k > 0.0 && m.a * m.a + m.b * m.b == k * k
    requires d >= 0.0 && d * d == e.x * e.x + e.y * e.y
    requires d' >= 0.0 && d' * d' == Turned(m, e).x * Turned(m, e).x + Turned(m, e).y * Turned(m, e).y
    ensures d' == k * d
  {
    TurnedProducts(m, e, e);
    assert (k * d) * (k * d) == (k * k) * (d * d);
    SameSquareSameRoot(d', k * d);
  }

  lemma FromScaledProducts(k: real, d: real, x': real, x: real, p: real)
    requires k != 0.0 && d != 0.0 && d * x == p && (k * d) * x' == (k * k) * p
    ensures x' == k * x
  {
    assert k * (d * x') == k * (d * (k * x));
    CancelFactor(k, d * x', d * (k * x));
    CancelFactor(d, x', k * x);
  }

  /** Levelled along the turned eye line, a turned vector is the original, scaled. */
  lemma LevelScales(m: Similarity, k: real, e: Point, d: real, c: real, s: real, c': real, s': real, v: Point)
    requires k > 0.0 && m.a * m.a + m.b * m.b == k * k && d != 0.0
    requires Polar(e, d, c, s) && Polar(Turned(m, e), k * d, c', s')
    ensures Level(c', s', Turned(m, v)) == Point(k * Level(c, s, v).x, k * Level(c, s, v).y)
  {
    LevelAlong(e, d, c, s, v);
    LevelAlong(Turned(m, e), k * d, c', s', Turned(m, v));
    TurnedProducts(m, e, v);
    FromScaledProducts(k, d, Level(c', s', Turned(m, v)).x, Level(c, s, v).x, e.x * v.x + e.y * v.y);
    FromScaledProducts(k, d, Level(c', s', Turned(m, v)).y, Level(c, s, v).y, e.x * v.y - e.y * v.x);
  }

  /** The estimate, in terms of the eye line's polar form. */
  function EstimateFrom(d: real, nose: Point, mouth: Point): Pose {
    Pose(if d != 0.0 then nose.x / d else 0.0, nose.y / Max(mouth.y, LEAST_DROP), d)
  }

  lemma EstimateForm(t: Trig, l: Landmarks)
    ensures Estimate(t, l) == EstimateFrom(t.hypot(EyeLine(l).x, EyeLine(l).y), LevelNose(t, l), LevelMouth(t, l))
  {
  }

  lemma ZeroRoll(t: Trig, e: Point)
    requires t.Valid() && t.hypot(e.x, e.y) == 0.0
    ensures e == Point(0.0, 0.0)
    ensures t.cos(t.atan2(e.y, e.x)) == 1.0 && t.sin(t.atan2(e.y, e.x)) == 0.0
  {
    assert t.PolarFacts(e.x, e.y);
    ZeroLength(e, 0.0, t.cos(t.atan2(e.y, e.x)), t.sin(t.atan2(e.y, e.x)));
  }

  lemma EstimateByPolar(t: Trig, l: Landmarks) returns (d: real, c: real, s: real)
    requires t.Valid()
    ensures Polar(EyeLine(l), d, c, s) && d == Estimate(t, l).eyeDistance
    ensures d == 0.0 ==> c == 1.0 && s == 0.0
    ensures LevelNose(t, l) == Level(c, s, NoseArm(l)) && LevelMouth(t, l) == Level(c, s, MouthArm(l))
    ensures Estimate(t, l) == EstimateFrom(d, LevelNose(t, l), LevelMouth(t, l))
  {
    var e := EyeLine(l);
    d, c, s := t.hypot(e.x, e.y), t.cos(Roll(t, l)), t.sin(Roll(t, l));
    EyeLineIsPolar(t, e);
    if d == 0.0 {
      ZeroRoll(t, e);
    }
    LevelledIsLevel(t, Roll(t, l), NoseArm(l));
    LevelledIsLevel(t, Roll(t, l), MouthArm(l));
    EstimateForm(t, l);
  }

  lemma ZeroLength(e: Point, d: real, c: real, s: real)
    requires Polar(e, d, c, s) && d == 0.0
    ensures e == Point(0.0, 0.0)
  {
  }

  lemma ScaledEstimate(k: real, d: real, nose: Point, mouth: Point)
    requires k > 0.0 && d > 0.0
    ensures var scaled := EstimateFrom(k * d, Point(k * nose.x, k * nose.y), Point(k * mouth.x, k * mouth.y));
            && scaled.yaw == EstimateFrom(d, nose, mouth).yaw
            && (mouth.y > LEAST_DROP && k * mouth.y > LEAST_DROP ==> scaled.pitch == EstimateFrom(d, nose, mouth).pitch)
  {
    ScaledQuotient(k, nose.x, d);
    if mouth.y > LEAST_DROP && k * mouth.y > LEAST_DROP {
      ScaledQuotient(k, nose.y, mouth.y);
    }
  }

  lemma EstimateOfTurned(m: Similarity, k: real, e: Point, d: real, c: real, s: real, d': real, c': real, s': real,
                         nose: Point, mouth: Point)
    requires k > 0.0 && m.a * m.a + m.b * m.b == k * k
    requires Polar(e, d, c, s) && Polar(Turned(m, e), d', c', s')
    ensures d' == k * d
    ensures var before := EstimateFrom(d, Level(c, s, nose), Level(c, s, mouth));
            var after := EstimateFrom(d', Level(c', s', Turned(m, nose)), Level(c', s', Turned(m, mouth)));
            && after.yaw == before.yaw
            && (d != 0.0 && Level(c, s, mouth).y > LEAST_DROP && Level(c', s', Turned(m, mouth)).y > LEAST_DROP
                ==> after.pitch == before.pitch)
  {
    LengthScales(m, k, e, d, d');
    if d != 0.0 {
      LevelScales(m, k, e, d, c, s, c', s', nose);
      LevelScales(m, k, e, d, c, s, c', s', mouth);
      ScaledEstimate(k, d, Level(c, s, nose), Level(c, s, mouth));
    } else {
      assert k * d == 0.0;
    }
  }

  /** Moving, tilting or enlarging the face changes neither proxy, the pitch while the mouth
    * stays clear of the eye line. Coinciding eyes always read a yaw of zero. */
  lemma ProxiesIgnorePlacement(t: Trig, m: Similarity, k: real, l: Landmarks)
    requires t.Valid() && k > 0.0 && m.a * m.a + m.b * m.b == k * k
    ensures Estimate(t, Transformed(m, l)).yaw == Estimate(t, l).yaw
    ensures Estimate(t, Transformed(m, l)).eyeDistance == k * Estimate(t, l).eyeDistance
    ensures Estimate(t, l).eyeDistance != 0.0
            && LevelMouth(t, l).y > LEAST_DROP && LevelMouth(t, Transformed(m, l)).y > LEAST_DROP
            ==> Estimate(t, Transformed(m, l)).pitch == Estimate(t, l).pitch
  {
    var l' := Transformed(m, l);
    var d, c, s := EstimateByPolar(t, l);
    var d', c', s' := EstimateByPolar(t, l');
    ArmsTurn(m, l);
    EstimateOfTurned(m, k, EyeLine(l), d, c, s, d', c', s', NoseArm(l), MouthArm(l));
  }

  /** A quotient of levelled coordinates, from products with the eye line: `p` is `d * x`, `q` is
    * `d * y`. */
  lemma QuotientFromProducts(d: real, x: real, y: real, p: real, q: real)
    requires d > 0.0 && y != 0.0 && d * x == p && d * y == q
    ensures (x / y) * q == p
  {
    var r := x / y;
    assert r * y == x;
    assert r * (d * y) == d * (r * y);
  }

  lemma ClearOfTheEyeLine(d: real, y: real, q: real)
    requires d > 0.0 && d * y == q
    ensures q > LEAST_DROP * d <==> y > LEAST_DROP
  {
    assert q - LEAST_DROP * d == d * (y - LEAST_DROP);
  }

  lemma PitchFromProducts(d: real, nose: Point, mouth: Point, p: real, q: real)
    requires d > 0.0 && d * nose.y == p && d * mouth.y == q
    ensures EstimateFrom(d, nose, mouth).pitch * (if q > LEAST_DROP * d then q else LEAST_DROP * d) == p
  {
    ClearOfTheEyeLine(d, mouth.y, q);
    if mouth.y > LEAST_DROP {
      QuotientFromProducts(d, nose.y, mouth.y, p, q);
    } else {
      QuotientFromProducts(d, nose.y, LEAST_DROP, p, d * LEAST_DROP);
    }
  }

  lemma YawFromProducts(d: real, nose: Point, mouth: Point, p: real)
    requires d > 0.0 && d * nose.x == p
    ensures EstimateFrom(d, nose, mouth).yaw * (d * d) == p
  {
    QuotientFromProducts(d, nose.x, d, p, d * d);
  }

  lemma LengthOf(t: Trig, e: Point)
    requires t.Valid()
    ensures t.hypot(e.x, e.y) >= 0.0
    ensures e != Point(0.0, 0.0) ==> t.hypot(e.x, e.y) > 0.0
  {
    EyeLineIsPolar(t, e);
    if t.hypot(e.x, e.y) == 0.0 {
      ZeroRoll(t, e);
    }
  }

  lemma EyesApart(t: Trig, l: Landmarks)
    requires t.Valid() && l.leftEye != l.rightEye
    ensures Estimate(t, l).eyeDistance > 0.0
  {
    LengthOf(t, EyeLine(l));
  }

  lemma ProxiesFromPolar(d: real, c: real, s: real, e: Point, nose: Point, mouth: Point)
    requires Polar(e, d, c, s) && d > 0.0
    ensures var pose := EstimateFrom(d, Level(c, s, nose), Level(c, s, mouth));
            var drop, least := e.x * mouth.y - e.y * mouth.x, LEAST_DROP * d;
            && pose.yaw * (d * d) == e.x * nose.x + e.y * nose.y
            && pose.pitch * (if drop > least then drop else least) == e.x * nose.y - e.y * nose.x
  {
    LevelAlong(e, d, c, s, nose);
    LevelAlong(e, d, c, s, mouth);
    YawFromProducts(d, Level(c, s, nose), Level(c, s, mouth), e.x * nose.x + e.y * nose.y);
    PitchFromProducts(d, Level(c, s, nose), Level(c, s, mouth), e.x * nose.y - e.y * nose.x,
                      e.x * mouth.y - e.y * mouth.x);
  }

  /** In the picture's own coordinates, for every face whose eyes are apart: the yaw is the nose's
    * place along the eye line in eye distances, and the pitch its place across it as a share of the
    * mouth's. */
  lemma ProxiesInThePicture(t: Trig, l: Landmarks)
    requires t.Valid() && l.leftEye != l.rightEye
    ensures var dx, dy := l.rightEye.x - l.leftEye.x, l.rightEye.y - l.leftEye.y;
            var cx, cy := (l.leftEye.x + l.rightEye.x) / 2.0, (l.leftEye.y + l.rightEye.y) / 2.0;
            var nx, ny := l.nose.x - cx, l.nose.y - cy;
            var mx, my := (l.mouthLeft.x + l.mouthRight.x) / 2.0 - cx, (l.mouthLeft.y + l.mouthRight.y) / 2.0 - cy;
            var e := Estimate(t, l);
            var drop, least := dx * my - dy * mx, 0.000001 * e.eyeDistance;
            && e.eyeDistance > 0.0 && e.eyeDistance * e.eyeDistance == dx * dx + dy * dy
            && e.yaw * (dx * dx + dy * dy) == dx * nx + dy * ny
            && e.pitch * (if drop > least then drop else least) == dx * ny - dy * nx
  {
    var d, c, s := EstimateByPolar(t, l);
    EyesApart(t, l);
    ProxiesFromPolar(d, c, s, EyeLine(l), NoseArm(l), MouthArm(l));
  }

  lemma SameQuotient(x: real, y: real, u: real, v: real)
    requires y != 0.0 && v != 0.0
    ensures x / y == u / v <==> Product(x, v) == Product(u, y)
  {
    var p, q := x / y, u / v;
    assert p * y == x && q * v == u;
    assert Product(x, v) == Product(p, Product(y, v)) && Product(u, y) == Product(q, Product(y, v));
    if Product(x, v) == Product(u, y) {
      SameSignsOrNot(y, v);
      CancelFactor(Product(y, v), p, q);
    }
  }

  lemma SameSignsOrNot(y: real, v: real)
    requires y != 0.0 && v != 0.0
    ensures Product(y, v) != 0.0
  {
    if Product(y, v) == 0.0 {
      CancelFactor(y, v, 0.0);
    }
  }

  /** How far the two arms are from being parallel. */
  function Cross(v: Point, u: Point): real {
    Product(v.x, u.y) - Product(v.y, u.x)
  }

  /** A turn keeps the quotient of two vectors' heights exactly when it is none, or they are parallel. */
  lemma TurnedHeights(m: Similarity, nose: Point, mouth: Point)
    requires mouth.y != 0.0 && Turned(m, mouth).y != 0.0
    ensures Turned(m, nose).y / Turned(m, mouth).y == nose.y / mouth.y <==> Product(m.b, Cross(nose, mouth)) == 0.0
  {
    SameQuotient(Turned(m, nose).y, Turned(m, mouth).y, nose.y, mouth.y);
    TurnedCross(m.a, m.b, nose.x, nose.y, mouth.x, mouth.y);
  }

  lemma TurnedCross(a: real, b: real, nx: real, ny: real, mx: real, my: real)
    ensures Product(b * nx + a * ny, my) - Product(ny, b * mx + a * my) == Product(b, Product(nx, my) - Product(ny, mx))
  {
  }

  /** Between faces whose mouths stay clear of the eye line, moving, tilting and enlarging keeps
    * the pitch exactly when the eyes are apart, or there is no tilt, or the nose lies on the
    * line from where the eyes are to the mouth. */
  lemma PitchIgnoresPlacementExactlyWhen(t: Trig, m: Similarity, k: real, l: Landmarks)
    requires t.Valid() && k > 0.0 && m.a * m.a + m.b * m.b == k * k
    requires LevelMouth(t, l).y > LEAST_DROP && LevelMouth(t, Transformed(m, l)).y > LEAST_DROP
    ensures Estimate(t, Transformed(m, l)).pitch == Estimate(t, l).pitch
       <==> Estimate(t, l).eyeDistance != 0.0 || Product(m.b, Cross(NoseArm(l), MouthArm(l))) == 0.0
  {
    ProxiesIgnorePlacement(t, m, k, l);
    if Estimate(t, l).eyeDistance == 0.0 {
      ScaledNothing(k, Estimate(t, l).eyeDistance);
      PitchOfCoincidingEyes(t, l);
      PitchOfCoincidingEyes(t, Transformed(m, l));
      ArmsTurn(m, l);
      TurnedHeights(m, NoseArm(l), MouthArm(l));
    }
  }

  lemma ScaledNothing(k: real, d: real)
    requires d == 0.0
    ensures k * d == 0.0
  {
  }

  lemma PitchOfCoincidingEyes(t: Trig, l: Landmarks)
    requires t.Valid() && Estimate(t, l).eyeDistance == 0.0 && LevelMouth(t, l).y > LEAST_DROP
    ensures LevelMouth(t, l) == MouthArm(l) && Estimate(t, l).pitch == NoseArm(l).y / MouthArm(l).y
  {
    ZeroRoll(t, EyeLine(l));
    CoincidingEyes(t, l);
  }

  function Flipped(p: Point): Point {
    Point(-p.x, p.y)
  }

  /** The mirror image: what was on the left is now on the right. */
  function Mirrored(l: Landmarks): Landmarks {
    Landmarks(Flipped(l.rightEye), Flipped(l.leftEye), Flipped(l.nose), Flipped(l.mouthRight), Flipped(l.mouthLeft))
  }

  lemma LevelFlips(c: real, s: real, v: Point)
    ensures Level(c, -s, Flipped(v)) == Flipped(Level(c, s, v))
  {
    assert (-v.x) * c == -(v.x * c) && v.y * -s == -(v.y * s) && v.x * -s == -v.x * s;
  }

  lemma DirectionMirrors(e: Point, d: real, c: real, s: real, c': real, s': real)
    requires d * c == e.x && d * s == e.y && d * c' == e.x && d * s' == -e.y
    requires d == 0.0 ==> c == c' == 1.0 && s == s' == 0.0
    ensures c' == c && s' == -s
  {
    if d != 0.0 {
      SameDirection(d, c, c', s, s');
    }
  }

  lemma SameDirection(d: real, c: real, c': real, s: real, s': real)
    requires d != 0.0 && d * c == d * c' && d * s' == -(d * s)
    ensures c' == c && s' == -s
  {
    assert d * -s == -(d * s);
    CancelFactor(d, c', c);
    CancelFactor(d, s', -s);
  }

  lemma NegatedQuotient(x: real, d: real)
    requires d != 0.0
    ensures (-x) / d == -(x / d)
  {
    assert (x / d) * d == x;
    assert (-(x / d)) * d == -x;
  }

  /** Seen in a mirror, a turn is a turn the other way, and a nod the same nod. */
  lemma MirroringNegatesYaw(t: Trig, l: Landmarks)
    requires t.Valid()
    ensures Estimate(t, Mirrored(l)).yaw == -Estimate(t, l).yaw
    ensures Estimate(t, Mirrored(l)).pitch == Estimate(t, l).pitch
  {
    var e := EyeLine(l);
    var d, c, s := EstimateByPolar(t, l);
    var d', c', s' := EstimateByPolar(t, Mirrored(l));
    assert EyeLine(Mirrored(l)) == Point(e.x, -e.y);
    assert NoseArm(Mirrored(l)) == Flipped(NoseArm(l)) && MouthArm(Mirrored(l)) == Flipped(MouthArm(l));
    assert (-e.y) * (-e.y) == e.y * e.y;
    SameSquareSameRoot(d', d);
    DirectionMirrors(e, d, c, s, c', s');
    LevelFlips(c, s, NoseArm(l));
    LevelFlips(c, s, MouthArm(l));
    if d != 0.0 {
      NegatedQuotient(LevelNose(t, l).x, d);
    }
  }

  // A face whose eyes were found in one place, and a tilt (with an enlargement by five).
  const ONE_EYED := Landmarks(Point(0.0, 0.0), Point(0.0, 0.0), Point(1.0, 1.0), Point(0.0, 2.0), Point(0.0, 2.0))
  const TILT := Similarity(3.0, 4.0, 0.0, 0.0)

  /** With the eyes in one place there is no tilt to undo: tilting such a face changes its pitch. */
  lemma CoincidingEyesReadTiltAsPitch(t: Trig)
    requires t.Valid()
    ensures LevelMouth(t, ONE_EYED) == Point(0.0, 2.0)
    ensures LevelMouth(t, Transformed(TILT, ONE_EYED)) == Point(-8.0, 6.0)
    ensures Estimate(t, Transformed(TILT, ONE_EYED)).pitch != Estimate(t, ONE_EYED).pitch
  {
    OneEyedArms();
    TiltedExample();
    DifferentPitches();
    CoincidingEyes(t, ONE_EYED);
    CoincidingEyes(t, Transformed(TILT, ONE_EYED));
  }

  lemma TiltedExample()
    ensures EyeLine(Transformed(TILT, ONE_EYED)) == Point(0.0, 0.0)
    ensures NoseArm(Transformed(TILT, ONE_EYED)) == Point(-1.0, 7.0)
    ensures MouthArm(Transformed(TILT, ONE_EYED)) == Point(-8.0, 6.0)
  {
    ArmsTurn(TILT, ONE_EYED);
    TurnedByExample(Point(0.0, 0.0));
    TurnedByExample(Point(1.0, 1.0));
    TurnedByExample(Point(0.0, 2.0));
    OneEyedArms();
  }

  lemma DifferentPitches()
    ensures EstimateFrom(0.0, Point(1.0, 1.0), Point(0.0, 2.0)).pitch == 1.0 / 2.0
    ensures EstimateFrom(0.0, Point(-1.0, 7.0), Point(-8.0, 6.0)).pitch == 7.0 / 6.0
  {
  }

  lemma OneEyedArms()
    ensures EyeLine(ONE_EYED) == Point(0.0, 0.0)
    ensures NoseArm(ONE_EYED) == Point(1.0, 1.0) && MouthArm(ONE_EYED) == Point(0.0, 2.0)
  {
  }

  lemma TurnedByExample(v: Point)
    ensures Turned(TILT, v) == Point(3.0 * v.x - 4.0 * v.y, 4.0 * v.x + 3.0 * v.y)
  {
  }

  lemma CoincidingEyes(t: Trig, l: Landmarks)
    requires t.Valid() && EyeLine(l) == Point(0.0, 0.0)
    ensures LevelMouth(t, l) == MouthArm(l)
    ensures Estimate(t, l) == EstimateFrom(0.0, NoseArm(l), MouthArm(l))
  {
    NoEyeDistance(t);
    var d, c, s := EstimateByPolar(t, l);
    EstimateForm(t, l);
    assert Level(1.0, 0.0, NoseArm(l)) == NoseArm(l) && Level(1.0, 0.0, MouthArm(l)) == MouthArm(l);
  }

  lemma NoEyeDistance(t: Trig)
    requires t.Valid()
    ensures t.hypot(0.0, 0.0) == 0.0
  {
    assert t.PolarFacts(0.0, 0.0);
    SameSquareSameRoot(t.hypot(0.0, 0.0), 0.0);
  }
}
