/** How well a face matches its templates: the closest one, or their centroid. */
module Matching {
  import opened Results
  import opened Vectors
  import opened Geometry

  ghost predicate Dimensions(templates: seq<Vector>, dimension: nat) {
    forall i :: 0 <= i < |templates| ==> |templates[i]| == dimension
  }

  /** Every template has a direction: dividing by its length gives numbers. */
  predicate Directed(root: real -> real, templates: seq<Vector>) {
    forall i :: 0 <= i < |templates| ==> Norm(root, templates[i]) != 0.0
  }

  function Direction(root: real -> real, v: Vector): (r: Vector)
    requires Norm(root, v) != 0.0
    ensures |r| == |v|
  {
    Divided(v, Norm(root, v))
  }

  function Agreement(root: real -> real, probe: Vector, template: Vector): real
    requires |template| == |probe| && Norm(root, template) != 0.0
  {
    Dot(Direction(root, template), probe)
  }

  /** The agreement is the cosine of the angle between the two, the probe being of length one. */
  lemma AgreementIsTheCosine(root: real -> real, probe: Vector, template: Vector)
    requires |template| == |probe| && Norm(root, template) != 0.0
    ensures Product(Norm(root, template), Agreement(root, probe, template)) == Dot(template, probe)
  {
    DotOfDirection(root, template, probe);
  }

  function Larger(x: real, y: real): real {
    if y > x then y else x
  }

  function Best(root: real -> real, probe: Vector, templates: seq<Vector>): real
    requires templates != [] && Dimensions(templates, |probe|) && Directed(root, templates)
  {
    if |templates| == 1 then Agreement(root, probe, templates[0])
    else Larger(Agreement(root, probe, templates[0]), Best(root, probe, templates[1..]))
  }

  function Total(root: real -> real, dimension: nat, templates: seq<Vector>): (r: Vector)
    requires Dimensions(templates, dimension) && Directed(root, templates)
    ensures |r| == dimension
  {
    if templates == [] then Zero(dimension)
    else Plus(Direction(root, templates[0]), Total(root, dimension, templates[1..]))
  }

  function Centroid(root: real -> real, dimension: nat, templates: seq<Vector>): Option<Vector>
    requires templates != [] && Dimensions(templates, dimension) && Directed(root, templates)
  {
    Normalised(root, Divided(Total(root, dimension, templates), |templates| as real))
  }

  /** The score, where it is a number. A template without a direction spoils it; a centroid
    * without one leaves the best single template. */
  function Similarity(root: real -> real, probe: Vector, templates: seq<Vector>): Option<real>
    requires templates != [] && Dimensions(templates, |probe|)
  {
    if !Directed(root, templates) then None
    else
      var best := Best(root, probe, templates);
      match Centroid(root, |probe|, templates)
      case None => Some(best)
      case Some(centroid) => Some(Larger(best, Dot(centroid, probe)))
  }

  // ---- Between the best template and one ----

  lemma AgreementIsAtMostOne(root: real -> real, probe: Vector, template: Vector)
    requires IsRoot(root) && |template| == |probe| && Dot(probe, probe) == 1.0 && Norm(root, template) != 0.0
    ensures Agreement(root, probe, template) <= 1.0
  {
    NormalisedIsUnit(root, template);
    UnitsAgreeAtMostFully(Direction(root, template), probe);
  }

  lemma {:induction false} BestIsTheLargest(root: real -> real, probe: Vector, templates: seq<Vector>)
    requires templates != [] && Dimensions(templates, |probe|) && Directed(root, templates)
    ensures forall i :: 0 <= i < |templates| ==> Agreement(root, probe, templates[i]) <= Best(root, probe, templates)
    ensures exists i :: 0 <= i < |templates| && Agreement(root, probe, templates[i]) == Best(root, probe, templates)
  {
    if |templates| > 1 {
      BestIsTheLargest(root, probe, templates[1..]);
      var i :| 0 <= i < |templates[1..]|
          && Agreement(root, probe, templates[1..][i]) == Best(root, probe, templates[1..]);
      assert templates[1..][i] == templates[i + 1];
      assert templates[0] == templates[0];
      forall j | 0 <= j < |templates| ensures Agreement(root, probe, templates[j]) <= Best(root, probe, templates) {
        if j > 0 {
          assert templates[j] == templates[1..][j - 1];
        }
      }
    } else {
      assert Agreement(root, probe, templates[0]) == Best(root, probe, templates);
    }
  }

  lemma BestIsAtMostOne(root: real -> real, probe: Vector, templates: seq<Vector>)
    requires IsRoot(root) && templates != [] && Dimensions(templates, |probe|) && Directed(root, templates)
    requires Dot(probe, probe) == 1.0
    ensures Best(root, probe, templates) <= 1.0
  {
    BestIsTheLargest(root, probe, templates);
    var i :| 0 <= i < |templates| && Agreement(root, probe, templates[i]) == Best(root, probe, templates);
    AgreementIsAtMostOne(root, probe, templates[i]);
  }

  lemma CentroidAgreesAtMostFully(root: real -> real, probe: Vector, templates: seq<Vector>)
    requires IsRoot(root) && templates != [] && Dimensions(templates, |probe|) && Directed(root, templates)
    requires Dot(probe, probe) == 1.0 && Centroid(root, |probe|, templates).Some?
    ensures Dot(Centroid(root, |probe|, templates).value, probe) <= 1.0
  {
    AgreementIsAtMostOne(root, probe, Divided(Total(root, |probe|, templates), |templates| as real));
  }

  lemma ScoreIsTheLarger(root: real -> real, probe: Vector, templates: seq<Vector>)
    requires templates != [] && Dimensions(templates, |probe|) && Directed(root, templates)
    ensures var score, centroid := Similarity(root, probe, templates), Centroid(root, |probe|, templates);
            && score.Some? && score.value >= Best(root, probe, templates)
            && (score.value == Best(root, probe, templates)
                || (centroid.Some? && score.value == Dot(centroid.value, probe)))
            && (centroid.Some? ==> score.value >= Dot(centroid.value, probe))
  {
  }

  /** The score is at least every single template's, and at most one. */
  lemma ScoreIsBetweenBestAndOne(root: real -> real, probe: Vector, templates: seq<Vector>)
    requires IsRoot(root) && templates != [] && Dimensions(templates, |probe|) && Directed(root, templates)
    requires Dot(probe, probe) == 1.0
    ensures var score := Similarity(root, probe, templates);
            && score.Some? && score.value <= 1.0
            && forall i :: 0 <= i < |templates| ==> Agreement(root, probe, templates[i]) <= score.value
  {
    BestIsTheLargest(root, probe, templates);
    BestIsAtMostOne(root, probe, templates);
    ScoreIsTheLarger(root, probe, templates);
    if Centroid(root, |probe|, templates).Some? {
      CentroidAgreesAtMostFully(root, probe, templates);
    }
  }

  lemma DirectionOfScaled(root: real -> real, k: real, v: Vector)
    requires IsRoot(root) && k > 0.0
    ensures Norm(root, Scaled(k, v)) != 0.0 <==> Norm(root, v) != 0.0
    ensures Norm(root, v) != 0.0 ==> Direction(root, Scaled(k, v)) == Direction(root, v)
  {
    NormalisedIgnoresScale(root, k, v);
  }

  /** A probe that is one of the templates, at any scale, scores one. */
  lemma ProbeAmongTemplatesScoresOne(root: real -> real, probe: Vector, templates: seq<Vector>, i: nat, k: real)
    requires IsRoot(root) && Dimensions(templates, |probe|) && Directed(root, templates)
    requires Dot(probe, probe) == 1.0 && i < |templates| && k > 0.0 && templates[i] == Scaled(k, probe)
    ensures Similarity(root, probe, templates) == Some(1.0)
  {
    ScoreIsBetweenBestAndOne(root, probe, templates);
    DirectionOfScaled(root, k, probe);
    var n := Norm(root, probe);
    NormSquared(root, probe);
    RootsAgree(n, 1.0);
    DotOfDivided(probe, n, probe);
    assert Agreement(root, probe, templates[i]) == 1.0;
  }

  // ---- Scale and order ----

  function ScaledAll(scales: seq<real>, templates: seq<Vector>): (r: seq<Vector>)
    requires |scales| == |templates|
    ensures |r| == |templates| && forall i :: 0 <= i < |r| ==> r[i] == Scaled(scales[i], templates[i])
  {
    if templates == [] then []
    else [Scaled(scales[0], templates[0])] + ScaledAll(scales[1..], templates[1..])
  }

  lemma {:induction false} TotalIgnoresScale(root: real -> real, dimension: nat, scales: seq<real>,
                                             templates: seq<Vector>)
    requires IsRoot(root) && |scales| == |templates| && forall i :: 0 <= i < |scales| ==> scales[i] > 0.0
    requires Dimensions(templates, dimension) && Directed(root, templates)
             && Directed(root, ScaledAll(scales, templates))
    ensures Total(root, dimension, ScaledAll(scales, templates)) == Total(root, dimension, templates)
  {
    if templates != [] {
      var scaled := ScaledAll(scales, templates);
      assert scaled[1..] == ScaledAll(scales[1..], templates[1..]);
      DirectionOfScaled(root, scales[0], templates[0]);
      TotalIgnoresScale(root, dimension, scales[1..], templates[1..]);
    }
  }

  lemma {:induction false} BestIgnoresScale(root: real -> real, probe: Vector, scales: seq<real>,
                                            templates: seq<Vector>)
    requires IsRoot(root) && |scales| == |templates| && forall i :: 0 <= i < |scales| ==> scales[i] > 0.0
    requires templates != [] && Dimensions(templates, |probe|)
    requires Directed(root, templates) && Directed(root, ScaledAll(scales, templates))
    ensures Best(root, probe, ScaledAll(scales, templates)) == Best(root, probe, templates)
  {
    var scaled := ScaledAll(scales, templates);
    DirectionOfScaled(root, scales[0], templates[0]);
    assert Agreement(root, probe, scaled[0]) == Agreement(root, probe, templates[0]);
    if |templates| > 1 {
      assert scaled[1..] == ScaledAll(scales[1..], templates[1..]);
      BestIgnoresScale(root, probe, scales[1..], templates[1..]);
    }
  }

  /** Stored templates need not be of unit length: only their directions count. */
  lemma ScoreIgnoresScale(root: real -> real, probe: Vector, scales: seq<real>, templates: seq<Vector>)
    requires IsRoot(root) && |scales| == |templates| && forall i :: 0 <= i < |scales| ==> scales[i] > 0.0
    requires templates != [] && Dimensions(templates, |probe|)
    ensures Similarity(root, probe, ScaledAll(scales, templates)) == Similarity(root, probe, templates)
  {
    var scaled := ScaledAll(scales, templates);
    forall i | 0 <= i < |templates| ensures Norm(root, scaled[i]) != 0.0 <==> Norm(root, templates[i]) != 0.0 {
      DirectionOfScaled(root, scales[i], templates[i]);
    }
    assert Directed(root, scaled) <==> Directed(root, templates) by {
      assert Directed(root, templates) ==> forall i :: 0 <= i < |scaled| ==> Norm(root, scaled[i]) != 0.0;
      assert Directed(root, scaled) ==> forall i :: 0 <= i < |templates| ==> Norm(root, templates[i]) != 0.0;
    }
    if Directed(root, templates) {
      TotalIgnoresScale(root, |probe|, scales, templates);
      BestIgnoresScale(root, probe, scales, templates);
    }
  }

  function Without(templates: seq<Vector>, i: nat): seq<Vector>
    requires i < |templates|
  {
    if i == 0 then templates[1..] else [templates[0]] + Without(templates[1..], i - 1)
  }

  lemma {:induction false} MultisetWithout(b: seq<Vector>, i: nat)
    requires i < |b|
    ensures multiset(b) == multiset(Without(b, i)) + multiset{b[i]}
  {
    assert b == [b[0]] + b[1..];
    if i > 0 {
      MultisetWithout(b[1..], i - 1);
    }
  }

  lemma {:induction false} WithoutStillFits(root: real -> real, dimension: nat, b: seq<Vector>, i: nat)
    requires i < |b| && Dimensions(b, dimension) && Directed(root, b)
    ensures Dimensions(Without(b, i), dimension) && Directed(root, Without(b, i))
  {
    if i > 0 {
      WithoutStillFits(root, dimension, b[1..], i - 1);
    }
  }

  lemma WithoutIsTheRest(a: seq<Vector>, b: seq<Vector>) returns (i: nat)
    requires a != [] && multiset(a) == multiset(b)
    ensures i < |b| && b[i] == a[0] && multiset(a[1..]) == multiset(Without(b, i))
  {
    assert a[0] in multiset(b);
    i :| 0 <= i < |b| && b[i] == a[0];
    MultisetWithout(a, 0);
    MultisetWithout(b, i);
    OneLess(multiset(a[1..]), multiset(Without(b, i)), a[0]);
  }

  lemma OneLess<T>(m: multiset<T>, n: multiset<T>, x: T)
    requires m + multiset{x} == n + multiset{x}
    ensures m == n
  {
    assert m == (m + multiset{x}) - multiset{x};
    assert n == (n + multiset{x}) - multiset{x};
  }

  lemma SumsRearrange(x: Vector, y: Vector, z: Vector)
    requires |x| == |y| == |z|
    ensures Plus(x, Plus(y, z)) == Plus(y, Plus(x, z))
  {
  }

  lemma TotalOfMore(root: real -> real, dimension: nat, t: Vector, b: seq<Vector>)
    requires |t| == dimension && Norm(root, t) != 0.0 && Dimensions(b, dimension) && Directed(root, b)
    ensures Dimensions([t] + b, dimension) && Directed(root, [t] + b)
    ensures Total(root, dimension, [t] + b) == Plus(Direction(root, t), Total(root, dimension, b))
  {
    assert ([t] + b)[1..] == b;
  }

  lemma {:induction false} TotalWithout(root: real -> real, dimension: nat, b: seq<Vector>, i: nat)
    requires i < |b| && Dimensions(b, dimension) && Directed(root, b)
    requires Dimensions(Without(b, i), dimension) && Directed(root, Without(b, i))
    ensures Total(root, dimension, b) == Plus(Direction(root, b[i]), Total(root, dimension, Without(b, i)))
  {
    if i > 0 {
      var rest := Without(b[1..], i - 1);
      WithoutStillFits(root, dimension, b[1..], i - 1);
      TotalWithout(root, dimension, b[1..], i - 1);
      TotalOfMore(root, dimension, b[0], rest);
      SumsRearrange(Direction(root, b[0]), Direction(root, b[i]), Total(root, dimension, rest));
    }
  }

  lemma {:induction false} TotalIgnoresOrder(root: real -> real, dimension: nat, a: seq<Vector>, b: seq<Vector>)
    requires multiset(a) == multiset(b)
    requires Dimensions(a, dimension) && Directed(root, a) && Dimensions(b, dimension) && Directed(root, b)
    ensures Total(root, dimension, a) == Total(root, dimension, b)
  {
    if a == [] {
      assert |multiset(b)| == 0;
    } else {
      var i := WithoutIsTheRest(a, b);
      WithoutStillFits(root, dimension, b, i);
      TotalIgnoresOrder(root, dimension, a[1..], Without(b, i));
      TotalWithout(root, dimension, b, i);
    }
  }

  lemma BestIgnoresOrder(root: real -> real, probe: Vector, a: seq<Vector>, b: seq<Vector>)
    requires multiset(a) == multiset(b) && a != [] && b != []
    requires Dimensions(a, |probe|) && Directed(root, a) && Dimensions(b, |probe|) && Directed(root, b)
    ensures Best(root, probe, a) <= Best(root, probe, b)
  {
    BestIsTheLargest(root, probe, a);
    BestIsTheLargest(root, probe, b);
    var i :| 0 <= i < |a| && Agreement(root, probe, a[i]) == Best(root, probe, a);
    assert a[i] in multiset(b);
    var j :| 0 <= j < |b| && b[j] == a[i];
  }

  lemma DirectedIgnoresOrder(root: real -> real, a: seq<Vector>, b: seq<Vector>)
    requires multiset(a) == multiset(b) && Directed(root, a)
    ensures Directed(root, b)
  {
    forall j | 0 <= j < |b| ensures Norm(root, b[j]) != 0.0 {
      assert b[j] in multiset(a);
      var i :| 0 <= i < |a| && a[i] == b[j];
    }
  }

  /** The order the templates are stored in does not matter. */
  lemma ScoreIgnoresOrder(root: real -> real, probe: Vector, a: seq<Vector>, b: seq<Vector>)
    requires multiset(a) == multiset(b) && a != [] && b != []
    requires Dimensions(a, |probe|) && Dimensions(b, |probe|)
    ensures Similarity(root, probe, a) == Similarity(root, probe, b)
  {
    assert |multiset(a)| == |a| && |multiset(b)| == |b|;
    if Directed(root, a) {
      DirectedIgnoresOrder(root, a, b);
      TotalIgnoresOrder(root, |probe|, a, b);
      BestIgnoresOrder(root, probe, a, b);
      BestIgnoresOrder(root, probe, b, a);
    } else if Directed(root, b) {
      DirectedIgnoresOrder(root, b, a);
    }
  }

  // ---- The centroid ----

  function SumOfAgreements(root: real -> real, probe: Vector, templates: seq<Vector>): real
    requires Dimensions(templates, |probe|) && Directed(root, templates)
  {
    if templates == [] then 0.0
    else Agreement(root, probe, templates[0]) + SumOfAgreements(root, probe, templates[1..])
  }

  function MeanAgreement(root: real -> real, probe: Vector, templates: seq<Vector>): real
    requires templates != [] && Dimensions(templates, |probe|) && Directed(root, templates)
  {
    SumOfAgreements(root, probe, templates) / |templates| as real
  }

  lemma {:induction false} DotOfTotal(root: real -> real, w: Vector, templates: seq<Vector>)
    requires Dimensions(templates, |w|) && Directed(root, templates)
    ensures Dot(Total(root, |w|, templates), w) == SumOfAgreements(root, w, templates)
  {
    if templates == [] {
      DotOfZero(|w|, w);
    } else {
      DotOfPlus(Direction(root, templates[0]), Total(root, |w|, templates[1..]), w);
      DotOfTotal(root, w, templates[1..]);
    }
  }

  lemma {:induction false} AgreementsAddUpToAtMostTheCount(root: real -> real, w: Vector, templates: seq<Vector>)
    requires IsRoot(root) && Dot(w, w) == 1.0 && Dimensions(templates, |w|) && Directed(root, templates)
    ensures SumOfAgreements(root, w, templates) <= |templates| as real
  {
    if templates != [] {
      AgreementIsAtMostOne(root, w, templates[0]);
      AgreementsAddUpToAtMostTheCount(root, w, templates[1..]);
    }
  }

  lemma MeanOfDivided(root: real -> real, w: Vector, templates: seq<Vector>)
    requires templates != [] && Dimensions(templates, |w|) && Directed(root, templates)
    ensures Dot(Divided(Total(root, |w|, templates), |templates| as real), w) == MeanAgreement(root, w, templates)
  {
    DotOfDivided(Total(root, |w|, templates), |templates| as real, w);
    DotOfTotal(root, w, templates);
  }

  lemma QuotientIsAtMostOne(x: real, n: real)
    requires n > 0.0 && x <= n
    ensures x / n <= 1.0
  {
  }

  /** The mean of directions is never longer than a direction. */
  lemma MeanIsNoLongerThanOne(root: real -> real, dimension: nat, templates: seq<Vector>)
    requires IsRoot(root) && templates != [] && Dimensions(templates, dimension) && Directed(root, templates)
    ensures Norm(root, Divided(Total(root, dimension, templates), |templates| as real)) <= 1.0
  {
    var mean := Divided(Total(root, dimension, templates), |templates| as real);
    var n := Norm(root, mean);
    if n != 0.0 {
      var u := Divided(mean, n);
      NormalisedIsUnit(root, mean);
      NormSquared(root, mean);
      MeanOfDivided(root, u, templates);
      AgreementsAddUpToAtMostTheCount(root, u, templates);
      QuotientIsAtMostOne(SumOfAgreements(root, u, templates), |templates| as real);
      DotCommutes(mean, u);
      DotOfDivided(mean, n, mean);
      QuotientOfSquare(n, Dot(mean, mean));
    }
  }

  lemma PositiveNorm(root: real -> real, v: Vector)
    requires IsRoot(root) && Norm(root, v) != 0.0
    ensures Norm(root, v) > 0.0
  {
    NormSquared(root, v);
  }

  /** The centroid is of length one, and points where the templates do on average: its agreement
    * with anything is their mean agreement, but for one positive factor. */
  lemma CentroidIsTheMeanDirection(root: real -> real, dimension: nat, templates: seq<Vector>) returns (length: real)
    requires IsRoot(root) && templates != [] && Dimensions(templates, dimension) && Directed(root, templates)
    requires Centroid(root, dimension, templates).Some?
    ensures var centroid := Centroid(root, dimension, templates).value;
            && length > 0.0 && |centroid| == dimension && Dot(centroid, centroid) == 1.0
            && forall w: Vector :: |w| == dimension ==>
                 Product(length, Dot(centroid, w)) == MeanAgreement(root, w, templates)
  {
    var mean := Divided(Total(root, dimension, templates), |templates| as real);
    length := Norm(root, mean);
    PositiveNorm(root, mean);
    NormalisedIsUnit(root, mean);
    forall w: Vector | |w| == dimension
      ensures Product(length, Dot(Divided(mean, length), w)) == MeanAgreement(root, w, templates)
    {
      DotOfDirection(root, mean, w);
      MeanOfDivided(root, w, templates);
    }
  }

  lemma DividingByAtMostOne(x: real, n: real)
    requires 0.0 < n <= 1.0 && x >= 0.0
    ensures x / n >= x
  {
    var q := x / n;
    assert q * n == x && q >= 0.0;
    assert q * (1.0 - n) >= 0.0;
  }

  /** The centroid scores at least what the templates score on average, where that is not negative. */
  lemma CentroidIsAtLeastTheMean(root: real -> real, probe: Vector, templates: seq<Vector>)
    requires IsRoot(root) && templates != [] && Dimensions(templates, |probe|) && Directed(root, templates)
    requires MeanAgreement(root, probe, templates) >= 0.0 && Centroid(root, |probe|, templates).Some?
    ensures Dot(Centroid(root, |probe|, templates).value, probe) >= MeanAgreement(root, probe, templates)
  {
    var mean := Divided(Total(root, |probe|, templates), |templates| as real);
    MeanIsNoLongerThanOne(root, |probe|, templates);
    NormSquared(root, mean);
    MeanOfDivided(root, probe, templates);
    DotOfDivided(mean, Norm(root, mean), probe);
    DividingByAtMostOne(MeanAgreement(root, probe, templates), Norm(root, mean));
  }
}
