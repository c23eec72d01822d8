/**
  Focal length of a stack of refractive lenses (lens.py, calcFocalLength and
  calcFocalLengthForSingleLens).

  A lens set is the flat list the source keeps, (n1, r1, n2, r2, ...): the count
  of pair i sits at index 2*i and its radius at 2*i + 1, and any entry may be
  None. The material's index deviation delta is a parameter.
*/
module Focal {
  import opened Wrappers

  /** A lens set as stored: counts and radii interleaved, each possibly None. */
  type LensSet = seq<Option<real>>

  /**
    Why the focal-length computation raises instead of returning a value, with
    delta and the lens entries taken as Python floats.
  */
  datatype FocalError =
    | MissingCount(pair: nat)  // float(None) on the count of a pair whose radius is present
    | ZeroRadius(pair: nat)    // a present radius of 0 gives a single-lens focal length of 0, then num / 0
    | NoFocusingPower          // the accumulated inverse focal length is 0, then 1. / 0

  function Count(ls: LensSet, i: nat): Option<real>
    requires 2 * i + 1 < |ls|
  {
    ls[2 * i]
  }

  function Radius(ls: LensSet, i: nat): Option<real>
    requires 2 * i + 1 < |ls|
  {
    ls[2 * i + 1]
  }

  /** Focal length of one lens of the given radius: f = (radius / 2) / delta. */
  function SingleLensFocalLength(radius: real, delta: real): (f: real)
    requires delta > 0.0
    ensures f * 2.0 * delta == radius
    ensures f > 0.0 <==> radius > 0.0
    ensures f == 0.0 <==> radius == 0.0
  {
    (radius / 2.0) / delta
  }

  /**
    The inverse focal length accumulated over the first n pairs, pair by pair
    as the source's loop does: a pair without a radius is skipped, otherwise its
    count divided by the single-lens focal length is added; the first pair that
    makes Python raise ends the computation with that error.
  */
  function InversePower(ls: LensSet, delta: real, n: nat): (r: Result<real, FocalError>)
    requires delta > 0.0 && 2 * n <= |ls|
    ensures r.Err? ==> r.error.MissingCount? || r.error.ZeroRadius?
    ensures r.Err? ==> r.error.pair < n
  {
    if n == 0 then Ok(0.0)
    else
      match InversePower(ls, delta, n - 1)
      case Err(e) => Err(e)
      case Ok(acc) =>
        var num, rad := Count(ls, n - 1), Radius(ls, n - 1);
        if rad.None? then Ok(acc)
        else if num.None? then Err(MissingCount(n - 1))
        else
          var f := SingleLensFocalLength(rad.value, delta);
          if f == 0.0 then Err(ZeroRadius(n - 1)) else Ok(acc + num.value / f)
  }

  /** The focal length of the whole set: only the first |ls| / 2 pairs are read. */
  function FocalLength(ls: LensSet, delta: real): (r: Result<real, FocalError>)
    requires delta > 0.0
    ensures r.Ok? ==>
      InversePower(ls, delta, |ls| / 2).Ok? && r.value * InversePower(ls, delta, |ls| / 2).value == 1.0
    ensures r == Err(NoFocusingPower) <==> InversePower(ls, delta, |ls| / 2) == Ok(0.0)
    ensures InversePower(ls, delta, |ls| / 2).Err? ==> r == InversePower(ls, delta, |ls| / 2)
  {
    match InversePower(ls, delta, |ls| / 2)
    case Err(e) => Err(e)
    case Ok(p) => if p == 0.0 then Err(NoFocusingPower) else Ok(1.0 / p)
  }

  /** The loop of calcFocalLength (lines 179-193), accumulating ftot_inverse. */
  method CalcFocalLength(ls: LensSet, delta: real) returns (r: Result<real, FocalError>)
    requires delta > 0.0
    ensures r == FocalLength(ls, delta)
  {
    var ftotInverse := 0.0;
    for i := 0 to |ls| / 2
      invariant InversePower(ls, delta, i) == Ok(ftotInverse)
    {
      var num, rad := ls[2 * i], ls[2 * i + 1];
      if rad.Some? {
        if num.None? {
          ErrorPersists(ls, delta, i + 1, |ls| / 2);
          return Err(MissingCount(i));
        }
        var f := SingleLensFocalLength(rad.value, delta);
        if f == 0.0 {
          ErrorPersists(ls, delta, i + 1, |ls| / 2);
          return Err(ZeroRadius(i));
        }
        ftotInverse := ftotInverse + num.value / f;
      }
    }
    if ftotInverse == 0.0 {
      return Err(NoFocusingPower);
    }
    r := Ok(1.0 / ftotInverse);
  }

  /** Once a pair has raised, later pairs are never reached. */
  lemma {:induction false} ErrorPersists(ls: LensSet, delta: real, m: nat, n: nat)
    requires delta > 0.0 && m <= n && 2 * n <= |ls|
    requires InversePower(ls, delta, m).Err?
    ensures InversePower(ls, delta, n) == InversePower(ls, delta, m)
  {
    if m < n {
      ErrorPersists(ls, delta, m, n - 1);
    }
  }

  // ---------------------------------------------------------------------------
  // Reference definition: the thin-lens power 2 * delta / R per lens.

  /** Pair i can be evaluated: if its radius is present, so is its count, and the radius is not 0. */
  predicate Evaluable(ls: LensSet, i: nat)
    requires 2 * i + 1 < |ls|
  {
    Radius(ls, i).Some? ==> Count(ls, i).Some? && Radius(ls, i).value != 0.0
  }

  /** Every one of the first n pairs can be evaluated. */
  predicate WellFormed(ls: LensSet, n: nat)
    requires 2 * n <= |ls|
  {
    forall i: nat :: i < n ==> Evaluable(ls, i)
  }

  /** Focusing power of pair i: count * 2 * delta / radius, or 0 without a radius. */
  function PairPower(ls: LensSet, delta: real, i: nat): real
    requires 2 * i + 1 < |ls|
    requires Evaluable(ls, i)
  {
    if Radius(ls, i).None? then 0.0
    else Count(ls, i).value * 2.0 * delta / Radius(ls, i).value
  }

  /** The sum of the powers of the first n pairs. */
  function TotalPower(ls: LensSet, delta: real, n: nat): real
    requires 2 * n <= |ls|
    requires WellFormed(ls, n)
  {
    if n == 0 then 0.0 else TotalPower(ls, delta, n - 1) + PairPower(ls, delta, n - 1)
  }

  /** Dividing a count by the single-lens focal length is the thin-lens power. */
  lemma PairPowerAgrees(num: real, radius: real, delta: real)
    requires delta > 0.0 && radius != 0.0
    ensures num / SingleLensFocalLength(radius, delta) == num * 2.0 * delta / radius
  {
    var f := SingleLensFocalLength(radius, delta);
    assert f * (2.0 * delta) == radius;
    assert f != 0.0;
    calc {
      num / f;
      == (num * (2.0 * delta)) / (f * (2.0 * delta));
      == num * 2.0 * delta / radius;
    }
  }

  /** Over evaluable pairs the accumulation equals the sum of count_i * 2 * delta / r_i. */
  lemma {:induction false} InversePowerOfWellFormed(ls: LensSet, delta: real, n: nat)
    requires delta > 0.0 && 2 * n <= |ls|
    requires WellFormed(ls, n)
    ensures InversePower(ls, delta, n) == Ok(TotalPower(ls, delta, n))
  {
    if n > 0 {
      var i := n - 1;
      assert WellFormed(ls, i);
      InversePowerOfWellFormed(ls, delta, i);
      assert Evaluable(ls, i);
      if Radius(ls, i).Some? {
        PairPowerIsStep(ls, delta, i);
      }
    }
  }

  /** The first pair that cannot be evaluated is the one the error names. */
  lemma {:induction false} InversePowerFailsAtFirstBad(ls: LensSet, delta: real, n: nat)
    requires delta > 0.0 && 2 * n <= |ls|
    requires !WellFormed(ls, n)
    ensures exists i: nat ::
              && i < n && !Evaluable(ls, i) && WellFormed(ls, i)
              && InversePower(ls, delta, n) == Err(if Count(ls, i).None? then MissingCount(i) else ZeroRadius(i))
  {
    var i := n - 1;
    if WellFormed(ls, i) {
      InversePowerOfWellFormed(ls, delta, i);
      assert !Evaluable(ls, i);
      var f := SingleLensFocalLength(Radius(ls, i).value, delta);
    } else {
      InversePowerFailsAtFirstBad(ls, delta, i);
      var j: nat :| j < i && !Evaluable(ls, j) && WellFormed(ls, j) &&
        InversePower(ls, delta, i) == Err(if Count(ls, j).None? then MissingCount(j) else ZeroRadius(j));
      assert InversePower(ls, delta, n) == InversePower(ls, delta, i);
    }
  }

  /** The step the loop adds for an evaluable pair with a radius is that pair's thin-lens power. */
  lemma PairPowerIsStep(ls: LensSet, delta: real, i: nat)
    requires delta > 0.0 && 2 * i + 1 < |ls|
    requires Evaluable(ls, i) && Radius(ls, i).Some?
    ensures PairPower(ls, delta, i) == Count(ls, i).value / SingleLensFocalLength(Radius(ls, i).value, delta)
  {
    PairPowerAgrees(Count(ls, i).value, Radius(ls, i).value, delta);
  }

  /**
    The accumulation of lines 184-192 fails exactly when some pair cannot be
    evaluated, and otherwise equals the sum of count_i * 2 * delta / r_i over
    the pairs that have a radius.
  */
  lemma InversePowerClosedForm(ls: LensSet, delta: real, n: nat)
    requires delta > 0.0 && 2 * n <= |ls|
    ensures InversePower(ls, delta, n).Ok? <==> WellFormed(ls, n)
    ensures WellFormed(ls, n) ==> InversePower(ls, delta, n) == Ok(TotalPower(ls, delta, n))
  {
    if WellFormed(ls, n) {
      InversePowerOfWellFormed(ls, delta, n);
    } else {
      InversePowerFailsAtFirstBad(ls, delta, n);
    }
  }

  /** The result depends only on the first n pairs. */
  lemma {:induction false} InversePowerPrefix(a: LensSet, b: LensSet, delta: real, n: nat)
    requires delta > 0.0 && 2 * n <= |a| && 2 * n <= |b|
    requires a[..2 * n] == b[..2 * n]
    ensures InversePower(a, delta, n) == InversePower(b, delta, n)
  {
    if n > 0 {
      assert a[..2 * (n - 1)] == a[..2 * n][..2 * (n - 1)];
      assert b[..2 * (n - 1)] == b[..2 * n][..2 * (n - 1)];
      InversePowerPrefix(a, b, delta, n - 1);
      assert a[2 * n - 2] == a[..2 * n][2 * n - 2] && a[2 * n - 1] == a[..2 * n][2 * n - 1];
      assert b[2 * n - 2] == b[..2 * n][2 * n - 2] && b[2 * n - 1] == b[..2 * n][2 * n - 1];
    }
  }

  /** range(len(lensset) // 2) skips a trailing odd element: appending one changes nothing. */
  lemma TrailingEntryIgnored(ls: LensSet, extra: Option<real>, delta: real)
    requires delta > 0.0 && |ls| % 2 == 0
    ensures FocalLength(ls + [extra], delta) == FocalLength(ls, delta)
  {
    var lx := ls + [extra];
    assert |lx| / 2 == |ls| / 2;
    assert lx[..2 * (|ls| / 2)] == ls[..2 * (|ls| / 2)];
    InversePowerPrefix(lx, ls, delta, |ls| / 2);
  }

  /** With no radius present, the inverse stays 0 and 1. / 0 raises. */
  lemma {:induction false} NoRadiusNoFocus(ls: LensSet, delta: real)
    requires delta > 0.0
    requires forall i: nat :: i < |ls| / 2 ==> Radius(ls, i).None?
    ensures FocalLength(ls, delta) == Err(NoFocusingPower)
  {
    InversePowerClosedForm(ls, delta, |ls| / 2);
    NoRadiusZeroPower(ls, delta, |ls| / 2);
  }

  /** Pairs without a radius are always evaluable and add no power. */
  lemma {:induction false} NoRadiusZeroPower(ls: LensSet, delta: real, n: nat)
    requires 2 * n <= |ls|
    requires forall i: nat :: i < n ==> Radius(ls, i).None?
    ensures WellFormed(ls, n) && TotalPower(ls, delta, n) == 0.0
  {
    if n > 0 {
      NoRadiusZeroPower(ls, delta, n - 1);
    }
  }

  /** Every present radius is positive and carries a positive count. */
  predicate PhysicalLenses(ls: LensSet, n: nat)
    requires 2 * n <= |ls|
  {
    forall i: nat :: i < n && Radius(ls, i).Some? ==>
      Radius(ls, i).value > 0.0 && Count(ls, i).Some? && Count(ls, i).value > 0.0
  }

  lemma {:induction false} PhysicalPowerPositive(ls: LensSet, delta: real, n: nat)
    requires delta > 0.0 && 2 * n <= |ls|
    requires PhysicalLenses(ls, n)
    ensures WellFormed(ls, n)
    ensures TotalPower(ls, delta, n) >= 0.0
    ensures (exists i: nat :: i < n && Radius(ls, i).Some?) ==> TotalPower(ls, delta, n) > 0.0
  {
    if n > 0 {
      var i := n - 1;
      PhysicalPowerPositive(ls, delta, i);
      if Radius(ls, i).Some? {
        var c, r := Count(ls, i).value, Radius(ls, i).value;
        assert c * 2.0 * delta > 0.0;
        assert c * 2.0 * delta / r > 0.0;
      }
    }
  }

  /**
    With positive counts, radii and delta, and at least one radius present, the
    focal length is positive and is the reciprocal of the total thin-lens power.
  */
  lemma PhysicalFocalLength(ls: LensSet, delta: real)
    requires delta > 0.0
    requires PhysicalLenses(ls, |ls| / 2)
    requires exists i: nat :: i < |ls| / 2 && Radius(ls, i).Some?
    ensures FocalLength(ls, delta).Ok?
    ensures FocalLength(ls, delta).value > 0.0
    ensures WellFormed(ls, |ls| / 2) && TotalPower(ls, delta, |ls| / 2) > 0.0
    ensures FocalLength(ls, delta).value == 1.0 / TotalPower(ls, delta, |ls| / 2)
  {
    PhysicalPowerPositive(ls, delta, |ls| / 2);
    InversePowerClosedForm(ls, delta, |ls| / 2);
  }

  /** The focal length fails exactly when a pair cannot be evaluated or the total power is 0. */
  lemma FocalLengthFails(ls: LensSet, delta: real)
    requires delta > 0.0
    ensures FocalLength(ls, delta).Err? <==>
      !WellFormed(ls, |ls| / 2) || TotalPower(ls, delta, |ls| / 2) == 0.0
    ensures FocalLength(ls, delta).Ok? ==>
      WellFormed(ls, |ls| / 2) && TotalPower(ls, delta, |ls| / 2) != 0.0 &&
      FocalLength(ls, delta).value == 1.0 / TotalPower(ls, delta, |ls| / 2)
  {
    InversePowerClosedForm(ls, delta, |ls| / 2);
  }
}
