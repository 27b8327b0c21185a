/** The three per-fragment rules of the buildout engine: current-zoning buildout,
    nitrate-dilution (septic density) buildout, and the split flag.
    Areas are square feet, septic densities are acres per unit, as exact reals;
    `math.floor` is `.Floor`. */
module BuildoutFormulas {

  /** Square feet in one acre. */
  const SqFtPerAcre: real := 43560.0

  /** A fragment may be split only when it exceeds twice the governing lot size. */
  const SafetyMargin: real := 2.0

  /** A buildout value as produced per fragment: none, or at least two lots. */
  predicate ZeroOrAtLeastTwo(n: int)
  {
    n == 0 || n >= 2
  }

  /** `currentZoning_BO`: preserved land (minimum lot 0) and fragments not larger than
      twice the minimum lot yield 0; otherwise the number of whole minimum lots. */
  function CurrentZoningBuildout(minLot: real, shapeArea: real): (r: int)
    ensures minLot == 0.0 ==> r == 0
    ensures minLot > 0.0 ==> (r != 0 <==> shapeArea > SafetyMargin * minLot)
    ensures minLot > 0.0 && r != 0 ==> r as real * minLot <= shapeArea < (r + 1) as real * minLot
  {
    if minLot == 0.0 then 0
    else if minLot * SafetyMargin < shapeArea then
      FloorQuotientFacts(shapeArea, minLot);
      (shapeArea / minLot).Floor
    else 0
  }

  /** The septic lot size in square feet for a density given in acres. */
  function SepticLotSqFt(septicDensity: real): real
  {
    septicDensity * SqFtPerAcre
  }

  /** The three conditions under which a septic fragment can be split. */
  predicate SepticSplitAllowed(minLot: real, septicDensity: real, shapeArea: real)
  {
    shapeArea > minLot * SafetyMargin
    && shapeArea > SepticLotSqFt(septicDensity) * SafetyMargin
    && minLot != 0.0
  }

  /** `nitrate_BO`: a sewered fragment keeps its current-zoning value; a septic fragment
      yields the number of whole septic lots when it passes both doubled size tests and
      is not preserved land, and 0 otherwise. The source divides by the septic lot size
      without a guard, so a septic fragment must come with a positive density. */
  function NitrateBuildout(minLot: real, septicDensity: real, shapeArea: real,
                           isSeptic: bool, czBuildout: int): (r: int)
    requires isSeptic ==> septicDensity > 0.0
    ensures !isSeptic ==> r == czBuildout
    ensures isSeptic ==> (r != 0 <==> SepticSplitAllowed(minLot, septicDensity, shapeArea))
    ensures isSeptic && r != 0 ==>
      r >= 2 &&
      r as real * SepticLotSqFt(septicDensity) <= shapeArea < (r + 1) as real * SepticLotSqFt(septicDensity)
  {
    if isSeptic then
      if SepticSplitAllowed(minLot, septicDensity, shapeArea) then
        FloorQuotientFacts(shapeArea, SepticLotSqFt(septicDensity));
        (shapeArea / SepticLotSqFt(septicDensity)).Floor
      else 0
    else czBuildout
  }

  /** `canSplit`: 1 when the two buildout values together exceed one unit, else 0. */
  function CanSplit(no3: int, cz: int): (r: int)
    ensures r == 0 || r == 1
    ensures r == 1 <==> no3 + cz > 1
  {
    if no3 + cz > 1 then 1 else 0
  }

  /** The floor of `area / lot` for an area over twice a positive lot is at least two,
      and it is the number of whole lots that fit in the area. */
  lemma FloorQuotientFacts(area: real, lot: real)
    ensures lot > 0.0 && area > SafetyMargin * lot ==>
      (area / lot).Floor >= 2 &&
      (area / lot).Floor as real * lot <= area < ((area / lot).Floor + 1) as real * lot
  {
    if lot > 0.0 && area > SafetyMargin * lot {
      var q := area / lot;
      assert q * lot == area;
      ScaleBounds(q, lot, q, 2.0);
      assert q > 2.0;
      var hi := (q.Floor + 1) as real;
      assert q < hi;
      ScaleBounds(q, lot, q.Floor as real, hi);
      assert area < hi * lot;
    }
  }

  /** Multiplying by a positive factor keeps a value between the same scaled bounds. */
  lemma ScaleBounds(q: real, lot: real, lo: real, hi: real)
    requires lot > 0.0
    ensures lo <= q ==> lo * lot <= q * lot
    ensures q < hi ==> q * lot < hi * lot
    ensures q <= hi ==> q * lot <= hi * lot
  {
    assert (q - lo) * lot == q * lot - lo * lot;
    assert (hi - q) * lot == hi * lot - q * lot;
    if lo <= q { assert (q - lo) * lot >= 0.0; }
    if q < hi { assert (hi - q) * lot > 0.0; }
    if q <= hi { assert (hi - q) * lot >= 0.0; }
  }

  /** The current-zoning value of a fragment with a non-negative minimum lot is 0 or at
      least 2: a fragment never contributes exactly one lot. */
  lemma CurrentZoningZeroOrAtLeastTwo(minLot: real, shapeArea: real)
    requires minLot >= 0.0
    ensures ZeroOrAtLeastTwo(CurrentZoningBuildout(minLot, shapeArea))
  {
    if minLot > 0.0 && minLot * SafetyMargin < shapeArea {
      FloorQuotientFacts(shapeArea, minLot);
    }
  }

  /** The nitrate value computed from a fragment's own current-zoning value is 0 or at
      least 2, whichever system serves it. */
  lemma NitrateZeroOrAtLeastTwo(minLot: real, septicDensity: real, shapeArea: real, isSeptic: bool)
    requires minLot >= 0.0
    requires isSeptic ==> septicDensity > 0.0
    ensures ZeroOrAtLeastTwo(NitrateBuildout(minLot, septicDensity, shapeArea, isSeptic,
                                             CurrentZoningBuildout(minLot, shapeArea)))
  {
    CurrentZoningZeroOrAtLeastTwo(minLot, shapeArea);
  }

  /** A septic fragment that the nitrate rule lets split also splits under current
      zoning: the nitrate conditions include the zoning ones. */
  lemma NitrateSplitImpliesZoningSplit(minLot: real, septicDensity: real, shapeArea: real, isSeptic: bool)
    requires minLot >= 0.0
    requires isSeptic ==> septicDensity > 0.0
    ensures NitrateBuildout(minLot, septicDensity, shapeArea, isSeptic,
                            CurrentZoningBuildout(minLot, shapeArea)) != 0
            ==> CurrentZoningBuildout(minLot, shapeArea) >= 2
  {
    CurrentZoningZeroOrAtLeastTwo(minLot, shapeArea);
  }

  /** Two promoted values of one unit each already exceed one together. */
  lemma CanSplitExamples()
    ensures CanSplit(1, 1) == 1 && CanSplit(0, 0) == 0 && CanSplit(1, 0) == 0 && CanSplit(2, 0) == 1
  {
  }
}
