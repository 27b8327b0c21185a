/** Aggregation of fragments into parcels: the numeric side of the dissolve on
    (`PAMS_PIN`, `Zone_ID`, `SYSTEM`), the pass that copies the sums back and sets
    `CANSPLIT`, the pass that raises zero buildout values to one, and the whole rule
    engine run from labelling to promotion. */
module Aggregation {
  import opened BuildoutFormulas
  import opened FragmentPasses

  /** The dissolve fields. */
  datatype DissolveKey = DissolveKey(pin: string, zoneId: string, system: string)

  /** A row of the dissolved table: its key, `SUM_CZ_BLDOUT` and `SUM_NO3_BLDOUT`, and
      the fields added after the dissolve, `CZ_BLDOUT`, `NO3_BLDOUT` and `CANSPLIT`. */
  datatype Parcel = Parcel(key: DissolveKey, sumCz: int, sumNo3: int,
                           czBuildout: int, no3Buildout: int, canSplit: int)

  function KeyOf(f: Fragment): DissolveKey
  {
    DissolveKey(f.pin, f.zoneId, f.system)
  }

  /** The zoning buildout summed over the fragments with key `k`. */
  function SumCz(s: seq<Fragment>, k: DissolveKey): int
  {
    if s == [] then 0
    else SumCz(s[..|s| - 1], k) + (if KeyOf(s[|s| - 1]) == k then s[|s| - 1].czBuildout else 0)
  }

  /** The nitrate buildout summed over the fragments with key `k`. */
  function SumNo3(s: seq<Fragment>, k: DissolveKey): int
  {
    if s == [] then 0
    else SumNo3(s[..|s| - 1], k) + (if KeyOf(s[|s| - 1]) == k then s[|s| - 1].no3Buildout else 0)
  }

  /** The zoning buildout of the whole fragment table. */
  function TotalFragmentCz(s: seq<Fragment>): int
  {
    if s == [] then 0 else TotalFragmentCz(s[..|s| - 1]) + s[|s| - 1].czBuildout
  }

  /** The nitrate buildout of the whole fragment table. */
  function TotalFragmentNo3(s: seq<Fragment>): int
  {
    if s == [] then 0 else TotalFragmentNo3(s[..|s| - 1]) + s[|s| - 1].no3Buildout
  }

  /** The summed zoning buildout of a dissolved table. */
  function TotalCz(ps: seq<Parcel>): int
  {
    if ps == [] then 0 else ps[0].sumCz + TotalCz(ps[1..])
  }

  /** The summed nitrate buildout of a dissolved table. */
  function TotalNo3(ps: seq<Parcel>): int
  {
    if ps == [] then 0 else ps[0].sumNo3 + TotalNo3(ps[1..])
  }

  /** The zoning sums of the rows of `ps` with key `k`. */
  function CzAt(ps: seq<Parcel>, k: DissolveKey): int
  {
    if ps == [] then 0 else (if ps[0].key == k then ps[0].sumCz else 0) + CzAt(ps[1..], k)
  }

  /** The nitrate sums of the rows of `ps` with key `k`. */
  function No3At(ps: seq<Parcel>, k: DissolveKey): int
  {
    if ps == [] then 0 else (if ps[0].key == k then ps[0].sumNo3 else 0) + No3At(ps[1..], k)
  }

  /** No two rows of a dissolved table share a key. */
  predicate DistinctKeys(ps: seq<Parcel>)
  {
    forall i, j :: 0 <= i < j < |ps| ==> ps[i].key != ps[j].key
  }

  /** The keys of a dissolved table. */
  function KeySet(ps: seq<Parcel>): set<DissolveKey>
  {
    set i | 0 <= i < |ps| :: ps[i].key
  }

  /** The keys of a fragment table. */
  function FragmentKeys(s: seq<Fragment>): set<DissolveKey>
  {
    set i | 0 <= i < |s| :: KeyOf(s[i])
  }

  /** Adds one fragment to a dissolved table: onto the row with its key, or as a new row
      at the end. The fields added after the dissolve start at 0. */
  function Absorb(ps: seq<Parcel>, f: Fragment): (r: seq<Parcel>)
    ensures |ps| <= |r| <= |ps| + 1
  {
    if ps == [] then [Parcel(KeyOf(f), f.czBuildout, f.no3Buildout, 0, 0, 0)]
    else if ps[0].key == KeyOf(f) then
      [ps[0].(sumCz := ps[0].sumCz + f.czBuildout, sumNo3 := ps[0].sumNo3 + f.no3Buildout)] + ps[1..]
    else [ps[0]] + Absorb(ps[1..], f)
  }

  /** The dissolve: one row per distinct key, in the order keys first occur. */
  function Dissolve(s: seq<Fragment>): (r: seq<Parcel>)
    ensures DistinctKeys(r)
    ensures |r| <= |s|
    ensures s != [] ==> r != []
  {
    if s == [] then []
    else
      var d := Dissolve(s[..|s| - 1]);
      AbsorbKeys(d, s[|s| - 1]);
      Absorb(d, s[|s| - 1])
  }

  lemma {:induction false} AbsorbSums(ps: seq<Parcel>, f: Fragment, k: DissolveKey)
    ensures CzAt(Absorb(ps, f), k) == CzAt(ps, k) + (if KeyOf(f) == k then f.czBuildout else 0)
    ensures No3At(Absorb(ps, f), k) == No3At(ps, k) + (if KeyOf(f) == k then f.no3Buildout else 0)
  {
    if ps != [] && ps[0].key != KeyOf(f) {
      AbsorbSums(ps[1..], f, k);
      assert Absorb(ps, f)[1..] == Absorb(ps[1..], f);
    } else if ps != [] {
      assert Absorb(ps, f)[1..] == ps[1..];
    }
  }

  lemma {:induction false} AbsorbTotals(ps: seq<Parcel>, f: Fragment)
    ensures TotalCz(Absorb(ps, f)) == TotalCz(ps) + f.czBuildout
    ensures TotalNo3(Absorb(ps, f)) == TotalNo3(ps) + f.no3Buildout
  {
    if ps != [] && ps[0].key != KeyOf(f) {
      AbsorbTotals(ps[1..], f);
      assert Absorb(ps, f)[1..] == Absorb(ps[1..], f);
    } else if ps != [] {
      assert Absorb(ps, f)[1..] == ps[1..];
    }
  }

  lemma {:induction false} AbsorbKeys(ps: seq<Parcel>, f: Fragment)
    requires DistinctKeys(ps)
    ensures KeySet(Absorb(ps, f)) == KeySet(ps) + {KeyOf(f)}
    ensures DistinctKeys(Absorb(ps, f))
  {
    var r := Absorb(ps, f);
    if ps == [] {
      assert r[0].key == KeyOf(f);
    } else if ps[0].key == KeyOf(f) {
      assert |r| == |ps| && r[0].key == ps[0].key;
      assert forall i :: 0 < i < |r| ==> r[i] == ps[i];
      assert KeySet(r) == KeySet(ps) by {
        forall x | x in KeySet(ps) ensures x in KeySet(r) {
          var i :| 0 <= i < |ps| && ps[i].key == x;
          assert r[i].key == x;
        }
      }
    } else {
      var tail := ps[1..];
      AbsorbKeys(tail, f);
      var rt := Absorb(tail, f);
      assert r == [ps[0]] + rt;
      KeySetCons(ps[0], tail);
      assert ps == [ps[0]] + tail;
      KeySetCons(ps[0], rt);
      forall x | x in KeySet(tail) ensures x != ps[0].key {
        var i :| 0 <= i < |tail| && tail[i].key == x;
        assert tail[i] == ps[i + 1];
      }
      forall i, j | 0 <= i < j < |r| ensures r[i].key != r[j].key {
        if i == 0 {
          assert r[j].key == rt[j - 1].key;
          assert rt[j - 1].key in KeySet(rt);
        } else {
          assert r[i] == rt[i - 1] && r[j] == rt[j - 1];
        }
      }
    }
  }

  lemma KeySetCons(p: Parcel, ps: seq<Parcel>)
    ensures KeySet([p] + ps) == {p.key} + KeySet(ps)
  {
    var r := [p] + ps;
    forall x | x in KeySet(r) ensures x in {p.key} + KeySet(ps) {
      var i :| 0 <= i < |r| && r[i].key == x;
      if i > 0 { assert ps[i - 1].key == x; }
    }
    forall x | x in KeySet(ps) ensures x in KeySet(r) {
      var i :| 0 <= i < |ps| && ps[i].key == x;
      assert r[i + 1].key == x;
    }
    assert r[0].key == p.key;
  }

  /** In a table with distinct keys, the sums recorded under a row's key are that row's. */
  lemma {:induction false} DistinctRowSums(ps: seq<Parcel>, i: nat)
    requires DistinctKeys(ps) && i < |ps|
    ensures CzAt(ps, ps[i].key) == ps[i].sumCz
    ensures No3At(ps, ps[i].key) == ps[i].sumNo3
  {
    var k := ps[i].key;
    if i == 0 {
      AbsentKeySums(ps[1..], k);
    } else {
      DistinctRowSums(ps[1..], i - 1);
    }
  }

  /** A key that no row of `ps` carries has zero sums. */
  lemma {:induction false} AbsentKeySums(ps: seq<Parcel>, k: DissolveKey)
    requires forall i :: 0 <= i < |ps| ==> ps[i].key != k
    ensures CzAt(ps, k) == 0 && No3At(ps, k) == 0
  {
    if ps != [] {
      AbsentKeySums(ps[1..], k);
    }
  }

  /** The dissolve yields exactly one row per distinct key of the fragments, and each
      row's sums are the sums over the fragments with its key. */
  lemma {:induction false} DissolveCorrect(s: seq<Fragment>)
    ensures DistinctKeys(Dissolve(s))
    ensures KeySet(Dissolve(s)) == FragmentKeys(s)
    ensures forall k :: CzAt(Dissolve(s), k) == SumCz(s, k) && No3At(Dissolve(s), k) == SumNo3(s, k)
  {
    if s != [] {
      var init := s[..|s| - 1];
      var last := s[|s| - 1];
      DissolveCorrect(init);
      AbsorbKeys(Dissolve(init), last);
      forall k ensures CzAt(Dissolve(s), k) == SumCz(s, k) && No3At(Dissolve(s), k) == SumNo3(s, k) {
        AbsorbSums(Dissolve(init), last, k);
      }
      assert FragmentKeys(s) == FragmentKeys(init) + {KeyOf(last)} by {
        forall x | x in FragmentKeys(s) ensures x in FragmentKeys(init) + {KeyOf(last)} {
          var i :| 0 <= i < |s| && KeyOf(s[i]) == x;
          if i < |s| - 1 { assert KeyOf(init[i]) == x; }
        }
        forall x | x in FragmentKeys(init) ensures x in FragmentKeys(s) {
          var i :| 0 <= i < |init| && KeyOf(init[i]) == x;
          assert KeyOf(s[i]) == x;
        }
      }
    } else {
      assert FragmentKeys(s) == {};
    }
  }

  /** Every dissolved row carries the fragment sums for its key. */
  lemma DissolvedRowSums(s: seq<Fragment>)
    ensures forall i :: 0 <= i < |Dissolve(s)| ==>
      Dissolve(s)[i].sumCz == SumCz(s, Dissolve(s)[i].key)
      && Dissolve(s)[i].sumNo3 == SumNo3(s, Dissolve(s)[i].key)
  {
    DissolveCorrect(s);
    forall i | 0 <= i < |Dissolve(s)|
      ensures Dissolve(s)[i].sumCz == SumCz(s, Dissolve(s)[i].key)
      ensures Dissolve(s)[i].sumNo3 == SumNo3(s, Dissolve(s)[i].key)
    {
      DistinctRowSums(Dissolve(s), i);
    }
  }

  /** The dissolve neither creates nor loses buildout: the grand totals are preserved. */
  lemma {:induction false} DissolvePreservesTotals(s: seq<Fragment>)
    ensures TotalCz(Dissolve(s)) == TotalFragmentCz(s)
    ensures TotalNo3(Dissolve(s)) == TotalFragmentNo3(s)
  {
    if s != [] {
      DissolvePreservesTotals(s[..|s| - 1]);
      AbsorbTotals(Dissolve(s[..|s| - 1]), s[|s| - 1]);
    }
  }

  /** Every fragment value 0 or at least 2 makes every per-key sum 0 or at least 2. */
  lemma {:induction false} SumsZeroOrAtLeastTwo(s: seq<Fragment>, k: DissolveKey)
    requires forall i :: 0 <= i < |s| ==> ZeroOrAtLeastTwo(s[i].czBuildout) && ZeroOrAtLeastTwo(s[i].no3Buildout)
    ensures ZeroOrAtLeastTwo(SumCz(s, k)) && ZeroOrAtLeastTwo(SumNo3(s, k))
  {
    if s != [] {
      var init := s[..|s| - 1];
      assert forall i :: 0 <= i < |init| ==> init[i] == s[i];
      SumsZeroOrAtLeastTwo(init, k);
    }
  }

  /** The row after the pass that copies the sums into `CZ_BLDOUT` and `NO3_BLDOUT` and
      derives `CANSPLIT` from them. */
  function WithSplitFlag(p: Parcel): (r: Parcel)
    ensures r.key == p.key && r.sumCz == p.sumCz && r.sumNo3 == p.sumNo3
    ensures r.czBuildout == p.sumCz && r.no3Buildout == p.sumNo3
    ensures r.canSplit == 0 || r.canSplit == 1
    ensures r.canSplit == 1 <==> p.sumNo3 + p.sumCz > 1
  {
    p.(no3Buildout := p.sumNo3, czBuildout := p.sumCz, canSplit := CanSplit(p.sumNo3, p.sumCz))
  }

  /** The copy-back pass over the dissolved table. */
  method CopySumsAndFlagSplit(rows: array<Parcel>)
    modifies rows
    ensures forall i :: 0 <= i < rows.Length ==> rows[i] == WithSplitFlag(old(rows[i]))
  {
    var i := 0;
    while i < rows.Length
      invariant 0 <= i <= rows.Length
      invariant forall k :: 0 <= k < i ==> rows[k] == WithSplitFlag(old(rows[k]))
      invariant forall k :: i <= k < rows.Length ==> rows[k] == old(rows[k])
    {
      var row := rows[i];
      row := row.(no3Buildout := row.sumNo3);
      row := row.(czBuildout := row.sumCz);
      row := row.(canSplit := CanSplit(row.no3Buildout, row.czBuildout));
      rows[i] := row;
      i := i + 1;
    }
  }

  /** A buildout value with 0 raised to 1: every parcel holds at least its existing unit. */
  function PromoteValue(v: int): (r: int)
    ensures v == 0 ==> r == 1
    ensures v >= 0 ==> r >= 1
    ensures v != 0 ==> r == v
  {
    if v == 0 then 1 else v
  }

  /** A dissolved row after promotion of both buildout values. */
  function Promote(p: Parcel): (r: Parcel)
    ensures r.(czBuildout := p.czBuildout, no3Buildout := p.no3Buildout) == p
    ensures p.czBuildout >= 0 ==> r.czBuildout >= 1
    ensures p.no3Buildout >= 0 ==> r.no3Buildout >= 1
    ensures p.czBuildout != 0 ==> r.czBuildout == p.czBuildout
    ensures p.no3Buildout != 0 ==> r.no3Buildout == p.no3Buildout
    ensures p.czBuildout == 0 ==> r.czBuildout == 1
    ensures p.no3Buildout == 0 ==> r.no3Buildout == 1
  {
    p.(no3Buildout := PromoteValue(p.no3Buildout), czBuildout := PromoteValue(p.czBuildout))
  }

  /** Promotion pass: rewrites every 0 buildout value of the final table to 1. */
  method PromoteZeros(rows: array<Parcel>)
    modifies rows
    ensures forall i :: 0 <= i < rows.Length ==> rows[i] == Promote(old(rows[i]))
  {
    var i := 0;
    while i < rows.Length
      invariant 0 <= i <= rows.Length
      invariant forall k :: 0 <= k < i ==> rows[k] == Promote(old(rows[k]))
      invariant forall k :: i <= k < rows.Length ==> rows[k] == old(rows[k])
    {
      if rows[i].no3Buildout == 0 {
        rows[i] := rows[i].(no3Buildout := 1);
      }
      if rows[i].czBuildout == 0 {
        rows[i] := rows[i].(czBuildout := 1);
      }
      i := i + 1;
    }
  }

  /** Promoting twice is promoting once, and promotion changes nothing but zeros. */
  lemma PromoteIdempotent(p: Parcel)
    ensures Promote(Promote(p)) == Promote(p)
    ensures p.czBuildout != 0 && p.no3Buildout != 0 ==> Promote(p) == p
  {
  }

  /** Why `CANSPLIT` is taken before promotion: on promoted values the flag would be set
      for every parcel, since two values of at least one always exceed one together. */
  lemma FlagAfterPromotionIsConstant(no3: int, cz: int)
    requires no3 >= 0 && cz >= 0
    ensures CanSplit(PromoteValue(no3), PromoteValue(cz)) == 1
  {
  }

  /** On sums of fragment values (each 0 or at least 2) the flag taken before promotion
      is set exactly when some promoted value exceeds one, that is, exactly when some
      sum is nonzero. */
  lemma FlagBeforePromotion(no3: int, cz: int)
    requires ZeroOrAtLeastTwo(no3) && ZeroOrAtLeastTwo(cz)
    ensures CanSplit(no3, cz) == 1 <==> (PromoteValue(no3) > 1 || PromoteValue(cz) > 1)
    ensures CanSplit(no3, cz) == 1 <==> (no3 != 0 || cz != 0)
  {
  }

  /** The fragment table after labelling and the buildout pass, before resolution. */
  function LabelledWithBuildout(s: seq<Fragment>): (r: seq<Fragment>)
    requires forall i :: 0 <= i < |s| ==> s[i].sewerFid == NoSewerArea ==> s[i].sepDens > 0.0
    ensures |r| == |s|
  {
    seq(|s|, i requires 0 <= i < |s| =>
      var labelled := s[i].(system := SystemLabel(s[i].sewerFid));
      WithBuildout(labelled))
  }

  /** A fragment table ready for the rule engine: non-negative minimum lots (the zone
      tables hold no negative size) and a positive septic density wherever a fragment
      lies outside the sewer service areas. */
  predicate EngineInput(s: seq<Fragment>)
  {
    forall i :: 0 <= i < |s| ==>
      s[i].minLot >= 0.0 && (s[i].sewerFid == NoSewerArea ==> s[i].sepDens > 0.0)
  }

  /** The dissolved table after the copy-back pass and promotion. */
  function Finalized(table: seq<Fragment>): (r: seq<Parcel>)
    ensures |r| == |Dissolve(table)|
  {
    var d := Dissolve(table);
    seq(|d|, i requires 0 <= i < |d| => Promote(WithSplitFlag(d[i])))
  }

  /** Each final row has its key's promoted sums, both values at least one, and the split
      flag set exactly when one of them exceeds one; the keys are distinct and are the
      keys of the fragments. */
  lemma FinalizedRows(table: seq<Fragment>)
    requires forall i :: 0 <= i < |table| ==>
      ZeroOrAtLeastTwo(table[i].czBuildout) && ZeroOrAtLeastTwo(table[i].no3Buildout)
    ensures DistinctKeys(Finalized(table)) && KeySet(Finalized(table)) == FragmentKeys(table)
    ensures forall i :: 0 <= i < |Finalized(table)| ==>
      Finalized(table)[i].czBuildout == PromoteValue(SumCz(table, Finalized(table)[i].key))
      && Finalized(table)[i].no3Buildout == PromoteValue(SumNo3(table, Finalized(table)[i].key))
    ensures forall i :: 0 <= i < |Finalized(table)| ==>
      Finalized(table)[i].czBuildout >= 1 && Finalized(table)[i].no3Buildout >= 1
      && Finalized(table)[i].canSplit
         == (if Finalized(table)[i].czBuildout > 1 || Finalized(table)[i].no3Buildout > 1 then 1 else 0)
  {
    var d := Dissolve(table);
    var r := Finalized(table);
    DissolveCorrect(table);
    DissolvedRowSums(table);
    assert forall i :: 0 <= i < |r| ==> r[i].key == d[i].key;
    assert KeySet(r) == KeySet(d);
    forall i | 0 <= i < |r|
      ensures r[i].czBuildout >= 1 && r[i].no3Buildout >= 1
      ensures r[i].canSplit == (if r[i].czBuildout > 1 || r[i].no3Buildout > 1 then 1 else 0)
    {
      SumsZeroOrAtLeastTwo(table, d[i].key);
      FlagBeforePromotion(d[i].sumNo3, d[i].sumCz);
    }
  }

  /** After labelling, the buildout pass and resolution, every fragment value of an
      engine input is 0 or at least 2. */
  lemma PreparedValues(s: seq<Fragment>)
    requires EngineInput(s)
    ensures forall i :: 0 <= i < |s| ==>
      ZeroOrAtLeastTwo(Resolved(LabelledWithBuildout(s))[i].czBuildout)
      && ZeroOrAtLeastTwo(Resolved(LabelledWithBuildout(s))[i].no3Buildout)
  {
    var l := LabelledWithBuildout(s);
    forall i | 0 <= i < |s|
      ensures ZeroOrAtLeastTwo(l[i].czBuildout) && ZeroOrAtLeastTwo(l[i].no3Buildout)
    {
      BuildoutValuesZeroOrAtLeastTwo(s[i].(system := SystemLabel(s[i].sewerFid)));
    }
    ResolvedKeepsFields(l);
  }

  /** The fragment passes of the rule engine, in order: labelling, buildout, resolution. */
  method PrepareFragments(frags: array<Fragment>)
    requires EngineInput(frags[..])
    modifies frags
    ensures frags[..] == Resolved(LabelledWithBuildout(old(frags[..])))
  {
    ghost var input := frags[..];
    LabelSystems(frags);
    assert forall i :: 0 <= i < frags.Length ==>
      frags[i] == input[i].(system := SystemLabel(input[i].sewerFid));
    ComputeBuildouts(frags);
    assert frags[..] == LabelledWithBuildout(input);
    ResolveMultiSystem(frags);
  }

  /** The rule engine from labelling to promotion: the fragment passes, the dissolve, the
      copy-back pass with the split flag, and promotion. Each final row has both buildout
      values at least one, its split flag set exactly when one of them exceeds one, and
      values equal to the promoted sums over the fragments with its key. */
  method RunRuleEngine(frags: array<Fragment>) returns (result: array<Parcel>)
    requires EngineInput(frags[..])
    modifies frags
    ensures frags[..] == Resolved(LabelledWithBuildout(old(frags[..])))
    ensures fresh(result)
    ensures result[..] == Finalized(frags[..])
    ensures DistinctKeys(result[..]) && KeySet(result[..]) == FragmentKeys(frags[..])
    ensures forall i :: 0 <= i < result.Length ==>
      result[i].czBuildout == PromoteValue(SumCz(frags[..], result[i].key))
      && result[i].no3Buildout == PromoteValue(SumNo3(frags[..], result[i].key))
    ensures forall i :: 0 <= i < result.Length ==>
      result[i].czBuildout >= 1 && result[i].no3Buildout >= 1
      && result[i].canSplit == (if result[i].czBuildout > 1 || result[i].no3Buildout > 1 then 1 else 0)
  {
    PreparedValues(frags[..]);
    PrepareFragments(frags);
    var table := frags[..];
    var parcels := Dissolve(table);
    result := new Parcel[|parcels|](i requires 0 <= i < |parcels| => parcels[i]);
    CopySumsAndFlagSplit(result);
    PromoteZeros(result);
    assert result[..] == Finalized(table);
    FinalizedRows(table);
  }

  /** Two fragments with the same key dissolve into one row holding both sums. */
  lemma DissolveSameKeyPair(x: Fragment, y: Fragment)
    requires KeyOf(x) == KeyOf(y)
    ensures Dissolve([x, y])
      == [Parcel(KeyOf(x), x.czBuildout + y.czBuildout, x.no3Buildout + y.no3Buildout, 0, 0, 0)]
  {
    assert [x, y][..1] == [x];
    assert [x][..0] == [];
    var first := [Parcel(KeyOf(x), x.czBuildout, x.no3Buildout, 0, 0, 0)];
    assert Dissolve([x]) == first;
    assert first[1..] == [];
    assert Dissolve([x, y]) == Absorb(first, y);
  }

  /** The buildout pass on the worked example: the sewered fragment of 90000 square feet
      in a 40000 square foot zone gets 2 and 2, the septic fragment of 5000 gets 0 and 0. */
  lemma ExampleBuildout(a: Fragment, b: Fragment)
    requires a.minLot == 40000.0 && a.shapeArea == 90000.0 && a.sewerFid == 7 && a.sepDens == 1.0
    requires b.minLot == 40000.0 && b.shapeArea == 5000.0 && b.sewerFid == NoSewerArea && b.sepDens == 1.0
    ensures LabelledWithBuildout([a, b])
      == [a.(system := Sewer, czBuildout := 2, no3Buildout := 2),
          b.(system := Septic, czBuildout := 0, no3Buildout := 0)]
  {
    assert (90000.0 / 40000.0).Floor == 2;
  }

  /** The worked example of a two-fragment parcel, one fragment sewered and one septic:
      after the fragment passes they dissolve into one `SEWER/SEPTIC` row with both sums
      2, which neither promotion nor the split flag (set) changes. */
  lemma TwoFragmentExample(a: Fragment, b: Fragment)
    requires a.pin == b.pin && a.zoneId == b.zoneId
    requires a.minLot == 40000.0 && a.shapeArea == 90000.0 && a.sewerFid == 7 && a.sepDens == 1.0
    requires b.minLot == 40000.0 && b.shapeArea == 5000.0 && b.sewerFid == NoSewerArea && b.sepDens == 1.0
    ensures Finalized(Resolved(LabelledWithBuildout([a, b])))
      == [Parcel(DissolveKey(a.pin, a.zoneId, SewerSeptic), 2, 2, 2, 2, 1)]
  {
    ExampleBuildout(a, b);
    var x := a.(system := Sewer, czBuildout := 2, no3Buildout := 2);
    var y := b.(system := Septic, czBuildout := 0, no3Buildout := 0);
    ResolverExamples(x, y);
    DissolveSameKeyPair(x.(system := SewerSeptic), y.(system := SewerSeptic));
  }
}
