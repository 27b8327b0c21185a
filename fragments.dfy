/** The passes over the parcel-fragment table: sewer/septic labelling, the per-fragment
    buildout pass, and the reconciliation of parcels whose fragments disagree on their
    system. Each pass updates the table in place, row by row. */
module FragmentPasses {
  import opened BuildoutFormulas

  /** The three values the `SYSTEM` text field takes. */
  const Septic: string := "SEPTIC"
  const Sewer: string := "SEWER"
  const SewerSeptic: string := "SEWER/SEPTIC"

  /** The identity join writes -1 into `FID_muni_sewer_service_area` when a fragment
      lies outside every sewer service area. */
  const NoSewerArea: int := -1

  /** A row of the fragment table after the overlays: parcel pin (`PAMS_PIN`), zone,
      `MINLOT`, `Shape_Area`, the sewer join id, `SEPDENS` (acres per septic unit),
      `SYSTEM`, `CZ_BLDOUT` and `NO3_BLDOUT`. */
  datatype Fragment = Fragment(
    pin: string,
    zoneId: string,
    minLot: real,
    shapeArea: real,
    sewerFid: int,
    sepDens: real,
    system: string,
    czBuildout: int,
    no3Buildout: int)

  /** The label given to a fragment from its sewer join id. */
  function SystemLabel(sewerFid: int): (l: string)
    ensures l == Septic <==> sewerFid == NoSewerArea
    ensures l == Septic || l == Sewer
  {
    if sewerFid == NoSewerArea then Septic else Sewer
  }

  /** The buildout pass treats a fragment as septic only for the exact label `SEPTIC`. */
  predicate IsSeptic(system: string)
  {
    system == Septic
  }

  /** A freshly labelled fragment reads as septic exactly when it lies outside every
      sewer service area; neither `SEWER` nor `SEWER/SEPTIC` reads as septic. */
  lemma OnlySepticIsSeptic(sewerFid: int)
    ensures IsSeptic(SystemLabel(sewerFid)) <==> sewerFid == NoSewerArea
    ensures !IsSeptic(Sewer) && !IsSeptic(SewerSeptic)
  {
  }

  /** Labelling pass: every fragment gets `SEPTIC` exactly when it has no sewer service
      area, `SEWER` otherwise; nothing else changes. */
  method LabelSystems(frags: array<Fragment>)
    modifies frags
    ensures forall i :: 0 <= i < frags.Length ==>
      frags[i] == old(frags[i]).(system := SystemLabel(old(frags[i]).sewerFid))
  {
    var i := 0;
    while i < frags.Length
      invariant 0 <= i <= frags.Length
      invariant forall k :: 0 <= k < i ==> frags[k] == old(frags[k]).(system := SystemLabel(old(frags[k]).sewerFid))
      invariant forall k :: i <= k < frags.Length ==> frags[k] == old(frags[k])
    {
      if frags[i].sewerFid == NoSewerArea {
        frags[i] := frags[i].(system := Septic);
      } else {
        frags[i] := frags[i].(system := Sewer);
      }
      i := i + 1;
    }
  }

  /** What the buildout pass demands of a fragment: a septic one has a positive density. */
  predicate BuildoutReady(f: Fragment)
  {
    IsSeptic(f.system) ==> f.sepDens > 0.0
  }

  /** A fragment with its two buildout values filled in. */
  function WithBuildout(f: Fragment): (r: Fragment)
    requires BuildoutReady(f)
    ensures r.(czBuildout := f.czBuildout, no3Buildout := f.no3Buildout) == f
    ensures f.minLot > 0.0 ==> (r.czBuildout != 0 <==> f.shapeArea > SafetyMargin * f.minLot)
    ensures f.minLot == 0.0 ==> r.czBuildout == 0 && r.no3Buildout == 0
    ensures !IsSeptic(f.system) ==> r.no3Buildout == r.czBuildout
    ensures IsSeptic(f.system) ==>
      (r.no3Buildout != 0 <==> SepticSplitAllowed(f.minLot, f.sepDens, f.shapeArea))
  {
    var cz := CurrentZoningBuildout(f.minLot, f.shapeArea);
    f.(czBuildout := cz,
       no3Buildout := NitrateBuildout(f.minLot, f.sepDens, f.shapeArea, IsSeptic(f.system), cz))
  }

  /** Buildout pass: sets `CZ_BLDOUT` and `NO3_BLDOUT` of every fragment. */
  method ComputeBuildouts(frags: array<Fragment>)
    requires forall i :: 0 <= i < frags.Length ==> BuildoutReady(frags[i])
    modifies frags
    ensures forall i :: 0 <= i < frags.Length ==> BuildoutReady(old(frags[i])) && frags[i] == WithBuildout(old(frags[i]))
  {
    var i := 0;
    while i < frags.Length
      invariant 0 <= i <= frags.Length
      invariant forall k :: 0 <= k < i ==> BuildoutReady(old(frags[k])) && frags[k] == WithBuildout(old(frags[k]))
      invariant forall k :: i <= k < frags.Length ==> frags[k] == old(frags[k])
    {
      var row := frags[i];
      var isSeptic := false;
      if row.system == Septic {
        isSeptic := true;
      }
      var cz := CurrentZoningBuildout(row.minLot, row.shapeArea);
      var no3 := NitrateBuildout(row.minLot, row.sepDens, row.shapeArea, isSeptic, cz);
      frags[i] := row.(czBuildout := cz, no3Buildout := no3);
      i := i + 1;
    }
  }

  /** After the buildout pass, both values of a fragment with a non-negative minimum lot
      are 0 or at least 2, and a nonzero nitrate value comes with a nonzero zoning value. */
  lemma BuildoutValuesZeroOrAtLeastTwo(f: Fragment)
    requires BuildoutReady(f) && f.minLot >= 0.0
    ensures ZeroOrAtLeastTwo(WithBuildout(f).czBuildout)
    ensures ZeroOrAtLeastTwo(WithBuildout(f).no3Buildout)
    ensures WithBuildout(f).no3Buildout != 0 ==> WithBuildout(f).czBuildout != 0
  {
    CurrentZoningZeroOrAtLeastTwo(f.minLot, f.shapeArea);
    NitrateZeroOrAtLeastTwo(f.minLot, f.sepDens, f.shapeArea, IsSeptic(f.system));
    NitrateSplitImpliesZoningSplit(f.minLot, f.sepDens, f.shapeArea, IsSeptic(f.system));
  }

  /** The distinct `SYSTEM` labels carried by the fragments of parcel `pin`. */
  function LabelsOf(s: seq<Fragment>, pin: string): set<string>
  {
    if s == [] then {}
    else LabelsOf(s[..|s| - 1], pin) + (if s[|s| - 1].pin == pin then {s[|s| - 1].system} else {})
  }

  /** A label belongs to the parcel's set exactly when one of its fragments carries it. */
  lemma {:induction false} LabelsOfMembers(s: seq<Fragment>, pin: string, x: string)
    ensures x in LabelsOf(s, pin) <==> exists k :: 0 <= k < |s| && s[k].pin == pin && s[k].system == x
  {
    if s != [] {
      var init := s[..|s| - 1];
      LabelsOfMembers(init, pin, x);
      assert forall k :: 0 <= k < |init| ==> init[k] == s[k];
      if x in LabelsOf(s, pin) && x !in LabelsOf(init, pin) {
        assert s[|s| - 1].pin == pin && s[|s| - 1].system == x;
      }
    }
  }

  /** Extending a prefix by one fragment adds that fragment's label to its parcel only. */
  lemma LabelsOfExtend(s: seq<Fragment>, i: nat, pin: string)
    requires i < |s|
    ensures LabelsOf(s[..i + 1], pin)
      == LabelsOf(s[..i], pin) + (if s[i].pin == pin then {s[i].system} else {})
  {
    assert s[..i + 1][..i] == s[..i];
  }

  /** Parcel `pin` spans more than one system label. */
  predicate MultiSystem(s: seq<Fragment>, pin: string)
  {
    |LabelsOf(s, pin)| > 1
  }

  /** Two fragments of parcel `pin` carry different labels. */
  predicate Disagree(s: seq<Fragment>, pin: string)
  {
    exists i, j :: 0 <= i < |s| && 0 <= j < |s| && s[i].pin == pin && s[j].pin == pin
      && s[i].system != s[j].system
  }

  /** A fragment as the resolver leaves it: relabelled `SEWER/SEPTIC` when its parcel
      spans several systems, untouched otherwise. */
  function ResolveFragment(s: seq<Fragment>, f: Fragment): Fragment
  {
    if MultiSystem(s, f.pin) then f.(system := SewerSeptic) else f
  }

  /** The whole table after the resolver. */
  function Resolved(s: seq<Fragment>): (r: seq<Fragment>)
    ensures |r| == |s|
    ensures forall i :: 0 <= i < |s| ==> r[i] == ResolveFragment(s, s[i])
  {
    seq(|s|, i requires 0 <= i < |s| => ResolveFragment(s, s[i]))
  }

  /** The label set of a parcel as the grouping pass hands it over: absent pins have none. */
  function LabelsIn(labels: map<string, set<string>>, pin: string): set<string>
  {
    if pin in labels then labels[pin] else {}
  }

  /** Grouping pass: one walk over the table collects, for every pin, the set of
      `SYSTEM` labels of its fragments. */
  method CollectLabels(frags: array<Fragment>) returns (labels: map<string, set<string>>)
    ensures forall p :: LabelsIn(labels, p) == LabelsOf(frags[..], p)
  {
    labels := map[];
    var i := 0;
    while i < frags.Length
      invariant 0 <= i <= frags.Length
      invariant forall p :: LabelsIn(labels, p) == LabelsOf(frags[..i], p)
    {
      var pin := frags[i].pin;
      var next := labels[pin := LabelsIn(labels, pin) + {frags[i].system}];
      forall p
        ensures LabelsIn(next, p) == LabelsOf(frags[..i + 1], p)
      {
        LabelsOfExtend(frags[..], i, p);
        assert frags[..][..i + 1] == frags[..i + 1] && frags[..][..i] == frags[..i];
      }
      labels := next;
      i := i + 1;
    }
    assert frags[..frags.Length] == frags[..];
  }

  /** Multi-system resolution, grouping first and rewriting second: the grouping pass
      collects the label set of every parcel, then every fragment of a parcel whose set
      has more than one element is relabelled. */
  method ResolveMultiSystem(frags: array<Fragment>)
    modifies frags
    ensures frags[..] == Resolved(old(frags[..]))
  {
    ghost var s := frags[..];
    var labels := CollectLabels(frags);
    var j := 0;
    while j < frags.Length
      invariant 0 <= j <= frags.Length
      invariant forall k :: 0 <= k < j ==> frags[k] == ResolveFragment(s, s[k])
      invariant forall k :: j <= k < frags.Length ==> frags[k] == s[k]
    {
      var pin := frags[j].pin;
      assert LabelsIn(labels, pin) == LabelsOf(s, pin);
      if |LabelsIn(labels, pin)| > 1 {
        frags[j] := frags[j].(system := SewerSeptic);
      }
      j := j + 1;
    }
  }

  /** A set with two different members has more than one element. */
  lemma TwoMembers(labels: set<string>, a: string, b: string)
    requires a in labels && b in labels && a != b
    ensures |labels| > 1
  {
    var rest := labels - {a};
    assert b in rest;
    assert |rest| == |labels| - 1;
  }

  /** A set with more than one element has two different members. */
  lemma TwoMembersOf(labels: set<string>) returns (a: string, b: string)
    requires |labels| > 1
    ensures a in labels && b in labels && a != b
  {
    a :| a in labels;
    var rest := labels - {a};
    assert |rest| == |labels| - 1;
    b :| b in rest;
  }

  /** The resolver's test on the size of the label set is the same as finding two
      fragments of the parcel that disagree. */
  lemma MultiSystemIffDisagree(s: seq<Fragment>, pin: string)
    ensures MultiSystem(s, pin) <==> Disagree(s, pin)
  {
    var labels := LabelsOf(s, pin);
    if MultiSystem(s, pin) {
      var a, b := TwoMembersOf(labels);
      LabelsOfMembers(s, pin, a);
      LabelsOfMembers(s, pin, b);
      var i :| 0 <= i < |s| && s[i].pin == pin && s[i].system == a;
      var j :| 0 <= j < |s| && s[j].pin == pin && s[j].system == b;
      assert s[i].system != s[j].system;
    }
    if Disagree(s, pin) {
      var i, j :| 0 <= i < |s| && 0 <= j < |s| && s[i].pin == pin && s[j].pin == pin
        && s[i].system != s[j].system;
      LabelsOfMembers(s, pin, s[i].system);
      LabelsOfMembers(s, pin, s[j].system);
      TwoMembers(labels, s[i].system, s[j].system);
    }
  }

  /** After resolution every fragment of a parcel carries the same label; a parcel that
      had two disagreeing fragments is labelled `SEWER/SEPTIC` throughout, any other
      parcel keeps its fragments as they were. */
  lemma ResolvedUniform(s: seq<Fragment>)
    ensures forall i, j ::
      0 <= i < |s| && 0 <= j < |s| && Resolved(s)[i].pin == Resolved(s)[j].pin ==>
        Resolved(s)[i].system == Resolved(s)[j].system
    ensures forall i :: 0 <= i < |s| && Disagree(s, s[i].pin) ==> Resolved(s)[i] == s[i].(system := SewerSeptic)
    ensures forall i :: 0 <= i < |s| && !Disagree(s, s[i].pin) ==> Resolved(s)[i] == s[i]
  {
    var r := Resolved(s);
    forall i | 0 <= i < |s|
      ensures Disagree(s, s[i].pin) ==> r[i] == s[i].(system := SewerSeptic)
      ensures !Disagree(s, s[i].pin) ==> r[i] == s[i]
    {
      MultiSystemIffDisagree(s, s[i].pin);
    }
    forall i, j | 0 <= i < |s| && 0 <= j < |s| && r[i].pin == r[j].pin
      ensures r[i].system == r[j].system
    {
      MultiSystemIffDisagree(s, s[i].pin);
    }
  }

  /** The resolver leaves pins, zones, areas and buildout values as they were and only
      ever writes `SEWER/SEPTIC`. */
  lemma ResolvedKeepsFields(s: seq<Fragment>)
    ensures forall i :: 0 <= i < |s| ==>
      Resolved(s)[i] == s[i].(system := Resolved(s)[i].system)
      && (Resolved(s)[i].system == s[i].system || Resolved(s)[i].system == SewerSeptic)
  {
  }

  /** A second resolution pass changes nothing. */
  lemma ResolveIdempotent(s: seq<Fragment>)
    ensures Resolved(Resolved(s)) == Resolved(s)
  {
    var r := Resolved(s);
    ResolvedUniform(s);
    forall i | 0 <= i < |r|
      ensures Resolved(r)[i] == r[i]
    {
      MultiSystemIffDisagree(r, r[i].pin);
    }
  }

  /** Two fragments of one parcel, one in a sewer area and one outside, both end up
      `SEWER/SEPTIC`; two septic fragments of one parcel are left alone. */
  lemma ResolverExamples(a: Fragment, b: Fragment)
    requires a.pin == b.pin
    ensures a.system == Sewer && b.system == Septic ==>
      Resolved([a, b]) == [a.(system := SewerSeptic), b.(system := SewerSeptic)]
    ensures a.system == Septic && b.system == Septic ==> Resolved([a, b]) == [a, b]
  {
    MultiSystemIffDisagree([a, b], a.pin);
    assert [a, b][0] == a && [a, b][1] == b;
  }
}
