/** Zone classification (`minimumLotSize`): picks a municipality family from the
    zoning dataset's name and fills in each zone row's minimum lot size (square feet)
    and residential density (units per square foot) from that family's fixed table. */
module ZoneClassifier {

  datatype Option<T> = None | Some(value: T)

  /** The municipality families the classifier recognises, plus "none of them". */
  datatype Family = Carney | Hopewell | Oldmans | NoFamily

  /** One line of a code table: a zone code and its minimum lot size. */
  datatype CodeEntry = CodeEntry(code: string, size: real)

  /** A row of the zoning table: `Zone_ID`, `MINLOT`, `RESDENSITY`. */
  datatype ZoneRecord = ZoneRecord(zoneId: string, minLot: real, resDensity: real)

  /** Python's `pattern in text` on strings: `pattern` occurs somewhere in `text`. */
  predicate Contains(text: string, pattern: string)
    decreases |text|
  {
    |pattern| <= |text| && (text[..|pattern|] == pattern || Contains(text[1..], pattern))
  }

  /** `pattern` is the slice of `text` that starts at index `i`. */
  predicate OccursAt(text: string, pattern: string, i: int)
  {
    0 <= i && i + |pattern| <= |text| && text[i..i + |pattern|] == pattern
  }

  /** `Contains` holds exactly when `pattern` is the slice of `text` starting at some
      index. */
  lemma {:induction false} ContainsAt(text: string, pattern: string)
    ensures Contains(text, pattern) <==> exists i :: OccursAt(text, pattern, i)
    decreases |text|
  {
    if pattern == [] {
      assert OccursAt(text, pattern, 0);
    } else if |pattern| <= |text| {
      ContainsAt(text[1..], pattern);
      if Contains(text[1..], pattern) {
        var i :| OccursAt(text[1..], pattern, i);
        assert text[1..][i..i + |pattern|] == text[i + 1..i + 1 + |pattern|];
        assert OccursAt(text, pattern, i + 1);
      }
      if text[..|pattern|] == pattern {
        assert OccursAt(text, pattern, 0);
      }
      if exists i :: OccursAt(text, pattern, i) {
        var i :| OccursAt(text, pattern, i);
        if i > 0 {
          assert text[1..][i - 1..i - 1 + |pattern|] == text[i..i + |pattern|];
          assert OccursAt(text[1..], pattern, i - 1);
        }
      }
    }
  }

  /** The family chosen from the dataset name, tested in the source's order:
      `CARNEY` or `CP`, then `HOPEWELL`, then `OLDMAN`. */
  function SelectFamily(datasetName: string): (f: Family)
    ensures f == Carney <==> Contains(datasetName, "CARNEY") || Contains(datasetName, "CP")
    ensures f == Hopewell <==>
      !(Contains(datasetName, "CARNEY") || Contains(datasetName, "CP")) && Contains(datasetName, "HOPEWELL")
    ensures f == Oldmans ==> Contains(datasetName, "OLDMAN") && !Contains(datasetName, "HOPEWELL")
    ensures f == NoFamily <==>
      !Contains(datasetName, "CARNEY") && !Contains(datasetName, "CP")
      && !Contains(datasetName, "HOPEWELL") && !Contains(datasetName, "OLDMAN")
  {
    if Contains(datasetName, "CARNEY") || Contains(datasetName, "CP") then Carney
    else if Contains(datasetName, "HOPEWELL") then Hopewell
    else if Contains(datasetName, "OLDMAN") then Oldmans
    else NoFamily
  }

  /** The Carneys Point code table: fourteen codes, no negative lot size, and `OS`
      the only preserved land (lot size 0). */
  function CarneyCodes(): (t: seq<CodeEntry>)
    ensures |t| == 14
    ensures forall k :: 0 <= k < |t| ==> t[k].size >= 0.0 && (t[k].size == 0.0 <==> t[k].code == "OS")
  {
    [CodeEntry("RR-2", 30000.0), CodeEntry("RR-1", 18750.0), CodeEntry("AG", 30000.0),
     CodeEntry("LR", 125000.0), CodeEntry("MHR", 5400.0), CodeEntry("HR", 3500.0),
     CodeEntry("LC", 3500.0), CodeEntry("GC", 12500.0), CodeEntry("GCR", 12500.0),
     CodeEntry("LI-R", 120000.0), CodeEntry("GI-R", 250000.0), CodeEntry("IC", 40000.0),
     CodeEntry("LI", 120000.0), CodeEntry("OS", 0.0)]
  }

  /** The Oldmans code table: nine codes, no negative lot size, and `P` the only
      preserved land (lot size 0). */
  function OldmansCodes(): (t: seq<CodeEntry>)
    ensures |t| == 9
    ensures forall k :: 0 <= k < |t| ==> t[k].size >= 0.0 && (t[k].size == 0.0 <==> t[k].code == "P")
  {
    [CodeEntry("AR", 87120.0), CodeEntry("R", 43560.0), CodeEntry("C", 43560.0),
     CodeEntry("VR", 10000.0), CodeEntry("VC", 10000.0), CodeEntry("I", 130680.0),
     CodeEntry("CI", 130680.0), CodeEntry("IPRA", 130680.0), CodeEntry("P", 0.0)]
  }

  /** The codes of a table are pairwise different (they are dictionary keys). */
  predicate DistinctCodes(table: seq<CodeEntry>)
  {
    forall i, j :: 0 <= i < j < |table| ==> table[i].code != table[j].code
  }

  /** The size of the last entry whose code equals `code` exactly, if any. */
  function Lookup(table: seq<CodeEntry>, code: string): (r: Option<real>)
    ensures r.Some? <==> exists k :: 0 <= k < |table| && table[k].code == code
    ensures r.Some? ==> exists k :: 0 <= k < |table| && table[k] == CodeEntry(code, r.value)
  {
    if table == [] then None
    else if table[|table| - 1].code == code then Some(table[|table| - 1].size)
    else
      var r := Lookup(table[..|table| - 1], code);
      assert forall k :: 0 <= k < |table| - 1 ==> table[..|table| - 1][k] == table[k];
      r
  }

  /** Residential density from a minimum lot size: its reciprocal, or 0 for preserved land. */
  function Density(size: real): (d: real)
    ensures d == 0.0 <==> size == 0.0
    ensures size != 0.0 ==> d * size == 1.0
  {
    if size != 0.0 then 1.0 / size else size
  }

  /** A zone row whose density agrees with its minimum lot size. */
  predicate DensityConsistent(z: ZoneRecord)
  {
    z.resDensity == Density(z.minLot)
  }

  /** One row after a code-table pass: a known code takes the table's lot size and the
      density derived from it; an unknown code leaves the row as it was. */
  function ApplyCodeTable(table: seq<CodeEntry>, z: ZoneRecord): (r: ZoneRecord)
    ensures r.zoneId == z.zoneId
    ensures Lookup(table, z.zoneId).None? ==> r == z
    ensures Lookup(table, z.zoneId).Some? ==>
      DensityConsistent(r) && exists k :: 0 <= k < |table| && table[k] == CodeEntry(z.zoneId, r.minLot)
  {
    match Lookup(table, z.zoneId)
    case Some(size) => z.(minLot := size, resDensity := Density(size))
    case None => z
  }

  /** One row after classification under `family`. */
  function ClassifyRow(family: Family, z: ZoneRecord): (r: ZoneRecord)
    ensures r.zoneId == z.zoneId
    ensures family == Hopewell ==> r.minLot == z.minLot && DensityConsistent(r)
    ensures family == NoFamily ==> r == z
  {
    match family
    case Carney => ApplyCodeTable(CarneyCodes(), z)
    case Oldmans => ApplyCodeTable(OldmansCodes(), z)
    case Hopewell => z.(resDensity := Density(z.minLot))
    case NoFamily => z
  }

  /** Updates every row of the zoning table in place, as the source's update cursor does. */
  method ClassifyZones(datasetName: string, rows: array<ZoneRecord>)
    modifies rows
    ensures forall i :: 0 <= i < rows.Length ==>
      rows[i] == ClassifyRow(SelectFamily(datasetName), old(rows[i]))
  {
    var family := SelectFamily(datasetName);
    match family
    case Carney => ApplyCodeTableToRows(CarneyCodes(), rows);
    case Oldmans => ApplyCodeTableToRows(OldmansCodes(), rows);
    case Hopewell => DeriveDensities(rows);
    case NoFamily =>
  }

  /** The Carney and Oldmans branch: for each row, walk the whole table and overwrite
      the lot size and density whenever an entry's code equals the row's zone code. */
  method ApplyCodeTableToRows(table: seq<CodeEntry>, rows: array<ZoneRecord>)
    modifies rows
    ensures forall i :: 0 <= i < rows.Length ==> rows[i] == ApplyCodeTable(table, old(rows[i]))
  {
    var i := 0;
    while i < rows.Length
      invariant 0 <= i <= rows.Length
      invariant forall k :: 0 <= k < i ==> rows[k] == ApplyCodeTable(table, old(rows[k]))
      invariant forall k :: i <= k < rows.Length ==> rows[k] == old(rows[k])
    {
      var row := rows[i];
      var j := 0;
      while j < |table|
        invariant 0 <= j <= |table|
        invariant row == ApplyCodeTable(table[..j], rows[i])
      {
        assert table[..j + 1][..j] == table[..j];
        if table[j].code == row.zoneId {
          row := row.(minLot := table[j].size, resDensity := Density(table[j].size));
        }
        j := j + 1;
      }
      assert table[..|table|] == table;
      rows[i] := row;
      i := i + 1;
    }
  }

  /** The Hopewell branch: keep every row's lot size and derive its density from it. */
  method DeriveDensities(rows: array<ZoneRecord>)
    modifies rows
    ensures forall i :: 0 <= i < rows.Length ==>
      rows[i] == old(rows[i]).(resDensity := Density(old(rows[i]).minLot))
  {
    var i := 0;
    while i < rows.Length
      invariant 0 <= i <= rows.Length
      invariant forall k :: 0 <= k < i ==> rows[k] == old(rows[k]).(resDensity := Density(old(rows[k]).minLot))
      invariant forall k :: i <= k < rows.Length ==> rows[k] == old(rows[k])
    {
      var size := rows[i].minLot;
      if size != 0.0 {
        rows[i] := rows[i].(resDensity := 1.0 / rows[i].minLot);
      } else {
        rows[i] := rows[i].(resDensity := size);
      }
      i := i + 1;
    }
  }

  /** Both fixed tables have pairwise different codes, so a matched row takes the one
      size listed for its code. */
  lemma TablesHaveDistinctCodes()
    ensures DistinctCodes(CarneyCodes()) && DistinctCodes(OldmansCodes())
  {
    CarneyCodesDistinct();
    OldmansCodesDistinct();
  }

  lemma CarneyCodesDistinct()
    ensures DistinctCodes(CarneyCodes())
  {
    var t := CarneyCodes();
    assert t == [CodeEntry("RR-2", 30000.0), CodeEntry("RR-1", 18750.0), CodeEntry("AG", 30000.0),
      CodeEntry("LR", 125000.0), CodeEntry("MHR", 5400.0), CodeEntry("HR", 3500.0),
      CodeEntry("LC", 3500.0), CodeEntry("GC", 12500.0), CodeEntry("GCR", 12500.0),
      CodeEntry("LI-R", 120000.0), CodeEntry("GI-R", 250000.0), CodeEntry("IC", 40000.0),
      CodeEntry("LI", 120000.0), CodeEntry("OS", 0.0)];
  }

  lemma OldmansCodesDistinct()
    ensures DistinctCodes(OldmansCodes())
  {
    var t := OldmansCodes();
    assert t == [CodeEntry("AR", 87120.0), CodeEntry("R", 43560.0), CodeEntry("C", 43560.0),
      CodeEntry("VR", 10000.0), CodeEntry("VC", 10000.0), CodeEntry("I", 130680.0),
      CodeEntry("CI", 130680.0), CodeEntry("IPRA", 130680.0), CodeEntry("P", 0.0)];
  }

  /** In a table with distinct codes, the looked-up size is the size of the entry
      carrying the code. */
  lemma {:induction false} LookupDistinct(table: seq<CodeEntry>, k: nat)
    requires DistinctCodes(table) && k < |table|
    ensures Lookup(table, table[k].code) == Some(table[k].size)
  {
    if k < |table| - 1 {
      var init := table[..|table| - 1];
      assert init[k] == table[k];
      LookupDistinct(init, k);
    }
  }

  /** A row once classified is consistent: the density is 0 exactly when the lot size
      is 0 and is its reciprocal otherwise. This holds for every row under Hopewell,
      and for rows with a known code under Carney and Oldmans. */
  lemma ClassifiedRowConsistent(family: Family, z: ZoneRecord)
    requires family == Hopewell
      || (family == Carney && Lookup(CarneyCodes(), z.zoneId).Some?)
      || (family == Oldmans && Lookup(OldmansCodes(), z.zoneId).Some?)
    ensures DensityConsistent(ClassifyRow(family, z))
    ensures ClassifyRow(family, z).resDensity == 0.0 <==> ClassifyRow(family, z).minLot == 0.0
  {
  }

  /** Classifying a table a second time changes nothing. */
  lemma ClassifyIdempotent(family: Family, z: ZoneRecord)
    ensures ClassifyRow(family, ClassifyRow(family, z)) == ClassifyRow(family, z)
  {
  }

  /** Examples from the Carneys Point table: `OS` is preserved land with density 0,
      `RR-2` takes 30000 square feet; a code outside the table is left alone. */
  lemma CarneyExamples(z: ZoneRecord)
    ensures ClassifyRow(Carney, ZoneRecord("OS", z.minLot, z.resDensity)) == ZoneRecord("OS", 0.0, 0.0)
    ensures ClassifyRow(Carney, ZoneRecord("RR-2", z.minLot, z.resDensity)).minLot == 30000.0
  {
    TablesHaveDistinctCodes();
    LookupDistinct(CarneyCodes(), 13);
    LookupDistinct(CarneyCodes(), 0);
  }
}
