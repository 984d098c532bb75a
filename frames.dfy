/**
 * The frame stages of `process_shapefile` (ProcessingSHP.py:416-441) on the
 * geometry column: repair or drop invalid geometries, explode multi-part
 * geometries, drop repeated WKT, keep areas of at least 80.
 */
module Frames {

  import opened Geometry

  // ---------------------------------------------------------------------------
  // Boolean masks

  /** `frame[mask]`: the rows whose mask entry is true, in order. */
  function Mask<T>(rows: seq<T>, keep: seq<bool>): seq<T>
    requires |keep| == |rows|
  {
    if rows == [] then []
    else
      Mask(rows[..|rows| - 1], keep[..|keep| - 1])
        + (if keep[|keep| - 1] then [rows[|rows| - 1]] else [])
  }

  /** The positions of the true entries of a mask, in increasing order. */
  function KeptIndices(keep: seq<bool>): (ix: seq<nat>)
    ensures forall j :: 0 <= j < |ix| ==> ix[j] < |keep| && keep[ix[j]]
    ensures forall j, k :: 0 <= j < k < |ix| ==> ix[j] < ix[k]
    ensures forall i :: 0 <= i < |keep| && keep[i] ==> i in ix
  {
    if keep == [] then []
    else KeptIndices(keep[..|keep| - 1]) + (if keep[|keep| - 1] then [|keep| - 1] else [])
  }

  /** Masking keeps exactly the rows at the true positions, in their order. */
  lemma {:induction false} MaskSpec<T>(rows: seq<T>, keep: seq<bool>)
    requires |keep| == |rows|
    ensures |Mask(rows, keep)| == |KeptIndices(keep)|
    ensures forall j :: 0 <= j < |KeptIndices(keep)| ==> Mask(rows, keep)[j] == rows[KeptIndices(keep)[j]]
  {
    if rows != [] {
      var n := |rows| - 1;
      var before, ix := Mask(rows[..n], keep[..n]), KeptIndices(keep[..n]);
      MaskSpec(rows[..n], keep[..n]);
      assert Mask(rows, keep) == before + (if keep[n] then [rows[n]] else []);
      assert KeptIndices(keep) == ix + (if keep[n] then [n] else []);
      forall j | 0 <= j < |KeptIndices(keep)| ensures Mask(rows, keep)[j] == rows[KeptIndices(keep)[j]] {
        if j < |ix| {
          assert Mask(rows, keep)[j] == before[j] == rows[..n][ix[j]];
        }
      }
    }
  }

  /** An all-true mask keeps the frame as it is. */
  lemma {:induction false} MaskAllTrue<T>(rows: seq<T>, keep: seq<bool>)
    requires |keep| == |rows| && forall i :: 0 <= i < |keep| ==> keep[i]
    ensures Mask(rows, keep) == rows
  {
    if rows != [] {
      var n := |rows| - 1;
      MaskAllTrue(rows[..n], keep[..n]);
      assert rows[..n] + [rows[n]] == rows;
    }
  }

  // ---------------------------------------------------------------------------
  // Stage 3: repair invalid geometries

  /** Which repaired geometries are valid. */
  function ValidAfterRepair<G>(ops: GeoOps<G>, rows: seq<G>): (keep: seq<bool>)
    ensures |keep| == |rows|
  {
    seq(|rows|, i requires 0 <= i < |rows| => ops.isValid(ops.repair(rows[i])))
  }

  /**
   * If some geometry is invalid, every geometry is repaired and the repaired
   * geometries that are still invalid are dropped; otherwise nothing changes.
   */
  function Repair<G>(ops: GeoOps<G>, rows: seq<G>): seq<G>
  {
    if forall i :: 0 <= i < |rows| ==> ops.isValid(rows[i]) then rows
    else
      var repaired := seq(|rows|, i requires 0 <= i < |rows| => ops.repair(rows[i]));
      var invalid := seq(|repaired|, i requires 0 <= i < |repaired| => !ops.isValid(repaired[i]));
      if exists i :: 0 <= i < |invalid| && invalid[i] then
        Mask(repaired, seq(|invalid|, i requires 0 <= i < |invalid| => !invalid[i]))
      else repaired
  }

  /**
   * Repair leaves an all-valid frame alone; otherwise it keeps exactly the
   * rows whose repaired geometry is valid, repaired, in their order. Either
   * way every geometry that comes out is valid.
   */
  lemma RepairSpec<G>(ops: GeoOps<G>, rows: seq<G>)
    ensures (forall i :: 0 <= i < |rows| ==> ops.isValid(rows[i])) ==> Repair(ops, rows) == rows
    ensures (exists i :: 0 <= i < |rows| && !ops.isValid(rows[i])) ==>
      var ix := KeptIndices(ValidAfterRepair(ops, rows));
      |Repair(ops, rows)| == |ix|
      && forall j :: 0 <= j < |ix| ==> Repair(ops, rows)[j] == ops.repair(rows[ix[j]])
    ensures forall j :: 0 <= j < |Repair(ops, rows)| ==> ops.isValid(Repair(ops, rows)[j])
  {
    if exists i :: 0 <= i < |rows| && !ops.isValid(rows[i]) {
      RepairMasks(ops, rows);
      var repaired := seq(|rows|, i requires 0 <= i < |rows| => ops.repair(rows[i]));
      MaskSpec(repaired, ValidAfterRepair(ops, rows));
    }
  }

  /** When some geometry is invalid, repair is the mask of valid repaired geometries. */
  lemma RepairMasks<G>(ops: GeoOps<G>, rows: seq<G>)
    requires exists i :: 0 <= i < |rows| && !ops.isValid(rows[i])
    ensures Repair(ops, rows)
      == Mask(seq(|rows|, i requires 0 <= i < |rows| => ops.repair(rows[i])), ValidAfterRepair(ops, rows))
  {
    var repaired := seq(|rows|, i requires 0 <= i < |rows| => ops.repair(rows[i]));
    var invalid := seq(|repaired|, i requires 0 <= i < |repaired| => !ops.isValid(repaired[i]));
    var keep := ValidAfterRepair(ops, rows);
    assert seq(|invalid|, i requires 0 <= i < |invalid| => !invalid[i]) == keep;
    if !exists i :: 0 <= i < |invalid| && invalid[i] {
      MaskAllTrue(repaired, keep);
    }
  }

  // ---------------------------------------------------------------------------
  // Stage 4: explode multi-part geometries

  /** `explode(index_parts=False)`: each row replaced by its parts, in order. */
  function Explode<G>(ops: GeoOps<G>, rows: seq<G>): seq<G>
  {
    if rows == [] then []
    else Explode(ops, rows[..|rows| - 1]) + ops.parts(rows[|rows| - 1])
  }

  lemma {:induction false} ExplodeAppend<G>(ops: GeoOps<G>, a: seq<G>, b: seq<G>)
    ensures Explode(ops, a + b) == Explode(ops, a) + Explode(ops, b)
  {
    if b != [] {
      var n := |b| - 1;
      assert (a + b)[..|a + b| - 1] == a + b[..n];
      ExplodeAppend(ops, a, b[..n]);
    } else {
      assert a + b == a;
    }
  }

  /** The parts of row `i` sit, in order, between the parts of the rows before and after it. */
  lemma ExplodeAt<G>(ops: GeoOps<G>, rows: seq<G>, i: nat)
    requires i < |rows|
    ensures Explode(ops, rows) == Explode(ops, rows[..i]) + ops.parts(rows[i]) + Explode(ops, rows[i + 1..])
  {
    assert rows == rows[..i] + [rows[i]] + rows[i + 1..];
    ExplodeAppend(ops, rows[..i] + [rows[i]], rows[i + 1..]);
    ExplodeAppend(ops, rows[..i], [rows[i]]);
    assert Explode(ops, [rows[i]]) == ops.parts(rows[i]) by {
      assert [rows[i]][..0] == [];
    }
  }

  /** A frame of single-part geometries explodes to itself. */
  lemma {:induction false} ExplodeSingleParts<G>(ops: GeoOps<G>, rows: seq<G>)
    requires forall i :: 0 <= i < |rows| ==> ops.parts(rows[i]) == [rows[i]]
    ensures Explode(ops, rows) == rows
  {
    if rows != [] {
      var n := |rows| - 1;
      ExplodeSingleParts(ops, rows[..n]);
      assert rows[..n] + [rows[n]] == rows;
    }
  }

  // ---------------------------------------------------------------------------
  // Stage 5: drop repeated geometries

  function Wkts<G>(ops: GeoOps<G>, rows: seq<G>): (keys: seq<string>)
    ensures |keys| == |rows|
  {
    seq(|rows|, i requires 0 <= i < |rows| => ops.wkt(rows[i]))
  }

  /** `keep='first'`: a row is kept when no earlier row has its key. */
  function FirstOccurrences(keys: seq<string>): (keep: seq<bool>)
    ensures |keep| == |keys|
  {
    seq(|keys|, i requires 0 <= i < |keys| => keys[i] !in keys[..i])
  }

  /** `drop_duplicates(subset='wkt', keep='first')` */
  function DropDuplicates<G>(ops: GeoOps<G>, rows: seq<G>): seq<G>
  {
    Mask(rows, FirstOccurrences(Wkts(ops, rows)))
  }

  /** Dropping duplicates keeps, in order, the rows whose WKT no earlier row has. */
  lemma DropDuplicatesKeepsFirsts<G>(ops: GeoOps<G>, rows: seq<G>)
    ensures var ix := KeptIndices(FirstOccurrences(Wkts(ops, rows)));
      |DropDuplicates(ops, rows)| == |ix|
      && (forall j :: 0 <= j < |ix| ==> DropDuplicates(ops, rows)[j] == rows[ix[j]])
      && (forall j, i :: 0 <= j < |ix| && 0 <= i < ix[j] ==> ops.wkt(rows[i]) != ops.wkt(rows[ix[j]]))
  {
    var keys := Wkts(ops, rows);
    var ix := KeptIndices(FirstOccurrences(keys));
    MaskSpec(rows, FirstOccurrences(keys));
    forall j, i | 0 <= j < |ix| && 0 <= i < ix[j] ensures ops.wkt(rows[i]) != ops.wkt(rows[ix[j]]) {
      assert keys[..ix[j]][i] == keys[i];
    }
  }

  /** No two rows left after dropping duplicates have the same WKT. */
  lemma DropDuplicatesDistinct<G>(ops: GeoOps<G>, rows: seq<G>)
    ensures forall j, k :: 0 <= j < k < |DropDuplicates(ops, rows)| ==>
      ops.wkt(DropDuplicates(ops, rows)[j]) != ops.wkt(DropDuplicates(ops, rows)[k])
  {
    DropDuplicatesKeepsFirsts(ops, rows);
    var ix := KeptIndices(FirstOccurrences(Wkts(ops, rows)));
    forall j, k | 0 <= j < k < |DropDuplicates(ops, rows)|
      ensures ops.wkt(DropDuplicates(ops, rows)[j]) != ops.wkt(DropDuplicates(ops, rows)[k])
    {
      assert ix[j] < ix[k];
    }
  }

  /** Every WKT of the input is still the WKT of some row. */
  lemma DropDuplicatesCoversAll<G>(ops: GeoOps<G>, rows: seq<G>)
    ensures forall i :: 0 <= i < |rows| ==>
      exists j :: 0 <= j < |DropDuplicates(ops, rows)| && ops.wkt(DropDuplicates(ops, rows)[j]) == ops.wkt(rows[i])
  {
    var keys := Wkts(ops, rows);
    var keep := FirstOccurrences(keys);
    var ix := KeptIndices(keep);
    var r := DropDuplicates(ops, rows);
    MaskSpec(rows, keep);
    forall i | 0 <= i < |rows|
      ensures exists j :: 0 <= j < |r| && ops.wkt(r[j]) == ops.wkt(rows[i])
    {
      FirstWithKey(keys, i);
      var f :| 0 <= f <= i && keep[f] && keys[f] == keys[i];
      var j :| 0 <= j < |ix| && ix[j] == f;
      assert r[j] == rows[f];
    }
  }

  /** Every key has a first occurrence at or before any of its positions. */
  lemma FirstWithKey(keys: seq<string>, i: nat)
    requires i < |keys|
    ensures exists f :: 0 <= f <= i && FirstOccurrences(keys)[f] && keys[f] == keys[i]
    decreases i
  {
    if keys[i] in keys[..i] {
      var f :| 0 <= f < i && keys[..i][f] == keys[i];
      FirstWithKey(keys, f);
    }
  }

  // ---------------------------------------------------------------------------
  // Stage 6: area filter

  /** The smallest area kept. */
  const MinArea: real := 80.0

  function AreaKeep<G>(ops: GeoOps<G>, rows: seq<G>): (keep: seq<bool>)
    ensures |keep| == |rows|
  {
    seq(|rows|, i requires 0 <= i < |rows| => ops.area(rows[i]) >= MinArea)
  }

  /** `gdf[gdf['areacalc'] >= 80]` */
  function AreaFilter<G>(ops: GeoOps<G>, rows: seq<G>): seq<G>
  {
    Mask(rows, AreaKeep(ops, rows))
  }

  /**
   * The area filter keeps, in order, exactly the rows whose area is at least
   * 80 (an area of exactly 80 is kept).
   */
  lemma AreaFilterSpec<G>(ops: GeoOps<G>, rows: seq<G>)
    ensures var ix := KeptIndices(AreaKeep(ops, rows));
      |AreaFilter(ops, rows)| == |ix|
      && (forall j :: 0 <= j < |ix| ==> AreaFilter(ops, rows)[j] == rows[ix[j]])
      && (forall i :: 0 <= i < |rows| ==> (i in ix <==> ops.area(rows[i]) >= 80.0))
    ensures forall j :: 0 <= j < |AreaFilter(ops, rows)| ==> ops.area(AreaFilter(ops, rows)[j]) >= 80.0
  {
    MaskSpec(rows, AreaKeep(ops, rows));
  }

  /** Stages 3 to 6: repair, explode, drop duplicates, filter by area. */
  function Cleaned<G>(ops: GeoOps<G>, rows: seq<G>): seq<G>
  {
    AreaFilter(ops, DropDuplicates(ops, Explode(ops, Repair(ops, rows))))
  }

  /** Every geometry that comes out of the cleaning has an area of at least 80, and no two have the same WKT. */
  lemma CleanedRowsDistinctAndLarge<G>(ops: GeoOps<G>, rows: seq<G>)
    ensures var out := Cleaned(ops, rows);
      (forall j :: 0 <= j < |out| ==> ops.area(out[j]) >= 80.0)
      && (forall j, k :: 0 <= j < k < |out| ==> ops.wkt(out[j]) != ops.wkt(out[k]))
  {
    var d := DropDuplicates(ops, Explode(ops, Repair(ops, rows)));
    DropDuplicatesDistinct(ops, Explode(ops, Repair(ops, rows)));
    AreaFilterSpec(ops, d);
    var ix := KeptIndices(AreaKeep(ops, d));
    forall j, k | 0 <= j < k < |AreaFilter(ops, d)|
      ensures ops.wkt(AreaFilter(ops, d)[j]) != ops.wkt(AreaFilter(ops, d)[k])
    {
      assert ix[j] < ix[k];
    }
  }

  /** A mask of valid geometries keeps only valid geometries. */
  lemma MaskKeepsValid<G>(ops: GeoOps<G>, rows: seq<G>, keep: seq<bool>)
    requires |keep| == |rows|
    requires forall i :: 0 <= i < |rows| ==> ops.isValid(rows[i])
    ensures forall j :: 0 <= j < |Mask(rows, keep)| ==> ops.isValid(Mask(rows, keep)[j])
  {
    MaskSpec(rows, keep);
  }

  /** When the parts of a valid geometry are valid, exploding a frame of valid geometries gives valid geometries. */
  lemma {:induction false} ExplodeKeepsValid<G>(ops: GeoOps<G>, rows: seq<G>)
    requires forall g, p :: ops.isValid(g) && p in ops.parts(g) ==> ops.isValid(p)
    requires forall i :: 0 <= i < |rows| ==> ops.isValid(rows[i])
    ensures forall j :: 0 <= j < |Explode(ops, rows)| ==> ops.isValid(Explode(ops, rows)[j])
  {
    if rows != [] {
      var n := |rows| - 1;
      ExplodeKeepsValid(ops, rows[..n]);
      var before, last := Explode(ops, rows[..n]), ops.parts(rows[n]);
      assert Explode(ops, rows) == before + last;
      forall j | 0 <= j < |before + last| ensures ops.isValid((before + last)[j]) {
        if j >= |before| {
          assert last[j - |before|] in last;
        }
      }
    }
  }

  /**
   * No invalid geometry reaches the area filter, so every geometry that
   * comes out of the cleaning is valid, provided the parts `explode` yields
   * of a valid geometry are valid.
   */
  lemma CleanedRowsValid<G>(ops: GeoOps<G>, rows: seq<G>)
    requires forall g, p :: ops.isValid(g) && p in ops.parts(g) ==> ops.isValid(p)
    ensures forall j :: 0 <= j < |Cleaned(ops, rows)| ==> ops.isValid(Cleaned(ops, rows)[j])
  {
    var repaired := Repair(ops, rows);
    assert forall j :: 0 <= j < |repaired| ==> ops.isValid(repaired[j]) by {
      RepairSpec(ops, rows);
    }
    var exploded := Explode(ops, repaired);
    assert forall j :: 0 <= j < |exploded| ==> ops.isValid(exploded[j]) by {
      ExplodeKeepsValid(ops, repaired);
    }
    var distinct := DropDuplicates(ops, exploded);
    assert forall j :: 0 <= j < |distinct| ==> ops.isValid(distinct[j]) by {
      MaskKeepsValid(ops, exploded, FirstOccurrences(Wkts(ops, exploded)));
    }
    MaskKeepsValid(ops, distinct, AreaKeep(ops, distinct));
  }
}
