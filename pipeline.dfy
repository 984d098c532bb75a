/**
 * `process_shapefile` (ProcessingSHP.py:348-502): read a shapefile, clean its
 * geometries, resolve the city code, build the four-column result table and
 * name the CSV it is written to, reporting progress along the way.
 *
 * The worker process that reads the shapefile, and the pickle it hands back,
 * are an input (`LoadOutcome`) together with the number of times the parent
 * found the worker still running; the progress callback is the trace of
 * `(percent, message)` pairs the method returns.
 */
module Pipeline {

  import opened Wrappers
  import opened PyText
  import opened PyDict
  import opened CityCodes
  import opened CityResolver
  import opened Paths
  import opened Geometry
  import opened Boundary
  import opened Frames

  /** How reading the shapefile in the worker process, and loading what it wrote, ended. */
  datatype LoadOutcome<G> =
    | Loaded(frame: GeoFrame<G>)
      /** the worker reported an exception with this text */
    | ReadFailed(error: string)
      /** the worker reported nothing */
    | NoReport
      /** the worker succeeded but its pickle could not be loaded */
    | UnpickleFailed(error: string)

  /** The result frame: four text columns, in this order. */
  datatype ResultTable = ResultTable(
    cityId: seq<string>,
    areacalc: seq<string>,
    boundaries: seq<string>,
    buildId: seq<string>)

  /** `(True, csv_path, result_df)` or `(False, message, None)`. */
  datatype Outcome = Success(csvPath: string, table: ResultTable) | Failure(message: string)

  function Min(a: int, b: int): int
  {
    if a <= b then a else b
  }

  const BuildIdPrefix: string := "202510"

  /** The build id of the row at position `i` (counting from 0) of the output. */
  function BuildId(stem: string, i: nat): string
  {
    BuildIdPrefix + stem + "_" + DecimalString(i + 1)
  }

  /**
   * The city id the run uses: a non-empty supplied one, else the code the
   * file stem resolves to, unless that is missing or empty.
   */
  function CityIdFor(mapping: Dict<string, string>, cityId: Option<string>, stem: string): (r: Option<string>)
    ensures r.Some? ==> r.value != []
  {
    if cityId.Some? && cityId.value != [] then cityId
    else
      match GetCityCode(mapping, stem)
      case Some(code) => if code != [] then Some(code) else None
      case None => None
  }

  /**
   * The geometries the boundary text is read from: reprojected to WGS 84 when
   * the frame has a CRS and reprojecting succeeds, otherwise a copy.
   */
  function BoundaryGeometries<G>(ops: GeoOps<G>, rows: seq<G>, hasCrs: bool): (r: seq<G>)
    ensures |r| == |rows|
  {
    if hasCrs && ops.toWgs84.Some? then seq(|rows|, i requires 0 <= i < |rows| => ops.toWgs84.value(rows[i]))
    else rows
  }

  function BoundaryText<G>(ops: GeoOps<G>, g: G): string
  {
    Join(BoundaryPairs(ops.shape(g), ops.fixed6), ';')
  }

  /** The result table for the cleaned rows. */
  function Table<G>(ops: GeoOps<G>, rows: seq<G>, hasCrs: bool, code: string, stem: string): ResultTable
  {
    var projected := BoundaryGeometries(ops, rows, hasCrs);
    ResultTable(
      seq(|rows|, _ => code),
      seq(|rows|, i requires 0 <= i < |rows| => ops.realText(ops.area(rows[i]))),
      seq(|rows|, i requires 0 <= i < |rows| => BoundaryText(ops, projected[i])),
      seq(|rows|, i requires 0 <= i < |rows| => BuildId(stem, i)))
  }

  /** What `process_shapefile(path, callback, city_id)` returns. */
  function Process<G>(path: string, load: LoadOutcome<G>, cityId: Option<string>, mapping: Dict<string, string>, ops: GeoOps<G>)
    : Outcome
  {
    match load
    case ReadFailed(error) => Failure("读取失败: " + error)
    case NoReport => Failure("读取失败: unknown")
    case UnpickleFailed(error) => Failure("加载数据失败: " + error)
    case Loaded(frame) => ProcessFrame(path, frame, cityId, mapping, ops)
  }

  /** What it returns once the frame is loaded (steps 3 to 9). */
  function ProcessFrame<G>(path: string, frame: GeoFrame<G>, cityId: Option<string>, mapping: Dict<string, string>, ops: GeoOps<G>)
    : Outcome
  {
    var stem := Stem(path);
    var rows := Cleaned(ops, frame.geometry);
    match CityIdFor(mapping, cityId, stem)
    case None => Failure("无法识别城市编码: " + stem)
    case Some(code) => Success(CsvPath(path), Table(ops, rows, frame.hasCrs, code, stem))
  }

  // ---------------------------------------------------------------------------
  // The progress trace

  /** Percentages stay within 0..100 and never go down: each report is at least the one before it. */
  predicate Rising(progress: seq<(int, string)>)
    decreases |progress|
  {
    progress == [] ||
    (var n := |progress|;
     0 <= progress[n - 1].0 <= 100
     && (n >= 2 ==> progress[n - 2].0 <= progress[n - 1].0)
     && Rising(progress[..n - 1]))
  }

  /** `Rising` is the same as: every percentage in range, and the sequence of percentages sorted. */
  lemma {:induction false} RisingIsSorted(progress: seq<(int, string)>)
    ensures Rising(progress) <==>
      (forall i :: 0 <= i < |progress| ==> 0 <= progress[i].0 <= 100)
      && (forall i, j :: 0 <= i < j < |progress| ==> progress[i].0 <= progress[j].0)
    decreases |progress|
  {
    if progress != [] {
      var n := |progress|;
      var init := progress[..n - 1];
      RisingIsSorted(init);
      assert forall i :: 0 <= i < n - 1 ==> init[i] == progress[i];
    }
  }

  /** `progress_callback(pct, message)` */
  method Notify(progress: seq<(int, string)>, pct: int, message: string) returns (out: seq<(int, string)>)
    requires Rising(progress) && 0 <= pct <= 100
    requires progress != [] ==> progress[|progress| - 1].0 <= pct
    ensures out == progress + [(pct, message)]
    ensures Rising(out)
  {
    out := progress + [(pct, message)];
    assert out[..|out| - 1] == progress;
  }

  /** The last report says 100%: the run finished. */
  predicate Completed(progress: seq<(int, string)>)
  {
    progress != [] && progress[|progress| - 1].0 == 100
  }

  /** Reports made later do not change the ones made earlier. */
  lemma PrefixTransitive(a: seq<(int, string)>, b: seq<(int, string)>, c: seq<(int, string)>)
    requires a <= b && b <= c
    ensures a <= c
  {
    assert forall i :: 0 <= i < |a| ==> a[i] == b[i] == c[i];
  }

  /**
   * The reports of steps 1 and 2 when the worker was found running `polls`
   * times: 5 and 10 with their messages, then one empty report per poll whose
   * percentage goes up by one from 11 and stops at 24.
   */
  function ReadingTrace(polls: nat): seq<(int, string)>
  {
    [(5, "准备文件..."), (10, "正在后台读取 Shapefile...")] + seq(polls, k => (Min(11 + k, 24), ""))
  }

  /** Steps 1 and 2 up to the end of the polling loop. */
  method StartReading(polls: nat) returns (progress: seq<(int, string)>)
    ensures progress == ReadingTrace(polls)
    ensures Rising(progress) && progress[|progress| - 1].0 <= 24
  {
    progress := Notify([], 5, "准备文件...");
    progress := Notify(progress, 10, "正在后台读取 Shapefile...");
    var progressPct := 10;
    var k := 0;
    while k < polls
      invariant 0 <= k <= polls && progressPct == Min(10 + k, 24)
      invariant progress == ReadingTrace(k)
      invariant Rising(progress) && progress[|progress| - 1].0 == progressPct
    {
      progressPct := Min(progressPct + 1, 24);
      progress := Notify(progress, progressPct, "");
      k := k + 1;
    }
  }

  /**
   * The reports of steps 3 and 4: a fixed message before each stage and,
   * after it, the number of geometries it left (and `original_count` after
   * the repair).
   */
  function RepairReports<G>(ops: GeoOps<G>, rows: seq<G>): seq<(int, string)>
  {
    var repaired := Repair(ops, rows);
    [(25, "读取完成 - " + DecimalString(|rows|) + " 个要素"),
     (28, "修正几何图形..."),
     (35, "修正几何完成 " + DecimalString(|repaired|) + "/" + DecimalString(|rows|) + " 要素"),
     (38, "多部件转单部件..."),
     (45, "多部件处理完成 " + DecimalString(|Explode(ops, repaired)|) + " 个要素")]
  }

  /** The reports of steps 5 and 6 on the exploded rows. */
  function FilterReports<G>(ops: GeoOps<G>, exploded: seq<G>): seq<(int, string)>
  {
    var distinct := DropDuplicates(ops, exploded);
    [(48, "删除重复几何..."),
     (55, "重复删除完成 " + DecimalString(|distinct|) + " 个要素"),
     (58, "面积筛选..."),
     (65, "面积筛选完成 " + DecimalString(|AreaFilter(ops, distinct)|) + " 个要素")]
  }

  /** The nine reports of steps 3 to 6. */
  function CleaningReports<G>(ops: GeoOps<G>, rows: seq<G>): seq<(int, string)>
  {
    RepairReports(ops, rows) + FilterReports(ops, Explode(ops, Repair(ops, rows)))
  }

  /** The reports of steps 8 and 9. */
  const TableReports: seq<(int, string)> :=
    [(78, "处理边界信息..."), (85, "边界处理完成"), (90, "生成最终数据..."), (100, "处理完成！")]

  /** The reports of step 7: 68, and then 75 with the city id when there is one. */
  function CodeReports(code: Option<string>): seq<(int, string)>
  {
    [(68, "获取城市编码...")] + if code.Some? then [(75, "城市编码: " + code.value)] else []
  }

  /**
   * The reports of steps 3 to 9 on a loaded frame, after those of `progress`:
   * the table reports only come when a city id is found.
   */
  function LoadedTrace<G>(progress: seq<(int, string)>, path: string, frame: GeoFrame<G>, cityId: Option<string>,
                          mapping: Dict<string, string>, ops: GeoOps<G>): seq<(int, string)>
  {
    var code := CityIdFor(mapping, cityId, Stem(path));
    progress + CleaningReports(ops, frame.geometry) + CodeReports(code) + (if code.Some? then TableReports else [])
  }

  /** Steps 3 and 4 with their reports. */
  method RepairAndExplode<G>(ops: GeoOps<G>, rows: seq<G>, progress: seq<(int, string)>)
    returns (gdf: seq<G>, out: seq<(int, string)>)
    requires Rising(progress) && progress != [] && progress[|progress| - 1].0 <= 25
    ensures gdf == Explode(ops, Repair(ops, rows))
    ensures out == progress + RepairReports(ops, rows)
    ensures Rising(out) && out[|out| - 1].0 == 45
  {
    var originalCount := |rows|;
    out := Notify(progress, 25, "读取完成 - " + DecimalString(originalCount) + " 个要素");
    out := Notify(out, 28, "修正几何图形...");
    gdf := Repair(ops, rows);
    out := Notify(out, 35, "修正几何完成 " + DecimalString(|gdf|) + "/" + DecimalString(originalCount) + " 要素");
    out := Notify(out, 38, "多部件转单部件...");
    gdf := Explode(ops, gdf);
    out := Notify(out, 45, "多部件处理完成 " + DecimalString(|gdf|) + " 个要素");
  }

  /** Steps 5 and 6 with their reports. */
  method DropAndFilter<G>(ops: GeoOps<G>, exploded: seq<G>, progress: seq<(int, string)>)
    returns (gdf: seq<G>, out: seq<(int, string)>)
    requires Rising(progress) && progress != [] && progress[|progress| - 1].0 <= 48
    ensures gdf == AreaFilter(ops, DropDuplicates(ops, exploded))
    ensures out == progress + FilterReports(ops, exploded)
    ensures Rising(out) && out[|out| - 1].0 == 65
  {
    out := Notify(progress, 48, "删除重复几何...");
    gdf := DropDuplicates(ops, exploded);
    out := Notify(out, 55, "重复删除完成 " + DecimalString(|gdf|) + " 个要素");
    out := Notify(out, 58, "面积筛选...");
    gdf := AreaFilter(ops, gdf);
    out := Notify(out, 65, "面积筛选完成 " + DecimalString(|gdf|) + " 个要素");
  }

  /** Steps 3 to 6 with their reports. */
  method CleanFrame<G>(ops: GeoOps<G>, rows: seq<G>, progress: seq<(int, string)>)
    returns (gdf: seq<G>, out: seq<(int, string)>)
    requires Rising(progress) && progress != [] && progress[|progress| - 1].0 <= 25
    ensures gdf == Cleaned(ops, rows)
    ensures out == progress + CleaningReports(ops, rows)
    ensures Rising(out) && |out| == |progress| + 9 && progress <= out
    ensures out[|out| - 1].0 == 65
  {
    var exploded, repairedOut := RepairAndExplode(ops, rows, progress);
    gdf, out := DropAndFilter(ops, exploded, repairedOut);
    assert out == progress + (RepairReports(ops, rows) + FilterReports(ops, exploded));
  }

  /** `gdf_4326.geometry.apply(get_boundary_str)` */
  method BoundaryColumn<G>(ops: GeoOps<G>, projected: seq<G>) returns (boundaries: seq<string>)
    ensures boundaries == seq(|projected|, i requires 0 <= i < |projected| => BoundaryText(ops, projected[i]))
  {
    boundaries := [];
    var i := 0;
    while i < |projected|
      invariant 0 <= i <= |projected|
      invariant boundaries == seq(i, j requires 0 <= j < i => BoundaryText(ops, projected[j]))
    {
      var text := BoundaryString(ops.shape(projected[i]), ops.fixed6);
      boundaries := boundaries + [text];
      i := i + 1;
    }
  }

  /** Step 7: a supplied city id, else the code the file stem resolves to, with its reports. */
  method ResolveCity(mapping: Dict<string, string>, cityId: Option<string>, stem: string,
                     progress: seq<(int, string)>)
    returns (code: Option<string>, out: seq<(int, string)>)
    requires Rising(progress) && progress != [] && progress[|progress| - 1].0 <= 68
    ensures code == CityIdFor(mapping, cityId, stem)
    ensures Rising(out) && progress <= out && !Completed(out)
    ensures code.Some? ==> |out| == |progress| + 2 && out[|progress| + 1] == (75, "城市编码: " + code.value)
    ensures code.None? ==> |out| == |progress| + 1
    ensures out[|progress|] == (68, "获取城市编码...")
    ensures out == progress + CodeReports(code)
  {
    out := Notify(progress, 68, "获取城市编码...");
    code := CityIdFor(mapping, cityId, stem);
    if code.Some? {
      out := Notify(out, 75, "城市编码: " + code.value);
    }
  }

  /** Steps 8 and 9: the boundary column from the WGS 84 copy, then the result frame, with their reports. */
  method BuildTable<G>(ops: GeoOps<G>, gdf: seq<G>, hasCrs: bool, code: string, stem: string,
                       progress: seq<(int, string)>)
    returns (table: ResultTable, out: seq<(int, string)>)
    requires Rising(progress) && progress != [] && progress[|progress| - 1].0 <= 78
    ensures table == Table(ops, gdf, hasCrs, code, stem)
    ensures out == progress + TableReports
    ensures Rising(out) && progress <= out && |out| == |progress| + 4
    ensures out[|out| - 1] == (100, "处理完成！") && Completed(out)
  {
    out := Notify(progress, 78, "处理边界信息...");
    var projected := BoundaryGeometries(ops, gdf, hasCrs);
    var boundaries := BoundaryColumn(ops, projected);
    out := Notify(out, 85, "边界处理完成");
    out := Notify(out, 90, "生成最终数据...");
    table := ResultTable(
      seq(|gdf|, _ => code),
      seq(|gdf|, i requires 0 <= i < |gdf| => ops.realText(ops.area(gdf[i]))),
      boundaries,
      seq(|gdf|, i requires 0 <= i < |gdf| => BuildId(stem, i)));
    out := Notify(out, 100, "处理完成！");
  }

  /** Steps 7 to 9 on the cleaned rows `gdf` of the loaded frame. */
  method ResolveAndBuild<G>(path: string, frame: GeoFrame<G>, cityId: Option<string>,
                            mapping: Dict<string, string>, ops: GeoOps<G>, gdf: seq<G>, progress: seq<(int, string)>)
    returns (outcome: Outcome, out: seq<(int, string)>)
    requires gdf == Cleaned(ops, frame.geometry)
    requires Rising(progress) && progress != [] && progress[|progress| - 1].0 <= 68
    ensures outcome == ProcessFrame(path, frame, cityId, mapping, ops)
    ensures var code := CityIdFor(mapping, cityId, Stem(path));
      out == progress + CodeReports(code) + (if code.Some? then TableReports else [])
    ensures Rising(out) && progress <= out
    ensures outcome.Success? <==> Completed(out)
  {
    var stem := Stem(path);
    var code, resolved := ResolveCity(mapping, cityId, stem, progress);
    if code.None? {
      outcome := Failure("无法识别城市编码: " + stem);
      out := resolved;
    } else {
      // 8. boundaries, 9. the result table
      var table;
      table, out := BuildTable(ops, gdf, frame.hasCrs, code.value, stem, resolved);
      PrefixTransitive(progress, resolved, out);
      outcome := Success(CsvPath(path), table);
    }
  }

  /** Steps 3 to 9, on the loaded frame. */
  method ProcessLoaded<G>(path: string, frame: GeoFrame<G>, cityId: Option<string>,
                          mapping: Dict<string, string>, ops: GeoOps<G>, progress: seq<(int, string)>)
    returns (outcome: Outcome, out: seq<(int, string)>)
    requires Rising(progress) && progress != [] && progress[|progress| - 1].0 <= 24
    ensures outcome == ProcessFrame(path, frame, cityId, mapping, ops)
    ensures out == LoadedTrace(progress, path, frame, cityId, mapping, ops)
    ensures Rising(out) && progress <= out
    ensures outcome.Success? <==> Completed(out)
  {
    // 3. - 6.
    var gdf, cleaned := CleanFrame(ops, frame.geometry, progress);
    // 7. - 9.
    outcome, out := ResolveAndBuild(path, frame, cityId, mapping, ops, gdf, cleaned);
    PrefixTransitive(progress, cleaned, out);
  }

  /**
   * `process_shapefile(path, callback, city_id)` with its progress reports,
   * `mapping` standing for `CITY_CODE_MAPPING`.
   */
  method ProcessShapefile<G>(path: string, load: LoadOutcome<G>, polls: nat, cityId: Option<string>,
                             mapping: Dict<string, string>, ops: GeoOps<G>)
    returns (outcome: Outcome, progress: seq<(int, string)>)
    ensures outcome == Process(path, load, cityId, mapping, ops)
    ensures Rising(progress) && ReadingTrace(polls) <= progress
    ensures !load.Loaded? ==> progress == ReadingTrace(polls)
    ensures load.Loaded? ==> progress == LoadedTrace(ReadingTrace(polls), path, load.frame, cityId, mapping, ops)
    ensures outcome.Success? <==> Completed(progress)
  {
    // 1. prepare, 2. read in a worker process
    progress := StartReading(polls);
    match load {
      case ReadFailed(error) =>
        outcome := Failure("读取失败: " + error);
      case NoReport =>
        outcome := Failure("读取失败: unknown");
      case UnpickleFailed(error) =>
        outcome := Failure("加载数据失败: " + error);
      case Loaded(frame) =>
        outcome, progress := ProcessLoaded(path, frame, cityId, mapping, ops, progress);
    }
  }

  // ---------------------------------------------------------------------------
  // Properties of the run

  /** While reading, the bar goes up by one per poll from 10 and stops at 24. */
  lemma {:induction false} ReadingTraceRises(polls: nat)
    ensures |ReadingTrace(polls)| == 2 + polls
    ensures Rising(ReadingTrace(polls))
    ensures ReadingTrace(polls)[1 + polls].0 == Min(10 + polls, 24)
    ensures forall k :: 2 <= k < 2 + polls ==> ReadingTrace(polls)[k].1 == ""
    decreases polls
  {
    var t := ReadingTrace(polls);
    if polls == 0 {
      assert t[..1] == [(5, "准备文件...")];
      assert t[..1][..0] == [];
    } else {
      ReadingTraceRises(polls - 1);
      assert t[..|t| - 1] == ReadingTrace(polls - 1);
    }
  }

  /** Build ids of different rows differ: the row number after `_` tells them apart. */
  lemma BuildIdsDistinct(stem: string, i: nat, j: nat)
    requires i != j
    ensures BuildId(stem, i) != BuildId(stem, j)
  {
    var head := BuildIdPrefix + stem + "_";
    if BuildId(stem, i) == BuildId(stem, j) {
      assert DecimalString(i + 1) == BuildId(stem, i)[|head|..];
      assert DecimalString(j + 1) == BuildId(stem, j)[|head|..];
      DecimalInjective(i + 1, j + 1);
    }
  }

  /** A build id is the prefix, the stem, `_`, and the row's number counting from 1, which reads back. */
  lemma BuildIdReadsBack(stem: string, i: nat)
    ensures var id := BuildId(stem, i);
      var n := |BuildIdPrefix| + |stem|;
      |id| > n + 1 && id[..n] == BuildIdPrefix + stem && id[n] == '_'
      && (forall k :: n + 1 <= k < |id| ==> IsDigit(id[k]))
      && ParseDecimal(id[n + 1..]) == i + 1
  {
    var id := BuildId(stem, i);
    var n := |BuildIdPrefix| + |stem|;
    assert id[n + 1..] == DecimalString(i + 1);
    DecimalRoundTrip(i + 1);
  }

  /** A successful run read the frame, resolved a city id, and returns the table of the cleaned rows. */
  lemma SuccessIsTable<G>(path: string, load: LoadOutcome<G>, cityId: Option<string>,
                          mapping: Dict<string, string>, ops: GeoOps<G>)
    requires Process(path, load, cityId, mapping, ops).Success?
    ensures load.Loaded? && CityIdFor(mapping, cityId, Stem(path)).Some?
    ensures Process(path, load, cityId, mapping, ops)
      == Success(CsvPath(path), Table(ops, Cleaned(ops, load.frame.geometry), load.frame.hasCrs,
                                      CityIdFor(mapping, cityId, Stem(path)).value, Stem(path)))
  {
  }

  /**
   * The result table of any rows: one row per geometry, all with the same
   * city id, each with the area text of its geometry, and all with different
   * build ids.
   */
  lemma TableRows<G>(ops: GeoOps<G>, rows: seq<G>, hasCrs: bool, code: string, stem: string)
    ensures var t := Table(ops, rows, hasCrs, code, stem);
      |t.cityId| == |t.areacalc| == |t.boundaries| == |t.buildId| == |rows|
      && (forall i :: 0 <= i < |rows| ==> t.cityId[i] == code && t.areacalc[i] == ops.realText(ops.area(rows[i])))
      && (forall i, j :: 0 <= i < j < |rows| ==> t.buildId[i] != t.buildId[j])
  {
    var t := Table(ops, rows, hasCrs, code, stem);
    forall i, j | 0 <= i < j < |rows| ensures t.buildId[i] != t.buildId[j] {
      BuildIdsDistinct(stem, i, j);
    }
  }

  /** The CSV of a successful run lies beside the input and is named after its stem. */
  lemma SuccessWritesBesideInput<G>(path: string, load: LoadOutcome<G>, cityId: Option<string>,
                                    mapping: Dict<string, string>, ops: GeoOps<G>)
    requires Process(path, load, cityId, mapping, ops).Success?
    ensures var csv := Process(path, load, cityId, mapping, ops).csvPath;
      Dirname(csv) == Dirname(path) && Basename(csv) == Stem(path) + "_final.csv"
  {
    SuccessIsTable(path, load, cityId, mapping, ops);
    CsvPathBesideInput(path);
  }

  /** A non-empty city id given by the caller is used as it is, and the run cannot fail on the city. */
  lemma SuppliedCityIdUsed<G>(path: string, frame: GeoFrame<G>, code: string,
                              mapping: Dict<string, string>, ops: GeoOps<G>)
    requires code != []
    ensures Process(path, Loaded(frame), Some(code), mapping, ops).Success?
    ensures forall i :: 0 <= i < |Process(path, Loaded(frame), Some(code), mapping, ops).table.cityId| ==>
      Process(path, Loaded(frame), Some(code), mapping, ops).table.cityId[i] == code
  {
  }

  /** Without a city id, a stem the table does not resolve ends the run with the stem in the message. */
  lemma UnresolvedStemFails<G>(path: string, frame: GeoFrame<G>, cityId: Option<string>,
                               mapping: Dict<string, string>, ops: GeoOps<G>)
    requires cityId.None? || cityId.value == []
    requires GetCityCode(mapping, Stem(path)).None?
    ensures Process(path, Loaded(frame), cityId, mapping, ops) == Failure("无法识别城市编码: " + Stem(path))
  {
  }

  /** Without a city id, a run against CITY_CODE_MAPPING that succeeds writes a six-digit code in every row. */
  lemma ResolvedCodesInTable<G>(path: string, frame: GeoFrame<G>, cityId: Option<string>, ops: GeoOps<G>)
    requires cityId.None? || cityId.value == []
    requires Process(path, Loaded(frame), cityId, CityCodeMapping, ops).Success?
    ensures forall i :: 0 <= i < |Process(path, Loaded(frame), cityId, CityCodeMapping, ops).table.cityId| ==>
      IsSixDigitCode(Process(path, Loaded(frame), cityId, CityCodeMapping, ops).table.cityId[i])
  {
    ResolvedCodesAreSixDigits(Stem(path));
  }

  /** A frame with no geometry still succeeds once the city is known, with an empty table. */
  lemma EmptyFrameGivesEmptyTable<G>(path: string, hasCrs: bool, code: string,
                                     mapping: Dict<string, string>, ops: GeoOps<G>)
    requires code != []
    ensures Process(path, Loaded(GeoFrame([], hasCrs)), Some(code), mapping, ops)
      == Success(CsvPath(path), ResultTable([], [], [], []))
  {
    var none: seq<G> := [];
    assert Cleaned(ops, none) == none by {
      assert Repair(ops, none) == none;
      assert Explode(ops, none) == none;
      assert DropDuplicates(ops, none) == none;
      assert AreaFilter(ops, none) == none;
    }
    var t := Table(ops, none, hasCrs, code, Stem(path));
    assert t == ResultTable([], [], [], []) by {
      assert |t.cityId| == 0 && |t.areacalc| == 0 && |t.boundaries| == 0 && |t.buildId| == 0;
    }
  }

  lemma SamplePathParts()
    ensures Stem("/data/昆明市.shp") == "昆明市"
    ensures CsvPath("/data/昆明市.shp") == "/data/昆明市_final.csv"
  {
    assert "/data/昆明市.shp" == "/data" + "/" + "昆明市" + ".shp";
    assert "/data/昆明市_final.csv" == "/data" + "/" + "昆明市" + "_final.csv";
    ShapefileInDirectory("/data", "昆明市", ".shp");
  }

  /** A shapefile named after Kunming with the 市 suffix, with no city id given, is written with code 530100. */
  lemma KunmingShapefileResolves<G>(frame: GeoFrame<G>, ops: GeoOps<G>)
    ensures var out := Process("/data/昆明市.shp", Loaded(frame), None, CityCodeMapping, ops);
      out.Success? && out.csvPath == "/data/昆明市_final.csv"
      && forall i :: 0 <= i < |out.table.cityId| ==> out.table.cityId[i] == "530100"
  {
    var path := "/data/昆明市.shp";
    SamplePathParts();
    assert CityIdFor(CityCodeMapping, None, "昆明市") == Some("530100") by {
      CjkSuffixedNameResolves();
    }
    var rows := Cleaned(ops, frame.geometry);
    assert Process(path, Loaded(frame), None, CityCodeMapping, ops)
      == Success(CsvPath(path), Table(ops, rows, frame.hasCrs, "530100", "昆明市"));
    TableRows(ops, rows, frame.hasCrs, "530100", "昆明市");
  }
}
