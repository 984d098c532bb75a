# Shapefile processing core, modelled in Dafny

`ProcessingSHP.py` turns a building-footprint shapefile into a CSV of four
text columns: `city_id`, `areacalc`, `boundaries` and `build_id`. This
project models the non-GUI core of that script:

* `CITY_CODE_MAPPING`, the table from city name to administrative code. All
  189 entries of the dict display are kept in source order, and the model
  follows Python's rules for a repeated key in a display: the key keeps its
  first position and takes its last value (`CityCodes`, built with `PyDict`).
* `get_city_code`. The file stem is tried in this order: as it is; cleaned
  and title-cased; lower-cased; with a Chinese suffix removed (市, 区, 州,
  县); with a romanised suffix removed (shi, city, qu, district). Last comes
  the fuzzy substring match in the table's iteration order (`CityResolver`,
  built on the string built-ins in `PyText`).
* `process_shapefile` (`Pipeline`). The run goes through these steps:
  * It reports progress while a worker process reads the file.
  * It repairs invalid geometries and drops the ones that stay invalid.
  * It explodes multi-part geometries, keeps the first of each repeated WKT,
    and keeps areas of at least 80 (`Frames`).
  * It decides the city id. Then it computes the boundary text of every
    geometry, reprojected to WGS 84 when possible (`Boundary`).
  * It builds the result table with build ids `202510<stem>_<n>`, and names
    the CSV `<dir>/<stem>_final.csv` (`Paths`).

The parts that transform values are functions, each with lemmas:
* the table and the resolver;
* the frame stages;
* the path functions.

The parts the script runs step by step are methods whose `ensures` tie their
results to those functions:
* the progress reports and the polling loop;
* the boundary text loop;
* the column loop;
* the stage-by-stage run.

The geometry library is a value of type `GeoOps<G>`. It supplies validity,
repair, parts, WKT, area, shape, reprojection and number formatting. Every
statement about the pipeline holds for any such value. The worker process
and the pickle it writes are an input, `LoadOutcome`, together with the
number of times the parent found the worker still alive. The progress
callback becomes the list of `(percent, message)` reports a method returns.
The run's own methods take the table as a parameter `mapping`, which stands
for `CITY_CODE_MAPPING`. The lemmas about the real table instantiate it with
`CityCodeMapping`.

## Model

| member | source | states |
|---|---|---|
| CityCodes.MappingIsWellFormed | ProcessingSHP.py:75-282 | every key starts with an upper-case letter or a CJK ideograph; every code is six decimal digits, so no code is empty |
| CityCodes.SuzhouIsAnhuiCode | ProcessingSHP.py:105-125 | "Suzhou" appears twice in the display; the table maps it to the later value 341300, not 320500 |
| CityCodes.YulinIsShaanxiCode | ProcessingSHP.py:179-233 | "Yulin" appears twice; the table maps it to the later value 610800, not 450900 |
| CityCodes.BeijingCode | ProcessingSHP.py:77-78 | both "Beijing" and "北京" are keys with code 110100 |
| CityCodes.KunmingCode | ProcessingSHP.py:186-187 | both "Kunming" and "昆明" are keys with code 530100 |
| CityCodes.MixedKunmingNamesAreNotKeys | ProcessingSHP.py:75-282 | neither "Kunming市" nor "Kun-ming" is a key of the table |
| CityCodes.KunmingVariantsAreNotKeys | ProcessingSHP.py:75-282 | neither "Kunmingshi" nor "昆明市" is a key of the table |
| CityCodes.LastEntryWins | ProcessingSHP.py:75-282 | an entry with no later entry of the same key gives that key's value in the table |
| CityCodes.NotAKey | ProcessingSHP.py:75-282 | a name that no province group of the display writes is not a key |
| CityCodes.ConcatHas | ProcessingSHP.py:75-282 | a key is in the concatenated display exactly when some province group has it |
| CityCodes.ConcatLastEntry | ProcessingSHP.py:75-282 | an entry of a group that is the last one of its key in that group and in every later group is the last entry of that key in the whole display |
| PyDict.FromDisplayDistinct | ProcessingSHP.py:75-282 | a dict display always builds a dict with distinct keys |
| PyDict.FromDisplayHas | ProcessingSHP.py:75-282 | a key is in the built dict if and only if some display entry has it |
| PyDict.FromDisplayLastWins | ProcessingSHP.py:75-282 | a key's value is the value of its last entry in the display |
| PyDict.FromDisplayValues | ProcessingSHP.py:75-282 | every value of the built dict is the value of some display entry with that key |
| PyDict.FromDisplayFirstKey | ProcessingSHP.py:341-343 | iterating the built dict meets keys in the order of their first display entry, so a first-match loop over the dict finds the key of the first matching display entry |
| PyDict.InsertSpec | ProcessingSHP.py:75-282 | `d[k] = v` keeps keys distinct, maps k to v, leaves every other key's value and every key's position alone, and appends only a new key |
| PyDict.FirstKeyWhereSpec | ProcessingSHP.py:341-343 | a first-match loop returns a key that passes the test when no earlier key does, and returns nothing exactly when no key passes |
| PyDict.FirstKeyUpdate | ProcessingSHP.py:341-343 | updating an existing key leaves the first-match result unchanged; adding a new key is the same as appending it |
| PyDict.IndexOf | ProcessingSHP.py:308-309 | the lookup position holds the key and no earlier position does |
| PyDict.Has | ProcessingSHP.py:308 | `k in d`: some entry has the key |
| PyDict.Get | ProcessingSHP.py:309 | `d[k]` for a key that is present: the value stored with it |
| PyDict.Insert | ProcessingSHP.py:75-282 | `d[k] = v`: replaces the value of an existing key in place, or appends a new key last (properties in `InsertSpec`) |
| PyDict.FromDisplay | ProcessingSHP.py:75-282 | a dict display evaluated entry by entry, as a run of `Insert`s (properties in the `FromDisplay…` lemmas) |
| PyDict.FirstKeyWhere | ProcessingSHP.py:341-343 | a loop over the dict that returns the first key passing the test, or nothing (properties in `FirstKeyWhereSpec`) |
| PyText.TitleIgnoresCase | ProcessingSHP.py:315 | title-casing a lower-cased string gives the title form of the original |
| PyText.TitleOfUncased | ProcessingSHP.py:315 | a string without cased characters (digits, CJK, punctuation) is its own title form |
| PyText.Title | ProcessingSHP.py:315 | `str.title`: a cased character is upper-cased after an uncased one or at the start, lower-cased after a cased one; others unchanged |
| PyText.Lower | ProcessingSHP.py:320 | `str.lower`, character by character |
| PyText.Clean | ProcessingSHP.py:312 | the regular-expression substitution: every non-word character is dropped (properties in the `Clean…` lemmas) |
| PyText.IsWordChar | ProcessingSHP.py:312 | the characters `[\w\u4e00-\u9fff]` keeps: letters, digits, `_` and CJK ideographs (of the modelled charset) |
| PyText.EndsWith | ProcessingSHP.py:326-334 | `s.endswith(suffix)`: the last `|suffix|` characters are the suffix |
| PyText.Contains | ProcessingSHP.py:342 | `needle in hay` on strings: the needle occurs as a contiguous slice |
| PyText.DecimalString | ProcessingSHP.py:414-488 | `str(n)` of a count or row number: its decimal digits without leading zeros; the text is non-empty, all digits, and starts with 0 only for 0 (read back by `DecimalRoundTrip`) |
| PyText.ParseDecimal | ProcessingSHP.py:488 | the number a digit string denotes, the partner of `DecimalString` in `DecimalRoundTrip` |
| PyText.Join | ProcessingSHP.py:472 | `";".join(coords)`: the parts with one separator between neighbours, empty for no parts (inverted by `Split` in `SplitJoin`) |
| PyText.Split | ProcessingSHP.py:472 | `s.split(sep)`, the reading side of the boundary text: the maximal separator-free fields, always at least one |
| PyText.SplitSepFree | ProcessingSHP.py:472 | a separator-free string splits to itself, and one followed by the separator and a tail splits to it followed by the tail's fields |
| PyText.LowerCharKeepsCasedness | ProcessingSHP.py:320 | lower- and upper-casing a character keep whether it is cased; lower-casing is idempotent |
| PyText.CleanKeepsWordChars | ProcessingSHP.py:312 | the cleaned name holds only word characters; a string of word characters is unchanged and a string with none becomes empty |
| PyText.CleanChar | ProcessingSHP.py:312 | one character is kept exactly when it is a word character |
| PyText.CleanAppend | ProcessingSHP.py:312 | cleaning a concatenation is the concatenation of the cleaned parts, so on a mixed string every word character is kept, in order |
| PyText.CleanIdempotent | ProcessingSHP.py:312 | cleaning a cleaned name changes nothing |
| PyText.CleanDropsSeparator | ProcessingSHP.py:312 | one non-word character between two runs of word characters is dropped and the runs are joined |
| PyText.CleanHyphenatedName | ProcessingSHP.py:312 | "Kun-ming" cleans to "Kunming" |
| PyText.DecimalRoundTrip | ProcessingSHP.py:488 | reading back the decimal text of a row number gives the number |
| PyText.DecimalInjective | ProcessingSHP.py:488 | different numbers have different decimal texts |
| PyText.SplitJoin | ProcessingSHP.py:472 | splitting the `;`-join of semicolon-free parts gives the parts back |
| CityResolver.GetCityCode | ProcessingSHP.py:302-345 | an empty name gives None; a key gives its own code; any code returned is the value of some key |
| CityResolver.SuffixLookupFrom | ProcessingSHP.py:325-338 | a suffix loop returns None exactly when no suffix hits; otherwise it returns the title-cased remainder's code for the first suffix that hits |
| CityResolver.SuffixLookup | ProcessingSHP.py:325-338 | one whole suffix loop over the Chinese or the romanised list, from the first suffix (properties in `SuffixLookupFrom`) |
| CityResolver.SuffixHit | ProcessingSHP.py:326-329 | the name ends with the suffix and the title-cased remainder is a key |
| CityResolver.FuzzyLookup | ProcessingSHP.py:341-345 | the fuzzy loop returns None exactly when no key contains, or is contained in, the lower-cased name; otherwise it returns the value of the first key that does, in iteration order |
| CityResolver.FuzzyMatch | ProcessingSHP.py:342 | the lower-cased key occurs in the lower-cased name, or the name in the key |
| CityResolver.SuffixLookupSingleHit | ProcessingSHP.py:325-338 | when only one suffix of the list ends the name and it hits, the loop returns that suffix's remainder code |
| CityResolver.SuffixLookupNoHit | ProcessingSHP.py:325-338 | when no suffix ends the name, the loop returns None |
| CityResolver.CjkSuffixesAreDistinctChars | ProcessingSHP.py:325 | the four Chinese suffixes are distinct single CJK characters |
| CityResolver.LatinSuffixesEndDistinctly | ProcessingSHP.py:333 | the four romanised suffixes end in distinct lower-case letters, so at most one ends any name |
| CityResolver.OneLatinSuffix | ProcessingSHP.py:333-334 | a lower-cased name ending with one romanised suffix ends with no other |
| CityResolver.NoCjkSuffixOnLetters | ProcessingSHP.py:325-330 | a name of Latin letters never hits the Chinese suffix loop |
| CityResolver.CjkReachesCjkLoop | ProcessingSHP.py:304-330 | a Chinese name that is not a key falls through the exact, title and lower steps to the Chinese suffix loop |
| CityResolver.LowerOfUncased | ProcessingSHP.py:320 | a string without cased characters is its own lower-cased form |
| CityResolver.CjkSuffixStripped | ProcessingSHP.py:324-330 | a Chinese name that is not a key but ends with 市, 区, 州 or 县 resolves to the code of the name without the suffix (names with Latin letters: `CjkSuffixOnWordStem`) |
| CityResolver.CjkSuffixOnWordStem | ProcessingSHP.py:324-330 | a word-character name such as "Kunming市" that misses the exact, title and lower steps and ends with a Chinese suffix resolves to the code of its title-form stem |
| CityResolver.CleanedNameResolvesAsClean | ProcessingSHP.py:311-345 | a name that is not a key and whose cleaned form is not empty and not a key resolves exactly as its cleaned form does |
| CityResolver.CleanedTitleKeyResolves | ProcessingSHP.py:312-317 | a name that is not a key but whose cleaned, title-cased form is a key resolves to that key's code |
| CityResolver.HyphenatedKunming | ProcessingSHP.py:312-317 | in any table with "Kunming" but not "Kun-ming", "Kun-ming" resolves to the code of "Kunming" |
| CityResolver.LettersReachLatinLoop | ProcessingSHP.py:304-338 | a name of letters that is not a key in any case form falls through to the romanised suffix loop |
| CityResolver.LatinSuffixStripped | ProcessingSHP.py:332-338 | such a name whose lower-cased form ends with shi, city, qu or district resolves to the code of the title-cased remainder |
| CityResolver.CaseVariantResolves | ProcessingSHP.py:314-317 | a name of word characters that differs from a title-form key only in letter case resolves to that key's code |
| CityResolver.NoWordCharsResolveToFirstKey | ProcessingSHP.py:312-343 | a name of punctuation only cleans to the empty string, which every key contains, so it resolves to the first key's code |
| CityResolver.FirstKeyIsBeijing | ProcessingSHP.py:75-78 | the first key the fuzzy loop meets in the real table is "Beijing" |
| CityResolver.FuzzyFollowsDisplayOrder | ProcessingSHP.py:341-343 | on the real table, the fuzzy loop finds the first display entry whose key matches |
| CityResolver.ResolvedCodesAreSixDigits | ProcessingSHP.py:302-345 | every code resolved from the real table is six decimal digits |
| CityResolver.ExactNamesResolve | ProcessingSHP.py:308-309 | "Beijing" and "北京" resolve to 110100, "Suzhou" to 341300 and "Yulin" to 610800 |
| CityResolver.CjkSuffixedNameResolves | ProcessingSHP.py:324-330 | "昆明市" resolves to 530100 |
| CityResolver.LatinSuffixedNameResolves | ProcessingSHP.py:332-338 | "Kunmingshi" resolves to 530100 |
| CityResolver.MixedSuffixedNameResolves | ProcessingSHP.py:324-330 | "Kunming市" resolves to 530100 |
| CityResolver.HyphenatedNameResolves | ProcessingSHP.py:312-317 | "Kun-ming" resolves to 530100 |
| CityResolver.LowerCaseNameResolves | ProcessingSHP.py:314-317 | "beijing" resolves to 110100 through the title-case step |
| CityResolver.PunctuationResolvesToBeijing | ProcessingSHP.py:312-343 | any name of punctuation only, such as "!!!", resolves to 110100 |
| CityResolver.ThreeBangsResolveToBeijing | ProcessingSHP.py:312-343 | "!!!" resolves to 110100 |
| Paths.RFind | ProcessingSHP.py:367-368 | the position found is -1 or holds the character |
| Paths.RFindIsLast | ProcessingSHP.py:367-368 | no later position holds the character |
| Paths.Basename | ProcessingSHP.py:368 | the basename is a slash-free tail of the path |
| Paths.SplitExt | ProcessingSHP.py:368 | root and extension concatenate to the name; the extension is empty or a dot followed by neither slash nor dot; it starts at the last dot, and it is non-empty exactly when that dot is in the last path component after some character that is not a dot |
| Paths.Dirname | ProcessingSHP.py:367 | `os.path.dirname`: the path up to its last slash, trailing slashes stripped unless it is all slashes (properties in `DirnameOfJoin`, `FileInDirectory`) |
| Paths.JoinPath | ProcessingSHP.py:369 | `os.path.join` of two parts: an absolute second part wins, otherwise one slash is put between them when needed |
| Paths.Stem | ProcessingSHP.py:368 | the basename without its extension (properties in `StemIsSlashFree`) |
| Paths.CsvPath | ProcessingSHP.py:367-369 | the input's directory joined with `<stem>_final.csv` (properties in `CsvPathBesideInput`) |
| Paths.RStripSlashes | ProcessingSHP.py:367 | the result is a prefix, only slashes are removed, and it does not end in a slash |
| Paths.StemIsSlashFree | ProcessingSHP.py:368 | the stem is a prefix of the basename and holds no slash |
| Paths.BasenameOfJoin | ProcessingSHP.py:369 | joining a directory with a slash-free name gives a path whose basename is that name |
| Paths.DirnameOfJoin | ProcessingSHP.py:367-369 | the dirname of the joined output path is the dirname of the input |
| Paths.CsvPathBesideInput | ProcessingSHP.py:367-369 | the CSV lies in the input's directory and is named `<stem>_final.csv` |
| Paths.FileInDirectory | ProcessingSHP.py:367-368 | for `dir/file`, the basename is file and the dirname is dir |
| Paths.SplitExtOfFile | ProcessingSHP.py:368 | a name with one dot splits at that dot |
| Paths.ShapefileInDirectory | ProcessingSHP.py:367-369 | for `dir/name.ext`, the stem is name and the CSV is `dir/name_final.csv` |
| Boundary.AppendVertexPairs | ProcessingSHP.py:461-471 | the loop appends the pair texts of exactly the vertices that have an x and a y, in order |
| Boundary.BoundaryString | ProcessingSHP.py:456-472 | the boundary text is the `;`-join of the pairs of a point, a line's vertices or a polygon's exterior ring, and empty for other geometries |
| Boundary.AllVerticesFormatted | ProcessingSHP.py:461-471 | with every vertex formattable, there is one pair per vertex, in vertex order |
| Boundary.PairsComeFromVertices | ProcessingSHP.py:461-471 | there are no more pairs than vertices, and every pair is the text of some formattable vertex |
| Boundary.VertexPairs | ProcessingSHP.py:461-471 | the pair texts of the vertices that have an x and a y, in order (properties in `AllVerticesFormatted`, `PairsComeFromVertices`) |
| Boundary.BoundaryPairs | ProcessingSHP.py:456-472 | a point's one pair, a line's vertex pairs, a polygon's exterior-ring pairs, nothing for other geometries |
| Boundary.PairText | ProcessingSHP.py:459-469 | `f"{x:.6f}_{y:.6f}"`: the two six-place texts joined by `_` |
| Boundary.BoundarySplitsBack | ProcessingSHP.py:456-472 | splitting a non-empty boundary text at `;` gives back its pairs |
| Frames.KeptIndices | ProcessingSHP.py:423 | the kept positions are exactly the true mask positions, increasing |
| Frames.Mask | ProcessingSHP.py:423-441 | boolean indexing `frame[mask]`: the rows whose mask entry is true, in order (properties in `MaskSpec`) |
| Frames.MaskSpec | ProcessingSHP.py:423 | boolean indexing keeps exactly the rows at the true positions, in order |
| Frames.MaskAllTrue | ProcessingSHP.py:423 | an all-true mask keeps the frame unchanged |
| Frames.Repair | ProcessingSHP.py:416-423 | an all-valid frame unchanged; otherwise every geometry repaired and the still-invalid ones dropped (properties in `RepairSpec`, `RepairMasks`) |
| Frames.Explode | ProcessingSHP.py:426-429 | each row replaced by its parts, in order (properties in the `Explode…` lemmas) |
| Frames.DropDuplicates | ProcessingSHP.py:431-435 | keeps the first row of each WKT, in order (properties in the `DropDuplicates…` lemmas) |
| Frames.AreaFilter | ProcessingSHP.py:437-442 | keeps the rows whose area is at least 80 (properties in `AreaFilterSpec`) |
| Frames.Cleaned | ProcessingSHP.py:416-442 | repair, explode, drop duplicates and filter by area, in that order |
| Frames.RepairSpec | ProcessingSHP.py:416-423 | an all-valid frame is unchanged; otherwise the kept rows are exactly the repaired rows that are valid, in order; every geometry that comes out is valid |
| Frames.RepairMasks | ProcessingSHP.py:418-423 | with some invalid geometry, repair is the validity mask applied to the repaired rows |
| Frames.ExplodeAppend | ProcessingSHP.py:426-429 | explode distributes over concatenation of frames |
| Frames.ExplodeAt | ProcessingSHP.py:426-429 | the parts of row i sit, in order, between those of the earlier and the later rows |
| Frames.ExplodeSingleParts | ProcessingSHP.py:426-429 | a frame of single-part geometries explodes to itself |
| Frames.DropDuplicatesKeepsFirsts | ProcessingSHP.py:431-435 | dropping duplicates keeps, in order, exactly the rows whose WKT no earlier row has |
| Frames.DropDuplicatesDistinct | ProcessingSHP.py:431-435 | no two rows left have the same WKT |
| Frames.DropDuplicatesCoversAll | ProcessingSHP.py:431-435 | every WKT of the input is still the WKT of some remaining row |
| Frames.FirstWithKey | ProcessingSHP.py:434 | every WKT has a first occurrence at or before any of its positions |
| Frames.AreaFilterSpec | ProcessingSHP.py:437-442 | the filter keeps, in order, exactly the rows with area at least 80, including area exactly 80 |
| Frames.CleanedRowsDistinctAndLarge | ProcessingSHP.py:416-442 | after all four stages, every area is at least 80 and the WKTs are distinct |
| Frames.MaskKeepsValid | ProcessingSHP.py:423-441 | masking a frame of valid geometries keeps only valid geometries |
| Frames.ExplodeKeepsValid | ProcessingSHP.py:428 | when the parts of a valid geometry are valid, exploding valid geometries gives valid geometries |
| Frames.CleanedRowsValid | ProcessingSHP.py:416-442 | no invalid geometry reaches the area filter: every geometry out of the cleaning is valid, given that the parts of a valid geometry are valid |
| Pipeline.CityIdFor | ProcessingSHP.py:446-449 | the city id used, when there is one, is never empty |
| Pipeline.BoundaryGeometries | ProcessingSHP.py:474-480 | the WGS 84 copy has one geometry per row |
| Pipeline.RisingIsSorted | ProcessingSHP.py:366-497 | the progress trace rises exactly when every percentage is in 0..100 and the percentages never go down |
| Pipeline.Notify | ProcessingSHP.py:366-497 | a report appends one `(percent, message)` and keeps the trace rising |
| Pipeline.StartReading | ProcessingSHP.py:366-388 | the reports before the worker ends are 5, 10, then one empty report per poll going up by one and stopping at 24 |
| Pipeline.ReadingTrace | ProcessingSHP.py:366-388 | the reports up to the end of the polling loop: 5, 10, then one per poll (properties in `ReadingTraceRises`) |
| Pipeline.ReadingTraceRises | ProcessingSHP.py:384-388 | the reading trace has 2 + polls reports, rises, ends at min(10 + polls, 24) and has empty poll messages |
| Pipeline.RepairReports | ProcessingSHP.py:413-429 | reports 25 with the frame size, 28, 35 with the repaired and original counts, 38, and 45 with the exploded count |
| Pipeline.FilterReports | ProcessingSHP.py:432-442 | reports 48, 55 with the count after dropping duplicates, 58, and 65 with the count after the area filter |
| Pipeline.CleaningReports | ProcessingSHP.py:413-442 | the nine reports of steps 3 to 6, in order |
| Pipeline.RepairAndExplode | ProcessingSHP.py:413-429 | steps 3 and 4 give the exploded repaired rows and append exactly `RepairReports`, ending at 45 |
| Pipeline.DropAndFilter | ProcessingSHP.py:431-442 | steps 5 and 6 give the filtered distinct rows and append exactly `FilterReports`, ending at 65 |
| Pipeline.CleanFrame | ProcessingSHP.py:413-442 | the stages give the cleaned rows and append exactly the nine reports of `CleaningReports`, keeping the trace rising and ending at 65 |
| Pipeline.ResolveCity | ProcessingSHP.py:444-451 | resolves the city id and appends exactly `CodeReports` of it: 68, then 75 with the code, or nothing more without one |
| Pipeline.CodeReports | ProcessingSHP.py:445-451 | the reports of step 7: (68, "获取城市编码..."), then (75, "城市编码: " and the id) when an id is found |
| Pipeline.BoundaryColumn | ProcessingSHP.py:482 | one boundary text per geometry, in order |
| Pipeline.BoundaryText | ProcessingSHP.py:482 | `get_boundary_str` applied to one geometry of the WGS 84 copy: the `;`-join of its pairs |
| Pipeline.BuildTable | ProcessingSHP.py:453-497 | the table of the cleaned rows, and exactly `TableReports` appended: (78, "处理边界信息..."), (85, "边界处理完成"), (90, "生成最终数据...") and (100, "处理完成！") |
| Pipeline.Table | ProcessingSHP.py:474-494 | the four columns: the code repeated, each area's text, each boundary text of the WGS 84 copy, and the build ids (properties in `TableRows`) |
| Pipeline.BuildId | ProcessingSHP.py:488 | "202510", the stem, "_" and the row number from 1 (properties in `BuildIdsDistinct`, `BuildIdReadsBack`) |
| Pipeline.Process | ProcessingSHP.py:391-405 | a failed read gives "读取失败: " and the worker's message ("unknown" when it reported nothing), a failed unpickle "加载数据失败: " and the error, a loaded frame the outcome of `ProcessFrame` |
| Pipeline.ProcessFrame | ProcessingSHP.py:413-499 | the cleaned rows with a city id give success with the CSV path and table; without one, "无法识别城市编码: " and the stem (properties in `SuccessIsTable`) |
| Pipeline.ResolveAndBuild | ProcessingSHP.py:444-499 | steps 7 to 9 on the cleaned rows return the outcome `ProcessFrame` defines and append `CodeReports`, then `TableReports` only when an id is found |
| Pipeline.LoadedTrace | ProcessingSHP.py:413-497 | the whole trace of a loaded frame: the earlier reports, the nine cleaning reports, the step 7 reports, and the table reports when a city id is found |
| Pipeline.ProcessLoaded | ProcessingSHP.py:413-499 | the loaded run returns the outcome `ProcessFrame` defines and leaves exactly `LoadedTrace`: rising, and ending at 100 if and only if it succeeds |
| Pipeline.ProcessShapefile | ProcessingSHP.py:348-499 | the whole run returns the outcome `Process` defines; a read or unpickle failure leaves just the reading trace, a loaded frame exactly `LoadedTrace` after it; success if and only if the last report is 100 |
| Pipeline.BuildIdsDistinct | ProcessingSHP.py:488 | different rows get different build ids |
| Pipeline.BuildIdReadsBack | ProcessingSHP.py:488 | a build id is "202510", the stem, "_" and the row number counted from 1, which reads back |
| Pipeline.SuccessIsTable | ProcessingSHP.py:398-499 | a success means the frame loaded and a city id was found, and it returns the input's CSV path with the table of the cleaned rows |
| Pipeline.TableRows | ProcessingSHP.py:487-494 | the four columns have one entry per row; every city id is the code; each area text is its geometry's; build ids are distinct |
| Pipeline.SuccessWritesBesideInput | ProcessingSHP.py:367-369 | a successful run's CSV is in the input's directory and is named `<stem>_final.csv` |
| Pipeline.SuppliedCityIdUsed | ProcessingSHP.py:446 | a non-empty city id from the caller is used in every row, and the run cannot fail on the city |
| Pipeline.UnresolvedStemFails | ProcessingSHP.py:446-449 | without a city id, a stem that does not resolve fails with "无法识别城市编码: " and the stem |
| Pipeline.ResolvedCodesInTable | ProcessingSHP.py:446-491 | without a city id, a successful run against the real table writes a six-digit code in every row |
| Pipeline.EmptyFrameGivesEmptyTable | ProcessingSHP.py:413-499 | an empty frame with a known city succeeds with an empty table |
| Pipeline.SamplePathParts | ProcessingSHP.py:367-369 | "/data/昆明市.shp" has stem "昆明市" and CSV "/data/昆明市_final.csv" |
| Pipeline.KunmingShapefileResolves | ProcessingSHP.py:348-499 | a run on "/data/昆明市.shp" with no city id succeeds, writes "/data/昆明市_final.csv", and gives code 530100 in every row |

## Left out

- Characters: `\w`, `str.lower` and `str.title` are modelled for ASCII letters, digits, `_` and CJK ideographs U+4E00..U+9FFF. Other Unicode letters are treated as uncased non-word characters.
- Paths follow POSIX `os.path`. The Windows rules (`ntpath`: drive letters, backslashes) are not modelled.
- The worker process, its queue, the temporary pickle, its removal and the 0.2 s sleep are not modelled. What they produce is an input: how the read ended, plus how many times the worker was found alive.
- The `to_crs` exception path and the "no CRS" path both use the unprojected copy. The model folds the exception into the reprojection being absent.
- The catch-all `except` at ProcessingSHP.py:501-502 ("处理出错") is not modelled. The library operations are total functions here, so nothing can raise.
- Floating point: areas and coordinates are `real`. `str(float)` and the `.6f` format are operations supplied by the geometry library value. NaN areas are not modelled.
- Writing the CSV file is not modelled. The model returns the table and the path it is written to.
- Frame index labels and the attribute columns other than the geometry are not modelled. The table only needs row order, which the model keeps.
- The Qt window, the worker thread that calls `process_shapefile`, and `diagnose_pyqt6.py` are not part of this model.
