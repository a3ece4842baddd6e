# ruler — a verified model of the analysis core

ruler watches one running program and records, at a fixed frequency and
for a limited period, what it uses:
- its process records from psutil;
- the machine's virtual and swap memory;
- disk usage;
- system load.

Each tick's sample is one row of a table. The rows are stored in numbered
ancillary chunks, each holding a fixed number of rows. When the period ends,
the chunks are concatenated into one destination report. A separate script
consolidates such chunk files offline:
- it drops the CPU affinity columns;
- it concatenates the chunks in file-name order;
- it sorts the rows by time;
- it skips all of this when the destination already exists.

This project models that core in Dafny and proves properties of the model.
The modules are:

- `Outcomes`: `Option`, `Result` and the exceptions the code raises.
- `Text`: character classes, digit strings, substring search, splitting on
  whitespace, joining.
- `Records`: a Python dictionary, as an ordered list of entries. Assignment
  replaces a key in place or appends it, so both insertion order and "the
  later value wins" hold.
- `SizeUnits` (`lib_analysis_utils.py`):
  - splitting a size string into a value and a unit;
  - the 1024-based unit tables;
  - human size to bytes, and bytes to a human size;
  - unit conversion;
  - turning a named tuple into a record.
- `TimeDeltas` (`lib_utils_time.py`): filling in a missing count, splitting a
  delta into count and unit, the min/max clamp, and conversion to seconds.
- `ProcessSelection` (`lib_analysis_fx.py`):
  - process matching;
  - the in-place sort of two parallel arrays by one permutation;
  - the first/last/all/explicit-index filter.
- `ProcessRecords` (`lib_analysis_fx.py`): flattening a process into keyed
  cells, including `{proc_n}` substitution, list joining and memory-share
  tags.
- `SystemRecords` (`lib_analysis_fx.py`): key prefixing for the memory, disk
  and system-load records.
- `FrameIo` (`lib_utils_io.py`): column filtering by prefix, the
  string-to-number conversion, and the per-column unit-conversion dispatch.
  A table is an index plus an ordered list of named columns.
- `FileNames`: the chunk-id part of a file name. Both `driver_analysis.py`
  and `ruler_utils_workspace2csv.py` use it.
- `Driver` (`driver_analysis.py`):
  - the `DriverAnalysis` class, whose fields are the chunk store, the row
    and chunk counters, the elapsed time and the destination;
  - the pure specification its methods are proved against: the sample
    merge, the freeze, the clock, the organize loop and the dump.
- `Consolidation` (`ruler_utils_workspace2csv.py`): the file-name order, the
  affinity-column drop, the merge, the row sort and the skip rules of the
  script's `main`.

The wall clock, the operating-system queries and the file store are inputs:
- the clock readings are integers of seconds;
- each collector's output is a record;
- the ancillary files are a map from chunk name to rows;
- the destination is an optional sequence of rows.

Formatting functions are parameters. These are psutil's `bytes2human`, the
percent rounding, the `size_format` strings and `strftime`.

The time-delta clamp compares whole durations. The source compares the
seconds component within a day. The code as written is modelled too, and the
difference is listed under "## Findings".

## Model

| member | source | states |
|---|---|---|
| SizeUnits.SizePartsOf | lib_analysis_utils.py:28-62 | a successful split has exactly two non-empty parts: the value made only of digits and '.', the unit an upper-case word; a missing string fails |
| SizeUnits.SplitSizeParts | lib_analysis_utils.py:28-62 | the character loop that appends to two lists returns exactly the split above, including each failure |
| SizeUnits.SizePartsOfJoined | lib_analysis_utils.py:32-56 | a value followed by a unit splits back into that value and the upper-cased unit |
| SizeUnits.SizePartsOfForeignChar | lib_analysis_utils.py:41-43 | a string holding any character that is neither a letter, a digit nor '.' is refused as not implemented |
| SizeUnits.KeepEmpty | lib_analysis_utils.py:45-50 | the value (or unit) part is empty exactly when no character of the string belongs to it |
| SizeUnits.CheckSizeWhitespaces | lib_analysis_utils.py:68-69 | true exactly when some character is whitespace |
| SizeUnits.UnitIndexAgreesWithTables | lib_analysis_utils.py:128-129 | a unit is known exactly when it is in the long or the short table, and its index is its position there |
| SizeUnits.UnitIndexOfTables | lib_analysis_utils.py:151-159 | the long and the short unit at the same position have the same index |
| SizeUnits.HumanParts | lib_analysis_utils.py:131-144 | a two-element list is taken as it is; a list of any other length and any other type are refused |
| SizeUnits.TextParts | lib_analysis_utils.py:131-135 | a spaced size always splits; an unspaced one splits into exactly two parts; every part is a non-empty string |
| SizeUnits.HumanToBytes | lib_analysis_utils.py:126-163 | any type but a string or a list, and a list not of length two, are refused; a zero value is zero bytes |
| SizeUnits.BytesOfParts | lib_analysis_utils.py:146-161 | fewer than two parts fail; a readable value v with a unit of index i is v·1024^i bytes; a non-zero value with an unknown unit is refused |
| SizeUnits.TextOfJoined | lib_analysis_utils.py:134-135 | a size without whitespace is split into its value and upper-cased unit |
| SizeUnits.TextOfSpaced | lib_analysis_utils.py:132-133 | a size with one space is split on it, and the unit keeps its case |
| SizeUnits.HumanToBytesOfZero | lib_analysis_utils.py:146-148 | a zero value is zero bytes whatever the unit, known or not |
| SizeUnits.HumanToBytesOfList | lib_analysis_utils.py:150-161 | v units of table position i are v·1024^i bytes |
| SizeUnits.HumanToBytesUnknownUnit | lib_analysis_utils.py:151-157 | a non-zero value with a unit in neither table is refused |
| SizeUnits.HumanToBytesOfParts | lib_analysis_utils.py:146-161 | whatever form the size came in, once split into value x ≠ 0 and a unit of index i it is x·1024^i bytes |
| SizeUnits.HumanToBytesOfUnknownParts | lib_analysis_utils.py:151-157 | whatever form the size came in, a non-zero value with an unknown unit is refused |
| SizeUnits.ShortAndLongUnitsAgree | lib_analysis_utils.py:150-161 | "nK" and "nKB" (and so on for every position) give the same number of bytes, n·1024^i |
| SizeUnits.WholeUnitsToBytes | lib_analysis_utils.py:131-161 | the text of n followed by an upper-case known unit is n·1024^i bytes |
| SizeUnits.TwoGigabytes | lib_analysis_utils.py:150-161 | "2G" and "2GB" are both 2147483648 bytes |
| SizeUnits.SpacedUnitIsNotUpperCased | lib_analysis_utils.py:132-133 | a spaced size with a lower-case unit letter is refused, because the split on whitespace does not upper-case the unit |
| SizeUnits.JoinedUnitIsUpperCased | lib_analysis_utils.py:134-135 | an unspaced size is read with its unit upper-cased |
| SizeUnits.ParseFloat | lib_analysis_utils.py:146 | `float` of a decimal text: a number read has the sign the text shows, and an empty text is refused |
| SizeUnits.ParseFloatOfNat | lib_analysis_utils.py:146 | the decimal text of a natural number reads back as that number |
| SizeUnits.StringToNum | lib_analysis_utils.py:169-176 | an object that is neither a string nor a list is refused |
| SizeUnits.StringToNumOfText | lib_analysis_utils.py:169-176 | the number of "n<unit>" is n, whatever the unit |
| SizeUnits.ConvertHumanUnit | lib_analysis_utils.py:182-204 | a converted size ends with the separator and the target unit; an unknown target unit is refused |
| SizeUnits.ConvertHumanUnitToSmaller | lib_analysis_utils.py:187-204 | v units of position i shown in the unit of position j ≤ i is the formatted v·1024^(i−j) |
| SizeUnits.ConvertHumanUnitToLarger | lib_analysis_utils.py:187-204 | v units of position i shown in the unit of position j > i is the formatted v/1024^(j−i) |
| SizeUnits.BytesToHumanValueAsWritten | lib_analysis_utils.py:89-119 | as written, the conversion succeeds exactly for zero bytes |
| SizeUnits.BytesToHumanValueAsWrittenFails | lib_analysis_utils.py:103-109 | as written, 2048 bytes are refused, while the intended conversion gives 2.0 "K" |
| SizeUnits.BytesToHumanValue | lib_analysis_utils.py:89-119 | zero bytes is (0, "B"); a count whose integer part is not positive fails, as the logarithm does; a size type other than long or short is refused |
| SizeUnits.RoundHalfEven | lib_analysis_utils.py:101 | Python's `round` on an exact real: within one half of its argument, and a tie goes to the even integer |
| SizeUnits.Round2 | lib_analysis_utils.py:101 | `round(x, 2)` lies within 0.005 of `x` |
| SizeUnits.RoundHalfEvenBetween | lib_analysis_utils.py:101 | rounding never crosses an integer bound of its argument |
| SizeUnits.Round2Between | lib_analysis_utils.py:101 | a value in [1, 1024] stays in [1, 1024] once rounded to hundredths |
| SizeUnits.BytesToHumanRoundTrip | lib_analysis_utils.py:95-117 | the rounded value shown lies in [1, 1024], and converting the value and unit back gives the integer byte count to within half a percent |
| SizeUnits.ScaledError | lib_analysis_utils.py:101 | a value moved by at most 0.005 moves by at most half a percent once scaled by 1024^i, when it is at least one |
| SizeUnits.RoundingError | lib_analysis_utils.py:101 | the same bound with the factor 1024^i as a parameter |
| SizeUnits.BytesToHumanRoundingLoss | lib_analysis_utils.py:95-101 | the rounding loses bytes: 1025 bytes are shown as (1.0, "K"), which reads back as 1024 bytes |
| SizeUnits.FloorLog1024 | lib_analysis_utils.py:99 | the index i has 1024^i ≤ x < 1024^(i+1) |
| SizeUnits.HumanizedFields | lib_analysis_utils.py:75-82 | every field keeps its name and position; 'percent' keeps its number, and every other field is humanized |
| SizeUnits.ConvertBytes2HumanObj | lib_analysis_utils.py:75-82 | the loop that fills the dictionary gives exactly the humanized record |
| SizeUnits.ConvertObj2Dict | lib_analysis_utils.py:210-215 | the record holds exactly the tuple's fields, in order |
| TimeDeltas.FillText | lib_utils_time.py:135-138 | a text starting with a letter gains a leading "1", and any other text is unchanged; the result never starts with a letter |
| TimeDeltas.FillTimeDeltaParts | lib_utils_time.py:135-138 | a missing delta stays missing; a present one stays present |
| TimeDeltas.FillIdempotent | lib_utils_time.py:135-138 | filling twice is filling once |
| TimeDeltas.FillKeepsText | lib_utils_time.py:136-137 | the filled text ends with the original text, either unchanged or behind a "1" |
| TimeDeltas.SplitTimeDeltaParts | lib_utils_time.py:199-206 | a text without letters is refused; the unit is the first maximal run of letters; without digits the count is 1, and otherwise it is the value of the first maximal run of digits |
| TimeDeltas.SplitOfCountAndUnit | lib_utils_time.py:199-206 | the digits of n followed by a unit split into (n, unit) |
| TimeDeltas.SplitOfUnitOnly | lib_utils_time.py:200-205 | a unit alone splits into (1, unit) |
| TimeDeltas.TotalSecondsOf | lib_utils_time.py:163-164 | a count followed by a known unit reads as that many seconds of that unit |
| TimeDeltas.TotalSeconds | lib_utils_time.py:163-164 | a text that does not start with a digit is refused, and a text that reads ends with a known unit after its count |
| TimeDeltas.Measure | lib_utils_time.py:163-175 | a delta is measured exactly when it is non-empty and its filled text reads; the seconds part is below one day, and the whole measure is the full duration |
| TimeDeltas.SecondsPart | lib_utils_time.py:128 | `.seconds` is the whole duration modulo one day |
| TimeDeltas.ConvertTimeDeltaToSeconds | lib_utils_time.py:125-129 | no delta gives none; otherwise it gives the seconds within the day |
| TimeDeltas.ConvertTimeDeltaDropsDays | lib_utils_time.py:128 | a delta of 24 to 47 hours loses its whole day |
| TimeDeltas.Limits | lib_utils_time.py:144-192 | the result is always one of the given texts; without a source, exactly one bound must be given; with a source, both bounds or neither is refused |
| TimeDeltas.LowerBoundHolds | lib_utils_time.py:161-171 | the clamped delta is never shorter than the minimum, and a source that is not shorter is kept, so equality keeps the source |
| TimeDeltas.UpperBoundHolds | lib_utils_time.py:173-182 | the clamped delta is never longer than the maximum, and a source that is not longer is kept |
| TimeDeltas.UnreadableSourceFails | lib_utils_time.py:163-164 | a source that does not parse makes either clamp fail |
| TimeDeltas.DayPeriodPassesHourMaximum | lib_utils_time.py:173-182 | as written, a 24h period passes the 1h maximum; whole durations clamp it to 1h |
| TimeDeltas.DayFrequencyFallsBelowMinimum | lib_utils_time.py:161-171 | as written, a 24h frequency is replaced by the 2s minimum; whole durations keep it |
| ProcessSelection.PyIndex | lib_analysis_fx.py:49-51 | a Python index is valid exactly in [−n, n), and a negative index counts from the end |
| ProcessSelection.PickFacts | lib_analysis_fx.py:64-70 | picking succeeds exactly when every index is valid, and gives the elements at the listed indices, in the listed order |
| ProcessSelection.FilterProcessInfo | lib_analysis_fx.py:32-79 | no list gives none; no filter gives a copy; a successful filter of a list gives a list |
| ProcessSelection.FilterFirst | lib_analysis_fx.py:47-49 | 'first' gives [l[0]], and an empty list is an index error |
| ProcessSelection.FilterLast | lib_analysis_fx.py:50-51 | 'last' gives [l[-1]], and an empty list is an index error |
| ProcessSelection.FilterAll | lib_analysis_fx.py:52-53 | 'all' gives the whole list in its order |
| ProcessSelection.FilterExplicit | lib_analysis_fx.py:58-70 | an index list gives the elements at those indices, in the listed order; an empty list gives a copy; an invalid index is an index error |
| ProcessSelection.FilterUnknown | lib_analysis_fx.py:54-62 | an unknown mode, or a filter that is neither a string nor a list, is refused |
| ProcessSelection.Argsort | lib_analysis_fx.py:91-93 | the indices are a permutation that puts the values in ascending order |
| ProcessSelection.ReversePermutation | lib_analysis_fx.py:94-95 | reversing an ascending permutation gives a permutation that puts the values in descending order |
| ProcessSelection.Rearrange | lib_analysis_fx.py:100-101 | the array becomes its old contents gathered by the permutation |
| ProcessSelection.SortProcessInfo | lib_analysis_fx.py:86-105 | both arrays are rearranged by one and the same permutation; ascending or descending order makes the values non-decreasing or non-increasing; no order leaves both unchanged; an unknown order is refused and changes nothing |
| ProcessSelection.Selected | lib_analysis_fx.py:127-140 | only running processes that match the target are selected |
| ProcessSelection.SelectedCounts | lib_analysis_fx.py:127-140 | a process is selected exactly when it matches by name or by command line, and then as often as it is listed |
| ProcessSelection.NoneIfEmpty | lib_analysis_fx.py:138-140 | no match is none rather than an empty list |
| ProcessSelection.GetProcessInfo | lib_analysis_fx.py:111-181 | no match gives none; without an order, the matches are filtered in enumeration order; an unknown order is refused; with an ascending or descending order the result is the filter applied to a permutation of the matches ordered by virtual memory as asked |
| ProcessSelection.TagOfEmptyCommandLine | lib_analysis_fx.py:150-158 | a process matched by name with an empty command line makes the tag lookup fail as written |
| ProcessSelection.ProcessTag | lib_analysis_fx.py:150-158 | the tag is one of the first two command-line parts or the name, and it agrees with the code as written wherever that succeeds |
| ProcessRecords.FormatStep | lib_analysis_fx.py:308 | `str.format` reads at least one character at a time: a plain character stands for itself, and a failure is a ValueError, IndexError or KeyError |
| ProcessRecords.FormatBraceFree | lib_analysis_fx.py:306-308 | a key without braces comes out of the `{proc_n}` formatting unchanged |
| ProcessRecords.FormatErrorKinds | lib_analysis_fx.py:308 | formatting a key fails only with a ValueError, IndexError or KeyError |
| ProcessRecords.SplitField | lib_analysis_fx.py:308 | a replacement field holding '{' is refused; otherwise the argument name is a prefix of the field name, which is a prefix of the field; the field name holds no '!' or ':' and the argument name no '.' or '[' |
| ProcessRecords.ConversionOf | lib_analysis_fx.py:308 | a conversion succeeds exactly when there is none or it is one of 's', 'r', 'a' |
| ProcessRecords.ReplaceField | lib_analysis_fx.py:307-308 | a replaced field is the process index, or the index in quotes for a '!r' or '!a' conversion |
| ProcessRecords.FormatPlainChar | lib_analysis_fx.py:308 | a character other than a brace is copied in front of the formatted rest, whose failure is the whole failure |
| ProcessRecords.FormatBraceFreePrefix | lib_analysis_fx.py:306-308 | brace-free text passes unchanged in front of whatever follows, and the rest's failure is the whole failure |
| ProcessRecords.FormatPlaceholder | lib_analysis_fx.py:307-308 | '{proc_n}' in front of a text becomes the process index |
| ProcessRecords.FormatSingleField | lib_analysis_fx.py:308 | a key that is one replacement field formats exactly as that field is replaced |
| ProcessRecords.FormatStepSingleField | lib_analysis_fx.py:308 | `str.format` reads a key that is one replacement field in a single step, which fails exactly when the field's replacement fails |
| ProcessRecords.ReplacePlainName | lib_analysis_fx.py:307-308 | a plain field name that is empty or all digits is a positional index error, 'proc_n' is the index, and any other name is a key error |
| ProcessRecords.SplitConversion | lib_analysis_fx.py:308 | 'name!c' splits into the name and the conversion c, without a format spec |
| ProcessRecords.ReplaceConversion | lib_analysis_fx.py:308 | '{proc_n!s}' is the index, '{proc_n!r}' and '{proc_n!a}' the quoted index, and any other conversion letter is a value error |
| ProcessRecords.ProcessKeyOf | lib_analysis_fx.py:306-308 | `{proc_n}` in a key is replaced by the process's decimal index |
| ProcessRecords.AddProcessInfo | lib_analysis_fx.py:187-213 | the loop computes the cpu fields followed by the memory shares |
| ProcessRecords.CollectPercents | lib_analysis_fx.py:200-209 | the loop over the memory types gives exactly the share record |
| ProcessRecords.PercentsGet | lib_analysis_fx.py:201-207 | a memory type the process reports appears as 'percent_<type>' holding its rounded share |
| ProcessRecords.PercentsMissing | lib_analysis_fx.py:203-204 | a reported memory type whose share cannot be read stops the record |
| ProcessRecords.ProcessExtrasFields | lib_analysis_fx.py:191-211 | the extras hold 'cpu_affinity', 'cpu_n' and one rounded 'percent_<type>' for each reported memory type |
| ProcessRecords.CpuKeyUntouched | lib_analysis_fx.py:193-211 | the memory shares never overwrite the cpu fields, and their keys are distinct |
| ProcessRecords.BasicFields | lib_analysis_fx.py:253-267 | only the 'partial' and 'full' memory types are accepted |
| ProcessRecords.MergeFields | lib_analysis_fx.py:253-273 | the loop computes the basic fields merged with the extras |
| ProcessRecords.FieldCells | lib_analysis_fx.py:276-296 | a field is refused exactly when its type is unsupported; a string, number or list field gives one cell under its own name |
| ProcessRecords.CellValue | lib_analysis_fx.py:300-304 | a cell named neither 'create_time' nor with 'percent' keeps its value; a 'create_time' that is not a number is a type error; a 'percent' cell is accepted exactly when it is a number and stays one, rounded by the configured `percent_format` |
| ProcessRecords.ShareRoundedTwice | lib_analysis_fx.py:203-304 | a memory share, already rounded to four decimals by `add_process_info`, is rounded again by `percent_format` when the record is flattened |
| ProcessRecords.CellWrite | lib_analysis_fx.py:298-310 | one cell writes its formatted key and stored value, and fails exactly when either fails |
| ProcessRecords.CellWrites | lib_analysis_fx.py:298-310 | the cells of a field write one entry each, in order, and fail exactly when one of them fails |
| ProcessRecords.SettingsOf | lib_analysis_fx.py:241-244 | a missing prefix is 'process_name' and a missing separator '_' |
| ProcessRecords.PutCellsWrites | lib_analysis_fx.py:298-310 | putting a field's cells one by one is putting their write log |
| ProcessRecords.PutFieldsWrites | lib_analysis_fx.py:274-310 | putting the fields one by one is putting the concatenated write log of their cells |
| ProcessRecords.OrganizeFromWrites | lib_analysis_fx.py:249-310 | the loop over the processes is putting the write log of all their cells, process after process |
| ProcessRecords.ProcessRecordWrites | lib_analysis_fx.py:220-310 | the process record is the dictionary the whole write log builds from an empty one |
| ProcessRecords.ProcessRecordLastWrite | lib_analysis_fx.py:310 | each key of the record holds the value of the last write to it |
| ProcessRecords.ProcessRecordDistinct | lib_analysis_fx.py:274-310 | when no two writes share a key, the record is the write log itself |
| ProcessRecords.FieldWritesHold | lib_analysis_fx.py:274-310 | every cell of every field of a process is in the write log, under its formatted key and stored value |
| ProcessRecords.ProcessWritesHold | lib_analysis_fx.py:249-310 | every cell of every field of every process is in the write log, written with that process's index |
| ProcessRecords.FieldWritesSource | lib_analysis_fx.py:274-310 | every write in a process's log is the write of a cell of one of its fields, which the lemma names |
| ProcessRecords.ProcessWritesSource | lib_analysis_fx.py:249-310 | every write in the log comes from a cell of a field of one of the processes, with that process's index |
| ProcessRecords.FlattenFields | lib_analysis_fx.py:274-310 | the loop over fields and cells gives exactly the flattened record |
| ProcessRecords.OrganizeList | lib_analysis_fx.py:249-310 | the loop over processes gives exactly the record of all processes |
| ProcessRecords.OrganizeProcessInfo | lib_analysis_fx.py:220-320 | the method computes the process record with the default prefix and separator filled in; what the record holds is stated through its write log (`ProcessRecordWrites`, `ProcessRecordLastWrite`) |
| ProcessRecords.ProcessRecordKeys | lib_analysis_fx.py:249-310 | every key of the record was written, with the value it holds, from a cell of a field of one of the processes, formatted with that process's index |
| ProcessRecords.ProcessRecord | lib_analysis_fx.py:220-320 | no list gives an empty record, and a record never holds a key twice |
| ProcessRecords.ProcessRecordEdges | lib_analysis_fx.py:241-267 | no list or an empty list gives an empty record; an unknown memory type is refused |
| ProcessRecords.PartialWithoutMemoryInfo | lib_analysis_fx.py:253-270 | with 'partial', a process whose fields lack 'memory_info' fails the lookup |
| ProcessRecords.ListFieldJoined | lib_analysis_fx.py:281-287 | a list field is stored as one string, joined by spaces for 'cmdline' and by commas otherwise |
| ProcessRecords.UnsupportedFieldFails | lib_analysis_fx.py:294-296 | a field of an unsupported type is refused |
| SystemRecords.PrefixInto | lib_analysis_fx.py:345-347 | each key k of the record is stored as prefix + separator + k, with its value unchanged |
| SystemRecords.GetPrefixed | lib_analysis_fx.py:406-408 | the prefixed key finds the original value, and every other key is left as it was |
| SystemRecords.OrDefault | lib_analysis_fx.py:396-401 | a missing setting takes its default |
| SystemRecords.MemorySide | lib_analysis_fx.py:404-423 | a side that is not a dictionary is exactly the runtime error |
| SystemRecords.OrganizeMemoryInfo | lib_analysis_fx.py:389-428 | the loops compute exactly the memory record |
| SystemRecords.MemoryRecord | lib_analysis_fx.py:389-428 | with both sides missing the record is empty, and it fails exactly when a side present is not a dictionary |
| SystemRecords.MemoryRecordKeys | lib_analysis_fx.py:403-428 | virtual key k is found under prefix_v + sep + k, and swap key k under prefix_s + sep + k, with the values unchanged |
| SystemRecords.MemoryRecordBoth | lib_analysis_fx.py:403-423 | the virtual keys come first, then the swap keys |
| SystemRecords.MemoryRecordDefaults | lib_analysis_fx.py:396-401 | the defaults are 'virtual_memory', 'swap_memory' and '_', and the two default prefixes differ |
| SystemRecords.MemoryRecordOneSide | lib_analysis_fx.py:412-423 | a missing side is skipped, and with both missing the record is empty |
| SystemRecords.MemoryRecordNotDict | lib_analysis_fx.py:409-421 | a side that is not a dictionary is refused |
| SystemRecords.GetDiskInfo | lib_analysis_fx.py:326-357 | the method computes exactly the disk record |
| SystemRecords.DiskRecord | lib_analysis_fx.py:326-357 | the record never holds a key twice, and no usage gives an empty record |
| SystemRecords.DiskRecordFields | lib_analysis_fx.py:338-347 | field k becomes 'disk_usage_k' in its place; 'percent' keeps its number and every other field is humanized |
| SystemRecords.Zip | lib_analysis_fx.py:446 | keys and loads are paired up to the shorter list |
| SystemRecords.GetSystemLoadInfo | lib_analysis_fx.py:434-460 | the method computes exactly the load record |
| SystemRecords.LoadRecord | lib_analysis_fx.py:434-460 | no loads give an empty record, and a record never holds a key twice |
| SystemRecords.LoadRecordPairs | lib_analysis_fx.py:446-452 | the record is the zipped pairs, each key prefixed |
| SystemRecords.DefaultLoadRecord | lib_analysis_fx.py:437-452 | three loads become prefix + sep + '1m', '5m' and '15m' |
| SystemRecords.LoadRecordTruncates | lib_analysis_fx.py:446 | no loads give an empty record |
| FrameIo.MatchingIff | lib_utils_io.py:37 | a column is kept for a prefix exactly when it is a source column whose name starts with the prefix |
| FrameIo.MatchesAny | lib_utils_io.py:36-37 | true exactly when the name starts with one of the prefixes |
| FrameIo.SelectionIff | lib_utils_io.py:36-41 | a column is in the selection exactly when it is a source column matching some prefix |
| FrameIo.FilterDframeByColumn | lib_utils_io.py:27-53 | the loop over the prefixes computes exactly the filtered table, including the none and error cases |
| FrameIo.Filtered | lib_utils_io.py:27-53 | no table gives none, and a table returned is never empty and keeps the source index |
| FrameIo.FilteredColumns | lib_utils_io.py:32-41 | the filtered table keeps the index and holds exactly the source columns matching a prefix |
| FrameIo.FilteredEdges | lib_utils_io.py:29-52 | no table gives none; no prefix gives the table itself, or none when it is empty; an empty prefix list fails on the missing table; a prefix that is neither a string nor a list is refused |
| FrameIo.FilteredOnePrefix | lib_utils_io.py:32-33 | a single prefix behaves as a one-element list |
| FrameIo.FilteredTwice | lib_utils_io.py:36-41 | a column matching two prefixes appears at least twice |
| FrameIo.SelectionPair | lib_utils_io.py:36-41 | two prefixes give the matches of the first followed by those of the second |
| FrameIo.FilteredNothing | lib_utils_io.py:47-49 | when no column matches, the result is none |
| FrameIo.CellsToNum | lib_utils_io.py:63-64 | a converted column keeps its length |
| FrameIo.CellsToNumAt | lib_utils_io.py:63-64 | every cell becomes the numeric part of its size string |
| FrameIo.NumColumnsAt | lib_utils_io.py:59-65 | the converted table keeps the columns' names, order and lengths, and each cell is the number of its size string |
| FrameIo.NumColumnsShape | lib_utils_io.py:60-65 | column order and names are preserved |
| FrameIo.ConvertColumnsToNum | lib_utils_io.py:62-64 | the loop over the columns computes exactly the converted columns |
| FrameIo.ConvertDframeString2Num | lib_utils_io.py:59-65 | the method computes exactly the converted table |
| FrameIo.String2Num | lib_utils_io.py:59-65 | on a table with distinct column names, the converted table keeps the columns' names, order and lengths |
| FrameIo.CellsInUnit | lib_utils_io.py:98-100 | every converted cell is a string ending with the target unit |
| FrameIo.CellsInUnitValues | lib_utils_io.py:98-100 | cell k of the converted column is `convert_human_unit` of source cell k, which succeeds |
| FrameIo.ColumnDispatch | lib_utils_io.py:92-109 | a string in a percent column is refused; a number is copied; an empty first string is an IndexError; a string that does not start with a digit or does not end with a letter is copied |
| FrameIo.ConvertedColumn | lib_utils_io.py:92-109 | an empty column is an index error, and a converted column keeps its length |
| FrameIo.SizeColumnConverted | lib_utils_io.py:94-100 | a size column becomes, cell by cell, the source cell converted by `convert_human_unit` to the target unit, a string ending with that unit |
| FrameIo.ConvertColumns | lib_utils_io.py:86-109 | the loop over the matched columns computes exactly the converted columns |
| FrameIo.ConvertPrefixes | lib_utils_io.py:82-109 | the loop over the prefixes computes exactly the columns converted prefix by prefix, stopping at the first refused column |
| FrameIo.ConvertDframeUnits | lib_utils_io.py:71-111 | the loop over the prefixes computes exactly the converted table |
| FrameIo.Converted | lib_utils_io.py:71-111 | a prefix that is neither a string nor a list is refused, and a converted table keeps the source index |
| FrameIo.ConvertedRefusesPrefix | lib_utils_io.py:73-79 | a prefix that is neither a string nor a list is refused |
| FrameIo.ConvertedNothing | lib_utils_io.py:81-85 | when no column matches any prefix, the result is none |
| FileNames.Truncate | ruler_utils_workspace2csv.py:263 | `int` of a float truncates toward zero |
| FileNames.ReportId | ruler_utils_workspace2csv.py:261-268 | exactly the other types are refused; no id stays none; a string passes unchanged |
| FileNames.ChunkName | ruler_utils_workspace2csv.py:261-268 | a chunk name reads back as its id: the decimal digits of a non-negative id, a minus sign and the digits of the magnitude of a negative one |
| FileNames.FloatIdTruncates | ruler_utils_workspace2csv.py:262-263 | a float id names the same file as its integer part |
| FileNames.ChunkNamesDistinct | driver_analysis.py:153-155 | distinct integer ids give distinct names |
| Driver.Cadences | driver_analysis.py:66-73 | the frequency is at least two seconds and the period at most one hour; a missing one takes its bound |
| Driver.ToolAttributes | driver_analysis.py:199-204 | attributes are found exactly for a configured collector, and they are its own |
| Driver.MergedKeys | driver_analysis.py:243-245 | the merged keys are the union of the enabled collectors' keys |
| Driver.Merged | driver_analysis.py:243-245 | the merged sample never holds a key twice |
| Driver.Execute | driver_analysis.py:208-256 | no sample means nothing was merged; a sample holds the elapsed time under 'time_elapsed' |
| Driver.MergedLaterWins | driver_analysis.py:243-245 | on a shared key the value comes from the last collector that has it, in the order process, memory, disk, system load |
| Driver.UnlistedToolIgnored | driver_analysis.py:212-241 | a collector not listed contributes nothing, whatever it would give |
| Driver.NothingListed | driver_analysis.py:210-252 | with no collector listed, the sample is none |
| Driver.SampleAddsElapsed | driver_analysis.py:248-254 | a non-empty sample gains exactly the key 'time_elapsed', holding the time elapsed, and keeps every other value |
| Driver.Advance | driver_analysis.py:297-301 | with a positive chunk size the row counter stays in [0, max); the chunk id moves on by exactly one when the row counter reaches max and otherwise stays, while the row counter grows by one |
| Driver.TargetsBound | driver_analysis.py:297-301 | over a run, no chunk id receives more than max rows, the current one no more than its free rows, and an earlier one none |
| Driver.TargetsAscend | driver_analysis.py:297-301 | consecutive rows go to the same chunk or to the next one |
| Driver.FrozenChunks | driver_analysis.py:264-295 | freezing into a missing chunk makes a one-row chunk, and into an existing chunk appends the row; no other chunk changes |
| Driver.Frozen | driver_analysis.py:264-301 | the counters advance once and the elapsed time is kept; the current chunk is added if missing, no other chunk appears, and it ends with the new row |
| Driver.FrozenCollects | driver_analysis.py:261-301 | freezing one more row keeps the collected chunks equal to every row frozen so far, in order |
| Driver.FrozenNoneBeyond | driver_analysis.py:264-295 | freezing never creates a chunk beyond the current id |
| Driver.FrozenCollectsRows | driver_analysis.py:261-301 | after freezing, the chunks up to the new current id collect the earlier rows followed by the frozen one |
| Driver.FrozenNextAbsent | driver_analysis.py:264-301 | when freezing moves on to the next id, that id has no chunk yet |
| Driver.FreezeThenCollect | driver_analysis.py:454-488 | collecting ids from the start to the current one gives back exactly the rows frozen, in order, and none when none were frozen |
| Driver.NextClock | driver_analysis.py:179-193 | a new window starts at the clock reading and lasts the period; every later call advances the tick by exactly one frequency and keeps the end |
| Driver.TickStep | driver_analysis.py:394-405 | a tick that freezes advances the counters once; a tick that stops leaves the chunks and counters as they were |
| Driver.LoopStep | driver_analysis.py:377-415 | a tick that freezes hands the loop on to the next clock, and a tick that stops ends it |
| Driver.Loop | driver_analysis.py:374-415 | no more ticks are sampled than read, and the first one sampled is the window start, within the window |
| Driver.LoopTicks | driver_analysis.py:374-415 | the j-th tick sampled is start + j·frequency, and none is past the end |
| Driver.TickAtEndSampled | driver_analysis.py:387-389 | a tick equal to the end is still sampled |
| Driver.EmptySampleStops | driver_analysis.py:398-400 | an empty sample stops the loop without writing a row |
| Driver.LoopCounters | driver_analysis.py:297-301 | after the loop, the counters have advanced once per sampled tick |
| Driver.Ids | driver_analysis.py:456 | the ids from start to end inclusive, ascending |
| Driver.CollectNone | driver_analysis.py:465-488 | nothing is collected exactly when none of the ids has a chunk |
| Driver.CollectRows | driver_analysis.py:465-488 | a row is collected exactly when it is in the chunk of one of the ids; none is collected when no chunk is present |
| Driver.CollectSkipsAbsent | driver_analysis.py:472-488 | an id without a chunk is skipped |
| Driver.CollectExtend | driver_analysis.py:477-483 | a row appended to the last id's chunk comes last in the collection |
| Driver.CollectUpdateElsewhere | driver_analysis.py:472-483 | replacing the chunk of an id that is not visited leaves the collection unchanged |
| Driver.CollectLast | driver_analysis.py:472-483 | one more id adds its chunk, when it has one, behind the rows so far |
| Driver.CollectChunks | driver_analysis.py:465-488 | the loop over the ids computes exactly the concatenation of the present chunks |
| Driver.DriverAnalysis.constructor | driver_analysis.py:87-130 | the counters start at row 0 and the first id; old chunks are removed only when cleaning with organizing on, and an old destination only when cleaning with dumping on |
| Driver.DriverAnalysis.ExecuteReportAnalysis | driver_analysis.py:208-256 | the result is the merged sample, and the elapsed time is recorded |
| Driver.DriverAnalysis.FreezeReportAnalysis | driver_analysis.py:261-301 | the store becomes the frozen store: the row is appended to the current chunk and the counters advance |
| Driver.DriverAnalysis.OrganizeTick | driver_analysis.py:394-405 | one tick changes the store as the tick step does, and says whether the loop goes on |
| Driver.DriverAnalysis.Organize | driver_analysis.py:365-437 | the while loop leaves the store and outcome that the organize run specifies |
| Driver.DriverAnalysis.Dump | driver_analysis.py:441-507 | the destination becomes the dumped report: it is kept when it exists and is not cleaned, and is otherwise the collection of chunks from the first id to the current one |
| Consolidation.InsertNameAscending | ruler_utils_workspace2csv.py:243 | inserting into an ascending list keeps it ascending |
| Consolidation.SortNames | ruler_utils_workspace2csv.py:243 | the sorted names are the same names, each as often |
| Consolidation.SearchSorted | ruler_utils_workspace2csv.py:240-243 | sorted search results are ascending and are exactly the names found |
| Consolidation.WithoutAffinityEntries | ruler_utils_workspace2csv.py:146-151 | an entry is kept exactly when its name does not contain 'cpu_affinity' |
| Consolidation.DropAffinity | ruler_utils_workspace2csv.py:146-151 | every row keeps its time and loses exactly its affinity entries |
| Consolidation.InsertRowAscending | ruler_utils_workspace2csv.py:165 | inserting into rows ordered by time keeps them ordered |
| Consolidation.SortRows | ruler_utils_workspace2csv.py:165 | sorting keeps the same rows, each as often |
| Consolidation.SortRowsAscending | ruler_utils_workspace2csv.py:165 | sorted rows are ascending by time |
| Consolidation.GatherChunks | ruler_utils_workspace2csv.py:134-162 | the loop over the files computes exactly the concatenation of the present files with affinity columns dropped |
| Consolidation.Gathered | ruler_utils_workspace2csv.py:134-162 | nothing is gathered exactly when none of the named files exists |
| Consolidation.GatheredRows | ruler_utils_workspace2csv.py:136-162 | a row is gathered exactly when it is a dropped row of a present file; nothing is gathered when no file is present |
| Consolidation.Consolidate | ruler_utils_workspace2csv.py:111-177 | the script's result is the consolidation of the sorted search results |
| Consolidation.Consolidated | ruler_utils_workspace2csv.py:111-177 | an existing destination that is not cleaned is kept; otherwise, with names, it fails exactly when none of the files exists, and what is written is ascending by time |
| Consolidation.ExistingDestinationKept | ruler_utils_workspace2csv.py:131-132 | an existing destination that is not cleaned is kept and nothing is merged |
| Consolidation.NoSourcesNothingWritten | ruler_utils_workspace2csv.py:130-177 | with no source files nothing new is written |
| Consolidation.WrittenRows | ruler_utils_workspace2csv.py:136-165 | what is written is ascending by time and holds the gathered rows, each as often as gathered |
| Consolidation.WrittenWithoutAffinity | ruler_utils_workspace2csv.py:146-151 | no entry of a written row names a CPU affinity |
| Text.ContainsOccurs | lib_analysis_fx.py:303 | Python's `sub in s` on strings holds exactly when `sub` occurs at some place in `s` |
| Text.FirstRunStart | lib_utils_time.py:200-205 | the first character of the class is at the returned place, and none comes before it |
| Text.FirstRun | lib_utils_time.py:200-205 | `re.findall(<class>+, s)[0]`: empty exactly when no character is of the class, and otherwise the first maximal run of the class |
| Records.LastValue | lib_analysis_fx.py:310 | the last value written to a key is found exactly for the keys written |
| Records.LastIndex | lib_analysis_fx.py:310 | the last write to a key is at a place in the log holding that key and that value |
| Records.GetPutAllLast | lib_analysis_fx.py:310 | after a sequence of assignments a key holds its last assigned value, or its old value when none was assigned |
| Records.PutAllAppend | lib_analysis_fx.py:298-310 | assigning two logs is assigning the first and then the second |
| Records.PutAllCons | lib_analysis_fx.py:298-310 | assigning a log is assigning its first entry and then the rest |

## Left out

- The operating-system queries are inputs. These are psutil's `process_iter`,
  `memory_info`, `memory_full_info`, `memory_percent`, `virtual_memory`,
  `swap_memory`, `disk_usage`, `getloadavg`, `cpu_affinity` and `cpu_num`,
  and `get_linux_memory_usage`. A process is a record, and each collector's
  output is a record.
- `get_memory_info` is not modelled: it only calls psutil and humanizes.
- The collectors are not run during a tick. The driver receives their
  records, or their failures, as a `Collected` input.
- The wall clock is a sequence of integer readings in seconds. The sleep
  between ticks and its modulo-60 computation are not modelled. They only
  delay the loop.
- `Driver.Execute` rounds the elapsed time to whole seconds instead of to
  one decimal, because clock readings are integers.
- `Driver.DriverAnalysis.Organize` gets a finite sequence of readings and
  stops when they run out. The source loops until the window closes or a
  sample is empty.
- The constructor gets an already computed cadence. `Driver.Cadences` models
  how a cadence is computed from the configured texts, including the
  failures.
- The constructor also queries the process and memory at start, and reads
  the configuration. It sets file paths and the figure-cleaning flag. These
  calls are not modelled.
- The driver's clock never takes its no-period branch, because the period
  always has a value after the constructor. The branch is modelled in
  `Driver.NextClock` all the same.
- Durations are parsed by a small parser: a count of digits followed by s,
  m, min or h. Other pandas `Timedelta` forms, such as days or compound
  texts, are refused.
- The driver stores the frequency and period in seconds as whole durations.
  The source stores the seconds within a day, but uses them only to sleep.
- File-name templating (`fill_tags2string`), `make_folder`, glob,
  `os.remove`, and pickle, CSV and JSON I/O are not modelled. A chunk file is
  named by its id alone (`FileNames.ChunkName`), and distinct ids name
  distinct files. The glob result is an input to `Consolidation.Consolidate`.
- The `file_path_reverse` branch of `search_file_name` is not modelled: it
  indexes a boolean and cannot run.
- Formatting is a function parameter:
  - psutil's `bytes2human`;
  - the fixed `{:.4f}` rounding of the memory shares in `add_process_info`
    (`round4`), and the configurable `percent_format` of
    `organize_process_info` (`percentFormat`), which is applied to the
    shares once more;
  - `size_format`;
  - `strftime` of `create_time`.
- Floating point is modelled as exact `real` arithmetic.
- `Consolidation.SortRows` is a stable insertion sort. pandas `sort_index` is
  not guaranteed stable, so the contracts claim only order by time and the
  same rows, never the order of equal times.
- Table concatenation that fills missing cells with NaN is implicit. Each
  row holds only its own keys.
- `isnumeric`, `isalpha` and `isspace` are their ASCII cases; other Unicode
  characters are not modelled.
- `FrameIo.ConvertedColumn` reads a column's first cell where the source
  uses the label `0`. These are the same when the index starts at 0.
- `get_disk_info` has branches for a humanized record that is none or not a
  dictionary. They cannot be taken, because humanizing always gives a
  dictionary, so they are not modelled.
- `kill` and `kill_process_tree` are not modelled: they send OS signals.
- The views and plotting in `lib_analysis_plot.py`, `view` and
  `view_report_analysis` are not modelled.
- `ruler_main.py`, `ruler_loop.py` and `ruler_utils_loop_fx.py` are not part
  of this model. They hold the command line, logging setup and demo loops.
- `lib_utils_time.py`'s `set_time` and `set_chunks` are not modelled. They
  build pandas date ranges and are not used by the core.
- `SizeUnits.Round2`: rounds the exact real value half to even. Python's
  `round(x, 2)` rounds the binary float nearest to x, so on a tie such as
  2.675 the two may differ in the last digit.
- `SizeUnits.ParseFloat`: reads an optional sign, digits and at most one
  point. Python's `float` also accepts exponents ("1e3"), underscores
  ("1_000"), "inf", "infinity" and "nan", and surrounding whitespace; these
  are refused here.
- `ProcessRecords.FormatProcN`: models `str.format` with the one keyword
  `proc_n`. A replacement field with a non-empty format spec (such as
  `{proc_n:>3}`), attribute or index access (`{proc_n.real}`,
  `{proc_n[0]}`) or a nested field is refused with a value error, although
  Python accepts some of these. The model reports the first fault from the
  left, field by field; the exact exception class Python raises for some
  malformed fields is approximated by these three error kinds.
- `Driver.Cadences`: uses the clamp on whole durations, so a '24h' period
  becomes '1h'. The source compares seconds within a day and keeps '24h'
  (see "## Findings").
- `ProcessSelection.GetProcessInfo`: does not compute the tag, which the
  source only logs. It therefore succeeds where the source raises an
  `IndexError` at lib_analysis_fx.py:150-154: for a process matched by name
  whose command line is empty (`cmdline()[0]`), or is a single part that
  does not hold the target (`cmdline()[1]`). Both cases are modelled by
  `ProcessSelection.ProcessTagAsWritten` (see "## Findings").
- `ProcessRecords.PercentsMissing`: a memory type that psutil reports but
  whose share cannot be read is a modelling input. psutil itself always
  answers, or raises.

## Findings

| source | as written | input that shows it | evidently intended | confidence | as-written member | corrected member |
|---|---|---|---|---|---|---|
| lib_analysis_utils.py:103-109 | the table check tests `size_unit`, which is still None at that point, so every non-zero byte count is refused | 2048 bytes, size type 'short' (`SizeUnits.BytesToHumanValueAsWrittenFails`) | select the table by the size type and return (2.0, 'K') | not executed | SizeUnits.BytesToHumanValueAsWritten | SizeUnits.BytesToHumanValue |
| lib_utils_time.py:163-175 | the clamp compares `pd.Timedelta(...).seconds`, the seconds within one day | period '24h' passes the '1h' maximum, and frequency '24h' is replaced by the '2s' minimum (`TimeDeltas.DayPeriodPassesHourMaximum`, `TimeDeltas.DayFrequencyFallsBelowMinimum`) | compare whole durations, so '24h' is clamped to '1h' and kept as a frequency | not executed | TimeDeltas.CheckTimeDeltaLimitsAsWritten | TimeDeltas.CheckTimeDeltaLimits |
| lib_analysis_fx.py:150-158 | the tag reads `cmdline()[0]` and `cmdline()[1]` without checking that they exist | a process named as the target whose command line is empty, as psutil reports for kernel threads (`ProcessSelection.TagOfEmptyCommandLine`) | fall back to the process name | not executed | ProcessSelection.ProcessTagAsWritten | ProcessSelection.ProcessTag |
