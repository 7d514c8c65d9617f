# BLE AoD locator: a Dafny model

This project models the locator firmware of `ble_aod_positioning`. The
locator receives Bluetooth Low Energy constant tone extension (CTE) IQ
samples from beacons that switch between the 16 antennas of a CHW1010-ANT2
array. It estimates the angle of departure (direction cosines) of each
packet by interferometry. It pairs packets from two different beacons, and
intersects the two skew lines to get a position. The model also covers the
three Python scripts of the Skaarlia tunnel experiment. Those scripts pull
the printed positions out of a log, compute the mean error per test, and
trilaterate the test ground truths.

Modules, one per source unit:

- `Common`: pointers (`Ptr`, where `Null` is a C `NULL` argument), `Option`,
  errno constants, octets, `int8_t`, 3-vectors and a real `sqrt` parameter
  (`RootAt`).
- `BtAddr` (`bt_addr_utils.c`, `beacon.h`): MAC comparison and octet-order
  reversal.
- `BeaconDatabase` (`beacon_database.c`): the 16-slot beacon store.
- `Locator` (`locator.c`): the position history ring and the skew-line
  estimate.
- `IqDataWorkQueue` (`iq_data_work_queue.c`): the 8-slot ring of raw
  records, and its handler.
- `IqSamples` (`iq_data.c`): raw-record and IQ-data initialisation, and the
  reference-sample fix.
- `IqInterferometry` (`iq_data.c`): the switching and pair tables, the
  routing of phase differences, and the direction cosines.
- `IqProcess` (`iq_data.c`): `iq_data_process`, the pairing of consecutive
  records from different beacons.
- `BleChannel` (`ble_channel_constants.c`): the frequency, wavelength and
  wavenumber tables.
- `Chw1010` (`chw1010_ant2_specs.c/.h`): antenna spacing, grid and position
  tables.
- `ExtractCoordinates`, `ProcessCoordinates`, `GroundTruth`: the three
  experiment scripts.

Floating-point functions (`sqrtf`, `atan2f`, `asinf`, the circular mean,
`float()` and `f"{v:.2f}"` in Python) are function parameters, and contracts
assume only what is stated about them (for example `RootAt(sqrt, v)`).
Arithmetic is on exact reals.

## Model

| member | source | states |
|---|---|---|
| BtAddr.Memcmp | ble_aod_positioning/locator/src/bt_addr_utils.c:14 | the comparison is 0 exactly when the first n octets agree, and otherwise its sign is -1 or 1 |
| BtAddr.MemcmpAntisymmetric | ble_aod_positioning/locator/src/bt_addr_utils.c:14 | swapping the operands negates the comparison |
| BtAddr.MacCompare | ble_aod_positioning/locator/src/bt_addr_utils.c:7-19 | -EINVAL exactly when an argument is NULL; otherwise 1 exactly when all six octets agree, else 0 |
| BtAddr.MacCompareEquivalence | ble_aod_positioning/locator/src/bt_addr_utils.c:14-18 | "same MAC" is reflexive, symmetric and transitive, and it is address equality |
| BtAddr.ToLittleEndian | ble_aod_positioning/locator/src/beacon.h:18-29 | the little-endian address holds the big-endian octets in reverse order |
| BtAddr.ToLittleEndianInvolution | ble_aod_positioning/locator/src/beacon.h:18-29 | reversing twice gives back the address, and distinct addresses stay distinct |
| BeaconDatabase.Init | ble_aod_positioning/locator/src/beacon_database.c:12-20 | NULL gives -EINVAL; otherwise the database is empty and satisfies the uniqueness invariant |
| BeaconDatabase.FindSlot | ble_aod_positioning/locator/src/beacon_database.c:34-43 | the result is the first stored slot with that little-endian address, or none when no stored slot has it |
| BeaconDatabase.FindSlotIsOnlyMatch | ble_aod_positioning/locator/src/beacon_database.c:34-43 | under the invariant, the slot holding an address is the one the search finds |
| BeaconDatabase.Put | ble_aod_positioning/locator/src/beacon_database.c:26-53 | NULL gives -EINVAL; a known address is overwritten in place; a new address is appended when there is room, and otherwise the call gives -ENOSPC and changes nothing |
| BeaconDatabase.PutPreservesInvariant | ble_aod_positioning/locator/src/beacon_database.c:34-52 | after a put, no two stored beacons share an address |
| BeaconDatabase.Get | ble_aod_positioning/locator/src/beacon_database.c:55-76 | the result is 0 exactly when the address is stored, and then the copied beacon is a stored one with that address; NULL gives -EINVAL and a miss gives -ENOENT, both leaving the output untouched |
| BeaconDatabase.PutThenGet | ble_aod_positioning/locator/src/beacon_database.c:26-76 | after a successful put, getting its address returns the beacon put, and getting any other address returns what it returned before |
| BeaconDatabase.PutFullRefuses | ble_aod_positioning/locator/src/beacon_database.c:45-47 | a full database refuses a new address with -ENOSPC and is unchanged |
| Locator.Init | ble_aod_positioning/locator/src/locator.c:15-28 | NULL gives -EINVAL; otherwise the history is empty, the next slot is 0 and the database is attached |
| Locator.Record | ble_aod_positioning/locator/src/locator.c:261-269 | the position is written at the next slot, and only there; the next slot advances modulo 256; the count grows up to 256 |
| Locator.RecordAppends | ble_aod_positioning/locator/src/locator.c:261-269 | read oldest first, the history gains the new position at its end, and when full it drops its oldest |
| Locator.RecordWithRoom | ble_aod_positioning/locator/src/locator.c:265-269 | below capacity, recording appends to the oldest-first history |
| Locator.RecordWhenFull | ble_aod_positioning/locator/src/locator.c:262-266 | at capacity, recording drops the oldest entry and appends the new one |
| Locator.Closest | ble_aod_positioning/locator/src/locator.c:225-239 | the two returned points lie on their lines at the returned parameters |
| Locator.ConnectorDot | ble_aod_positioning/locator/src/locator.c:143-165 | the projection of the vector between two line points is linear in the two line parameters |
| Locator.ClosestPointsPerpendicular | ble_aod_positioning/locator/src/locator.c:143-239 | for unit directions that are not parallel, the segment between the closest points is perpendicular to both lines |
| Locator.ClosestPointsMinimal | ble_aod_positioning/locator/src/locator.c:147-149 | no other pair of points on the two lines is closer than the computed pair |
| Locator.EstimatePosition | ble_aod_positioning/locator/src/locator.c:241-259 | the estimate is the midpoint of the closest points, and with an exact root the error radius is half their distance |
| Locator.NearlyParallel | ble_aod_positioning/locator/src/locator.c:217-223 | lines count as nearly parallel exactly when the denominator 1 - (D1.D2)^2 lies strictly between -0.001 and 0.001; otherwise the denominator is nonzero, so the division that follows is defined |
| Locator.Lookup | ble_aod_positioning/locator/src/locator.c:58-73 | a NULL MAC gives -EINVAL; a lookup succeeds exactly when the MAC is stored, otherwise it gives -ENOENT; a successful lookup yields a stored beacon with that MAC |
| Locator.Estimate | ble_aod_positioning/locator/src/locator.c:34-275 | the error ladder: NULL or no database gives -EINVAL; a missing first, then second, beacon gives its lookup error; nearly parallel lines give -LOCATOR_ERROR_PARALLEL_LINES; otherwise the midpoint is recorded in the history. Every error leaves the locator unchanged |
| Locator.EstimateErrorLadder | ble_aod_positioning/locator/src/locator.c:44-274 | with a database attached, the result is 0, -ENOENT or the parallel-lines error, and it is -ENOENT exactly when one of the beacons is not stored |
| Locator.PrintedLines | ble_aod_positioning/locator/src/locator.c:271-272 | the position is printed as three newline-terminated log lines, starting "X = ", "Y = " and "Z = " in that order |
| IqDataWorkQueue.Init | ble_aod_positioning/locator/src/iq_data_work_queue.c:92-116 | a NULL queue, target or processor leaves the queue as it was; otherwise the queue is empty and satisfies the ring invariant |
| IqDataWorkQueue.Submit | ble_aod_positioning/locator/src/iq_data_work_queue.c:118-162 | the record becomes the newest entry; with room the contents grow by it, and when full the oldest is overwritten; work is started exactly when the queue then holds one record, and scheduled only if a target queue is set |
| IqDataWorkQueue.ContentsAfterSubmit | ble_aod_positioning/locator/src/iq_data_work_queue.c:128-146 | moving the head and (when full) the tail keeps the ring invariant and appends to the oldest-first contents |
| IqDataWorkQueue.SubmitWithRoom | ble_aod_positioning/locator/src/iq_data_work_queue.c:135-146 | below capacity, a submit appends to the contents |
| IqDataWorkQueue.SubmitWhenFull | ble_aod_positioning/locator/src/iq_data_work_queue.c:128-134 | at capacity, a submit drops the oldest record and appends the new one |
| IqDataWorkQueue.Extract | ble_aod_positioning/locator/src/iq_data_work_queue.c:34-58 | an empty queue yields nothing; otherwise the newest record is taken and the contents lose their last element |
| IqDataWorkQueue.SubmitThenExtract | ble_aod_positioning/locator/src/iq_data_work_queue.c:34-146 | the record just submitted is the next one extracted, whether or not the queue was full |
| IqDataWorkQueue.Reverse | ble_aod_positioning/locator/src/iq_data_work_queue.c:34-58 | the handler's order is the contents newest first |
| IqDataWorkQueue.Handle | ble_aod_positioning/locator/src/iq_data_work_queue.c:17-90 | the handler empties the queue and processes every record, newest first (none without a processor), and never resubmits itself |
| IqSamples.RawInit | ble_aod_positioning/locator/src/iq_data.c:30-60 | the sample count is capped at 45 and the I and Q arrays copy the report's first samples |
| IqSamples.Init | ble_aod_positioning/locator/src/iq_data.c:62-109 | the first 8 samples are reference samples and the rest are measurement samples; together they are the raw samples in order, and there are measurement samples only after a full reference period |
| IqSamples.ReportToIqData | ble_aod_positioning/locator/src/iq_data.c:30-109 | from report to IQ data, every sample up to the cap keeps its position and value |
| IqSamples.Negate8 | ble_aod_positioning/locator/src/iq_data.c:133-145 | the negation of an int8_t sample saturates: it is exact except for -128, which goes to the nearest representable value |
| IqSamples.Negate8Involution | ble_aod_positioning/locator/src/iq_data.c:133-145 | negating twice restores every sample except -128, which becomes -127 |
| IqSamples.TempFix | ble_aod_positioning/locator/src/iq_data.c:127-147 | only the reference samples change, and each odd-indexed one is rotated by 180 degrees |
| IqSamples.RotatesOddTwice | ble_aod_positioning/locator/src/iq_data.c:127-147 | applying the fix twice restores the samples exactly when no odd reference sample is -128 |
| IqInterferometry.FullSwitchingCycles | ble_aod_positioning/locator/src/iq_data.c:836-841 | the full pattern visits antennas 1, 2, ..., 15, 0, 1, ... over the 37 measurement slots |
| IqInterferometry.FullSwitchingSteps | ble_aod_positioning/locator/src/iq_data.c:836-841 | each measurement slot of the full pattern uses the antenna after the one before it |
| IqInterferometry.RowSwitchingCycles | ble_aod_positioning/locator/src/iq_data.c:416-421 | the row pattern repeats antennas 3, 4, 6, 2 |
| IqInterferometry.PairTablesConsecutive | ble_aod_positioning/locator/src/iq_data.c:913-950 | the 32 full pairs and the 27 row pairs join consecutive measurement slots with a valid direction |
| IqInterferometry.FullPairsFollowGrid | ble_aod_positioning/locator/src/iq_data.c:885-950 | every full pair joins two antennas that are neighbours on the grid in the direction its code names |
| IqInterferometry.FullPairsFollowSteps | ble_aod_positioning/locator/src/iq_data.c:913-950 | the full pairs skip exactly the antenna steps 5 to 6 and 9 to 10 that jump across the grid, and each direction code is the one of its step |
| IqInterferometry.AntennaStepNeighbours | ble_aod_positioning/locator/src/chw1010_ant2_specs.h:4-13 | except after antennas 5 and 9, the next antenna in the cycle is a grid neighbour in a fixed direction |
| IqInterferometry.RowPairsFollowGrid | ble_aod_positioning/locator/src/iq_data.c:470-534 | every row pair goes left to right between grid neighbours |
| IqInterferometry.RowPairsSkipGroupEnds | ble_aod_positioning/locator/src/iq_data.c:493-534 | the row pairs never join the last antenna of a row to the first of the next |
| IqInterferometry.RowStepNeighbours | ble_aod_positioning/locator/src/iq_data.c:416-421 | within one row group, consecutive row-pattern antennas are left-to-right neighbours |
| IqInterferometry.NeighbourPositions | ble_aod_positioning/locator/src/chw1010_ant2_specs.c:27-44 | antennas that are grid neighbours are exactly one orthogonal spacing apart along the pair's axis and aligned on the other |
| IqInterferometry.FullPairsHorizontal | ble_aod_positioning/locator/src/iq_data.c:913-950 | the positions of the 14 horizontal entries of the full pair table; every other entry is vertical |
| IqInterferometry.ClampDelta | ble_aod_positioning/locator/src/iq_data.c:1077-1087 | a phase difference is clamped into [-d_orth, d_orth], and one already inside is kept |
| IqInterferometry.ClampDeltaOdd | ble_aod_positioning/locator/src/iq_data.c:1077-1087 | clamping commutes with negation |
| IqInterferometry.Signed | ble_aod_positioning/locator/src/iq_data.c:1094-1111 | right-to-left and top-to-bottom pairs contribute the negated difference, left-to-right and bottom-to-top pairs the difference itself |
| IqInterferometry.Route | ble_aod_positioning/locator/src/iq_data.c:1052-1112 | one difference per in-bounds pair goes to the horizontal or vertical list, and every routed difference lies within d_orth; which entry each pair supplies is stated by RouteEntry |
| IqInterferometry.CountUsed | ble_aod_positioning/locator/src/iq_data.c:1052-1112 | a helper count of routed pairs, never above the table size; its values for the tables are stated by EveryPairRouted and FullPairsDirectionCounts, and RouteEntry uses it as the index of each entry |
| IqInterferometry.RouteDeltas | ble_aod_positioning/locator/src/iq_data.c:1052-1112 | the firmware loop builds exactly the two lists of the routing definition |
| IqInterferometry.RouteEntry | ble_aod_positioning/locator/src/iq_data.c:1094-1111 | the k-th in-bounds pair writes its clamped, signed difference into its direction's list, at the index equal to the number of earlier pairs routed there |
| IqInterferometry.MeanOf | ble_aod_positioning/locator/src/iq_data.c:1113-1130 | an empty list leaves the mean at its initial 0; a non-empty one gives its circular mean |
| IqInterferometry.EveryPairRouted | ble_aod_positioning/locator/src/iq_data.c:1094-1111 | when every pair is in bounds and has a valid direction, each pair lands in exactly one list |
| IqInterferometry.NoVerticalPairs | ble_aod_positioning/locator/src/iq_data.c:473-475 | a table without vertical pairs leaves the vertical list empty |
| IqInterferometry.TableDifferenceCounts | ble_aod_positioning/locator/src/iq_data.c:893-895 | with all 37 measurements, the full pattern gives 14 horizontal and 18 vertical differences, and the row pattern 27 horizontal and none vertical |
| IqInterferometry.FullPairsDirectionCounts | ble_aod_positioning/locator/src/iq_data.c:893-895 | the full pair table has 14 horizontal and 18 vertical pairs |
| IqInterferometry.Reversed | ble_aod_positioning/locator/src/iq_data.c:898-900 | a pair with its indices swapped keeps its axis and flips its sense |
| IqInterferometry.ReversedInvolution | ble_aod_positioning/locator/src/iq_data.c:898-900 | reversing a pair twice gives it back |
| IqInterferometry.ReverseAll | ble_aod_positioning/locator/src/iq_data.c:898-900 | the reversed table reverses every pair in place |
| IqInterferometry.ReversedContributesSame | ble_aod_positioning/locator/src/iq_data.c:896-907 | for an antisymmetric phase difference, a reversed pair contributes the same signed difference |
| IqInterferometry.ReversedEncodingEquivalent | ble_aod_positioning/locator/src/iq_data.c:896-907 | encoding the table the other way round gives exactly the same horizontal and vertical lists |
| IqInterferometry.QuotientBounds | ble_aod_positioning/locator/src/iq_data.c:1132-1156 | -mean / d_orth lies in [-1, 1] exactly when the mean is within d_orth, and is outside on the matching side otherwise |
| IqInterferometry.DirectionCosine | ble_aod_positioning/locator/src/iq_data.c:1132-1156 | no differences give cosine 0; otherwise the cosine is -mean / d_orth clamped to [-1, 1]; only 0/0 is undefined |
| IqInterferometry.ZCosine | ble_aod_positioning/locator/src/iq_data.c:1158-1168 | the z cosine is non-negative and completes x and y to a unit vector, and it is 0 when x and y already reach the unit circle |
| IqInterferometry.SpacingRadians | ble_aod_positioning/locator/src/iq_data.c:982-989 | d_orth is positive for a valid channel and 0 otherwise |
| IqInterferometry.Cosines | ble_aod_positioning/locator/src/iq_data.c:1113-1168 | x comes from the horizontal list and y from the vertical list, both in [-1, 1], and z completes them; a valid channel always gives a result |
| IqInterferometry.Interferometry | ble_aod_positioning/locator/src/iq_data.c:955-1175 | an uninitialised record is refused; fewer than 3 measurements give straight up; otherwise the cosines, azimuth and elevation come from the routed differences, and NaN only without a valid channel |
| IqProcess.Next | ble_aod_positioning/locator/src/iq_data.c:1328-1360 | the first record is stored; a record from the stored beacon is ignored; a record from another beacon forms a pair with the stored one and replaces it |
| IqProcess.Run | ble_aod_positioning/locator/src/iq_data.c:1328-1360 | after any sequence, every pair joins records from two different beacons, and a record is stored once one has arrived |
| IqProcess.RunStart | ble_aod_positioning/locator/src/iq_data.c:1328-1360 | the start of the final same-beacon run of records |
| IqProcess.RunKeepsRunStart | ble_aod_positioning/locator/src/iq_data.c:1328-1360 | the stored record is the first of the final run, there is one pair per change of beacon, and the last pair ends at that stored record |
| IqProcess.Process | ble_aod_positioning/locator/src/iq_data.c:1335-1360 | a pair is handed to the locator estimate and the locator takes its result; without a pair the locator is untouched |
| IqProcess.ProcessEffect | ble_aod_positioning/locator/src/iq_data.c:1335-1360 | a repeat beacon changes nothing, and a pair of stored, non-parallel beacons adds exactly one position |
| IqProcess.ProcessRaw | ble_aod_positioning/locator/src/iq_data.c:1277-1361 | the raw record is initialised, fixed and estimated before pairing; a record on a valid channel always yields cosines and is handed to the pairing step |
| BleChannel.RfChannel | ble_aod_positioning/locator/src/ble_channel_constants.c:4-13 | the channel index maps to an RF channel number below 40 |
| BleChannel.ChannelIndex | ble_aod_positioning/locator/src/ble_channel_constants.c:4-13 | the RF channel maps back to a channel index below 40 |
| BleChannel.RfChannelBijective | ble_aod_positioning/locator/src/ble_channel_constants.c:4-13 | channel index and RF channel are inverse bijections on 0..39 |
| BleChannel.FrequencyTableFollowsChannelMap | ble_aod_positioning/locator/src/ble_channel_constants.c:4-13 | each table frequency is 2402 + 2k MHz for its RF channel k: data channels 0-10 at 2404-2424, 11-36 at 2428-2478, advertising channels at 2402, 2426 and 2480 |
| BleChannel.FrequenciesDistinctEvenInBand | ble_aod_positioning/locator/src/ble_channel_constants.c:4-13 | the 40 frequencies are distinct and even, and they cover every even MHz from 2402 to 2480 |
| BleChannel.DataChannelFrequenciesIncrease | ble_aod_positioning/locator/src/ble_channel_constants.c:4-13 | data channel frequencies increase with the channel index |
| BleChannel.WavelengthIsSpeedOfLightOverFrequency | ble_aod_positioning/locator/src/ble_channel_constants.c:15-24 | each wavelength times its frequency is the speed of light, to the table's rounding |
| BleChannel.WavelengthsFrom | ble_aod_positioning/locator/src/ble_channel_constants.c:15-24 | the same, for one half of the table |
| BleChannel.WavenumberIsTwoPiOverWavelength | ble_aod_positioning/locator/src/ble_channel_constants.c:26-35 | each wavenumber times its wavelength is 2 pi, to the table's rounding |
| BleChannel.WavenumbersFrom | ble_aod_positioning/locator/src/ble_channel_constants.c:26-35 | the same, for one half of the table |
| BleChannel.GetFrequency | ble_aod_positioning/locator/src/ble_channel_constants.c:37-45 | a valid index gives its channel's frequency, and any other gives 0 |
| BleChannel.GetWavelength | ble_aod_positioning/locator/src/ble_channel_constants.c:47-55 | a valid index gives c over the channel frequency, to rounding, and any other gives 0 |
| BleChannel.GetWavenumber | ble_aod_positioning/locator/src/ble_channel_constants.c:57-65 | a valid index gives 2 pi over the channel wavelength, to rounding, and any other gives 0 |
| Chw1010.CellCentre | ble_aod_positioning/locator/src/chw1010_ant2_specs.h:15-30 | cell centres lie in the z = 0 plane at plus or minus d/2 and 3d/2 on each axis |
| Chw1010.CellCentreInjective | ble_aod_positioning/locator/src/chw1010_ant2_specs.h:15-30 | distinct cells have distinct centres |
| Chw1010.CellCentreSpacing | ble_aod_positioning/locator/src/chw1010_ant2_specs.c:3 | centres differ by the orthogonal spacing per column step (x to the right) and per row step (y upward) |
| Chw1010.GridIsPermutation | ble_aod_positioning/locator/src/chw1010_ant2_specs.h:4-13 | the documented 4x4 grid places each of the 16 antennas in exactly one cell |
| Chw1010.PositionsMatchGrid | ble_aod_positioning/locator/src/chw1010_ant2_specs.c:27-44 | each antenna's xyz position is the centre of its grid cell |
| Chw1010.PositionsDistinct | ble_aod_positioning/locator/src/chw1010_ant2_specs.c:27-44 | no two antennas share a position |
| Chw1010.TablesAgree | ble_aod_positioning/locator/src/chw1010_ant2_specs.c:27-101 | the xy, x and y tables are projections of the xyz table |
| Chw1010.DiagonalSpacing | ble_aod_positioning/locator/src/chw1010_ant2_specs.c:5 | the diagonal spacing is the orthogonal spacing times the square root of 2, to the table's rounding |
| ExtractCoordinates.LeadingSpaces | ble_aod_positioning/experiments/2025_04_24_skaarlia_tunnel/scripts/extract_test_coordinates.py:17 | the maximal run of whitespace at the start of the line |
| ExtractCoordinates.TrailingSpaces | ble_aod_positioning/experiments/2025_04_24_skaarlia_tunnel/scripts/extract_test_coordinates.py:17 | the maximal run of whitespace at the end of the line |
| ExtractCoordinates.Strip | ble_aod_positioning/experiments/2025_04_24_skaarlia_tunnel/scripts/extract_test_coordinates.py:17 | the result is the line with only whitespace removed around it, and it neither starts nor ends with whitespace; it is empty exactly for a blank line |
| ExtractCoordinates.StripSurrounded | ble_aod_positioning/experiments/2025_04_24_skaarlia_tunnel/scripts/extract_test_coordinates.py:17 | stripping whitespace added around a word gives the word back |
| ExtractCoordinates.FindFrom | ble_aod_positioning/experiments/2025_04_24_skaarlia_tunnel/scripts/extract_test_coordinates.py:18 | the first occurrence of the marker at or after a position, or none |
| ExtractCoordinates.Find | ble_aod_positioning/experiments/2025_04_24_skaarlia_tunnel/scripts/extract_test_coordinates.py:18 | the first occurrence of the marker in the line, or none when the marker is not in it |
| ExtractCoordinates.SecondField | ble_aod_positioning/experiments/2025_04_24_skaarlia_tunnel/scripts/extract_test_coordinates.py:19 | the text after the first marker, up to the next marker or the end of the line |
| ExtractCoordinates.Update | ble_aod_positioning/experiments/2025_04_24_skaarlia_tunnel/scripts/extract_test_coordinates.py:18-23 | the first marker present (X before Y before Z) sets its coordinate from the text after it; an unparsable value is a ValueError; other lines change nothing |
| ExtractCoordinates.Step | ble_aod_positioning/experiments/2025_04_24_skaarlia_tunnel/scripts/extract_test_coordinates.py:18-29 | after each line, a complete (x, y, z) is emitted as one triple and the accumulator is reset |
| ExtractCoordinates.ScanLines | ble_aod_positioning/experiments/2025_04_24_skaarlia_tunnel/scripts/extract_test_coordinates.py:15-29 | after any prefix of the log, the accumulator is never complete |
| ExtractCoordinates.TriplesUseMarkerLines | ble_aod_positioning/experiments/2025_04_24_skaarlia_tunnel/scripts/extract_test_coordinates.py:18-29 | every triple consumes three marker lines |
| ExtractCoordinates.TriplesInOrder | ble_aod_positioning/experiments/2025_04_24_skaarlia_tunnel/scripts/extract_test_coordinates.py:25-29 | the triples of a prefix of the log are a prefix of the triples of the whole log |
| ExtractCoordinates.ThreeMarkersMakeATriple | ble_aod_positioning/experiments/2025_04_24_skaarlia_tunnel/scripts/extract_test_coordinates.py:18-29 | any X, Y and Z marker lines, in that order or in the order Z, X, Y, give exactly one triple |
| ExtractCoordinates.InOrderXYZ | ble_aod_positioning/experiments/2025_04_24_skaarlia_tunnel/scripts/extract_test_coordinates.py:18-29 | X, Y, Z lines in that order give one triple |
| ExtractCoordinates.InOrderZXY | ble_aod_positioning/experiments/2025_04_24_skaarlia_tunnel/scripts/extract_test_coordinates.py:18-29 | Z, X, Y lines in that order give one triple |
| ExtractCoordinates.PrintedLineStrips | ble_aod_positioning/experiments/2025_04_24_skaarlia_tunnel/scripts/extract_test_coordinates.py:17 | stripping a printed line removes only its newline |
| ExtractCoordinates.PrintedLineMarker | ble_aod_positioning/experiments/2025_04_24_skaarlia_tunnel/scripts/extract_test_coordinates.py:18-23 | a printed line mentions its own marker and no other, so only its own branch of the if/elif chain is taken |
| ExtractCoordinates.PrintedLineField | ble_aod_positioning/experiments/2025_04_24_skaarlia_tunnel/scripts/extract_test_coordinates.py:19-23 | the text after a printed line's marker is exactly the printed value |
| ExtractCoordinates.PrintedPositionScans | ble_aod_positioning/experiments/2025_04_24_skaarlia_tunnel/scripts/extract_test_coordinates.py:16-29 | the three lines the locator prints for a position read back as exactly one triple of the parsed printed values, with nothing pending |
| ExtractCoordinates.ScanAfter | ble_aod_positioning/experiments/2025_04_24_skaarlia_tunnel/scripts/extract_test_coordinates.py:18-29 | one more line either completes a triple and resets, or carries the accumulator forward |
| ExtractCoordinates.Row | ble_aod_positioning/experiments/2025_04_24_skaarlia_tunnel/scripts/extract_test_coordinates.py:31-33 | a row starts with the formatted x followed by a comma, ends in a newline, and is as long as the three formatted values plus two commas and the newline |
| ExtractCoordinates.Csv | ble_aod_positioning/experiments/2025_04_24_skaarlia_tunnel/scripts/extract_test_coordinates.py:31-33 | the output is empty exactly when there are no triples, otherwise it ends in a newline, and it holds at least three characters per triple |
| ExtractCoordinates.OneLinePerTriple | ble_aod_positioning/experiments/2025_04_24_skaarlia_tunnel/scripts/extract_test_coordinates.py:31-33 | the CSV output has exactly one line per triple |
| ExtractCoordinates.ExtractFile | ble_aod_positioning/experiments/2025_04_24_skaarlia_tunnel/scripts/extract_test_coordinates.py:7-35 | a file is written, named after its input, exactly when no value fails to parse, and it holds the CSV of the extracted triples |
| ExtractCoordinates.Main | ble_aod_positioning/experiments/2025_04_24_skaarlia_tunnel/scripts/extract_test_coordinates.py:38-44 | no more outputs and reports than arguments; that each argument is handled in order is stated by MainProcessesEveryArgument and MainPrefix |
| ExtractCoordinates.MainProcessesEveryArgument | ble_aod_positioning/experiments/2025_04_24_skaarlia_tunnel/scripts/extract_test_coordinates.py:38-44 | when every file parses, each non-file argument is reported in order and each file is extracted in order |
| ExtractCoordinates.MainPrefix | ble_aod_positioning/experiments/2025_04_24_skaarlia_tunnel/scripts/extract_test_coordinates.py:38-44 | the run over the first j arguments writes and reports a prefix of what the whole run does; once a file raises ValueError, the outputs of the earlier files are kept and nothing after it is written or reported |
| ExtractCoordinates.Filter | ble_aod_positioning/experiments/2025_04_24_skaarlia_tunnel/scripts/extract_test_coordinates.py:39-42 | never lengthens the argument list, and every kept argument comes from the list and passes the file test as required |
| ExtractCoordinates.FilterKeeps | ble_aod_positioning/experiments/2025_04_24_skaarlia_tunnel/scripts/extract_test_coordinates.py:39-42 | an argument is kept exactly when it is in the list and passes the file test as required |
| ProcessCoordinates.Split | ble_aod_positioning/experiments/2025_04_24_skaarlia_tunnel/scripts/process_test_coordinates.py:26 | splitting gives one more piece than there are separators, and no piece contains one |
| ProcessCoordinates.JoinSplit | ble_aod_positioning/experiments/2025_04_24_skaarlia_tunnel/scripts/process_test_coordinates.py:26 | joining the pieces with the separator gives the line back |
| ProcessCoordinates.SplitJoin | ble_aod_positioning/experiments/2025_04_24_skaarlia_tunnel/scripts/process_test_coordinates.py:26 | splitting a join of separator-free pieces gives the pieces back |
| ProcessCoordinates.SplitSeparator | ble_aod_positioning/experiments/2025_04_24_skaarlia_tunnel/scripts/process_test_coordinates.py:26 | a trailing separator adds one empty piece |
| ProcessCoordinates.SplitPlain | ble_aod_positioning/experiments/2025_04_24_skaarlia_tunnel/scripts/process_test_coordinates.py:26 | text without separators extends the last piece |
| ProcessCoordinates.ParseRow | ble_aod_positioning/experiments/2025_04_24_skaarlia_tunnel/scripts/process_test_coordinates.py:26-36 | a row with fewer than three fields is skipped; otherwise the first three fields must parse, and they give one coordinate |
| ProcessCoordinates.ReadCoordinates | ble_aod_positioning/experiments/2025_04_24_skaarlia_tunnel/scripts/process_test_coordinates.py:24-37 | reading succeeds exactly when every row parses, and gives one coordinate per row with at least three fields; which coordinate each row supplies is stated by ReadCoordinatesEntry |
| ProcessCoordinates.ReadCoordinatesEntry | ble_aod_positioning/experiments/2025_04_24_skaarlia_tunnel/scripts/process_test_coordinates.py:24-37 | a line with at least three fields supplies its parsed triple, at the index equal to the number of such earlier lines; a shorter line supplies nothing |
| ProcessCoordinates.RowsOf | ble_aod_positioning/experiments/2025_04_24_skaarlia_tunnel/scripts/extract_test_coordinates.py:31-33 | one CSV row per triple |
| ProcessCoordinates.CsvIsRows | ble_aod_positioning/experiments/2025_04_24_skaarlia_tunnel/scripts/extract_test_coordinates.py:31-33 | the written file is the concatenation of the rows |
| ProcessCoordinates.RowSplits | ble_aod_positioning/experiments/2025_04_24_skaarlia_tunnel/scripts/process_test_coordinates.py:26-36 | a written row splits into its three formatted values, the last keeping the newline |
| ProcessCoordinates.RowParses | ble_aod_positioning/experiments/2025_04_24_skaarlia_tunnel/scripts/process_test_coordinates.py:26-36 | a written row reads back as the rounded triple |
| ProcessCoordinates.ReadOneMore | ble_aod_positioning/experiments/2025_04_24_skaarlia_tunnel/scripts/process_test_coordinates.py:26-36 | one more parsable row appends its coordinate |
| ProcessCoordinates.ReadsBackOneMore | ble_aod_positioning/experiments/2025_04_24_skaarlia_tunnel/scripts/process_test_coordinates.py:26-36 | reading back extends by one row at a time |
| ProcessCoordinates.ReadsBackExtracted | ble_aod_positioning/experiments/2025_04_24_skaarlia_tunnel/scripts/process_test_coordinates.py:24-37 | the error script reads the extraction script's output back as the same triples, rounded by the format |
| ProcessCoordinates.Rounded | ble_aod_positioning/experiments/2025_04_24_skaarlia_tunnel/scripts/process_test_coordinates.py:24-37 | rounding keeps one triple per triple |
| ProcessCoordinates.TimesIsProduct | ble_aod_positioning/experiments/2025_04_24_skaarlia_tunnel/scripts/process_test_coordinates.py:42-48 | repeated addition of a value is its product with the count |
| ProcessCoordinates.Sums | ble_aod_positioning/experiments/2025_04_24_skaarlia_tunnel/scripts/process_test_coordinates.py:42-48 | the sums start at 0, and those of one coordinate are that coordinate |
| ProcessCoordinates.SumsAppend | ble_aod_positioning/experiments/2025_04_24_skaarlia_tunnel/scripts/process_test_coordinates.py:42-48 | the sums of a concatenation are the componentwise sums of those of its parts |
| ProcessCoordinates.Mean | ble_aod_positioning/experiments/2025_04_24_skaarlia_tunnel/scripts/process_test_coordinates.py:50-52 | each mean coordinate times the count equals that coordinate's sum |
| ProcessCoordinates.SumsWithin | ble_aod_positioning/experiments/2025_04_24_skaarlia_tunnel/scripts/process_test_coordinates.py:42-48 | the coordinate sums of points in a box lie between n times its corners |
| ProcessCoordinates.DivideBounds | ble_aod_positioning/experiments/2025_04_24_skaarlia_tunnel/scripts/process_test_coordinates.py:50-52 | dividing such a sum by the count gives a value between the corners |
| ProcessCoordinates.MeanWithin | ble_aod_positioning/experiments/2025_04_24_skaarlia_tunnel/scripts/process_test_coordinates.py:42-52 | the mean of points in a box lies in the box |
| ProcessCoordinates.MeanOfIdentical | ble_aod_positioning/experiments/2025_04_24_skaarlia_tunnel/scripts/process_test_coordinates.py:42-52 | the mean of identical points is that point |
| ProcessCoordinates.Error | ble_aod_positioning/experiments/2025_04_24_skaarlia_tunnel/scripts/process_test_coordinates.py:54-64 | with an exact root, the error is the Euclidean distance from the mean to the ground truth |
| ProcessCoordinates.ErrorZeroIffExact | ble_aod_positioning/experiments/2025_04_24_skaarlia_tunnel/scripts/process_test_coordinates.py:54-64 | the error is 0 exactly when the mean is the ground truth |
| ProcessCoordinates.ErrorsUpTo | ble_aod_positioning/experiments/2025_04_24_skaarlia_tunnel/scripts/process_test_coordinates.py:17-66 | reports come in test order, each is the error of its test's mean, and the run finishes exactly when every file reads |
| ProcessCoordinates.TestErrors | ble_aod_positioning/experiments/2025_04_24_skaarlia_tunnel/scripts/process_test_coordinates.py:17-66 | at most three tests, only among the first three files, are reported in increasing order; each report is that test's error; there is no crash exactly when each of those files reads |
| ProcessCoordinates.EveryTestReported | ble_aod_positioning/experiments/2025_04_24_skaarlia_tunnel/scripts/process_test_coordinates.py:38-40 | a test is reported exactly when its file holds at least one coordinate |
| ProcessCoordinates.OnlyFirstTests | ble_aod_positioning/experiments/2025_04_24_skaarlia_tunnel/scripts/process_test_coordinates.py:18 | files beyond the third make no difference |
| ProcessCoordinates.Evaluate | ble_aod_positioning/experiments/2025_04_24_skaarlia_tunnel/scripts/process_test_coordinates.py:127-136 | exactly the non-file arguments are reported, and at most three tests are evaluated |
| ProcessCoordinates.NonFileTakesNoTest | ble_aod_positioning/experiments/2025_04_24_skaarlia_tunnel/scripts/process_test_coordinates.py:130-136 | a non-file argument does not shift the test numbering |
| ProcessCoordinates.NonFileDropped | ble_aod_positioning/experiments/2025_04_24_skaarlia_tunnel/scripts/process_test_coordinates.py:130-134 | a non-file argument is not among the files kept |
| ProcessCoordinates.FilterAppend | ble_aod_positioning/experiments/2025_04_24_skaarlia_tunnel/scripts/process_test_coordinates.py:130-134 | filtering a concatenation concatenates the filtered parts |
| GroundTruth.Trilaterate | ble_aod_positioning/experiments/2025_04_24_skaarlia_tunnel/scripts/calculate_test_ground_truths.py:8-50 | when the two distance circles meet, the point is at the given distances from both beacons with z >= 0; when they do not, z is clamped to 0 |
| GroundTruth.TrilaterateRecoversPoint | ble_aod_positioning/experiments/2025_04_24_skaarlia_tunnel/scripts/calculate_test_ground_truths.py:12-43 | trilateration inverts the distance measurement for every point with z >= 0 |
| GroundTruth.DocumentedGroundTruths | ble_aod_positioning/experiments/2025_04_24_skaarlia_tunnel/scripts/calculate_test_ground_truths.py:57-77 | the three measured distance pairs give the documented ground truths (3.30, 9.06), (9.69, 9.40) and (-1.53, 9.27), to two decimals |

## Left out

- Drift estimation, compensation, the per-pair `atan2f` of compensated samples and the circular mean (`directional_statistics.c`) are floating-point signal processing. They are the parameters `phaseDeltaOf` and `circularMean`.
- `sqrtf`, `atan2f` and `asinf` are parameters. Contracts use only that a square root is exact where stated (`RootAt`).
- Spinlocks and `k_work` submission are concurrency. The work-queue handler is modelled as one sequential drain, and its resubmit check is therefore always false.
- `main.c` of the locator and the beacon, `beacon_init`, and the `misc/` generator programs are set-up and code generation. The local-to-global orientation transform is the parameter `toGlobal`.
- `printk` debug output is left out. The one exception is the position print at `locator.c:271-272`, which is modelled as `Locator.PrintedLines`, and `ExtractCoordinates.PrintedPositionScans` reads it back. The model does not connect Estimate to that print: the caller applies PrintedLines to the position that Estimate records.
- The plot in `process_test_coordinates.py` (lines 71-124) is output only.
- ProcessCoordinates.TestErrors: a report holds the error as an exact real and the 0-based test index. The script prints `Test {i+1}: error = {error:.3f} meters` (`process_test_coordinates.py:66`), so it numbers tests from 1 and rounds the error to three decimals. The text of that line is not modelled.
- Python `float()` parsing and `:.2f` formatting are the parameters `parse` and `fmt`. Float rounding in the sums and means is not modelled; they are exact reals. Whether `float()` accepts surrounding whitespace is the `parse` parameter's concern.
- ExtractCoordinates.Strip: treats as whitespace only the six characters of Python's `string.whitespace` (space, tab, newline, carriage return, vertical tab, form feed). `str.strip` also removes the ASCII separators \x1c-\x1f, \x85 and the other Unicode spaces that `str.isspace` accepts.
- The test programs `test_iq_data` and `test_float_support` are not part of this model.
- Row interferometry (`iq_data_aod_row_interferometry`) is modelled by the same `IqInterferometry.Interferometry` applied to `RowPairs`. `iq_data_process` does not call it.
- IqProcess.ProcessRaw: when the cosines are undefined (NaN, only possible for a channel index of 40 or above with a zero mean), the model leaves the state unchanged. The firmware (`iq_data.c:1324-1360`) would still pair the record with NaN cosines. IEEE NaN propagation is not modelled.
- BleChannel.WavelengthIsSpeedOfLightOverFrequency, BleChannel.WavenumberIsTwoPiOverWavelength and Chw1010.DiagonalSpacing state the tables' relations only to their printed rounding, since the tables are `float` literals.
- Locator.Estimate: the firmware divides by `1 - (D1.D2)^2` only after the parallel check, and the model requires nothing beyond that check. Rounding of `float` in the closed-form solution is not modelled.
