# dmo-expositor core in Dafny

This project models the core of dmo-expositor, a reader for recorded game
demos. The reader decodes a stream of protocol messages into per-connection
records. Each record holds a ping time series, a position time series, a list
of game-play events (shots, hits, damage, kills, deaths, spawns), and the
names the connection used. A finished game then answers interpolation
queries: the ping of a connection at a moment, and its position, shifted by
a latency adjustment towards another connection.

Modules and files:

- `types.dfy`: modules `Optional` and `Types` (src/types.ts). They hold the gun
  table, the game-mode flags and mode-name table, and the event sum type.
- `ev_seq.dfy`: module `EvSeqs` (src/ev-seq.ts). It models the bucketed time
  series.
  - The specification functions `Filled`, `Added`, `IntervalOf` and
    `Flatten` work on the bucket list.
  - The class `EvSeq` keeps the bucket list in a field. `add` and
    `fillMissing` update that field in place.
  - Each method is proved against its function.
  - Lemmas prove what the functions promise: brackets, iteration order and
    sample preservation.
- `records.dfy`: module `Records` (src/types.ts:107-137). It holds the
  per-connection record `CnRecord`, its well-formedness `RecordOk`, and the
  classes `CnData`, `TeamInfo` and `GameMeta` with their defaults.
- `game_state.dfy`: module `GameStates` (src/game-state.ts). It holds linear
  interpolation and the three queries `getPing`, `getAdjust` and `getPos`.
- `reader.dfy`: module `Reader` (src/reader.ts).
  - Messages are a datatype `Msg`. `N_WELCOME` carries its history as nested
    messages.
  - `Step`, `StepAll` and `Finalize` specify `parseEvent`, the stream and
    `postProcess` over values.
  - The class `GameReader` has the source's four fields. Its methods are
    proved to produce exactly the state those functions describe.

Behaviours of the code that the model keeps as written:

- `getPos` looks the position up at `ts + adjustToCn`. It adds the connection
  number, not the computed adjustment. The adjustment is only reported
  alongside the result (`GetPos`; `LookupShiftedByConnection` is an example).
- `adjustToCn == 0` counts as "no adjustment". A missing `adjustToCn` makes the
  lookup time `NaN`, so no bucket is found and the answer is absent. The model
  takes `Option<int>` and answers `None` (`PosWithoutAdjustIsAbsent`).
- `interpolatePos` reads a third angle from the key `rol` of both samples. A
  position has `roll`, not `rol`, so that angle is never interpolated: the
  source produces `NaN` (or `undefined` when the two timestamps are equal).
  The model's value carries no roll (`PosValue`).
- `getData` passes `maxTs` to the `GameState` constructor, which takes only
  the map. The model's `GameState` holds only the map.
- A query at exactly the last sample's timestamp can still be answered, for
  example by the last two samples of one bucket (`AnsweredAtLast`).
- The last sample before an empty bucket and the first sample after it are
  never bracketed together, for any query time (`GapIsNotBridged`).
- `add` only works for timestamps above `-granularity`. `Math.trunc` sends
  anything from there up to 0 to bucket 0, and anything lower to a missing
  bucket, where the code fails. The model demands `ts > -granularity` of `add`.
  It does not demand `ts >= 0`: the code handles the range above
  `-granularity` without failing.

## Model

| member | source | states |
|---|---|---|
| Types.GunName | src/types.ts:5 | a gun number has a name exactly when it is 0 to 6, and the name is the table's entry |
| Types.GunTable | src/types.ts:5 | the table has 7 entries FIST, SG, CG, RL, RIFLE, GL, PISTOL; -1 and 7 have no name |
| Types.ModeFlagsAreSingleBits | src/types.ts:8-26 | each of the 18 mode flags is a single bit |
| Types.ModeFlagsAreDisjoint | src/types.ts:8-26 | no two mode flags share a bit |
| Types.Lookup | src/types.ts:28-55 | a map built from entries finds a key exactly when some entry has it, and then with the value of the last entry that has it |
| Types.LookupDistinct | src/types.ts:28-55 | with distinct keys, every entry's key maps to that entry's value |
| Types.ModeTableKeysDistinct | src/types.ts:28-55 | the mode table has 26 entries with pairwise-distinct keys |
| Types.ModeName | src/types.ts:28-55 | a mask has a mode name exactly when it is one of the table's keys, and the name is that row's |
| Types.ModeNameTable | src/types.ts:28-55 | `modeName` is a partial function: each of the 26 keys maps to the name beside it |
| Types.ModeNameExamples | src/types.ts:32-43 | `M_LOBBY` is "ffa", `M_TEAM` is "teamplay", and `M_CTF` together with `M_TEAM` is "ctf" |
| EvSeqs.Trunc | src/ev-seq.ts:75 | the bucket index is the quotient rounded toward zero, bounded on both sides by the timestamp |
| EvSeqs.TruncBelow | src/ev-seq.ts:84-87 | the last of n buckets covers `ts` exactly when the bucket index of `ts` is below n |
| EvSeqs.Filled | src/ev-seq.ts:89-94 | filling keeps the chain gap-free, keeps the old buckets, and appends only empty buckets, up to the bucket of `ts` |
| EvSeqs.Added | src/ev-seq.ts:17-22 | add appends the item to the bucket of its timestamp; every other bucket keeps its samples |
| EvSeqs.FirstNotBefore | src/ev-seq.ts:63-72 | the least index whose timestamp is at least `ts`: everything before it is earlier |
| EvSeqs.BucketAt | src/ev-seq.ts:74-82 | an index inside the chain gives its bucket; any other gives nothing |
| EvSeqs.IntervalOf | src/ev-seq.ts:24-53 | absent for negative `ts`, for a missing or empty bucket, and when the neighbour to borrow from is empty; in every other case a pair is returned |
| EvSeqs.EvSeq.constructor | src/ev-seq.ts:13-15 | a new series has one empty bucket starting at 0 |
| EvSeqs.EvSeq.HasBucket | src/ev-seq.ts:84-87 | true exactly when the chain already reaches the bucket of `ts` |
| EvSeqs.EvSeq.GetBucket | src/ev-seq.ts:74-77 | present exactly when the chain reaches the bucket of `ts`, and then it is `events[trunc(ts / g)]`; its start is at or before `ts` and every sample in it shares the bucket index of `ts` |
| EvSeqs.EvSeq.GetBuckets | src/ev-seq.ts:79-82 | the buckets at indexes k - 1, k and k + 1 for the bucket index k of `ts`, each present exactly when inside the chain, one width apart |
| EvSeqs.EvSeq.FillMissing | src/ev-seq.ts:89-94 | the loop leaves the chain as `Filled` describes, valid and reaching `ts` |
| EvSeqs.EvSeq.Add | src/ev-seq.ts:17-22 | the series becomes `Added` of the old one and stays valid |
| EvSeqs.EvSeq.FindEnd | src/ev-seq.ts:63-72 | -1 for no data, else the first index not before `ts` |
| EvSeqs.EvSeq.GetInterval | src/ev-seq.ts:24-53 | returns `IntervalOf`; any pair it returns has its first sample before `ts` and its second at or after |
| EvSeqs.EvSeq.Iterate | src/ev-seq.ts:55-61 | yields the samples bucket by bucket, each bucket in insertion order (`Flatten`) |
| EvSeqs.IntervalBrackets | src/ev-seq.ts:24-53 | a returned pair brackets `ts` and its two samples are neighbours in iteration order |
| EvSeqs.IntervalKinds | src/ev-seq.ts:24-53 | both samples of a pair are stored samples, so they share every property all stored samples have |
| EvSeqs.SortedIntervalIsTight | src/ev-seq.ts:24-53 | with samples in time order, the pair is the latest sample before `ts` and the earliest at or after it |
| EvSeqs.AbsentAfterLast | src/ev-seq.ts:24-53 | a query after every stored sample finds nothing |
| EvSeqs.GapIsNotBridged | src/ev-seq.ts:38-49 | in any well-formed chain, for any `ts`, the last sample of the bucket before an empty bucket and the first sample of the bucket after it are never returned as a pair |
| EvSeqs.AnsweredAtLast | src/ev-seq.ts:50-52 | an example where a query at exactly the last sample's timestamp returns the last two samples |
| EvSeqs.FilledSamples | src/ev-seq.ts:89-94 | filling does not change the samples in iteration order |
| EvSeqs.AddedSamples | src/ev-seq.ts:17-22 | add keeps every earlier sample and adds the item exactly once (as multisets) |
| EvSeqs.AddedKeepsInvariant | src/ev-seq.ts:17-22 | add keeps every sample in the bucket of its timestamp, and keeps any property the item shares with all samples |
| EvSeqs.LaterBucketsEmpty | src/ev-seq.ts:17-22 | no sample sits in a bucket after that of a time no sample exceeds |
| EvSeqs.AppendedLast | src/ev-seq.ts:55-61 | appending to bucket k, with every later bucket empty, puts the item last in iteration order |
| EvSeqs.AddInOrder | src/ev-seq.ts:17-22 | adding a sample no earlier than every stored one appends it at the end of iteration |
| EvSeqs.AddAll | src/ev-seq.ts:17-22 | adding samples one by one keeps the chain gap-free |
| EvSeqs.AddAllSamples | src/ev-seq.ts:17-22 | iteration after adding a list yields the old samples plus the list, each exactly once |
| EvSeqs.AddAllInOrder | src/ev-seq.ts:17-22 | samples added in time order to a new series are iterated in exactly that order, each in its bucket |
| Records.FreshRecord | src/types.ts:107-115 | a new record has two empty one-bucket series, no events, no names, no teams and zero counters |
| Records.CnData.constructor | src/types.ts:107-115 | `new CnData()` holds two distinct new series and the fresh record |
| Records.TeamInfo.constructor | src/types.ts:125-129 | zero frags and score, no players |
| Records.GameMeta.constructor | src/types.ts:131-137 | zero `maxTs`, empty map, mode and filename, no teams |
| GameStates.LinInterpolate | src/game-state.ts:86-91 | the value lies on the line through both points; equal abscissas give `y0` |
| GameStates.LinInterpolateEnds | src/game-state.ts:86-91 | the line passes through both end points |
| GameStates.LinInterpolateBetween | src/game-state.ts:86-91 | inside the interval the value lies between the two end values |
| GameStates.InterpolateVec3 | src/game-state.ts:82-84 | each component is interpolated on its own; the end instants give the end vectors |
| GameStates.InterpolatePing | src/game-state.ts:53-61 | the ping on the line through the two samples at the asked time, with no adjustment and the two samples as raw interval; it lies between the two pings |
| GameStates.InterpolatePos | src/game-state.ts:63-80 | yaw and pitch on the line through the two samples, position and velocity interpolated component by component, all at the asked time, tagged with the given adjustment; at either sample's time it is that sample's values |
| GameStates.GameState.GetPing | src/game-state.ts:7-17 | present exactly when the connection exists and its ping series brackets `ts`; the value is the interpolation between the bracketing pings, and lies between them |
| GameStates.GameState.GetAdjust | src/game-state.ts:36-51 | 0 for a connection and itself; otherwise minus the tick delay and half of each known ping |
| GameStates.GameState.GetPos | src/game-state.ts:19-34 | present exactly when `adjustToCn` is given, the connection exists and its positions bracket `ts + adjustToCn`; the value is interpolated between that bracket at the unadjusted `ts`; adjustment 0 for connection 0 |
| GameStates.PingWithin | src/game-state.ts:7-17 | an interpolated ping stays within the range of the stored pings |
| GameStates.AdjustBounds | src/game-state.ts:36-51 | with pings in `[0, hi]`, the adjustment lies in `[-17 - hi, -17]` |
| GameStates.PosWithoutAdjustIsAbsent | src/game-state.ts:19-34 | a position query without `adjustToCn` finds nothing |
| GameStates.LookupShiftedByConnection | src/game-state.ts:19-34 | an example where the lookup time is shifted by the connection number: with positions at 0, 1000 and 2000, a query at 1000 towards connection 5 brackets 1005 (the pair at 1000 and 2000, valued as the sample at 1000), while towards connection 0 it brackets 1000 itself with adjustment 0 |
| Reader.Initial | src/reader.ts:5-8 | a new reader has no records, no spawned connections, `maxTs` 0, not paused, and its invariant holds |
| Reader.Touch | src/reader.ts:166-173 | after `getCnData(cn)` the keys grow by `cn`, every stored record is kept, a new `cn` gets a fresh record, and the other fields are kept |
| Reader.WithSample | src/reader.ts:143-159 | a position makes the position series `Added` of the old one (appended last to the bucket of its timestamp), a ping likewise the ping series, each joining the samples exactly once; any other event goes at the end of the game list; nothing else changes |
| Reader.WithSampleOk | src/reader.ts:143-159 | adding an event keeps a record well-formed |
| Reader.WithEvent | src/reader.ts:143-159 | `addEvent` creates the record if needed, changes only that record, and leaves the other fields alone |
| Reader.WithName | src/reader.ts:161-164 | `addName` appends the name to that connection's names only |
| Reader.Step | src/reader.ts:32-141 | every message keeps the state well-formed |
| Reader.StepAll | src/reader.ts:42-46 | processing messages in order keeps the state well-formed |
| Reader.Finalize | src/reader.ts:24-30 | `postProcess` keeps exactly the spawned connections, with their records unchanged |
| Reader.StepMaxTs | src/reader.ts:33-36 | `maxTs` becomes the largest of its old value and every timestamp in the message, at any depth |
| Reader.StepAllMaxTs | src/reader.ts:33-46 | after a list of messages, `maxTs` is the largest timestamp seen, starting from the old value |
| Reader.StepPause | src/reader.ts:37-40 | `N_PAUSEGAME` sets the pause flag and changes no record and no spawned connection |
| Reader.StepOther | src/reader.ts:137-139 | an unhandled kind changes no record, no spawned connection and not the pause flag |
| Reader.StepPos | src/reader.ts:57-68 | paused: no record changes or appears; otherwise that connection's position series becomes `Added` of its old one with the sample, exactly one sample joins it, and nothing else changes |
| Reader.StepPing | src/reader.ts:69-81 | paused: no record changes or appears; otherwise that connection's ping series becomes `Added` of its old one with the sample, exactly one sample joins it, and nothing else changes |
| Reader.StepShot | src/reader.ts:82-93 | one shot, with the gun's name when the number is in the table, joins the shooter's game list |
| Reader.StepDamage | src/reader.ts:94-111 | a hit goes on the attacker's list, then the damage on the target's; both on one list when they are the same connection |
| Reader.StepDied | src/reader.ts:112-127 | a kill goes on the attacker's list, then the death on the target's; both on one list when they are the same connection |
| Reader.StepSpawn | src/reader.ts:128-136 | the connection becomes spawned and one spawn event joins its game list |
| Reader.StepName | src/reader.ts:47-56 | `N_INITCLIENT` and `N_SWITCHNAME` append the name to that connection's names |
| Reader.StepAllConcat | src/reader.ts:42-46 | processing `a` then `b` equals processing `a + b` |
| Reader.WelcomeReplays | src/reader.ts:42-46 | `N_WELCOME` acts like its own timestamp followed by each carried message in order |
| Reader.StepSpawned | src/reader.ts:128-136 | the spawned set grows by exactly the connections the message spawns, nested ones included |
| Reader.StepAllSpawned | src/reader.ts:128-136 | over a list, the spawned set grows by exactly the connections spawned anywhere in it |
| Reader.FinalConnections | src/reader.ts:24-30 | after a whole stream and `postProcess`, the connections with records are exactly those that spawned somewhere in the stream |
| Reader.WithEventOk | src/reader.ts:143-159 | adding an event keeps every record well-formed |
| Reader.WithNameOk | src/reader.ts:161-164 | adding a name keeps every record well-formed |
| Reader.StepInv | src/reader.ts:32-141 | every message keeps every record well-formed and every spawned connection recorded |
| Reader.StepAllInv | src/reader.ts:42-46 | a list of messages keeps the same invariant |
| Reader.GameReader.constructor | src/reader.ts:4-8 | a new reader is in the initial state |
| Reader.GameReader.GetData | src/reader.ts:20-22 | the game state holds the reader's records and is valid |
| Reader.GameReader.GetCnData | src/reader.ts:166-173 | returns the connection's record, creating a fresh one on first use; the state becomes `Touch` of the old one |
| Reader.GameReader.AddEvent | src/reader.ts:143-159 | the state becomes `WithEvent` of the old one |
| Reader.GameReader.AddName | src/reader.ts:161-164 | the state becomes `WithName` of the old one |
| Reader.GameReader.ParseEvent | src/reader.ts:32-141 | the state becomes `Step` of the old one, and the invariant holds |
| Reader.GameReader.PostProcess | src/reader.ts:24-30 | the loop leaves the state as `Finalize` of the old one |
| Reader.GameReader.ParseAll | src/reader.ts:42-46 | the state becomes `StepAll` of the old one over the messages |
| Reader.GameReader.Consume | src/reader.ts:10-18 | the stream consumer leaves `Finalize` of `StepAll` over the stream |

## Left out

- src/utils.ts and src/main.ts are not part of this model. The same goes for
  every feature outside the four core files: interval filters, circular yaw
  interpolation, map, mode, team and score decoding, frag counts and the match
  summary.
- Reader.GameReader.Consume: the async generator and the chunked stream are
  modelled as a sequence of already-decoded messages, processed in order.
- Reader.Step: `Admissible` requires every `N_POS` and `N_PING` timestamp,
  at any depth, to be above -1000, even while the game is paused. The source
  skips paused samples before they reach `add`, so it accepts any timestamp
  there; the model does not cover a paused sample at or below -1000.
- Reader.Step: messages with missing or malformed fields are not modelled.
  `Msg` holds only well-formed decoded messages, and a JSON field missing
  from a message is not represented.
- Reader.GameReader: records are `CnRecord` values in the `data` map, and
  each update replaces the connection's record. In the source, `CnData` and
  `EvSeq` objects are changed in place through references. The model
  therefore does not capture aliasing between the reader's map, the
  `CnData` objects and a `GameState` built from the same map.
- Records.CnData: the class is declared with its fields and constructor, but
  the reader does not use it.
- Reader.GameReader.PostProcess: picks the spawned connections in an
  arbitrary order. The result is a map, so JavaScript `Set` and `Map`
  iteration order does not matter.
- EvSeqs.EvSeq: the class is over `GameEvent` rather than generic over any
  timestamped type. The kind of each series is carried by `RecordOk`.
- EvSeqs.EvSeq.Add: requires `ts > -granularity`. In the source a lower
  timestamp makes `add` fail on a missing bucket.
- GameStates.GameState.GetPos: a missing `adjustToCn` is `None` and yields
  absent. The `NaN` that the source computes for the lookup time is not
  modelled.
- GameStates.LinInterpolate: computed on `real`. IEEE-754 rounding, `NaN` and
  infinities are not modelled. Timestamps are `int`.
- GameStates.InterpolatePos: the `rol` entry (always `NaN` or `undefined`) is not part of the value.
- Reader.GameReader.GetData: the `maxTs` argument that `getData` passes is
  dropped, because the `GameState` constructor takes only the map.
