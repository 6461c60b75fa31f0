# Testground run environment and build step, in Dafny

This project models two pieces of the testground test-orchestration tool.

- **The runtime environment of a test instance** (`sdk/runtime/runenv.go`).
  A `RunEnv` record is turned into fourteen environment variables by `ToEnvVars`.
  The instance parameters inside it are packed as a `|`-separated list of `k=v` strings.
  `ParseRunEnv` reads a `KEY=VALUE` list back into a `RunEnv` through the strict parser `ParseKeyValues`.
  The lenient converters `toInt` and `toBool` fall back to defaults.
  The typed accessors read single parameters.
- **The build step of `testground run`** (`cmd/run.go`).
  `doRun` selects the groups of a composition that need a build: those without an artifact, or all of them when artifacts are ignored.
  It builds them and writes the returned artifact paths back into exactly those groups, in order.
  `runCompositionCmd` refuses an empty composition file name before anything else.

Modules:

- `Wrappers` (`wrappers.dfy`): `Option` and `Result`, for Go's `(value, error)` returns.
- `GoStrings` (`go_strings.dfy`): `strings.Split`, `strings.Join` and `SplitN(…, 2)` (as `Cut`), for a one-character separator.
  It also holds their round-trip lemmas.
- `StrConv` (`strconv.dfy`): `Atoi`, `Itoa`, `ParseBool` and `FormatBool`, for Go's 64-bit `int` (the subset type `Int`).
- `RunEnvironment` (`runenv.dfy`): the runtime environment.
- `RunCommand` (`run_cmd.dfy`): the build step.

How the Go code is rendered:

- The loops of `packParams`, `unpackParams` and `ParseKeyValues` are methods with loop invariants.
  Each method is proved equal to a specification function: `PackedWith`, `Unpacked` or `KeyValues`.
- Go leaves map iteration order unspecified.
  `PackParams` therefore picks each next key with `:|` and returns the order it used as a ghost value.
  Properties of the packed text are stated for every order.
- `Collect` is the left fold both parsing loops perform.
  `unpackParams` and `ParseKeyValues` share it, so "a later entry wins" is proved once.
- In `doRun`, the groups are an `array<Group>` updated in place.
  The selection and backfill loops are methods specified by the functions `SelectedIndices` and `Backfilled`.

## Model

| member | source | states |
|---|---|---|
| `RunEnvironment.PackParams` | sdk/runtime/runenv.go:75-81 | The packed text is the `k=v` entries of the map joined by the pipe character, in an iteration order that lists every key exactly once. The empty map packs to `""`. |
| `RunEnvironment.UnpackParams` | sdk/runtime/runenv.go:150-161 | The loop builds exactly `Unpacked(packed)`: split on the pipe character, then fold the pieces with `SplitPair`. |
| `RunEnvironment.Unpacked` | sdk/runtime/runenv.go:150-161 | The empty string unpacks to the empty map. |
| `RunEnvironment.PackUnpackRoundTrip` | sdk/runtime/runenv.go:150-161 | For every iteration order, unpacking the packed map gives back the map exactly, provided no key or value holds the pipe character or `=`. |
| `RunEnvironment.SplitPair` | sdk/runtime/runenv.go:154-155 | A piece is accepted iff it holds exactly one `=`. Then it is `key=value`, and neither part holds `=`. |
| `RunEnvironment.SplitPairEntry` | sdk/runtime/runenv.go:154-159 | An entry `k=v` whose key and value hold no `=` is accepted and read back as the pair `(k, v)`. |
| `RunEnvironment.CollectLastWins` | sdk/runtime/runenv.go:153-159 | A key is in the result iff some accepted piece has it. Rejected pieces are skipped. The value is that of the last accepted piece with that key. |
| `RunEnvironment.CollectEntries` | sdk/runtime/runenv.go:343-349 | Folding the `k=v` entries of a map, in any order and with repeats, rebuilds the map on those keys when the splitter reads each entry back. |
| `RunEnvironment.FirstRejected` | sdk/runtime/runenv.go:343-347 | The index of the first entry the splitter rejects: all earlier entries are accepted, and the entry at that index is not. |
| `RunEnvironment.KeyValues` | sdk/runtime/runenv.go:341-351 | Fails iff some entry is rejected. The error names the first rejected entry as `invalid key-value: <entry>`. On success the map is the fold of all entries. |
| `RunEnvironment.ParseKeyValues` | sdk/runtime/runenv.go:341-351 | The loop returns exactly `KeyValues(entries, SplitPair)`: it errors iff some entry lacks exactly one `=`, and otherwise the last occurrence of each key wins. |
| `RunEnvironment.KeyValuesOfEntries` | sdk/runtime/runenv.go:341-351 | Parsing the entries of a map, in any order, gives the map back when the splitter reads each entry back. |
| `RunEnvironment.ToInt` | sdk/runtime/runenv.go:163-169 | The value `strconv.Atoi` reads, or -1 when it fails. |
| `RunEnvironment.ToBool` | sdk/runtime/runenv.go:171-174 | True iff the text is one of `1 t T TRUE true True`. Every other text, including the false spellings and unparsable text, gives false. |
| `StrConv.Atoi` | sdk/runtime/runenv.go:164 | Succeeds only on an optional sign followed by decimal digits. |
| `StrConv.Itoa` | sdk/runtime/runenv.go:92-97 | The decimal rendering of an int parses back to the same int. |
| `StrConv.FormatBool` | sdk/runtime/runenv.go:84 | `"true"`/`"false"` parse back to the same bool. |
| `GoStrings.Split` | sdk/runtime/runenv.go:151 | There is one piece more than there are separators, and no piece holds the separator. |
| `GoStrings.JoinSplit` | sdk/runtime/runenv.go:151 | Joining the pieces of a split gives back the text. |
| `GoStrings.SplitJoin` | sdk/runtime/runenv.go:80 | Splitting a join of one or more separator-free pieces gives back the pieces. |
| `GoStrings.SplitPiecesWithin` | sdk/runtime/runenv.go:151 | Every character of a piece of a split occurs in the split text. |
| `GoStrings.SplitAfterPrefix` | sdk/runtime/runenv.go:344 | A separator after a separator-free prefix cuts exactly that prefix off. |
| `GoStrings.Cut` | sdk/runtime/runenv.go:344 | The corrected split at the first `=`: it fails iff there is no `=`, and otherwise gives the text before the first `=` and the rest. |
| `GoStrings.CutAfterPrefix` | sdk/runtime/runenv.go:344 | Cutting `k=v` gives `k` and `v` whenever `k` holds no `=`, whatever `v` holds. |
| `RunEnvironment.CutPair` | sdk/runtime/runenv.go:344 | The corrected splitter: the key is everything before the first `=`. |
| `RunEnvironment.EnvNamesDistinct` | sdk/runtime/runenv.go:20-35 | The fourteen variable names are pairwise different. |
| `RunEnvironment.EnvNamesWithoutEquals` | sdk/runtime/runenv.go:20-35 | No variable name holds `=`. |
| `RunEnvironment.DistinctCardinality` | sdk/runtime/runenv.go:20-35 | A list of pairwise different names has exactly as many elements as its set. |
| `RunEnvironment.EnvKeysCount` | sdk/runtime/runenv.go:20-35 | The keys `ToEnvVars` writes are the set of the fourteen declared names, and there are exactly fourteen of them. |
| `RunEnvironment.EnvVarsFields` | sdk/runtime/runenv.go:83-98 | Each variable holds its field: strings as they are, ints through `Itoa`, the sidecar flag through `FormatBool`, the subnet printed (`<nil>` when absent), and the packed parameters. |
| `RunEnvironment.ToEnvVars` | sdk/runtime/runenv.go:74-101 | Exactly the fourteen names. The three ints parse back to their values. `TEST_SIDECAR` is `"true"`/`"false"`. Commit and artifacts are not exported. Clean parameters unpack back to the parameter map. |
| `RunEnvironment.ParsedRunEnv` | sdk/runtime/runenv.go:206-225 | Fails, with the parser's error and no RunEnv, iff some entry is rejected. It never sets the group id, the group instance count, the commit or the artifacts. The parameters are the unpacked `TEST_INSTANCE_PARAMS` value. |
| `RunEnvironment.ParseRunEnv` | sdk/runtime/runenv.go:206-230 | The method returns exactly `ParsedRunEnv(env, SplitPair, toNet)`. |
| `RunEnvironment.AssembleEnvVars` | sdk/runtime/runenv.go:212-225 | Reading the variables of `ToEnvVars` back into a struct gives the exported fields of the original RunEnv. |
| `RunEnvironment.ParsesBack` | sdk/runtime/runenv.go:206-225 | When the splitter reads every `KEY=VALUE` entry back, parsing `ToEnvVars`' output, in any order, gives the exported fields of the RunEnv. |
| `RunEnvironment.ParseRunEnvRejectsOwnParams` | sdk/runtime/runenv.go:206-210 | As written, `ParseRunEnv` fails on the `KEY=VALUE` list of `ToEnvVars`' output whenever the RunEnv has instance parameters. |
| `RunEnvironment.ParseRunEnvDropsParams` | sdk/runtime/runenv.go:206-225 | As written, a successful `ParseRunEnv` always has empty instance parameters, on any input. Every value the parser accepts is free of `=`, while `unpackParams` keeps only pieces holding exactly one `=`. |
| `RunEnvironment.ParseRunEnvRoundTripCorrected` | sdk/runtime/runenv.go:206-225 | With the key cut at the first `=`, `ParseRunEnv` reads `ToEnvVars`' output back into the exported fields. |
| `RunEnvironment.RunEnv.IsParamSet` | sdk/runtime/runenv.go:233-236 | True iff the key is present. |
| `RunEnvironment.RunEnv.StringParam` | sdk/runtime/runenv.go:239-245 | Requires the key to be present, since the code panics otherwise. Returns its value. |
| `RunEnvironment.RunEnv.IntParam` | sdk/runtime/runenv.go:258-269 | Requires the key to be present and its value to be accepted by `Atoi`, since the code panics otherwise. The result is the value `Atoi` reads from `StringParam`. |
| `RunEnvironment.RunEnv.BooleanParam` | sdk/runtime/runenv.go:272-278 | True iff the parameter is present and is exactly `"true"`. |
| `RunCommand.LoadComposition` | cmd/run.go:88-101 | An empty file name is refused with `no composition file supplied`, whatever the decoder and validator would do. A decoding error `e` gives `failed to process composition file: e`. A decoded composition that `Validate` rejects with `e` gives `invalid composition file: e`. A decoded composition that `Validate` accepts is the result. |
| `RunCommand.SelectedIndices` | cmd/run.go:141-147 | The selection has no more indices than there are groups, and each index is within bounds. |
| `RunCommand.SelectedIndicesSpec` | cmd/run.go:141-147 | The selected indices are strictly increasing. Index `i` is selected iff group `i` has no artifact or artifacts are ignored. |
| `RunCommand.SelectBuildGroups` | cmd/run.go:141-147 | The loop returns the selection. It is strictly increasing, within bounds, and holds exactly the groups that need a build. |
| `RunCommand.Backfilled` | cmd/run.go:161-165 | The backfill keeps the number of groups. |
| `RunCommand.BackfilledSpec` | cmd/run.go:161-165 | For increasing indices, group `buildIdx[i]` gets `bout[i].ArtifactPath` and is otherwise unchanged. Every group not selected is unchanged. |
| `RunCommand.Backfill` | cmd/run.go:161-165 | When `bout` has an entry per selected group, the groups become the backfilled ones. When it is shorter, the code panics after writing the first `len(bout)` groups, and `ok` is false. |
| `RunCommand.PrepareBuilds` | cmd/run.go:141-166 | No selection: no build and no change. A `PickGroups` or build failure: an abort with that error and no change. Otherwise the artifacts are backfilled. In every case, groups that did not need a build are unchanged. |

## Left out

- The persistent task queue of `pkg/task` is outside this model.
- Logging: `SLogger`, `Loggers` and `initLoggers` configure zap from the `LOG_LEVEL` variable. `ParseRunEnv`'s call to `initLoggers` is left out too.
- `CurrentRunEnv` reads the process environment. `ParseRunEnv` covers the same mapping on an explicit list.
- `JSONParam`, `StringArrayParam`, `SizeParam` and `SizeArrayParam` rely on `encoding/json` and `humanize.ParseBytes`, which are not modelled.
- `RandomRunEnv` uses randomness and SHA-1.
- Subnets are opaque. `net.ParseCIDR` is the function parameter `toNet`, and a parsed subnet is kept only as its printed CIDR text.
- The packed parameter text depends on Go's map iteration order. It is stated for every order, never as one fixed string.
- `Atoi` is modelled as an optional sign, decimal digits and the 64-bit range. The error values `strconv` returns are not modelled, since the code only tests them against nil.
- The CLI plumbing of `cmd/run.go` is left out. This covers the `RunCommand` and `runners` definitions, `runSingleCmd`, TOML decoding and encoding, writing the artifacts back to the file, `setupClient`, `cl.Run`, context cancellation and `ParseRunResponse`.
- `PickGroups`, the build, the decoder and `Validate` are external collaborators, taken as function parameters of `PrepareBuilds` and `LoadComposition`.
- The `generated build artifact` log line in the backfill loop is left out.
- `RunEnvironment.RunEnv.StringParam`, `RunEnvironment.RunEnv.IntParam`: the doc-comments at sdk/runtime/runenv.go:238 and 256-257 promise `""` or -1 for a missing parameter. The code panics instead, and the model follows the code by making these preconditions.

## Findings

| source | as written | input that shows it | evidently intended | confidence | as-written member | corrected member |
|---|---|---|---|---|---|---|
| sdk/runtime/runenv.go:344 | `ParseKeyValues` splits each entry on every `=` and rejects any entry with more than one. `ParseRunEnv` therefore fails as a whole. | The `KEY=VALUE` list of `ToEnvVars`' output for a RunEnv whose instance parameters are `{"a": "1"}`. It holds the entry `TEST_INSTANCE_PARAMS=a=1`, which splits into three pieces. | Split each entry at its first `=` only (`strings.SplitN(d, "=", 2)`). Then `ParseRunEnv` reads back every exported field that `ToEnvVars` writes, whatever the other fields hold, provided no parameter key or value holds the pipe character or `=`. The subnet comes back as `toNet` of its printed form. | medium; not executed | `RunEnvironment.ParseRunEnvRejectsOwnParams` | `RunEnvironment.ParseRunEnvRoundTripCorrected` |

`ParsedRunEnv` takes the entry splitter as a parameter, so both readings share one definition.
`ParseRunEnv` itself keeps the code as written (`SplitPair`).
`ParseRunEnvDropsParams` states the as-written consequence in general: no input whatsoever yields a parsed `RunEnv` with instance parameters.
The corrected splitter is `CutPair`.
