# Pipeline: a sticky-error chain, modelled in Dafny

The Go package `pipeline` provides one object, `Pipeline`, that holds a protobuf
message (`data`) and an error (`err`). Seven chainable operations (Evaluate, Gather,
Load, Organize, Save, Transform, Validate) each check the error first. When it is set,
the operation returns the receiver unchanged. Otherwise it runs its effect (network or
file I/O, CSV reading, serialization, or a caller-supplied function) and records the
outcome in `data` and/or `err`. The first error of a chain is therefore the one the
caller reads at the end, and the data stays as it was when that error was recorded.

The model has four modules:

- `Wrappers`: `Option` (Go's nil) and `Result` (a Go `(value, err)` pair).
- `Csv`: the field-count rule of Go's `encoding/csv` reader. Organize sets
  `FieldsPerRecord = -1`, which turns the rule off, so ragged rows are accepted.
- `Chain`: the state machine as values. `State` is the pair (data, err). `Step` is one
  call of an operation, together with the outcomes of its I/O and the callback it was
  given. `Apply` runs one call, `Run` runs a chain, and `EffectsRun` counts the calls
  that got past the error check. The chain lemmas are proved here.
- `Pipeline`: the `Pipeline` class. Its fields `data` and `err` are updated in place
  by the seven methods, which return the receiver. A ghost `history` of calls and a
  ghost `effectsRun` counter are tied to `Chain` by `Valid()`, so the chain lemmas hold
  of the object. Three client methods build on scenarios from the package's tests.

I/O is abstracted. An I/O call whose inputs are fixed by the operation's arguments is a
`Result` parameter (`http.Get`, `ioutil.ReadFile`, `os.Open`). An I/O call that consumes
a value produced earlier in the same operation is a function parameter: `readAll(body)`,
`scan(file)`, `marshal(data)`, `writeFile(bytes)`. The URL and file-name arguments only
select which I/O happens, so they are folded into those parameters.

## Model

| member | source | states |
|---|---|---|
| `Csv.FirstMismatch` | pipeline.go:103-105 | None exactly when every row has the expected field count; otherwise the index of the first row that does not |
| `Csv.FieldCountCheck` | pipeline.go:103-105 | a negative `FieldsPerRecord` accepts every input; a positive one demands that count in every row; zero demands the first row's count; a rejection names the first offending row |
| `Csv.ReadAll` | pipeline.go:103-105 | a scan failure is passed through; a successful scan succeeds exactly when it passes the field-count rule, and then yields the scanned rows themselves; otherwise the failure is the field-count error of the first offending row |
| `Csv.RaggedRowsAccepted` | pipeline.go:104 | with the check disabled, reading the CSV yields exactly the scan's outcome, ragged or not |
| `Csv.RaggedRowsRejectedByDefault` | pipeline.go:104 | under the reader's default setting, a ragged input fails |
| `Chain.Apply` | pipeline.go:33-155 | on a faulted state every call is a no-op; Evaluate, Gather, Save and Validate never change the data |
| `Chain.Run` | pipeline.go:37-39 | a chain started faulted ends in the same state |
| `Chain.DataReplacedOnlyByLoadOrganizeTransform` | pipeline.go:33-155 | a chain with no Load, Organize or Transform call leaves the data unchanged |
| `Chain.EffectsRun` | pipeline.go:37-39 | at most one effect per call; none when started faulted; one per call when the chain ends unfaulted |
| `Chain.RunConcat` | pipeline.go:33-155 | running a chain in two parts is the same as running it whole |
| `Chain.RunSnoc` | pipeline.go:33-155 | one more call advances the state by `Apply` and the effect count by one exactly when the state was running |
| `Chain.FaultIsSticky` | pipeline.go:37-39 | once a prefix of a chain has faulted, no later call changes the error, the data or the effect count |
| `Chain.FirstFaultIsFinal` | pipeline.go:33-155 | if call k is the first to fault, the chain ends with that call's error and data, and exactly k+1 calls ran their effect |
| `Chain.FaultHasFirstCause` | pipeline.go:33-155 | a chain started running that ends faulted has a call that is the first to fault |
| `Chain.FaultedIffFirstCause` | pipeline.go:33-155 | a chain started running ends faulted if and only if some call is the first to fault |
| `Chain.ValidateActsAsEvaluate` | pipeline.go:146-155 | Validate and Evaluate have identical effects for the same input and callback |
| `Pipeline.Pipeline.constructor` | pipeline.go:13-17 | a new pipeline has nil data, nil error and an empty history |
| `Pipeline.Pipeline.Data` | pipeline.go:20-24 | returns the data field unchanged, which is the data the chain so far has left |
| `Pipeline.Pipeline.Error` | pipeline.go:27-31 | returns the error field unchanged, which is the error the chain so far has recorded |
| `Pipeline.Pipeline.Evaluate` | pipeline.go:34-43 | returns the receiver; data unchanged; if unfaulted, err becomes exactly `fn(in, data)` and one effect runs; if faulted, nothing changes |
| `Pipeline.Pipeline.Gather` | pipeline.go:46-68 | returns the receiver; data unchanged; if unfaulted, err is the error of the first failing step among get, read, write, or the write's nil |
| `Pipeline.Pipeline.Load` | pipeline.go:71-86 | returns the receiver; a failed read sets err and keeps data; a successful read sets (data, err) to exactly `fn(bytes)`, even when that error is set |
| `Pipeline.Pipeline.Organize` | pipeline.go:89-113 | returns the receiver; a failed open or CSV read sets err and keeps data; ragged rows do not fault; otherwise (data, err) becomes exactly `fn(records)` |
| `Pipeline.Pipeline.Save` | pipeline.go:116-131 | returns the receiver; data unchanged; if unfaulted, err is the serializer's error, else the write's outcome |
| `Pipeline.Pipeline.Transform` | pipeline.go:134-143 | returns the receiver; if unfaulted, (data, err) becomes exactly `fn(data)`, even when that error is set |
| `Pipeline.Pipeline.Validate` | pipeline.go:146-155 | returns the receiver; data unchanged; if unfaulted, err becomes exactly `fn(in, data)`; if faulted, nothing changes |
| `Pipeline.FirstErrorSurvivesChain` | pipeline_test.go:29-35 | after a failing Evaluate, a later Transform and Save change nothing: the caller reads the Evaluate's error and nil data |
| `Pipeline.TransformReplacesData` | pipeline_test.go:87-93 | a successful Transform on a fresh pipeline leaves the callback's message and a nil error |
| `Pipeline.LoadReadFailureKeepsData` | pipeline_test.go:79-85 | a Load whose read fails reports the read error and keeps the nil data, whatever `decode` would return |

## Left out

- The `sync.Mutex` in every method: each method is modelled as one atomic step of a sequential program. Concurrent callers are not modelled.
- The network and the file system: `http.Get`, `ioutil.ReadAll`, `ioutil.ReadFile`, `ioutil.WriteFile` and `os.Open` are replaced by their outcomes, given as parameters. File contents, paths and URLs are not modelled.
- The `fieldCountError` parameter of Organize stands for the `ParseError` that `encoding/csv` reports for a row of the wrong length. Organize disables that check, so the parameter never affects its result; the positive and zero settings in `Csv` describe the reader's other settings, which no path of the pipeline reaches.
- CSV syntax: the scan of the text into rows is an opaque `Result`. Only the field-count rule is modelled. With the check disabled, as Organize has it, the relative order of a syntax error and a field-count error does not arise.
- `proto.Marshal` and the protobuf codec: serialization is an opaque fallible function of the data. The Save-then-Load round trip depends on that codec and is not stated.
- The contents of `proto.Message` and of the `in interface{}` argument: both are opaque types.
- `res.Body.Close()` and `file.Close()` (deferred closes whose errors the source ignores).
- "The callback is not called" is captured as "the callback's result cannot affect the state" together with the ghost `effectsRun` counter. Dafny functions have no side effects, so an actual call cannot be observed.
