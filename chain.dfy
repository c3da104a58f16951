/**
 * The sticky-error state machine of a pipeline, as values. A state is the pair
 * (data, err); a step is one call of a mutating operation together with the
 * outcomes of the I/O it performs and the caller-supplied function it is given.
 * Running (err == None) executes the step's effect; Faulted (err != None)
 * absorbs every step.
 */
module Chain {
  import opened Wrappers
  import Csv

  /** The message held by the pipeline (a protobuf message); `None` is Go's nil. */
  type Msg
  /** A non-nil Go error; `Option<Err>` models an `error` that may be nil. */
  type Err
  /** The opaque `in interface{}` argument of Evaluate and Validate. */
  type Input
  /** The body of an HTTP response. */
  type Body
  /** An opened file. */
  type File
  type Bytes = seq<bv8>

  datatype State = State(data: Option<Msg>, err: Option<Err>)

  /** A pipeline created with `new(Pipeline)`: nil data, nil error. */
  const Fresh: State := State(None, None)

  /** The value Organize gives the CSV reader's `FieldsPerRecord`. */
  const OrganizeFieldsPerRecord: int := -1

  /**
   * One call of a mutating operation. I/O results whose inputs are fixed by the
   * call are given as `Result`s; an I/O call that consumes a value produced earlier
   * in the same operation is given as a function of that value.
   */
  datatype Step =
    | Evaluate(input: Input, inspect: (Input, Option<Msg>) -> Option<Err>)
    | Gather(get: Result<Body, Err>, readAll: Body -> Result<Bytes, Err>,
             writeFile: Bytes -> Option<Err>)
    | Load(readFile: Result<Bytes, Err>, decode: Bytes -> (Option<Msg>, Option<Err>))
    | Organize(open: Result<File, Err>, scan: File -> Result<Csv.Records, Err>,
               fieldCountError: nat -> Err,
               encode: Csv.Records -> (Option<Msg>, Option<Err>))
    | Save(marshal: Option<Msg> -> Result<Bytes, Err>, writeFile: Bytes -> Option<Err>)
    | Transform(transform: Option<Msg> -> (Option<Msg>, Option<Err>))
    | Validate(input: Input, inspect: (Input, Option<Msg>) -> Option<Err>)

  /** The operations that may replace the data; all others may only set the error. */
  predicate ReplacesData(step: Step) {
    step.Load? || step.Organize? || step.Transform?
  }

  /** The state after one call: a no-op when faulted, otherwise the operation's effect. */
  function Apply(s: State, step: Step): (t: State)
    ensures s.err.Some? ==> t == s
    ensures !ReplacesData(step) ==> t.data == s.data
  {
    if s.err.Some? then s
    else match step
      case Evaluate(input, inspect) => State(s.data, inspect(input, s.data))
      case Validate(input, inspect) => State(s.data, inspect(input, s.data))
      case Gather(get, readAll, writeFile) =>
        (match get
         case Failure(e) => State(s.data, Some(e))
         case Success(body) =>
           match readAll(body)
           case Failure(e) => State(s.data, Some(e))
           case Success(raw) => State(s.data, writeFile(raw)))
      case Load(readFile, decode) =>
        (match readFile
         case Failure(e) => State(s.data, Some(e))
         case Success(pb) => State(decode(pb).0, decode(pb).1))
      case Organize(open, scan, fieldCountError, encode) =>
        (match open
         case Failure(e) => State(s.data, Some(e))
         case Success(file) =>
           match Csv.ReadAll(scan(file), OrganizeFieldsPerRecord, fieldCountError)
           case Failure(e) => State(s.data, Some(e))
           case Success(records) => State(encode(records).0, encode(records).1))
      case Save(marshal, writeFile) =>
        (match marshal(s.data)
         case Failure(e) => State(s.data, Some(e))
         case Success(out) => State(s.data, writeFile(out)))
      case Transform(transform) => State(transform(s.data).0, transform(s.data).1)
  }

  /** The state after a chain of calls, applied in order. */
  function Run(s: State, steps: seq<Step>): (r: State)
    ensures s.err.Some? ==> r == s
    decreases |steps|
  {
    if steps == [] then s
    else Apply(Run(s, steps[..|steps| - 1]), steps[|steps| - 1])
  }

  /** Only Load, Organize and Transform can change the data: a chain without them keeps it. */
  lemma {:induction false} DataReplacedOnlyByLoadOrganizeTransform(s: State, steps: seq<Step>)
    requires forall i :: 0 <= i < |steps| ==> !ReplacesData(steps[i])
    ensures Run(s, steps).data == s.data
    decreases |steps|
  {
    if steps != [] {
      var before := steps[..|steps| - 1];
      assert forall i :: 0 <= i < |before| ==> before[i] == steps[i];
      DataReplacedOnlyByLoadOrganizeTransform(s, before);
    }
  }

  /** How many calls of a chain actually ran their effect (I/O or callback). */
  function EffectsRun(s: State, steps: seq<Step>): (n: nat)
    ensures n <= |steps|
    ensures s.err.Some? ==> n == 0
    ensures Run(s, steps).err.None? ==> n == |steps|
    decreases |steps|
  {
    if steps == [] then 0
    else
      var before := steps[..|steps| - 1];
      EffectsRun(s, before) + (if Run(s, before).err.None? then 1 else 0)
  }

  /** Running a chain in two parts is running it whole. */
  lemma {:induction false} RunConcat(s: State, a: seq<Step>, b: seq<Step>)
    ensures Run(s, a + b) == Run(Run(s, a), b)
    decreases |b|
  {
    if b == [] {
      assert a + b == a;
    } else {
      var b' := b[..|b| - 1];
      assert (a + b)[..|a + b| - 1] == a + b';
      RunConcat(s, a, b');
    }
  }

  /** One more call: the chain's state and effect count step by exactly that call. */
  lemma RunSnoc(s: State, steps: seq<Step>, step: Step)
    ensures Run(s, steps + [step]) == Apply(Run(s, steps), step)
    ensures EffectsRun(s, steps + [step])
            == EffectsRun(s, steps) + (if Run(s, steps).err.None? then 1 else 0)
  {
    assert (steps + [step])[..|steps|] == steps;
  }

  /**
   * Once a prefix of the chain has faulted, no later call changes anything:
   * the error is never overwritten and the data stays frozen.
   */
  lemma {:induction false} FaultIsSticky(s: State, steps: seq<Step>, i: nat, j: nat)
    requires i <= j <= |steps|
    requires Run(s, steps[..i]).err.Some?
    ensures Run(s, steps[..j]) == Run(s, steps[..i])
    ensures EffectsRun(s, steps[..j]) == EffectsRun(s, steps[..i])
    decreases j - i
  {
    if j > i {
      FaultIsSticky(s, steps, i, j - 1);
      assert steps[..j][..j - 1] == steps[..j - 1];
    }
  }

  /**
   * If the k-th call is the first one that faults, the chain ends with the error
   * that call recorded and the data it left, and no call after it ran its effect.
   */
  lemma FirstFaultIsFinal(s: State, steps: seq<Step>, k: nat)
    requires k < |steps| && FirstFaultAt(s, steps, k)
    ensures Run(s, steps).err == Apply(Run(s, steps[..k]), steps[k]).err
    ensures Run(s, steps).data == Apply(Run(s, steps[..k]), steps[k]).data
    ensures EffectsRun(s, steps) == k + 1
  {
    assert steps[..k + 1][..k] == steps[..k];
    FaultIsSticky(s, steps, k + 1, |steps|);
    assert steps[..|steps|] == steps;
  }

  /** Call k of the chain is the first to fault: the state before it runs, the state after it does not. */
  ghost predicate FirstFaultAt(s: State, steps: seq<Step>, k: nat)
    requires k < |steps|
  {
    Run(s, steps[..k]).err.None? && Run(s, steps[..k + 1]).err.Some?
  }

  /** A chain that starts running and ends faulted has a first faulting call. */
  lemma {:induction false} FaultHasFirstCause(s: State, steps: seq<Step>)
    requires s.err.None?
    requires Run(s, steps).err.Some?
    ensures exists k :: 0 <= k < |steps| && FirstFaultAt(s, steps, k)
    decreases |steps|
  {
    var n := |steps| - 1;
    var before := steps[..n];
    assert steps[..n + 1] == steps;
    if Run(s, before).err.None? {
      assert FirstFaultAt(s, steps, n);
    } else {
      FaultHasFirstCause(s, before);
      var k :| 0 <= k < n && FirstFaultAt(s, before, k);
      assert before[..k] == steps[..k];
      assert before[..k + 1] == steps[..k + 1];
      assert FirstFaultAt(s, steps, k);
    }
  }

  /** A chain that starts running ends faulted exactly when some call is its first fault. */
  lemma FaultedIffFirstCause(s: State, steps: seq<Step>)
    requires s.err.None?
    ensures Run(s, steps).err.Some? <==> exists k :: 0 <= k < |steps| && FirstFaultAt(s, steps, k)
  {
    if Run(s, steps).err.Some? {
      FaultHasFirstCause(s, steps);
    }
    if exists k :: 0 <= k < |steps| && FirstFaultAt(s, steps, k) {
      var k :| 0 <= k < |steps| && FirstFaultAt(s, steps, k);
      FaultIsSticky(s, steps, k + 1, |steps|);
      assert steps[..|steps|] == steps;
    }
  }

  /** Evaluate and Validate are the same operation under two names. */
  lemma ValidateActsAsEvaluate(s: State, input: Input, inspect: (Input, Option<Msg>) -> Option<Err>)
    ensures Apply(s, Validate(input, inspect)) == Apply(s, Evaluate(input, inspect))
  {
  }
}
