/**
 * The `Pipeline` object: a message slot and a sticky error slot, updated in place
 * by seven chainable operations that each return the receiver. Every operation
 * first checks the error slot and, when it is set, returns without doing anything.
 *
 * Two ghost fields let callers reason about whole chains: `history` lists every
 * call made so far, and `effectsRun` counts the calls that got past the error
 * check and ran their I/O or callback. `Valid()` ties the real fields to the
 * value-level model in `Chain`, so every lemma there applies to the object.
 */
module Pipeline {
  import opened Wrappers
  import opened Chain
  import Csv

  class Pipeline {
    var data: Option<Msg>
    var err: Option<Err>
    ghost var history: seq<Step>
    ghost var effectsRun: nat

    ghost predicate Valid()
      reads this
    {
      State(data, err) == Run(Fresh, history) && effectsRun == EffectsRun(Fresh, history)
    }

    /** Records the call about to be made, before any field changes. */
    ghost method Record(step: Step)
      requires Valid()
      modifies this`history
      ensures history == old(history) + [step]
      ensures Run(Fresh, history) == Apply(State(data, err), step)
      ensures EffectsRun(Fresh, history) == effectsRun + (if err.None? then 1 else 0)
    {
      RunSnoc(Fresh, history, step);
      history := history + [step];
    }

    /** `new(Pipeline)`: no data and no error. */
    constructor ()
      ensures Valid()
      ensures data == None && err == None
      ensures history == [] && effectsRun == 0
    {
      data := None;
      err := None;
      history := [];
      effectsRun := 0;
    }

    /** The data currently in the pipeline: what the chain so far has left there. */
    method Data() returns (d: Option<Msg>)
      requires Valid()
      ensures d == data
      ensures d == Run(Fresh, history).data
    {
      d := data;
    }

    /** The pipeline's error state: nil until some call faults, then that call's error. */
    method Error() returns (e: Option<Err>)
      requires Valid()
      ensures e == err
      ensures e == Run(Fresh, history).err
    {
      e := err;
    }

    /** Passes the input and the data to `inspect` and records its error; the data is never changed. */
    method Evaluate(input: Input, inspect: (Input, Option<Msg>) -> Option<Err>) returns (p: Pipeline)
      requires Valid()
      modifies this
      ensures p == this && Valid()
      ensures history == old(history) + [Step.Evaluate(input, inspect)]
      ensures data == old(data)
      ensures old(err).Some? ==> err == old(err) && effectsRun == old(effectsRun)
      ensures old(err).None? ==> err == inspect(input, old(data)) && effectsRun == old(effectsRun) + 1
    {
      Record(Step.Evaluate(input, inspect));
      if err.Some? {
        return this;
      }
      effectsRun := effectsRun + 1;
      err := inspect(input, data);
      return this;
    }

    /**
     * Fetches a body over HTTP, reads it whole and writes it to a file. The data is
     * never changed; the error is that of the first step that fails, in that order.
     */
    method Gather(get: Result<Body, Err>, readAll: Body -> Result<Bytes, Err>,
                  writeFile: Bytes -> Option<Err>) returns (p: Pipeline)
      requires Valid()
      modifies this
      ensures p == this && Valid()
      ensures history == old(history) + [Step.Gather(get, readAll, writeFile)]
      ensures data == old(data)
      ensures old(err).Some? ==> err == old(err) && effectsRun == old(effectsRun)
      ensures old(err).None? ==> effectsRun == old(effectsRun) + 1
      ensures old(err).None? && get.Failure? ==> err == Some(get.error)
      ensures old(err).None? && get.Success? && readAll(get.value).Failure? ==>
                err == Some(readAll(get.value).error)
      ensures old(err).None? && get.Success? && readAll(get.value).Success? ==>
                err == writeFile(readAll(get.value).value)
    {
      Record(Step.Gather(get, readAll, writeFile));
      if err.Some? {
        return this;
      }
      effectsRun := effectsRun + 1;
      if get.Failure? {
        err := Some(get.error);
        return this;
      }
      var raw := readAll(get.value);
      if raw.Failure? {
        err := Some(raw.error);
        return this;
      }
      err := writeFile(raw.value);
      return this;
    }

    /**
     * Reads a file and hands its bytes to `decode`, whose message and error both
     * replace the pipeline's, even when the error is set. When the read fails the
     * data is kept and `decode` plays no part.
     */
    method Load(readFile: Result<Bytes, Err>, decode: Bytes -> (Option<Msg>, Option<Err>))
      returns (p: Pipeline)
      requires Valid()
      modifies this
      ensures p == this && Valid()
      ensures history == old(history) + [Step.Load(readFile, decode)]
      ensures old(err).Some? ==> data == old(data) && err == old(err) && effectsRun == old(effectsRun)
      ensures old(err).None? ==> effectsRun == old(effectsRun) + 1
      ensures old(err).None? && readFile.Failure? ==> data == old(data) && err == Some(readFile.error)
      ensures old(err).None? && readFile.Success? ==> (data, err) == decode(readFile.value)
    {
      Record(Step.Load(readFile, decode));
      if err.Some? {
        return this;
      }
      effectsRun := effectsRun + 1;
      if readFile.Failure? {
        err := Some(readFile.error);
        return this;
      }
      var out := decode(readFile.value);
      data, err := out.0, out.1;
      return this;
    }

    /**
     * Opens a CSV file, reads all its rows with the field-count check disabled, and
     * hands them to `encode`, whose message and error both replace the pipeline's.
     * When opening or reading fails the data is kept.
     */
    method Organize(open: Result<File, Err>, scan: File -> Result<Csv.Records, Err>,
                    fieldCountError: nat -> Err,
                    encode: Csv.Records -> (Option<Msg>, Option<Err>)) returns (p: Pipeline)
      requires Valid()
      modifies this
      ensures p == this && Valid()
      ensures history == old(history) + [Step.Organize(open, scan, fieldCountError, encode)]
      ensures old(err).Some? ==> data == old(data) && err == old(err) && effectsRun == old(effectsRun)
      ensures old(err).None? ==> effectsRun == old(effectsRun) + 1
      ensures old(err).None? && open.Failure? ==> data == old(data) && err == Some(open.error)
      ensures old(err).None? && open.Success? && scan(open.value).Failure? ==>
                data == old(data) && err == Some(scan(open.value).error)
      ensures old(err).None? && open.Success? && scan(open.value).Success? ==>
                (data, err) == encode(scan(open.value).value)
    {
      Record(Step.Organize(open, scan, fieldCountError, encode));
      if err.Some? {
        return this;
      }
      effectsRun := effectsRun + 1;
      if open.Failure? {
        err := Some(open.error);
        return this;
      }
      var records := Csv.ReadAll(scan(open.value), OrganizeFieldsPerRecord, fieldCountError);
      if records.Failure? {
        err := Some(records.error);
        return this;
      }
      var out := encode(records.value);
      data, err := out.0, out.1;
      return this;
    }

    /**
     * Serializes the data and writes it to a file. The data is never changed; the
     * error is the serializer's, else the write's.
     */
    method Save(marshal: Option<Msg> -> Result<Bytes, Err>, writeFile: Bytes -> Option<Err>)
      returns (p: Pipeline)
      requires Valid()
      modifies this
      ensures p == this && Valid()
      ensures history == old(history) + [Step.Save(marshal, writeFile)]
      ensures data == old(data)
      ensures old(err).Some? ==> err == old(err) && effectsRun == old(effectsRun)
      ensures old(err).None? ==> effectsRun == old(effectsRun) + 1
      ensures old(err).None? && marshal(data).Failure? ==> err == Some(marshal(data).error)
      ensures old(err).None? && marshal(data).Success? ==> err == writeFile(marshal(data).value)
    {
      Record(Step.Save(marshal, writeFile));
      if err.Some? {
        return this;
      }
      effectsRun := effectsRun + 1;
      var out := marshal(data);
      if out.Failure? {
        err := Some(out.error);
        return this;
      }
      err := writeFile(out.value);
      return this;
    }

    /** Replaces the data and the error with exactly the pair `transform` returns. */
    method Transform(transform: Option<Msg> -> (Option<Msg>, Option<Err>)) returns (p: Pipeline)
      requires Valid()
      modifies this
      ensures p == this && Valid()
      ensures history == old(history) + [Step.Transform(transform)]
      ensures old(err).Some? ==> data == old(data) && err == old(err) && effectsRun == old(effectsRun)
      ensures old(err).None? ==> (data, err) == transform(old(data)) && effectsRun == old(effectsRun) + 1
    {
      Record(Step.Transform(transform));
      if err.Some? {
        return this;
      }
      effectsRun := effectsRun + 1;
      var out := transform(data);
      data, err := out.0, out.1;
      return this;
    }

    /** The same policy as Evaluate, used to score a model: the data is never changed. */
    method Validate(input: Input, inspect: (Input, Option<Msg>) -> Option<Err>) returns (p: Pipeline)
      requires Valid()
      modifies this
      ensures p == this && Valid()
      ensures history == old(history) + [Step.Validate(input, inspect)]
      ensures data == old(data)
      ensures old(err).Some? ==> err == old(err) && effectsRun == old(effectsRun)
      ensures old(err).None? ==> err == inspect(input, old(data)) && effectsRun == old(effectsRun) + 1
    {
      Record(Step.Validate(input, inspect));
      if err.Some? {
        return this;
      }
      effectsRun := effectsRun + 1;
      err := inspect(input, data);
      return this;
    }
  }

  /**
   * A chain as a caller writes it: an Evaluate whose callback fails, followed by a
   * Transform and a Save. The Evaluate's error is what the chain reports, and the
   * later calls leave the (nil) data alone.
   */
  method FirstErrorSurvivesChain(input: Input, failed: Err, replacement: Option<Msg>,
                                 marshal: Option<Msg> -> Result<Bytes, Err>,
                                 writeFile: Bytes -> Option<Err>)
    returns (d: Option<Msg>, e: Option<Err>)
    ensures e == Some(failed)
    ensures d == None
  {
    var p := new Pipeline();
    p := p.Evaluate(input, (i, m) => Some(failed));
    p := p.Transform(m => (replacement, None));
    p := p.Save(marshal, writeFile);
    d := p.Data();
    e := p.Error();
  }

  /** A Transform on a fresh pipeline whose callback succeeds leaves its message and no error. */
  method TransformReplacesData(replacement: Option<Msg>) returns (d: Option<Msg>, e: Option<Err>)
    ensures d == replacement
    ensures e == None
  {
    var p := new Pipeline();
    var transform := (m: Option<Msg>) => (replacement, None);
    p := p.Transform(transform);
    d := p.Data();
    e := p.Error();
  }

  /** A Load whose file read fails reports the read error, keeps the data, and ignores `decode`. */
  method LoadReadFailureKeepsData(readError: Err, decode: Bytes -> (Option<Msg>, Option<Err>))
    returns (d: Option<Msg>, e: Option<Err>)
    ensures d == None
    ensures e == Some(readError)
  {
    var p := new Pipeline();
    p := p.Load(Failure(readError), decode);
    d := p.Data();
    e := p.Error();
  }
}
