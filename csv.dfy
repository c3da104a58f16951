/**
 * The field-count rule of Go's `encoding/csv` reader, the one setting of that
 * reader the pipeline changes (`reader.FieldsPerRecord = -1`). Scanning the text
 * into rows is kept opaque: it arrives here as a `Result`.
 */
module Csv {
  import opened Wrappers

  type Row = seq<string>
  type Records = seq<Row>

  /** Index of the first row whose field count is not `expected`, if any. */
  function FirstMismatch(rows: Records, expected: nat): (r: Option<nat>)
    ensures r.None? <==> forall i :: 0 <= i < |rows| ==> |rows[i]| == expected
    ensures r.Some? ==> r.value < |rows| && |rows[r.value]| != expected
    ensures r.Some? ==> forall i :: 0 <= i < r.value ==> |rows[i]| == expected
  {
    if rows == [] then None
    else if |rows[0]| != expected then Some(0)
    else match FirstMismatch(rows[1..], expected)
      case None => None
      case Some(i) => Some(i + 1)
  }

  /**
   * The reader's check of `FieldsPerRecord`: a positive setting demands exactly that
   * many fields per row, zero demands as many as the first row has, and a negative
   * setting disables the check so that rows of any length are accepted.
   * The result is the index of the offending row.
   */
  function FieldCountCheck(rows: Records, fieldsPerRecord: int): (r: Option<nat>)
    ensures fieldsPerRecord < 0 ==> r.None?
    ensures fieldsPerRecord > 0 ==>
              (r.None? <==> forall i :: 0 <= i < |rows| ==> |rows[i]| == fieldsPerRecord)
    ensures fieldsPerRecord == 0 ==>
              (r.None? <==> forall i :: 0 <= i < |rows| ==> |rows[i]| == |rows[0]|)
    ensures r.Some? ==> r.value < |rows|
    ensures r.Some? ==> fieldsPerRecord >= 0 && |rows| > 0
    ensures r.Some? ==>
              var expected := if fieldsPerRecord > 0 then fieldsPerRecord else |rows[0]|;
              |rows[r.value]| != expected && forall i :: 0 <= i < r.value ==> |rows[i]| == expected
  {
    if fieldsPerRecord < 0 then None
    else if fieldsPerRecord > 0 then FirstMismatch(rows, fieldsPerRecord)
    else if rows == [] then None
    else FirstMismatch(rows, |rows[0]|)
  }

  /**
   * `ReadAll`: the scanned rows, or the scan's error, or the field-count error for
   * the first offending row. It never invents rows: a success is the scan itself.
   */
  function ReadAll<E>(scanned: Result<Records, E>, fieldsPerRecord: int,
                      fieldCountError: nat -> E): (r: Result<Records, E>)
    ensures scanned.Failure? ==> r == scanned
    ensures r.Success? ==> r == scanned
    ensures scanned.Success? ==>
              (r.Success? <==> FieldCountCheck(scanned.value, fieldsPerRecord).None?)
    ensures scanned.Success? && r.Failure? ==>
              r.error == fieldCountError(FieldCountCheck(scanned.value, fieldsPerRecord).value)
  {
    match scanned
    case Failure(_) => scanned
    case Success(rows) =>
      match FieldCountCheck(rows, fieldsPerRecord)
      case None => scanned
      case Some(i) => Failure(fieldCountError(i))
  }

  /** With the check disabled, ragged rows pass through unchanged: reading fails only if scanning does. */
  lemma RaggedRowsAccepted<E>(scanned: Result<Records, E>, fieldsPerRecord: int, fieldCountError: nat -> E)
    requires fieldsPerRecord < 0
    ensures ReadAll(scanned, fieldsPerRecord, fieldCountError) == scanned
  {
  }

  /** The default setting (zero) would reject a ragged input, so disabling the check matters. */
  lemma RaggedRowsRejectedByDefault<E>(rows: Records, i: nat, fieldCountError: nat -> E)
    requires 0 < i < |rows| && |rows[i]| != |rows[0]|
    ensures ReadAll(Success(rows), 0, fieldCountError).Failure?
  {
  }
}
