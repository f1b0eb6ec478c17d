/**
 * The exceptions the detection pipeline can raise, and the text `str(e)` gives for each.
 */
module Errors {

  /** The number a string of decimal digits denotes, most significant digit first. */
  function DigitsValue(s: string): nat
    requires forall i :: 0 <= i < |s| ==> '0' <= s[i] <= '9'
    decreases |s|
  {
    if s == [] then 0
    else DigitsValue(s[..|s| - 1]) * 10 + (s[|s| - 1] - '0') as nat
  }

  /** Decimal rendering of a natural number, as Python's `str(int)` gives it: the digits of `n`,
      with no leading zero except for `0` itself. */
  function NatToString(n: nat): (s: string)
    ensures |s| >= 1
    ensures forall i :: 0 <= i < |s| ==> '0' <= s[i] <= '9'
    ensures DigitsValue(s) == n
    ensures s[0] == '0' ==> n == 0 && s == "0"
    decreases n
  {
    var digit := ['0' + (n % 10) as char];
    if n < 10 then digit
    else
      var prefix := NatToString(n / 10);
      assert (prefix + digit)[..|prefix|] == prefix;
      prefix + digit
  }

  datatype Error =
    | FileNotFound(path: string)          // FileNotFoundError (errno 2)
    | DirectoryNotEmpty(path: string)     // OSError (errno 39) from os.rmdir
    | WriteFailed(path: string)           // OSError while writing the staged input
    | IndexOutOfRange                     // IndexError from `results[0]`
    | ValueError(message: string)         // ValueError raised by the pipeline itself
    | ValidationError(model: string, fields: seq<string>)  // pydantic rejected these fields
    | BackendError(message: string)       // anything the inference backend raised
    | AttributeError(message: string)     // an attribute looked up on `None`

  /** The text of `str(e)`. */
  function Message(e: Error): string
  {
    match e
    case FileNotFound(p) => "[Errno 2] No such file or directory: '" + p + "'"
    case DirectoryNotEmpty(p) => "[Errno 39] Directory not empty: '" + p + "'"
    case WriteFailed(p) => "[Errno 28] No space left on device"
    case IndexOutOfRange => "list index out of range"
    case ValueError(m) => m
    case ValidationError(model, fields) =>
      NatToString(|fields|) + (if |fields| == 1 then " validation error for " else " validation errors for ")
      + model + FieldLines(fields)
    case BackendError(m) => m
    case AttributeError(m) => m
  }

  /** One line per rejected field, in the order pydantic reports them. */
  function FieldLines(fields: seq<string>): string
  {
    if fields == [] then ""
    else "\n" + fields[0] + "\n  Input should be greater than or equal to 0" + FieldLines(fields[1..])
  }
}
