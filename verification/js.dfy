/**
  The small slice of JavaScript value semantics the application leans on:
  optional values, thrown-or-returned results, the truthiness of strings,
  `a || b`, `String.prototype.toUpperCase`, `Array.prototype.join` and the
  decimal rendering of a status number inside a template literal.
 */
module Js {

  datatype Option<+T> = None | Some(value: T)

  /** A value or the message of the error the JavaScript code would throw. */
  datatype Result<+T> = Ok(value: T) | Err(error: string)

  /** A JSON object whose fields all hold strings, as the forms send and the
      sheet gateway returns them. */
  type Record = map<string, string>

  /** The empty string is the only falsy string. */
  predicate Truthy(s: string) {
    s != ""
  }

  /** `s || fallback` for a string `s`. */
  function OrElse(s: string, fallback: string): (r: string)
    ensures Truthy(s) ==> r == s
    ensures !Truthy(s) ==> r == fallback
  {
    if Truthy(s) then s else fallback
  }

  /** `record[key] || ''`: a missing key reads as `undefined`, which is falsy. */
  function FieldOrEmpty(record: Record, key: string): (r: string)
    ensures key in record ==> r == record[key]
    ensures key !in record ==> r == ""
  {
    if key in record && Truthy(record[key]) then record[key] else ""
  }

  /** Upper-case mapping of one character. Besides `a`..`z`, exactly two
      characters upper-case to a single ASCII letter: dotless i and long s. */
  function UpperChar(c: char): char {
    if 'a' <= c <= 'z' then (c as int - 32) as char
    else if c == 'ı' then 'I'
    else if c == 'ſ' then 'S'
    else c
  }

  /** Upper-casing a character twice changes nothing more. */
  lemma UpperCharIdempotent(c: char)
    ensures UpperChar(UpperChar(c)) == UpperChar(c)
  {
  }

  function ToUpper(s: string): string {
    seq(|s|, i requires 0 <= i < |s| => UpperChar(s[i]))
  }

  /** `xs.join(sep)`. */
  function Join(xs: seq<string>, sep: string): string
    decreases |xs|
  {
    if |xs| == 0 then ""
    else if |xs| == 1 then xs[0]
    else xs[0] + sep + Join(xs[1..], sep)
  }

  function Digit(d: nat): char
    requires d < 10
  {
    "0123456789"[d]
  }

  function DigitValue(c: char): nat
    requires '0' <= c <= '9'
  {
    c as nat - '0' as nat
  }

  /** The text a non-negative integer turns into inside a template literal. */
  function Decimal(n: nat): (r: string)
    ensures |r| >= 1
    ensures forall i :: 0 <= i < |r| ==> '0' <= r[i] <= '9'
    ensures |r| > 1 ==> r[0] != '0'
  {
    if n < 10 then [Digit(n)] else Decimal(n / 10) + [Digit(n % 10)]
  }

  /** Reads a string of decimal digits back into its value. */
  function DecimalValue(s: string): nat
    requires forall i :: 0 <= i < |s| ==> '0' <= s[i] <= '9'
  {
    if |s| == 0 then 0 else 10 * DecimalValue(s[..|s| - 1]) + DigitValue(s[|s| - 1])
  }

  lemma DigitValueOfDigit(d: nat)
    requires d < 10
    ensures '0' <= Digit(d) <= '9'
    ensures DigitValue(Digit(d)) == d
  {
  }

  /** The status number in an error message can be read back unchanged. */
  lemma {:induction false} DecimalRoundTrip(n: nat)
    ensures DecimalValue(Decimal(n)) == n
  {
    if n < 10 {
      DigitValueOfDigit(n);
    } else {
      var prefix := Decimal(n / 10);
      var s := prefix + [Digit(n % 10)];
      assert s == Decimal(n);
      assert s[..|s| - 1] == prefix;
      DigitValueOfDigit(n % 10);
      DecimalRoundTrip(n / 10);
      assert DecimalValue(s) == 10 * DecimalValue(prefix) + n % 10;
    }
  }
}
