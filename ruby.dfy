/**
 * The few pieces of Ruby that the sequence methods lean on: the values that
 * appear in an options hash, Ruby truthiness, `Hash#[]`, ActiveSupport's
 * `Hash#reverse_merge`, string interpolation (`to_s`) and `String#upcase`.
 */
module Ruby {

  /** A value stored in an options hash (or passed as a positional argument). */
  datatype Value =
    | Nil
    | False
    | True
    | Int(i: int)
    | Str(s: string)
    | Sym(name: string)

  /** Ruby truthiness: only `nil` and `false` are falsy; `0` and `""` are truthy. */
  predicate Truthy(v: Value) {
    !(v.Nil? || v.False?)
  }

  /** `h[k]`: the stored value, or `nil` when the key is missing. */
  function Fetch<K>(h: map<K, Value>, k: K): Value {
    if k in h then h[k] else Nil
  }

  /**
   * `h.reverse_merge(defaults)`: every key of `h` keeps its value (an explicit
   * `nil` included), and a default is used only for a key `h` does not have.
   */
  function ReverseMerge<K(!new)>(h: map<K, Value>, defaults: map<K, Value>): (r: map<K, Value>)
    ensures r.Keys == h.Keys + defaults.Keys
    ensures forall k :: k in h ==> Fetch(r, k) == h[k]
    ensures forall k :: k !in h ==> Fetch(r, k) == Fetch(defaults, k)
  {
    defaults + h
  }

  /** Merging defaults under an empty hash gives the defaults. */
  lemma ReverseMergeEmpty<K(!new)>(defaults: map<K, Value>)
    ensures ReverseMerge(map[], defaults) == defaults
  {
  }

  /** `"#{v}"`: the text string interpolation gives a value. */
  function ToS(v: Value): string {
    match v
    case Nil => ""
    case False => "false"
    case True => "true"
    case Int(i) => IntToDecimal(i)
    case Str(s) => s
    case Sym(n) => n
  }

  /** The upper-case form of an ASCII letter; any other character is kept. */
  function UpcaseChar(c: char): char {
    if 'a' <= c <= 'z' then (c as int - 32) as char else c
  }

  /** `String#upcase` on the ASCII letters: every character mapped by `UpcaseChar`. */
  function Upcase(s: string): (r: string)
    ensures |r| == |s|
    ensures forall i :: 0 <= i < |s| ==> r[i] == UpcaseChar(s[i])
  {
    if s == [] then [] else [UpcaseChar(s[0])] + Upcase(s[1..])
  }

  predicate IsDigit(c: char) {
    '0' <= c <= '9'
  }

  predicate AllDigits(s: string) {
    forall i :: 0 <= i < |s| ==> IsDigit(s[i])
  }

  function DigitChar(d: nat): (c: char)
    requires d < 10
    ensures IsDigit(c) && c as int - '0' as int == d
  {
    (d + '0' as int) as char
  }

  /** `Integer#to_s` for a non-negative integer: base-10 digits, no leading zero. */
  function NatToDecimal(n: nat): (s: string)
    ensures |s| > 0 && AllDigits(s)
    ensures |s| > 1 ==> s[0] != '0'
    decreases n
  {
    if n < 10 then [DigitChar(n)] else NatToDecimal(n / 10) + [DigitChar(n % 10)]
  }

  /** `Integer#to_s`: a leading minus sign for a negative integer. */
  function IntToDecimal(i: int): (s: string)
    ensures |s| > 0
    ensures s[0] == '-' <==> i < 0
  {
    if i < 0 then "-" + NatToDecimal(-i) else NatToDecimal(i)
  }

  /** The number a string of base-10 digits denotes; the reading side of `NatToDecimal`. */
  function DecimalValue(s: string): nat
    requires AllDigits(s)
  {
    if s == [] then 0 else DecimalValue(s[..|s| - 1]) * 10 + (s[|s| - 1] as int - '0' as int)
  }

  /** Reading back the digits `Integer#to_s` writes gives the integer again. */
  lemma {:induction false} DecimalRoundTrip(n: nat)
    ensures DecimalValue(NatToDecimal(n)) == n
  {
    if n >= 10 {
      var s := NatToDecimal(n);
      assert s == NatToDecimal(n / 10) + [DigitChar(n % 10)];
      assert s[..|s| - 1] == NatToDecimal(n / 10);
      DecimalRoundTrip(n / 10);
    }
  }

  /** The integer an `Integer#to_s` text denotes: an optional minus sign, then base-10 digits. */
  function SignedDecimalValue(s: string): int
    requires |s| > 0 && (if s[0] == '-' then AllDigits(s[1..]) else AllDigits(s))
  {
    if s[0] == '-' then 0 - DecimalValue(s[1..]) as int else DecimalValue(s)
  }

  /** Reading back the text `Integer#to_s` writes for any integer, negative ones included, gives the integer again. */
  lemma IntDecimalRoundTrip(i: int)
    ensures var s := IntToDecimal(i);
      && |s| > 0 && (if s[0] == '-' then AllDigits(s[1..]) else AllDigits(s))
      && SignedDecimalValue(s) == i
  {
    if i < 0 {
      assert IntToDecimal(i)[1..] == NatToDecimal(-i);
      DecimalRoundTrip(-i);
    } else {
      DecimalRoundTrip(i);
    }
  }
}
