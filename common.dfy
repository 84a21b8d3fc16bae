/// Pieces shared by every controller of the Red Mango API model: the reply
/// an action gives back (HTTP status plus the ApiResponse envelope), C#'s
/// nullable strings, unchecked 32-bit `int` arithmetic, and the ASCII case
/// mappings and number formatting the controllers use in their messages.
module Common {

  datatype Option<+T> = None | Some(value: T)

  /// A C# `string?`: `None` is null.
  type NString = Option<string>

  /// `string.IsNullOrEmpty`.
  predicate IsNullOrEmpty(s: NString) {
    s.None? || s.value == ""
  }

  /// The `HttpStatusCode` values the controllers use.
  datatype Status = OK | Created | NoContent | BadRequest | NotFound

  /// The body of a reply: none at all (`BadRequest()`), or the ApiResponse
  /// envelope. `code` and `success` are None where the action leaves the
  /// envelope's defaults in place; `result` is None for a null result.
  datatype Body<+T> =
    | NoBody
    | Envelope(code: Option<Status>, success: Option<bool>, errors: seq<string>, result: Option<T>)

  /// What an action answers: the HTTP status with its body, or an exception
  /// that escapes the action (the host then answers on its own).
  datatype Reply<+T> = Reply(http: Status, body: Body<T>) | Unhandled

  /// An error envelope with the given status code and one message.
  function Failure<T>(http: Status, code: Status, message: string): Reply<T> {
    Reply(http, Envelope(Some(code), Some(false), [message], None))
  }

  const IntMin: int := -0x8000_0000
  const IntMax: int := 0x7FFF_FFFF
  const TwoTo32: int := 0x1_0000_0000

  predicate IsInt32(x: int) {
    IntMin <= x <= IntMax
  }

  /// C#'s unchecked `int` arithmetic: the unique 32-bit value congruent to
  /// `x` modulo 2^32.
  function Wrap32(x: int): (r: int)
    ensures IsInt32(r)
    ensures (x - r) % TwoTo32 == 0
    ensures IsInt32(x) ==> r == x
  {
    var m := x % TwoTo32;
    assert x == TwoTo32 * (x / TwoTo32) + m;
    if m <= IntMax then m else m - TwoTo32
  }

  /// `char.ToLower` on the ASCII letters; every other character is kept.
  function LowerChar(c: char): char {
    if 'A' <= c <= 'Z' then (c as int + 32) as char else c
  }

  /// `char.ToUpper` on the ASCII letters; every other character is kept.
  function UpperChar(c: char): char {
    if 'a' <= c <= 'z' then (c as int - 32) as char else c
  }

  function ToLower(s: string): (r: string)
    ensures |r| == |s| && forall i :: 0 <= i < |s| ==> r[i] == LowerChar(s[i])
  {
    if s == [] then [] else [LowerChar(s[0])] + ToLower(s[1..])
  }

  function ToUpper(s: string): (r: string)
    ensures |r| == |s| && forall i :: 0 <= i < |s| ==> r[i] == UpperChar(s[i])
  {
    if s == [] then [] else [UpperChar(s[0])] + ToUpper(s[1..])
  }

  predicate IsDigit(c: char) {
    '0' <= c <= '9'
  }

  /// The character of decimal digit `d`.
  function DigitChar(d: int): (c: char)
    requires 0 <= d < 10
    ensures IsDigit(c) && c as int - '0' as int == d
  {
    ('0' as int + d) as char
  }

  /// The number a string of decimal digits spells, most significant first.
  function DigitsValue(s: string): nat
    requires forall i :: 0 <= i < |s| ==> IsDigit(s[i])
  {
    if s == [] then 0
    else
      assert IsDigit(s[|s| - 1]);
      DigitsValue(s[..|s| - 1]) * 10 + (s[|s| - 1] as int - '0' as int)
  }

  /// Decimal text of a natural number, as string interpolation writes it:
  /// at least one digit, no leading zero, spelling `n`.
  function NatToString(n: nat): (r: string)
    ensures |r| >= 1 && forall i :: 0 <= i < |r| ==> IsDigit(r[i])
    ensures |r| > 1 ==> r[0] != '0'
    ensures DigitsValue(r) == n
  {
    if n < 10 then [DigitChar(n)]
    else
      var init := NatToString(n / 10);
      var r := init + [DigitChar(n % 10)];
      assert r[..|r| - 1] == init;
      r
  }

  /// Decimal text of an `int`: a leading '-' exactly when it is negative,
  /// then the digits of its magnitude.
  function IntToString(i: int): (r: string)
    ensures |r| >= 1 && (r[0] == '-' <==> i < 0)
    ensures i < 0 ==> var m := r[1..];
      (forall k :: 0 <= k < |m| ==> IsDigit(m[k])) && DigitsValue(m) == -i
    ensures i >= 0 ==> (forall k :: 0 <= k < |r| ==> IsDigit(r[k])) && DigitsValue(r) == i
  {
    if i < 0 then "-" + NatToString(-i) else NatToString(i)
  }
}
