/**
 * Small building blocks shared by the order, payment and user services:
 * an optional value, exact decimal arithmetic helpers, the clock's unit,
 * and the two pieces of .NET text handling the services rely on
 * (integer formatting and ordinal case-insensitive comparison).
 */
module Common {

  /** A value that may be absent (a C# null). */
  datatype Option<+T> = None | Some(value: T)

  /** An instant on the UTC clock, in milliseconds. */
  type Instant = int

  const MillisPerMinute: int := 60 * 1000

  /** The gRPC status code the services raise. */
  datatype StatusCode = Internal

  /** What a caller of an RPC receives: a response, or an RpcException with a status code. */
  datatype RpcReply<+T> = Reply(response: T) | RpcError(code: StatusCode)

  /** |x| for exact decimals (C# `Math.Abs` on `decimal`). */
  function Abs(x: real): (r: real)
    ensures r >= 0.0
    ensures r == x || r == -x
  {
    if x < 0.0 then -x else x
  }

  function DigitChar(d: nat): (c: char)
    requires d < 10
    ensures '0' <= c <= '9'
  {
    "0123456789"[d]
  }

  /** Decimal text of a natural number, as `int.ToString()` prints it. */
  function NatToString(n: nat): (s: string)
    ensures 1 <= |s|
    ensures forall k :: 0 <= k < |s| ==> '0' <= s[k] <= '9'
    decreases n
  {
    if n < 10 then [DigitChar(n)] else NatToString(n / 10) + [DigitChar(n % 10)]
  }

  /** Decimal text of an integer, with a leading '-' when negative. */
  function IntToString(i: int): (s: string)
    ensures 1 <= |s|
    ensures (s[0] == '-') <==> i < 0
  {
    if i < 0 then "-" + NatToString(-i) else NatToString(i)
  }

  /** Upper-case mapping of ASCII letters; every other character maps to itself. */
  function ToUpperAscii(c: char): (u: char)
    ensures 'a' <= c <= 'z' ==> u as int == c as int - 32
    ensures !('a' <= c <= 'z') ==> u == c
  {
    if 'a' <= c <= 'z' then (c as int - 32) as char else c
  }

  /** `a.Equals(b, StringComparison.OrdinalIgnoreCase)`, restricted to ASCII folding. */
  predicate EqualsIgnoreCase(a: string, b: string)
  {
    |a| == |b| && forall k :: 0 <= k < |a| ==> ToUpperAscii(a[k]) == ToUpperAscii(b[k])
  }
}
