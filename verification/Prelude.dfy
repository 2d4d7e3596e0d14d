/** Machine integers, byte strings and results shared by every module. */
module Prelude {

  type Byte = b: int | 0 <= b < 256

  /** A Rust `String` or `Vec<u8>`: its bytes, in order. */
  type Text = seq<Byte>

  const TWO_63: int := 0x8000_0000_0000_0000
  const TWO_64: int := 0x1_0000_0000_0000_0000
  const U64_MAX: U64 := 0xFFFF_FFFF_FFFF_FFFF

  type U64 = n: int | 0 <= n < TWO_64
  type I64 = n: int | -TWO_63 <= n < TWO_63

  /** The 64-bit two's-complement reading of any integer: `as i64`, and release-mode `i64` arithmetic. */
  function WrapI64(n: int): (r: I64)
    ensures -TWO_63 <= n < TWO_63 ==> r == n
    ensures (r - n) % TWO_64 == 0
  {
    (n + TWO_63) % TWO_64 - TWO_63
  }

  function SaturatingAdd(a: U64, b: U64): U64 {
    if a + b > U64_MAX then U64_MAX else a + b
  }

  function Min(a: int, b: int): int {
    if a <= b then a else b
  }

  function Max(a: int, b: int): int {
    if a >= b then a else b
  }

  /** A source-code literal, as bytes. */
  function Ascii(s: string): Text {
    seq(|s|, i requires 0 <= i < |s| => s[i] as int % 256)
  }

  lemma Assoc(a: Text, b: Text, c: Text)
    ensures (a + b) + c == a + (b + c)
  {
  }

  lemma EmptyUnit(a: Text)
    ensures [] + a == a && a + [] == a
  {
  }

  datatype Option<+T> = None | Some(value: T) {
    predicate IsFailure() {
      None?
    }

    function PropagateFailure<U>(): Option<U>
      requires None?
    {
      None
    }

    function Extract(): T
      requires Some?
    {
      value
    }
  }

  /** The kinds of `ProtocolError`; the human-readable reasons are not modelled. */
  datatype ProtocolError = NotFound | Validation | Conflict | Crypto

  datatype Result<+T> = Success(value: T) | Failure(error: ProtocolError)

  ghost predicate NoDuplicates<T>(s: seq<T>) {
    forall i, j :: 0 <= i < j < |s| ==> s[i] != s[j]
  }
}
