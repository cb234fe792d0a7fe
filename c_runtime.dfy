/** The parts of the C language and its library that the tokenizer and the
    number formatter rely on: single bytes, `size_t` arithmetic, C strings,
    and the results of `strlen`, `strncmp`, `snprintf` and `realloc`. */
module CRuntime {

  /** A byte of a C string (0..255). */
  type Byte = c: char | c as int < 256

  const NUL: Byte := '\0'

  /** The value of a byte as a plain `char` on x86-64, where `char` is
      signed: the bytes from 0x80 on are negative. */
  function SignedChar(c: Byte): (v: int)
    ensures -128 <= v < 128
    ensures v < 0 <==> c as int >= 128
    ensures v % 256 == c as int
  {
    if c as int < 128 then c as int else c as int - 256
  }

  /** `size_t` is 64 bits wide: its arithmetic is modulo 2^64. */
  const SIZE_MODULUS: int := 0x1_0000_0000_0000_0000
  const SIZE_MAX: int := SIZE_MODULUS - 1

  /** PTRDIFF_MAX on a 64-bit platform: no object, and so no allocation, is larger. */
  const MAX_OBJECT: int := 0x7FFF_FFFF_FFFF_FFFF

  type SizeT = x: int | 0 <= x < SIZE_MODULUS

  const INT_MIN: int := -0x8000_0000
  const INT_MAX: int := 0x7FFF_FFFF

  /** A 32-bit C `int`. */
  type Int32 = x: int | INT_MIN <= x <= INT_MAX

  /** A pointer that may be NULL: `None` is NULL. */
  datatype Option<T> = None | Some(value: T)

  function Max(a: int, b: int): int { if a > b then a else b }

  function Min(a: int, b: int): int { if a < b then a else b }

  /** Conversion of an integer value to `size_t` (section 6.3.1.3 of ISO/IEC 9899:2011):
      the value is reduced modulo 2^64. */
  function AsSize(x: int): (r: SizeT)
    ensures 0 <= x < SIZE_MODULUS ==> r == x
    ensures -SIZE_MODULUS <= x < 0 ==> r == x + SIZE_MODULUS
  {
    x % SIZE_MODULUS
  }

  /** `a + b` on `size_t`. */
  function SizeAdd(a: SizeT, b: SizeT): SizeT
  {
    if a + b < SIZE_MODULUS then a + b else a + b - SIZE_MODULUS
  }

  /** `a - b` on `size_t`. */
  function SizeSub(a: SizeT, b: SizeT): SizeT
  {
    if b <= a then a - b else a - b + SIZE_MODULUS
  }

  /** `size_t` addition and subtraction are the mathematical sum and
      difference converted to `size_t`, that is, reduced modulo 2^64. */
  lemma SizeArithIsModular(a: SizeT, b: SizeT)
    ensures SizeAdd(a, b) == AsSize(a + b)
    ensures SizeSub(a, b) == AsSize(a - b)
  {
  }

  /** `strlen`: the number of bytes before the first NUL. */
  function StrLen(s: seq<Byte>): (n: nat)
    requires NUL in s
    ensures n < |s| && s[n] == NUL
    ensures NUL !in s[..n]
  {
    if s[0] == NUL then 0
    else
      var n := 1 + StrLen(s[1..]);
      assert s[..n] == [s[0]] + s[1..][..n - 1];
      n
  }

  /** `strncmp(a, b, n) == 0`: the first `n` bytes agree, or they agree up
      to and including a NUL that ends both strings. */
  function StrnEqual(a: seq<Byte>, b: seq<Byte>, n: nat): (r: bool)
    requires n <= |a| && n <= |b|
    ensures r <==> forall i :: 0 <= i < n && NUL !in a[..i] ==> a[i] == b[i]
  {
    n == 0 || (a[0] == b[0] && (a[0] == NUL || StrnEqual(a[1..], b[1..], n - 1)))
  }

  /** Against a string without NUL bytes, `strncmp` over its whole length is
      plain equality of the first `n` bytes. */
  lemma {:induction false} StrnEqualWithoutNul(a: seq<Byte>, b: seq<Byte>, n: nat)
    requires n <= |a| && |b| == n && NUL !in b
    ensures StrnEqual(a, b, n) <==> a[..n] == b
  {
    if n > 0 {
      assert b == [b[0]] + b[1..];
      StrnEqualWithoutNul(a[1..], b[1..], n - 1);
      assert a[..n] == [a[0]] + a[1..][..n - 1];
    }
  }

  /** The text that `snprintf(buf, size, ...)` leaves in `buf` when the
      formatted output is `text`: at most `size - 1` bytes of it, then a NUL
      (nothing at all when `size` is 0). */
  function Snprintf(text: seq<Byte>, size: nat): (r: seq<Byte>)
    ensures r <= text
    ensures |text| < size ==> r == text
    ensures 0 < size <= |text| ==> |r| == size - 1
  {
    if size == 0 then [] else text[..Min(|text|, size - 1)]
  }

  /** `realloc(a, n)`. It fails for a request of 0 bytes or of more than
      MAX_OBJECT bytes, and otherwise when `allocOk` is false (the allocator
      has no memory left). On success the first `min(a.Length, n)` bytes are
      copied and the remaining bytes are uninitialised: they are left
      unconstrained here. */
  method Realloc(a: array<Byte>, n: SizeT, allocOk: bool) returns (r: Option<array<Byte>>)
    ensures r.Some? <==> allocOk && 0 < n <= MAX_OBJECT
    ensures r.Some? ==> fresh(r.value) && r.value.Length == n
    ensures r.Some? ==> forall i :: 0 <= i < Min(a.Length, n) ==> r.value[i] == a[i]
  {
    if !allocOk || n == 0 || n > MAX_OBJECT {
      return None;
    }
    var b := new Byte[n];
    forall i | 0 <= i < Min(a.Length, n) {
      b[i] := a[i];
    }
    return Some(b);
  }
}
