/** Small shared vocabulary: optional values, outcomes, and the text tests the stores apply. */
module Basics {

  datatype Option<+T> = None | Some(value: T) {
    function GetOr(default: T): T {
      if Some? then value else default
    }
  }

  /** Outcome of an operation that may raise: the value it returns, or the error it raises. */
  datatype Result<+T, +E> = Ok(value: T) | Err(error: E)

  const MAX_SIGNED_64: int := 0x7FFF_FFFF_FFFF_FFFF
  const MIN_SIGNED_64: int := -0x8000_0000_0000_0000

  predicate FitsSigned64(n: int) {
    MIN_SIGNED_64 <= n <= MAX_SIGNED_64
  }

  /** The characters that Python's `str.strip` removes. */
  predicate IsBlankChar(c: char) {
    var n := c as int;
    || 0x09 <= n <= 0x0D || 0x1C <= n <= 0x20 || n == 0x85 || n == 0xA0 || n == 0x1680
    || 0x2000 <= n <= 0x200A || n == 0x2028 || n == 0x2029 || n == 0x202F || n == 0x205F || n == 0x3000
  }

  /** `bool(value.strip())`: some character survives stripping. */
  predicate HasText(s: string) {
    exists i | 0 <= i < |s| :: !IsBlankChar(s[i])
  }

  predicate IsLowerHex(c: char) {
    '0' <= c <= '9' || 'a' <= c <= 'f'
  }

  predicate AllLowerHex(s: string) {
    forall i | 0 <= i < |s| :: IsLowerHex(s[i])
  }

  /** `^[a-f0-9]{64}$` */
  predicate IsSha256(s: string) {
    |s| == 64 && AllLowerHex(s)
  }

  /** `^[0-9a-f]{8}-[0-9a-f]{4}-[0-9a-f]{4}-[0-9a-f]{4}-[0-9a-f]{12}$` */
  predicate IsUuid(s: string) {
    && |s| == 36
    && forall i | 0 <= i < 36 :: if i == 8 || i == 13 || i == 18 || i == 23 then s[i] == '-' else IsLowerHex(s[i])
  }
}
