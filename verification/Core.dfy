/** Machine widths, errors and results shared by every component of the SDK model. */
module Core {

  const INT32_MAX := 0x7fff_ffff
  const INT64_MAX := 0x7fff_ffff_ffff_ffff

  // Subset types: arithmetic happens on unbounded integers, and every store into a
  // field, a variable or a result of one of these types is an overflow check.
  type Int32 = x: int | -0x8000_0000 <= x <= INT32_MAX
  type UInt16 = x: int | 0 <= x <= 0xffff
  type UInt8 = x: int | 0 <= x <= 0xff

  // C++ `char` data: a character whose code fits in eight bits.
  type Byte = c: char | c as int < 256
  type Bytes = seq<Byte>

  datatype Option<+T> = None | Some(value: T)

  datatype ErrorCode =
    | NetworkError | RateLimited | QuotaExceeded | ServerError | NotFound
    | InvalidRequest | ParseError | Unknown

  datatype Error = Error(code: ErrorCode, message: string)

  datatype Result<+T> = Ok(value: T) | Err(error: Error)

  function Max(a: int, b: int): int { if a < b then b else a }
  function Min(a: int, b: int): int { if b < a then b else a }

  function Repeat<T>(x: T, n: nat): (s: seq<T>)
    ensures |s| == n && forall i :: 0 <= i < n ==> s[i] == x
  {
    seq(n, _ => x)
  }

  /** Integer division as C++ does it: the quotient is truncated toward zero. */
  function TruncDiv(a: int, b: int): int
    requires b > 0
  {
    if a >= 0 then a / b else -((-a) / b)
  }
}
