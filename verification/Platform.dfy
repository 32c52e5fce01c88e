/** What the C++ sources take from the platform: integer widths, return codes, and the checked copy of securec. */
module Platform {

  /** `sizeof(size_t)`. Everything below is proved for both widths the engine is built for. */
  type SizeWidth = n: nat | n == 4 || n == 8 witness 4
  const SIZE_T_BYTES: SizeWidth

  const SIZE_T_MODULUS: nat := if SIZE_T_BYTES == 4 then 0x1_0000_0000 else 0x1_0000_0000_0000_0000
  const INT_MAX: int := 0x7FFF_FFFF

  newtype byte = x: int | 0 <= x < 256

  /** Unsigned arithmetic on `size_t`. */
  function WrapSize(x: int): (r: nat)
    ensures r < SIZE_T_MODULUS
    ensures 0 <= x < SIZE_T_MODULUS ==> r == x
  {
    x % SIZE_T_MODULUS
  }

  /** Conversion to a 32-bit signed integer. */
  function ToInt32(x: int): (r: int)
    ensures -0x8000_0000 <= r <= INT_MAX
    ensures -0x8000_0000 <= x <= INT_MAX ==> r == x
    ensures (r - x) % 0x1_0000_0000 == 0
  {
    var m := x % 0x1_0000_0000;
    if m <= INT_MAX then m else m - 0x1_0000_0000
  }

  /** The return codes of `aie_retcode_inner.h` that the modelled code produces. */
  datatype RetCode =
    | Success
    | Failure
    | OutOfMemory
    | NullParam
    | AlgorithmIdInvalid
    | MemoryCopyFailure
    | SaServiceException
    | NoListenerFound
    | NoClientFound
    | Other(code: int)

  datatype Option<T> = None | Some(value: T)

  /** The regions `[a, a+n)` and `[b, b+n)` of one buffer share a cell. */
  predicate Overlap(a: nat, b: nat, n: nat) {
    a < b + n && b < a + n
  }

  /** `buf` with the cells from `at` on overwritten by `from`. */
  ghost function Copied<T>(buf: seq<T>, at: nat, from: seq<T>): (r: seq<T>)
    requires at + |from| <= |buf|
    ensures |r| == |buf|
  {
    buf[..at] + from + buf[at + |from|..]
  }

  ghost function Repeat<T>(n: nat, x: T): (r: seq<T>)
    ensures |r| == n
  {
    seq(n, _ => x)
  }

  /**
   * `memcpy_s` (section K.3.7.1.1 of ISO/IEC 9899:2011): copies `count` cells, or, when they do not fit
   * or the regions overlap, zeroes the whole destination and reports an error.
   */
  method MemcpyS<T>(dst: array<T>, dstPos: nat, dstMax: nat, src: array<T>, srcPos: nat, count: nat, zero: T)
    returns (ok: bool)
    requires dstPos + dstMax <= dst.Length
    requires srcPos + count <= src.Length
    modifies dst
    ensures ok <==> count <= dstMax && !(dst == src && Overlap(dstPos, srcPos, count))
    ensures forall i :: 0 <= i < dst.Length ==>
              dst[i] == (if ok && dstPos <= i < dstPos + count then old(src[srcPos + (i - dstPos)])
                         else if !ok && dstPos <= i < dstPos + dstMax then zero
                         else old(dst[i]))
  {
    ok := count <= dstMax && !(dst == src && Overlap(dstPos, srcPos, count));
    if ok {
      forall i | 0 <= i < count {
        dst[dstPos + i] := src[srcPos + i];
      }
    } else {
      forall i | 0 <= i < dstMax {
        dst[dstPos + i] := zero;
      }
    }
  }

  /** `memmove_s` inside one buffer: the regions may overlap. */
  method MemmoveWithin<T>(buf: array<T>, dstPos: nat, srcPos: nat, count: nat)
    requires dstPos + count <= buf.Length && srcPos + count <= buf.Length
    modifies buf
    ensures forall i :: 0 <= i < buf.Length ==>
              buf[i] == old(if dstPos <= i < dstPos + count then buf[srcPos + (i - dstPos)] else buf[i])
  {
    forall i | 0 <= i < count {
      buf[dstPos + i] := buf[srcPos + i];
    }
  }
}
