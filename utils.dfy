// Little-endian field readers over byte slices (the `SliceUtils` trait).
//
// Rust's `&[u8]` and `Vec<u8>` are both modelled as `seq<u8>`. Slicing out of
// range panics in Rust; here it is a precondition. The `TryFromSliceError`
// that the readers can return in their signatures is modelled by
// `TryIntoArray`, and the contracts below show that it never occurs.
module Utils {

  type u8 = x: int | 0 <= x < 0x100
  type u16 = x: int | 0 <= x < 0x1_0000
  type u32 = x: int | 0 <= x < 0x1_0000_0000

  /** A fixed-size array `[u8; N]` of Rust, as a sequence of known length. */
  type Bytes2 = s: seq<u8> | |s| == 2 witness [0, 0]
  type Bytes4 = s: seq<u8> | |s| == 4 witness [0, 0, 0, 0]
  type Bytes5 = s: seq<u8> | |s| == 5 witness [0, 0, 0, 0, 0]
  type Bytes7 = s: seq<u8> | |s| == 7 witness [0, 0, 0, 0, 0, 0, 0]

  /** Rust's `core::array::TryFromSliceError`: a slice of the wrong length. */
  datatype TryFromSliceError = TryFromSliceError

  /** `Result<T, TryFromSliceError>`. */
  datatype Result<+T> = Ok(value: T) | Err(error: TryFromSliceError)

  /** `<[u8; n]>::try_from(s)`: succeeds exactly when the slice has length n. */
  function TryIntoArray(s: seq<u8>, n: nat): (r: Result<seq<u8>>)
    ensures r.Ok? <==> |s| == n
    ensures r.Ok? ==> r.value == s
  {
    if |s| == n then Ok(s) else Err(TryFromSliceError)
  }

  // ---------------------------------------------------------------------
  // Reference definition: the value of a little-endian byte string

  function Pow256(n: nat): (r: nat)
    ensures r > 0
  {
    if n == 0 then 1 else 0x100 * Pow256(n - 1)
  }

  /** The unsigned integer whose little-endian encoding is `s`. */
  function LeValue(s: seq<u8>): nat
  {
    if s == [] then 0 else s[0] + 0x100 * LeValue(s[1..])
  }

  /** An n-byte little-endian string encodes a value below 256^n. */
  lemma {:induction false} LeValueBound(s: seq<u8>)
    ensures LeValue(s) < Pow256(|s|)
  {
    if s != [] {
      LeValueBound(s[1..]);
    }
  }

  /** Splitting a little-endian string splits its value: the low part comes first. */
  lemma {:induction false} LeValueAppend(a: seq<u8>, b: seq<u8>)
    ensures LeValue(a + b) == LeValue(a) + Pow256(|a|) * LeValue(b)
  {
    if a == [] {
      assert a + b == b;
    } else {
      assert (a + b)[1..] == a[1..] + b;
      LeValueAppend(a[1..], b);
      var x, p, v := LeValue(a[1..]), Pow256(|a| - 1), LeValue(b);
      assert LeValue(a + b) == a[0] + 0x100 * (x + p * v);
      ScaleSum(x, p, v);
    }
  }

  lemma ScaleSum(x: int, p: int, v: int)
    ensures 0x100 * (x + p * v) == 0x100 * x + (0x100 * p) * v
  {
  }

  // ---------------------------------------------------------------------
  // The readers of `SliceUtils` (src/utils.rs)

  /** `get_offset`: exactly the `byteQuantity` bytes that start at `offset`. */
  function GetOffset(data: seq<u8>, offset: nat, byteQuantity: nat): (r: seq<u8>)
    requires offset + byteQuantity <= |data|
    ensures |r| == byteQuantity
    ensures forall k :: 0 <= k < byteQuantity ==> r[k] == data[offset + k]
  {
    data[offset..offset + byteQuantity]
  }

  /** `u16::from_le_bytes` */
  function FromLeBytes16(b: Bytes2): u16
  {
    b[0] + 0x100 * (b[1] as int)
  }

  /** `u32::from_le_bytes` */
  function FromLeBytes32(b: Bytes4): u32
  {
    b[0] + 0x100 * (b[1] as int) + 0x1_0000 * (b[2] as int) + 0x100_0000 * (b[3] as int)
  }

  /** `get_u16_le`: the little-endian value of the first two bytes; never an error. */
  function GetU16Le(data: seq<u8>): (r: Result<u16>)
    requires |data| >= 2
    ensures r.Ok?
    ensures r.value == data[0] + 0x100 * (data[1] as int)
  {
    // `try_into` of a slice of exactly 2 bytes cannot fail: `?` never returns early
    var bytes := TryIntoArray(data[..2], 2).value;
    Ok(FromLeBytes16(bytes))
  }

  /** `get_u32_le`: the little-endian value of the first four bytes; never an error. */
  function GetU32Le(data: seq<u8>): (r: Result<u32>)
    requires |data| >= 4
    ensures r.Ok?
    ensures r.value == data[0] + 0x100 * (data[1] as int) + 0x1_0000 * (data[2] as int) + 0x100_0000 * (data[3] as int)
  {
    // `try_into` of a slice of exactly 4 bytes cannot fail: `?` never returns early
    var bytes := TryIntoArray(data[..4], 4).value;
    Ok(FromLeBytes32(bytes))
  }

  /** `get_u16_le_offset`: the little-endian u16 stored at `offset`. */
  function GetU16LeOffset(data: seq<u8>, offset: nat): (r: Result<u16>)
    requires offset + 2 <= |data|
    ensures r.Ok?
    ensures r.value == data[offset] + 0x100 * (data[offset + 1] as int)
  {
    GetU16Le(GetOffset(data, offset, 2))
  }

  /** `get_u32_le_offset`: the little-endian u32 stored at `offset`. */
  function GetU32LeOffset(data: seq<u8>, offset: nat): (r: Result<u32>)
    requires offset + 4 <= |data|
    ensures r.Ok?
    ensures r.value == data[offset] + 0x100 * (data[offset + 1] as int)
                     + 0x1_0000 * (data[offset + 2] as int) + 0x100_0000 * (data[offset + 3] as int)
  {
    GetU32Le(GetOffset(data, offset, 4))
  }

  // ---------------------------------------------------------------------
  // Properties of the readers

  /** The u16 reader agrees with the reference little-endian value of its two bytes. */
  lemma U16ReaderIsLeValue(data: seq<u8>, offset: nat)
    requires offset + 2 <= |data|
    ensures GetU16LeOffset(data, offset).value == LeValue(data[offset..offset + 2])
  {
    var t := data[offset..offset + 2];
    assert LeValue(t[1..]) == t[1] by { assert t[1..][1..] == []; }
  }

  /** The u32 reader agrees with the reference little-endian value of its four bytes. */
  lemma U32ReaderIsLeValue(data: seq<u8>, offset: nat)
    requires offset + 4 <= |data|
    ensures GetU32LeOffset(data, offset).value == LeValue(data[offset..offset + 4])
  {
    var s := data[offset..offset + 4];
    assert LeValue(s[3..]) == s[3] by { assert s[3..][1..] == []; }
    assert LeValue(s[2..]) == s[2] + 0x100 * LeValue(s[3..]) by { assert s[2..][1..] == s[3..]; }
    assert LeValue(s[1..]) == s[1] + 0x100 * LeValue(s[2..]) by { assert s[1..][1..] == s[2..]; }
  }

  /**
   * At the level of the reference definition, four bytes are their low two
   * bytes plus 65536 times their high two bytes.
   */
  lemma LeValueFourIsTwoTwo(data: seq<u8>, offset: nat)
    requires offset + 4 <= |data|
    ensures LeValue(data[offset..offset + 4])
         == LeValue(data[offset..offset + 2]) + 0x1_0000 * LeValue(data[offset + 2..offset + 4])
  {
    assert data[offset..offset + 4] == data[offset..offset + 2] + data[offset + 2..offset + 4];
    LeValueAppend(data[offset..offset + 2], data[offset + 2..offset + 4]);
    assert Pow256(2) == 0x1_0000;
  }

  /** `get_u16_le` looks at the first two bytes only. */
  lemma GetU16LeReadsTwoBytes(a: seq<u8>, b: seq<u8>)
    requires |a| >= 2 && |b| >= 2 && a[..2] == b[..2]
    ensures GetU16Le(a) == GetU16Le(b)
  {
    assert a[0] == a[..2][0] && a[1] == a[..2][1];
    assert b[0] == b[..2][0] && b[1] == b[..2][1];
  }

  /** `get_u32_le` looks at the first four bytes only. */
  lemma GetU32LeReadsFourBytes(a: seq<u8>, b: seq<u8>)
    requires |a| >= 4 && |b| >= 4 && a[..4] == b[..4]
    ensures GetU32Le(a) == GetU32Le(b)
  {
    assert forall k :: 0 <= k < 4 ==> a[k] == a[..4][k] && b[k] == b[..4][k];
  }

  /**
   * Two overlapping views of the same four bytes: the u32 at `offset` is the
   * u16 at `offset` (low half) plus 65536 times the u16 at `offset + 2`.
   */
  lemma U32IsTwoU16(data: seq<u8>, offset: nat)
    requires offset + 4 <= |data|
    ensures GetU32LeOffset(data, offset).value
         == GetU16LeOffset(data, offset).value + 0x1_0000 * GetU16LeOffset(data, offset + 2).value
  {
    U32ReaderIsLeValue(data, offset);
    U16ReaderIsLeValue(data, offset);
    U16ReaderIsLeValue(data, offset + 2);
    LeValueFourIsTwoTwo(data, offset);
  }

  // ---------------------------------------------------------------------
  // The encoder used by the field setters (`u32::to_le_bytes`)

  /** `u32::to_le_bytes`: the four bytes of `x`, least significant first. */
  function ToLeBytes32(x: u32): (r: Bytes4)
  {
    [x % 0x100, (x / 0x100) % 0x100, (x / 0x1_0000) % 0x100, x / 0x100_0000]
  }

  /** Decoding an encoded u32 gives it back, and its low half through the u16 reader. */
  lemma ToLeBytes32RoundTrip(x: u32)
    ensures GetU32Le(ToLeBytes32(x)) == Ok(x)
    ensures GetU16Le(ToLeBytes32(x)) == Ok(x % 0x1_0000)
  {
    var b := ToLeBytes32(x);
    var x1 := x / 0x100;
    var x2 := x1 / 0x100;
    assert x == b[0] + 0x100 * x1;
    assert x1 == b[1] + 0x100 * x2;
    assert x2 == b[2] + 0x100 * (b[3] as int) by {
      assert x2 == x / 0x1_0000;
      assert x2 / 0x100 == x / 0x100_0000;
    }
    assert x % 0x1_0000 == b[0] + 0x100 * (b[1] as int);
  }

  /** Encoding the decoded value of four bytes reproduces those bytes. */
  lemma GetU32LeEncodesBack(data: seq<u8>)
    requires |data| >= 4
    ensures ToLeBytes32(GetU32Le(data).value) == data[..4]
  {
    var x := GetU32Le(data).value;
    var b := ToLeBytes32(x);
    var d0, d1, d2, d3: int := data[0], data[1], data[2], data[3];
    assert x == d0 + 0x100 * (d1 + 0x100 * (d2 + 0x100 * d3));
    assert x % 0x100 == d0 && x / 0x100 == d1 + 0x100 * (d2 + 0x100 * d3);
    assert (x / 0x100) % 0x100 == data[1];
    assert x / 0x1_0000 == data[2] + 0x100 * (data[3] as int);
    assert x / 0x100_0000 == data[3];
    assert b == data[..4];
  }

  /** The documented example: 0x2A encodes and decodes to 42 through both readers. */
  lemma DocExample()
    ensures GetU32Le(ToLeBytes32(0x2A)) == Ok(42)
    ensures GetU16LeOffset(ToLeBytes32(0x2A), 0) == Ok(42)
  {
  }
}
