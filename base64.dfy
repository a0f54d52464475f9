/**
 * Base 64 encoding with the standard alphabet and `=` padding, section 4 of
 * RFC 4648, as `base64::encode` writes it for the `Authorization` header.
 * `Decode` is its inverse and is what a server reading the header does.
 */
module Base64 {

  import opened Wrappers
  import opened Bytes

  const PAD: byte := 61

  /** The character for a 6-bit value: `A`-`Z`, `a`-`z`, `0`-`9`, `+`, `/`. */
  function Char(v: nat): (c: byte)
    requires v < 64
  {
    if v < 26 then (65 + v) as byte
    else if v < 52 then (71 + v) as byte
    else if v < 62 then (v - 4) as byte
    else if v == 62 then 43
    else 47
  }

  /** The 6-bit value of an alphabet character; `None` for any other byte. */
  function Value(c: byte): (r: Option<nat>)
    ensures r.Some? ==> r.value < 64
  {
    if 65 <= c <= 90 then Some(c as int - 65)
    else if 97 <= c <= 122 then Some(c as int - 71)
    else if 48 <= c <= 57 then Some(c as int + 4)
    else if c == 43 then Some(62)
    else if c == 47 then Some(63)
    else None
  }

  lemma ValueOfChar(v: nat)
    requires v < 64
    ensures Value(Char(v)) == Some(v) && Char(v) != PAD
  {
  }

  /** Three bytes as four characters. */
  function EncodeGroup(a: byte, b: byte, c: byte): Bytes {
    [Char(a as int / 4), Char(a as int % 4 * 16 + b as int / 16),
     Char(b as int % 16 * 4 + c as int / 64), Char(c as int % 64)]
  }

  function Encode(bs: Bytes): (r: Bytes)
    decreases |bs|
  {
    if |bs| == 0 then []
    else if |bs| == 1 then [Char(bs[0] as int / 4), Char(bs[0] as int % 4 * 16), PAD, PAD]
    else if |bs| == 2 then
      [Char(bs[0] as int / 4), Char(bs[0] as int % 4 * 16 + bs[1] as int / 16), Char(bs[1] as int % 16 * 4), PAD]
    else EncodeGroup(bs[0], bs[1], bs[2]) + Encode(bs[3..])
  }

  /** Four characters without padding as three bytes. */
  function DecodeGroup(q: Bytes): (r: Option<Bytes>)
    requires |q| == 4
  {
    match (Value(q[0]), Value(q[1]), Value(q[2]), Value(q[3]))
    case (Some(v0), Some(v1), Some(v2), Some(v3)) =>
      Some([(v0 * 4 + v1 / 16) as byte, (v1 % 16 * 16 + v2 / 4) as byte, (v2 % 4 * 64 + v3) as byte])
    case _ => None
  }

  /** The last four characters, which may end in one or two `=`. */
  function DecodeLast(q: Bytes): (r: Option<Bytes>)
    requires |q| == 4
  {
    if q[2] == PAD && q[3] == PAD then
      match (Value(q[0]), Value(q[1]))
      case (Some(v0), Some(v1)) => Some([(v0 * 4 + v1 / 16) as byte])
      case _ => None
    else if q[3] == PAD then
      match (Value(q[0]), Value(q[1]), Value(q[2]))
      case (Some(v0), Some(v1), Some(v2)) => Some([(v0 * 4 + v1 / 16) as byte, (v1 % 16 * 16 + v2 / 4) as byte])
      case _ => None
    else DecodeGroup(q)
  }

  function Decode(s: Bytes): (r: Option<Bytes>)
    decreases |s|
  {
    if |s| == 0 then Some([])
    else if |s| < 4 then None
    else if |s| == 4 then DecodeLast(s)
    else
      match (DecodeGroup(s[..4]), Decode(s[4..]))
      case (Some(g), Some(rest)) => Some(g + rest)
      case _ => None
  }

  lemma Split4(hi: int, lo: int)
    requires 0 <= lo < 4
    ensures (hi * 4 + lo) / 4 == hi && (hi * 4 + lo) % 4 == lo
  {
  }

  lemma Split16(hi: int, lo: int)
    requires 0 <= lo < 16
    ensures (hi * 16 + lo) / 16 == hi && (hi * 16 + lo) % 16 == lo
  {
  }

  /** The first two characters of a group give back its first byte, and so on. */
  lemma RecombineFirst(a: nat, b: nat)
    requires a < 256 && b < 256
    ensures a / 4 * 4 + (a % 4 * 16 + b / 16) / 16 == a
    ensures (a % 4 * 16 + b / 16) % 16 == b / 16
  {
    Split16(a % 4, b / 16);
  }

  lemma RecombineSecond(b: nat, c: nat)
    requires b < 256 && c < 256
    ensures b / 16 * 16 + (b % 16 * 4 + c / 64) / 4 == b
    ensures (b % 16 * 4 + c / 64) % 4 == c / 64
  {
    Split4(b % 16, c / 64);
  }

  lemma DecodeEncodeGroup(a: byte, b: byte, c: byte)
    ensures DecodeGroup(EncodeGroup(a, b, c)) == Some([a, b, c])
  {
    var x, y, z := a as int, b as int, c as int;
    var v0, v1, v2, v3 := x / 4, x % 4 * 16 + y / 16, y % 16 * 4 + z / 64, z % 64;
    ValueOfChar(v0);
    ValueOfChar(v1);
    ValueOfChar(v2);
    ValueOfChar(v3);
    RecombineFirst(x, y);
    RecombineSecond(y, z);
    assert v0 * 4 + v1 / 16 == x;
    assert v1 % 16 * 16 + v2 / 4 == y;
    assert v2 % 4 * 64 + v3 == z;
  }

  lemma {:induction false} EncodeLength(bs: Bytes)
    ensures |Encode(bs)| == 4 * ((|bs| + 2) / 3)
    decreases |bs|
  {
    if |bs| > 2 { EncodeLength(bs[3..]); }
  }

  lemma DecodeEncodeOne(a: byte)
    ensures Decode(Encode([a])) == Some([a])
  {
    var x := a as int;
    ValueOfChar(x / 4);
    ValueOfChar(x % 4 * 16);
    RecombineFirst(x, 0);
  }

  lemma DecodeEncodeTwo(a: byte, b: byte)
    ensures Decode(Encode([a, b])) == Some([a, b])
  {
    var x, y := a as int, b as int;
    var v0, v1, v2 := x / 4, x % 4 * 16 + y / 16, y % 16 * 4;
    ValueOfChar(v0);
    ValueOfChar(v1);
    ValueOfChar(v2);
    RecombineFirst(x, y);
    Split4(y % 16, 0);
    assert Encode([a, b]) == [Char(v0), Char(v1), Char(v2), PAD];
    assert v0 * 4 + v1 / 16 == x;
    assert v1 % 16 * 16 + v2 / 4 == y;
  }

  /** Decoding undoes encoding: no information is lost in the header. */
  lemma {:induction false} DecodeEncode(bs: Bytes)
    ensures Decode(Encode(bs)) == Some(bs)
    decreases |bs|
  {
    if |bs| == 1 {
      assert bs == [bs[0]];
      DecodeEncodeOne(bs[0]);
    } else if |bs| == 2 {
      assert bs == [bs[0], bs[1]];
      DecodeEncodeTwo(bs[0], bs[1]);
    } else if |bs| == 3 {
      DecodeEncodeGroup(bs[0], bs[1], bs[2]);
      assert bs == [bs[0], bs[1], bs[2]];
      var g := EncodeGroup(bs[0], bs[1], bs[2]);
      assert Encode(bs) == g;
      assert g[3] == Char(bs[2] as int % 64);
      ValueOfChar(bs[2] as int % 64);
    } else if |bs| > 3 {
      var s := Encode(bs);
      var g := EncodeGroup(bs[0], bs[1], bs[2]);
      EncodeLength(bs[3..]);
      assert s[..4] == g && s[4..] == Encode(bs[3..]);
      DecodeEncodeGroup(bs[0], bs[1], bs[2]);
      DecodeEncode(bs[3..]);
      assert bs == [bs[0], bs[1], bs[2]] + bs[3..];
    }
  }
}
