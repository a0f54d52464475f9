/**
 * The `application/x-www-form-urlencoded` serializer of the `url` crate
 * (`url::form_urlencoded`), which the sink uses to append its configured
 * query pairs, together with the crate's `parse`, which reads such a string
 * back the way the receiving server does.
 */
module FormUrlencoded {

  import opened Wrappers
  import opened Bytes

  const AMP: byte := 38
  const EQ: byte := 61
  const PLUS: byte := 43
  const PERCENT: byte := 37
  const SPACE: byte := 32
  const QUESTION: byte := 63

  /** `byte_serialized_unchanged`: `*`, `-`, `.`, `_`, digits and ASCII letters. */
  predicate Unchanged(b: byte) {
    b == 42 || b == 45 || b == 46 || b == 95 || (48 <= b <= 57) || (65 <= b <= 90) || (97 <= b <= 122)
  }

  /** Upper-case hexadecimal digit, as `percent_encode_byte` writes it. */
  function Hex(d: nat): (r: byte)
    requires d < 16
  {
    if d < 10 then (48 + d) as byte else (55 + d) as byte
  }

  /** The value of a hexadecimal digit of either case. */
  function HexValue(b: byte): (r: Option<nat>)
    ensures r.Some? ==> r.value < 16
  {
    if 48 <= b <= 57 then Some(b as int - 48)
    else if 65 <= b <= 70 then Some(b as int - 55)
    else if 97 <= b <= 102 then Some(b as int - 87)
    else None
  }

  /** One input byte as `byte_serialize` writes it. */
  function EncodeByte(b: byte): (r: Bytes)
    ensures AMP !in r && EQ !in r && QUESTION !in r
  {
    if Unchanged(b) then [b]
    else if b == SPACE then [PLUS]
    else [PERCENT, Hex(b as int / 16), Hex(b as int % 16)]
  }

  /** `byte_serialize`. */
  function Encode(s: Bytes): Bytes {
    if s == [] then [] else EncodeByte(s[0]) + Encode(s[1..])
  }

  /** The encoded form never contains the delimiters `&`, `=` or `?`. */
  lemma {:induction false} EncodeHasNoDelimiters(s: Bytes)
    ensures AMP !in Encode(s) && EQ !in Encode(s) && QUESTION !in Encode(s)
  {
    if s != [] {
      EncodeHasNoDelimiters(s[1..]);
    }
  }

  lemma {:induction false} EncodeUnchanged(s: Bytes)
    requires forall i | 0 <= i < |s| :: Unchanged(s[i])
    ensures Encode(s) == s
  {
    if s != [] {
      EncodeUnchanged(s[1..]);
      assert s == [s[0]] + s[1..];
    }
  }

  /** `decode`: `+` becomes a space, then `%XY` becomes the byte 0xXY. */
  function Decode(s: Bytes): Bytes
    decreases |s|
  {
    if s == [] then []
    else if s[0] == PLUS then [SPACE] + Decode(s[1..])
    else if s[0] == PERCENT && |s| >= 3 && HexValue(s[1]).Some? && HexValue(s[2]).Some? then
      [(HexValue(s[1]).value * 16 + HexValue(s[2]).value) as byte] + Decode(s[3..])
    else [s[0]] + Decode(s[1..])
  }

  lemma DecodeEncodeByte(b: byte, rest: Bytes)
    ensures Decode(EncodeByte(b) + rest) == [b] + Decode(rest)
  {
    var e := EncodeByte(b) + rest;
    if !Unchanged(b) && b != SPACE {
      var hi, lo := b as int / 16, b as int % 16;
      assert HexValue(Hex(hi)) == Some(hi) && HexValue(Hex(lo)) == Some(lo);
      assert e[3..] == rest;
    } else {
      assert e[1..] == rest;
    }
  }

  lemma {:induction false} DecodeEncode(s: Bytes)
    ensures Decode(Encode(s)) == s
    decreases |s|
  {
    if s != [] {
      DecodeEncodeByte(s[0], Encode(s[1..]));
      DecodeEncode(s[1..]);
    }
  }

  /** One `name=value` sequence of the serialized form. */
  function PairText(p: (Bytes, Bytes)): (r: Bytes)
    ensures |r| > 0
  {
    Encode(p.0) + [EQ] + Encode(p.1)
  }

  lemma PairTextHasNoSeparator(p: (Bytes, Bytes))
    ensures AMP !in PairText(p) && QUESTION !in PairText(p)
  {
    EncodeHasNoDelimiters(p.0);
    EncodeHasNoDelimiters(p.1);
  }

  /** The pairs in the order given, separated by `&`. */
  function Serialized(ps: seq<(Bytes, Bytes)>): (r: Bytes)
    ensures ps != [] ==> |r| > 0
  {
    if ps == [] then []
    else if |ps| == 1 then PairText(ps[0])
    else PairText(ps[0]) + [AMP] + Serialized(ps[1..])
  }

  /** A serialized query never contains `?`. */
  lemma {:induction false} SerializedHasNoQuestion(ps: seq<(Bytes, Bytes)>)
    ensures QUESTION !in Serialized(ps)
    decreases |ps|
  {
    if ps != [] {
      PairTextHasNoSeparator(ps[0]);
      SerializedHasNoQuestion(ps[1..]);
    }
  }

  lemma {:induction false} SerializedSnoc(ps: seq<(Bytes, Bytes)>, p: (Bytes, Bytes))
    requires ps != []
    ensures Serialized(ps + [p]) == Serialized(ps) + [AMP] + PairText(p)
    decreases |ps|
  {
    var q := ps + [p];
    var head := PairText(ps[0]);
    if |ps| == 1 {
      assert q[1..] == [p];
      assert Serialized(q) == head + [AMP] + Serialized([p]);
    } else {
      assert q[1..] == ps[1..] + [p];
      SerializedSnoc(ps[1..], p);
      var mid := Serialized(ps[1..]);
      assert Serialized(q) == head + [AMP] + (mid + [AMP] + PairText(p));
      assert Serialized(ps) == head + [AMP] + mid;
      assert head + [AMP] + (mid + [AMP] + PairText(p)) == (head + [AMP] + mid) + [AMP] + PairText(p);
    }
  }

  /** The index of the first `sep` in `s`, or `|s|` when there is none. */
  function IndexOf(s: Bytes, sep: byte): (i: nat)
    ensures i <= |s| && sep !in s[..i] && (i < |s| ==> s[i] == sep)
  {
    if s == [] then 0 else if s[0] == sep then 0 else 1 + IndexOf(s[1..], sep)
  }

  lemma {:induction false} IndexOfAfter(a: Bytes, sep: byte, b: Bytes)
    requires sep !in a
    ensures IndexOf(a + [sep] + b, sep) == |a|
    decreases |a|
  {
    if a != [] {
      assert (a + [sep] + b)[1..] == a[1..] + [sep] + b;
      IndexOfAfter(a[1..], sep, b);
    }
  }

  lemma {:induction false} IndexOfAbsent(a: Bytes, sep: byte)
    requires sep !in a
    ensures IndexOf(a, sep) == |a|
    decreases |a|
  {
    if a != [] { IndexOfAbsent(a[1..], sep); }
  }

  /** One `name=value` sequence read back; a missing `=` gives an empty value. */
  function ParsePair(sequence: Bytes): (Bytes, Bytes) {
    var i := IndexOf(sequence, EQ);
    (Decode(sequence[..i]), if i < |sequence| then Decode(sequence[i + 1..]) else [])
  }

  /** `form_urlencoded::parse`: split at `&`, skip empty sequences, split each at the first `=`. */
  function Parse(s: Bytes): seq<(Bytes, Bytes)>
    decreases |s|
  {
    if s == [] then []
    else
      var i := IndexOf(s, AMP);
      var rest := if i < |s| then Parse(s[i + 1..]) else [];
      if i == 0 then rest else [ParsePair(s[..i])] + rest
  }

  lemma ParsePairText(p: (Bytes, Bytes))
    ensures ParsePair(PairText(p)) == p
  {
    var t := PairText(p);
    EncodeHasNoDelimiters(p.0);
    IndexOfAfter(Encode(p.0), EQ, Encode(p.1));
    assert t[..|Encode(p.0)|] == Encode(p.0);
    assert t[|Encode(p.0)| + 1..] == Encode(p.1);
    DecodeEncode(p.0);
    DecodeEncode(p.1);
  }

  /** Parsing the serialized form gives back exactly the pairs, in order. */
  lemma {:induction false} ParseSerialized(ps: seq<(Bytes, Bytes)>)
    ensures Parse(Serialized(ps)) == ps
    decreases |ps|
  {
    if |ps| == 1 {
      var t := PairText(ps[0]);
      PairTextHasNoSeparator(ps[0]);
      IndexOfAbsent(t, AMP);
      assert t[..|t|] == t;
      ParsePairText(ps[0]);
    } else if |ps| > 1 {
      var t := PairText(ps[0]);
      var s := Serialized(ps);
      PairTextHasNoSeparator(ps[0]);
      IndexOfAfter(t, AMP, Serialized(ps[1..]));
      assert s[..|t|] == t;
      assert s[|t| + 1..] == Serialized(ps[1..]);
      ParsePairText(ps[0]);
      ParseSerialized(ps[1..]);
    }
  }

  /**
   * `form_urlencoded::Serializer`: a target string and the position after
   * which the serialized pairs begin.
   */
  class Serializer {
    var target: Bytes
    const start: nat

    ghost predicate Valid()
      reads this
    {
      start <= |target|
    }

    /** `Serializer::new(target)`, which is `for_suffix(target, 0)`. */
    constructor New(target: Bytes)
      ensures Valid() && this.target == target && start == 0
    {
      this.target := target;
      start := 0;
    }

    /** `append_pair`: a `&` first whenever the target is longer than `start`. */
    method AppendPair(name: Bytes, value: Bytes)
      requires Valid()
      modifies this
      ensures Valid()
      ensures target == old(target) + (if |old(target)| > start then [AMP] else []) + PairText((name, value))
    {
      if |target| > start {
        target := target + [AMP];
      }
      target := target + Encode(name);
      target := target + [EQ];
      target := target + Encode(value);
    }
  }
}
