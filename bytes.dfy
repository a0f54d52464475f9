/**
 * Byte strings. Every Rust `String`, `&str` and `Vec<u8>` of the sink is
 * modelled by its UTF-8 bytes; the literals of the source are ASCII.
 */
module Bytes {

  import opened Wrappers

  newtype byte = b: int | 0 <= b < 256

  type Bytes = seq<byte>

  const NL: byte := 10

  /** The bytes of a literal; every literal of the sink is ASCII, one byte per character. */
  function Ascii(s: string): (r: Bytes)
    ensures |r| == |s|
    ensures forall i | 0 <= i < |s| :: r[i] as int == s[i] as int % 256
  {
    seq(|s|, i requires 0 <= i < |s| => (s[i] as int % 256) as byte)
  }

  /** Characters that are printable ASCII: none of them is a line break. */
  predicate IsPrintable(s: string) {
    forall i | 0 <= i < |s| :: 32 <= s[i] as int < 127
  }

  lemma PrintableHasNoNewline(s: string)
    requires IsPrintable(s)
    ensures NL !in Ascii(s)
  {
    var r := Ascii(s);
    forall i | 0 <= i < |r| ensures r[i] != NL {
      assert r[i] as int == s[i] as int % 256;
    }
  }

  predicate IsDigit(b: byte) { 48 <= b as int <= 57 }

  /** The decimal digits of `n`, most significant first, as Rust's `Display` writes them. */
  function NatDigits(n: nat): (r: Bytes)
    ensures |r| > 0
    ensures forall i | 0 <= i < |r| :: IsDigit(r[i])
    decreases n
  {
    if n < 10 then [(48 + n) as byte] else NatDigits(n / 10) + [(48 + n % 10) as byte]
  }

  /** The number a non-empty run of decimal digits stands for. */
  function DigitsValue(ds: Bytes): nat
    requires forall i | 0 <= i < |ds| :: IsDigit(ds[i])
  {
    if ds == [] then 0
    else
      var last := ds[|ds| - 1];
      assert IsDigit(last);
      10 * DigitsValue(ds[..|ds| - 1]) + (last as int - 48)
  }

  lemma {:induction false} DigitsValueOfNatDigits(n: nat)
    ensures DigitsValue(NatDigits(n)) == n
    decreases n
  {
    if n >= 10 {
      var ds := NatDigits(n);
      assert ds[..|ds| - 1] == NatDigits(n / 10);
      DigitsValueOfNatDigits(n / 10);
    }
  }

  const MINUS: byte := 45

  /** An integer as Rust's `Display` writes it: an optional `-` and its digits. */
  function Decimal(n: int): (r: Bytes)
    ensures NL !in r
    ensures n >= 0 ==> r == NatDigits(n)
    ensures n < 0 ==> r == [MINUS] + NatDigits(-n)
  {
    if n < 0 then [MINUS] + NatDigits(-n) else NatDigits(n)
  }

  /** Reads back what `Decimal` writes. */
  function ParseDecimal(s: Bytes): (r: Option<int>)
  {
    if s != [] && s[0] == MINUS && |s| > 1 && AllDigits(s[1..]) then Some(0 - DigitsValue(s[1..]))
    else if s != [] && AllDigits(s) then Some(DigitsValue(s))
    else None
  }

  predicate AllDigits(s: Bytes) { forall i | 0 <= i < |s| :: IsDigit(s[i]) }

  lemma DecimalRoundTrip(n: int)
    ensures ParseDecimal(Decimal(n)) == Some(n)
  {
    if n < 0 {
      DigitsValueOfNatDigits(-n);
      assert Decimal(n)[1..] == NatDigits(-n);
    } else {
      DigitsValueOfNatDigits(n);
    }
  }

  /**
   * The lines of `bs`, each without its terminating newline; a final line
   * needs no newline, and a trailing newline does not open an empty line.
   */
  function Lines(bs: Bytes): (r: seq<Bytes>)
    ensures forall k | 0 <= k < |r| :: NL !in r[k]
    decreases |bs|
  {
    if bs == [] then []
    else if NL !in bs then [bs]
    else
      var i := FirstNewline(bs);
      [bs[..i]] + Lines(bs[i + 1..])
  }

  function FirstNewline(bs: Bytes): (i: nat)
    requires NL in bs
    ensures i < |bs| && bs[i] == NL && NL !in bs[..i]
  {
    if bs[0] == NL then 0 else 1 + FirstNewline(bs[1..])
  }

  /** Newline-terminated lines written one after another. */
  function Unlines(ls: seq<Bytes>): Bytes {
    if ls == [] then [] else ls[0] + [NL] + Unlines(ls[1..])
  }

  lemma {:induction false} FirstNewlineAfterLine(a: Bytes, b: Bytes)
    requires NL !in a
    ensures NL in a + [NL] + b && FirstNewline(a + [NL] + b) == |a|
    decreases |a|
  {
    var bs := a + [NL] + b;
    assert bs[|a|] == NL;
    if a != [] {
      assert bs[0] == a[0];
      assert bs[1..] == a[1..] + [NL] + b;
      FirstNewlineAfterLine(a[1..], b);
    }
  }

  lemma {:induction false} LinesOfUnlines(ls: seq<Bytes>)
    requires forall k | 0 <= k < |ls| :: NL !in ls[k]
    ensures Lines(Unlines(ls)) == ls
    decreases |ls|
  {
    if ls != [] {
      var rest := Unlines(ls[1..]);
      var bs := ls[0] + [NL] + rest;
      assert Unlines(ls) == bs;
      FirstNewlineAfterLine(ls[0], rest);
      assert bs[..|ls[0]|] == ls[0];
      assert bs[|ls[0]| + 1..] == rest;
      LinesOfUnlines(ls[1..]);
    }
  }
}
