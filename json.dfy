/**
 * The part of `serde_json` the sink relies on: the `Value` tree, the
 * `Map::insert` that `maybe_set_id` uses, and compact serialisation
 * (`serde_json::to_vec` / `to_writer`).
 *
 * An object is kept as serde_json's default `Map` keeps it: a `BTreeMap`,
 * so its members are ordered by the byte-wise order of their keys (the
 * order of Rust's `String`), and serialisation writes them in that order.
 */
module Json {

  import opened Wrappers
  import opened Bytes

  datatype Json =
    | Null
    | Bool(b: bool)
    | Number(n: int)
    | String(s: Bytes)
    | Array(items: seq<Json>)
    | Object(members: seq<(Bytes, Json)>)

  /** The byte-wise lexicographic order of Rust's `String` (`Ord for str`). */
  predicate KeyLess(a: Bytes, b: Bytes)
    decreases |a|
  {
    if a == [] then b != []
    else if b == [] then false
    else if a[0] != b[0] then a[0] < b[0]
    else KeyLess(a[1..], b[1..])
  }

  lemma {:induction false} KeyLessTransitive(a: Bytes, b: Bytes, c: Bytes)
    requires KeyLess(a, b) && KeyLess(b, c)
    ensures KeyLess(a, c)
    decreases |a|
  {
    if a != [] && a[0] == b[0] && b[0] == c[0] {
      KeyLessTransitive(a[1..], b[1..], c[1..]);
    }
  }

  lemma {:induction false} KeyLessTotal(a: Bytes, b: Bytes)
    requires a != b
    ensures KeyLess(a, b) || KeyLess(b, a)
    decreases |a|
  {
    if a != [] && b != [] && a[0] == b[0] {
      assert a == [a[0]] + a[1..] && b == [b[0]] + b[1..];
      KeyLessTotal(a[1..], b[1..]);
    }
  }

  /** The keys appear in strictly increasing order, so each key occurs once. */
  predicate Sorted(ms: seq<(Bytes, Json)>) {
    forall i, j | 0 <= i < j < |ms| :: KeyLess(ms[i].0, ms[j].0)
  }

  function Keys(ms: seq<(Bytes, Json)>): set<Bytes> {
    set i | 0 <= i < |ms| :: ms[i].0
  }

  lemma KeysCons(m: (Bytes, Json), ms: seq<(Bytes, Json)>)
    ensures Keys([m] + ms) == {m.0} + Keys(ms)
  {
    var r := [m] + ms;
    forall x | x in Keys(ms) ensures x in Keys(r) {
      var i :| 0 <= i < |ms| && ms[i].0 == x;
      assert r[i + 1].0 == x;
    }
    assert r[0].0 == m.0;
    forall x | x in Keys(r) ensures x == m.0 || x in Keys(ms) {
      var i :| 0 <= i < |r| && r[i].0 == x;
      if i > 0 { assert ms[i - 1].0 == x; }
    }
  }

  /** `Map::get`: the value stored under `k`, if any. */
  function Get(ms: seq<(Bytes, Json)>, k: Bytes): (r: Option<Json>)
    ensures r.Some? <==> k in Keys(ms)
  {
    if ms == [] then None
    else if ms[0].0 == k then Some(ms[0].1)
    else Get(ms[1..], k)
  }

  /**
   * `Map::insert` on a `BTreeMap`: replaces the value of an existing key in
   * place, otherwise adds the member at its place in key order.
   */
  function Insert(ms: seq<(Bytes, Json)>, k: Bytes, v: Json): (r: seq<(Bytes, Json)>)
    ensures Get(r, k) == Some(v)
    ensures forall k' | k' != k :: Get(r, k') == Get(ms, k')
    ensures Keys(r) == Keys(ms) + {k}
  {
    if ms == [] then [(k, v)]
    else if ms[0].0 == k then
      var r := [(k, v)] + ms[1..];
      assert forall i | 0 <= i < |r| :: r[i].0 == ms[i].0;
      r
    else if KeyLess(k, ms[0].0) then
      KeysCons((k, v), ms);
      [(k, v)] + ms
    else
      var tail := Insert(ms[1..], k, v);
      KeysCons(ms[0], tail);
      KeysCons(ms[0], ms[1..]);
      assert ms == [ms[0]] + ms[1..];
      [ms[0]] + tail
  }

  lemma SortedTail(ms: seq<(Bytes, Json)>)
    requires Sorted(ms) && ms != []
    ensures Sorted(ms[1..])
  {
    forall i, j | 0 <= i < j < |ms[1..]| ensures KeyLess(ms[1..][i].0, ms[1..][j].0) {
      assert ms[1..][i] == ms[i + 1] && ms[1..][j] == ms[j + 1];
    }
  }

  /** A member whose key precedes every key of a sorted sequence can go in front of it. */
  lemma SortedCons(m: (Bytes, Json), ms: seq<(Bytes, Json)>)
    requires Sorted(ms)
    requires forall x | x in Keys(ms) :: KeyLess(m.0, x)
    ensures Sorted([m] + ms)
  {
    var r := [m] + ms;
    forall i, j | 0 <= i < j < |r| ensures KeyLess(r[i].0, r[j].0) {
      assert r[j] == ms[j - 1];
      if i == 0 {
        assert ms[j - 1].0 in Keys(ms);
      } else {
        assert r[i] == ms[i - 1];
      }
    }
  }

  lemma {:induction false} InsertKeepsSorted(ms: seq<(Bytes, Json)>, k: Bytes, v: Json)
    requires Sorted(ms)
    ensures Sorted(Insert(ms, k, v))
    decreases |ms|
  {
    if ms == [] {
    } else if ms[0].0 == k {
      var r := Insert(ms, k, v);
      forall i, j | 0 <= i < j < |r| ensures KeyLess(r[i].0, r[j].0) {
        assert r[i].0 == ms[i].0 && r[j].0 == ms[j].0;
      }
    } else if KeyLess(k, ms[0].0) {
      forall x | x in Keys(ms) ensures KeyLess(k, x) {
        var m :| 0 <= m < |ms| && ms[m].0 == x;
        if m > 0 { KeyLessTransitive(k, ms[0].0, x); }
      }
      SortedCons((k, v), ms);
    } else {
      KeyLessTotal(k, ms[0].0);
      SortedTail(ms);
      InsertKeepsSorted(ms[1..], k, v);
      var tail := Insert(ms[1..], k, v);
      forall x | x in Keys(tail) ensures KeyLess(ms[0].0, x) {
        if x != k {
          var m :| 0 <= m < |ms[1..]| && ms[1..][m].0 == x;
          assert ms[m + 1].0 == x;
        }
      }
      SortedCons(ms[0], tail);
    }
  }

  const QUOTE: byte := 34
  const BACKSLASH: byte := 92
  const COMMA: byte := 44
  const COLON: byte := 58
  const LBRACKET: byte := 91
  const RBRACKET: byte := 93
  const LBRACE: byte := 123
  const RBRACE: byte := 125

  /** Lower-case hexadecimal digit, as serde_json writes `\u00XX` escapes. */
  function HexDigit(d: nat): (r: byte)
    requires d < 16
    ensures r != NL
  {
    if d < 10 then (48 + d) as byte else (87 + d) as byte
  }

  /**
   * serde_json's per-byte `ESCAPE` table: the quote, the backslash and the
   * control bytes below 0x20 are escaped, every other byte (all bytes of a
   * multi-byte UTF-8 sequence among them) is copied.
   */
  function EscapeByte(b: byte): (r: Bytes)
    ensures NL !in r
    ensures |r| > 0 && (r[0] == BACKSLASH <==> (b < 32 || b == QUOTE || b == BACKSLASH))
  {
    if b == 8 then [BACKSLASH, 98]           // \b
    else if b == 9 then [BACKSLASH, 116]     // \t
    else if b == 10 then [BACKSLASH, 110]    // \n
    else if b == 12 then [BACKSLASH, 102]    // \f
    else if b == 13 then [BACKSLASH, 114]    // \r
    else if b == QUOTE then [BACKSLASH, QUOTE]
    else if b == BACKSLASH then [BACKSLASH, BACKSLASH]
    else if b < 32 then [BACKSLASH, 117, 48, 48, HexDigit(b as int / 16), HexDigit(b as int % 16)]
    else [b]
  }

  function Escape(s: Bytes): (r: Bytes)
    ensures NL !in r
  {
    if s == [] then [] else EscapeByte(s[0]) + Escape(s[1..])
  }

  /** A JSON string literal. */
  function Quote(s: Bytes): (r: Bytes)
    ensures NL !in r
  {
    [QUOTE] + Escape(s) + [QUOTE]
  }

  /** The parts separated by commas. */
  function Join(parts: seq<Bytes>): Bytes {
    if parts == [] then []
    else if |parts| == 1 then parts[0]
    else parts[0] + [COMMA] + Join(parts[1..])
  }

  lemma {:induction false} JoinHasNoNewline(parts: seq<Bytes>)
    requires forall i | 0 <= i < |parts| :: NL !in parts[i]
    ensures NL !in Join(parts)
    decreases |parts|
  {
    if |parts| > 1 { JoinHasNoNewline(parts[1..]); }
  }

  function MemberText(m: (Bytes, Json)): Bytes
    decreases m
  {
    Quote(m.0) + [COLON] + Serialize(m.1)
  }

  /** `serde_json::to_vec`: compact JSON, no whitespace between tokens. */
  function Serialize(j: Json): Bytes
    decreases j
  {
    match j
    case Null => Ascii("null")
    case Bool(b) => if b then Ascii("true") else Ascii("false")
    case Number(n) => Decimal(n)
    case String(s) => Quote(s)
    case Array(items) =>
      [LBRACKET] + Join(seq(|items|, i requires 0 <= i < |items| => Serialize(items[i]))) + [RBRACKET]
    case Object(ms) =>
      [LBRACE] + Join(seq(|ms|, i requires 0 <= i < |ms| => MemberText(ms[i]))) + [RBRACE]
  }

  /**
   * No serialisation contains a newline byte: newlines inside strings are
   * escaped, and compact output writes no whitespace.
   */
  lemma {:induction false} SerializeHasNoNewline(j: Json)
    ensures NL !in Serialize(j)
    decreases j
  {
    match j
    case Null => PrintableHasNoNewline("null");
    case Bool(b) => PrintableHasNoNewline("true"); PrintableHasNoNewline("false");
    case Number(n) =>
    case String(s) =>
    case Array(items) =>
      var parts := seq(|items|, i requires 0 <= i < |items| => Serialize(items[i]));
      forall i | 0 <= i < |parts| ensures NL !in parts[i] {
        SerializeHasNoNewline(items[i]);
      }
      JoinHasNoNewline(parts);
    case Object(ms) =>
      var parts := seq(|ms|, i requires 0 <= i < |ms| => MemberText(ms[i]));
      forall i | 0 <= i < |parts| ensures NL !in parts[i] {
        SerializeHasNoNewline(ms[i].1);
      }
      JoinHasNoNewline(parts);
  }
}
