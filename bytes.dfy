/** Byte strings and the few slice operations the parser borrows from its
    UTF-8 string library: prefix test, suffix strip and split at the first
    occurrence of a separator byte. Slices are modelled as values: a slice
    of `s` is a subsequence of `s`, and "borrowed" becomes "is a suffix of". */
module Bytes {

  newtype byte = b: int | 0 <= b < 256

  /** The low byte of a character: its code for the ASCII characters used here. */
  function Byte(c: char): byte {
    (c as int % 256) as byte
  }

  /** The bytes of an ASCII literal such as `"PING"u8`. */
  function Ascii(s: string): (r: seq<byte>) {
    seq(|s|, i requires 0 <= i < |s| => Byte(s[i]))
  }

  const SP: byte := 0x20     // ' '
  const HASH: byte := 0x23   // '#'
  const COLON: byte := 0x3A  // ':'
  const CR: byte := 0x0D     // '\r'
  const LF: byte := 0x0A     // '\n'
  const CRLF: seq<byte> := [CR, LF]

  /** An ASCII digit or upper-case letter: the first byte of every command literal. */
  predicate IsDigitOrUpper(b: byte) {
    0x30 <= b <= 0x39 || 0x41 <= b <= 0x5A
  }

  predicate StartsWith(s: seq<byte>, prefix: seq<byte>) {
    |prefix| <= |s| && s[..|prefix|] == prefix
  }

  predicate EndsWith(s: seq<byte>, suffix: seq<byte>) {
    |suffix| <= |s| && s[|s| - |suffix|..] == suffix
  }

  /** `t` is a tail slice of `s`: what a `ref` slice argument can become. */
  predicate IsSuffix(t: seq<byte>, s: seq<byte>) {
    EndsWith(s, t)
  }

  lemma SuffixTransitive(a: seq<byte>, b: seq<byte>, c: seq<byte>)
    requires IsSuffix(a, b) && IsSuffix(b, c)
    ensures IsSuffix(a, c)
  {
    assert c[|c| - |a|..] == c[|c| - |b|..][|b| - |a|..];
  }

  /** Removes `suffix` once when `s` ends with it, and otherwise leaves `s` alone. */
  function StripSuffix(s: seq<byte>, suffix: seq<byte>): (r: seq<byte>)
    ensures EndsWith(s, suffix) ==> r + suffix == s
    ensures !EndsWith(s, suffix) ==> r == s
  {
    if EndsWith(s, suffix) then s[..|s| - |suffix|] else s
  }

  /** Splits `s` at its first `sep`: the bytes before it, and the bytes after it
      (empty when `s` holds no `sep`). The separator itself belongs to neither. */
  function SplitFirst(s: seq<byte>, sep: byte): (r: (seq<byte>, seq<byte>))
    ensures sep !in r.0
    ensures sep in s ==> s == r.0 + [sep] + r.1
    ensures sep !in s ==> r.0 == s && r.1 == []
    ensures IsSuffix(r.1, s)
  {
    if s == [] then ([], [])
    else if s[0] == sep then ([], s[1..])
    else
      var (head, tail) := SplitFirst(s[1..], sep);
      ([s[0]] + head, tail)
  }

  /** A split point is determined by the separator-free head: whenever
      `s == head + [sep] + tail` with no `sep` in `head`, SplitFirst finds it. */
  lemma {:induction false} SplitFirstUnique(head: seq<byte>, sep: byte, tail: seq<byte>)
    requires sep !in head
    ensures SplitFirst(head + [sep] + tail, sep) == (head, tail)
  {
    var s := head + [sep] + tail;
    if head == [] {
      assert s[0] == sep && s[1..] == tail;
    } else {
      assert s[0] == head[0] != sep;
      assert s[1..] == head[1..] + [sep] + tail;
      SplitFirstUnique(head[1..], sep, tail);
      assert [head[0]] + head[1..] == head;
    }
  }

  /** `[x] + a + [y] + b` regrouped after its first byte. */
  lemma Reassociate(x: byte, a: seq<byte>, y: byte, b: seq<byte>)
    ensures [x] + a + [y] + b == [x] + (a + [y] + b)
  {
  }

  /** Stripping a suffix undoes appending it. */
  lemma StripAppended(s: seq<byte>, suffix: seq<byte>)
    ensures StripSuffix(s + suffix, suffix) == s
  {
    assert (s + suffix)[|s|..] == suffix;
    assert (s + suffix)[..|s|] == s;
  }

  /** An ASCII literal without ' ' has no space byte. */
  lemma AsciiNoSpace(s: string)
    requires forall i :: 0 <= i < |s| ==> s[i] as int < 256 && s[i] != ' '
    ensures SP !in Ascii(s)
  {
    var r := Ascii(s);
    forall i | 0 <= i < |r| ensures r[i] != SP {
      assert r[i] == Byte(s[i]) && r[i] as int == s[i] as int;
    }
  }
}
