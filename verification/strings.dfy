/** The JavaScript string operations the bot relies on, on `seq<char>`:
    `toLowerCase`, the character classes of its regular expressions,
    `indexOf`, `split`, `replace` with a string pattern, and the decimal
    rendering of a number inside a template literal. */
module Strings {
  import opened Common

  predicate IsUpper(c: char) {
    'A' <= c <= 'Z'
  }

  /** `[a-z0-9]` under the `i` flag: an ASCII letter of either case or a digit. */
  predicate IsAlnum(c: char) {
    'a' <= c <= 'z' || 'A' <= c <= 'Z' || '0' <= c <= '9'
  }

  /** `\s`: the ECMAScript WhiteSpace and LineTerminator code points. */
  predicate IsSpace(c: char) {
    var n := c as int;
    n == 0x09 || n == 0x0A || n == 0x0B || n == 0x0C || n == 0x0D || n == 0x20
    || n == 0xA0 || n == 0x1680 || (0x2000 <= n <= 0x200A) || n == 0x2028
    || n == 0x2029 || n == 0x202F || n == 0x205F || n == 0x3000 || n == 0xFEFF
  }

  predicate NotSpace(c: char) {
    !IsSpace(c)
  }

  predicate HasAlnum(s: string) {
    exists i :: 0 <= i < |s| && IsAlnum(s[i])
  }

  /** Lower-casing of one character; only the ASCII letters change. */
  function LowerChar(c: char): (d: char)
    ensures !IsUpper(d)
    ensures IsAlnum(d) <==> IsAlnum(c)
    ensures IsSpace(d) <==> IsSpace(c)
    ensures !IsUpper(c) ==> d == c
  {
    if IsUpper(c) then (c as int + 32) as char else c
  }

  /** `s.toLowerCase()` on the ASCII letters. */
  function ToLower(s: string): (r: string)
    ensures |r| == |s|
    ensures forall i :: 0 <= i < |s| ==> r[i] == LowerChar(s[i])
    ensures (forall i :: 0 <= i < |s| ==> !IsUpper(s[i])) ==> r == s
  {
    seq(|s|, i requires 0 <= i < |s| => LowerChar(s[i]))
  }

  /** `s.length`: JavaScript counts UTF-16 code units, so a code point
      beyond U+FFFF counts twice. */
  function Utf16Length(s: string): (n: nat)
    ensures |s| <= n <= 2 * |s|
    ensures (forall i :: 0 <= i < |s| ==> (s[i] as int) < 0x1_0000) ==> n == |s|
    ensures (exists i :: 0 <= i < |s| && (s[i] as int) >= 0x1_0000) ==> n > |s|
    decreases |s|
  {
    if s == [] then 0 else (if (s[0] as int) < 0x1_0000 then 1 else 2) + Utf16Length(s[1..])
  }

  /** One character is one code unit below U+10000 and a surrogate pair
      beyond it. */
  lemma Utf16OfChar(c: char)
    ensures Utf16Length([c]) == if (c as int) < 0x1_0000 then 1 else 2
  {
    assert [c][1..] == [];
  }

  /** The length of a concatenation is the sum of the lengths, so every
      character counts on its own. */
  lemma {:induction false} Utf16Append(a: string, b: string)
    ensures Utf16Length(a + b) == Utf16Length(a) + Utf16Length(b)
    decreases |a|
  {
    if a == [] {
      assert a + b == b;
    } else {
      assert (a + b)[0] == a[0];
      assert (a + b)[1..] == a[1..] + b;
      Utf16Append(a[1..], b);
    }
  }

  /** `s.indexOf(c)`: the first position of `c`, or -1. */
  function IndexOf(s: string, c: char): (r: int)
    ensures -1 <= r < |s|
    ensures r == -1 <==> c !in s
    ensures 0 <= r ==> s[r] == c && c !in s[..r]
    decreases |s|
  {
    if s == [] then -1
    else if s[0] == c then 0
    else
      var k := IndexOf(s[1..], c);
      if k < 0 then -1
      else
        assert s[..k + 1] == [s[0]] + s[1..][..k];
        k + 1
  }

  /** `s.split(sep)` for a one-character separator: the pieces between
      separators, always at least one. */
  function Split(s: string, sep: char): (parts: seq<string>)
    ensures |parts| >= 1
    ensures forall i :: 0 <= i < |parts| ==> sep !in parts[i]
    decreases |s|
  {
    var i := IndexOf(s, sep);
    if i < 0 then [s] else [s[..i]] + Split(s[i + 1..], sep)
  }

  /** `parts.join(sep)`, the inverse of `Split`. */
  function Join(parts: seq<string>, sep: char): string
    requires |parts| >= 1
  {
    if |parts| == 1 then parts[0] else parts[0] + [sep] + Join(parts[1..], sep)
  }

  /** Reading `parts[i]` into a template literal: a missing part is
      `undefined` and renders as the text "undefined". */
  function Field(parts: seq<string>, i: nat): string {
    if i < |parts| then parts[i] else "undefined"
  }

  lemma {:induction false} JoinSplit(s: string, sep: char)
    ensures Join(Split(s, sep), sep) == s
    decreases |s|
  {
    var i := IndexOf(s, sep);
    if i >= 0 {
      var rest := s[i + 1..];
      assert Split(s, sep) == [s[..i]] + Split(rest, sep);
      JoinSplit(rest, sep);
      JoinCons(s[..i], Split(rest, sep), sep);
      Rejoin(s, i);
    }
  }

  lemma Rejoin(s: string, i: nat)
    requires i < |s|
    ensures s[..i] + [s[i]] + s[i + 1..] == s
  {
  }

  lemma JoinCons(head: string, tail: seq<string>, sep: char)
    requires |tail| >= 1
    ensures Join([head] + tail, sep) == head + [sep] + Join(tail, sep)
  {
    assert ([head] + tail)[1..] == tail;
  }

  lemma {:induction false} SplitJoin(parts: seq<string>, sep: char)
    requires |parts| >= 1
    requires forall i :: 0 <= i < |parts| ==> sep !in parts[i]
    ensures Split(Join(parts, sep), sep) == parts
    decreases |parts|
  {
    var s := Join(parts, sep);
    if |parts| == 1 {
      assert sep !in s;
    } else {
      var rest := Join(parts[1..], sep);
      var n := |parts[0]|;
      assert s[n] == sep;
      assert s[..n] == parts[0];
      assert IndexOf(s, sep) == n;
      assert s[n + 1..] == rest;
      SplitJoin(parts[1..], sep);
    }
  }

  /** Splitting three separator-free fields joined by the separator gives
      the fields back. */
  lemma SplitThree(a: string, b: string, c: string, sep: char)
    requires sep !in a && sep !in b && sep !in c
    ensures Split(a + [sep] + b + [sep] + c, sep) == [a, b, c]
  {
    assert [a, b, c][1..] == [b, c];
    assert [b, c][1..] == [c];
    assert Join([b, c], sep) == b + [sep] + c;
    assert Join([a, b, c], sep) == a + [sep] + (b + [sep] + c);
    assert a + [sep] + b + [sep] + c == Join([a, b, c], sep);
    SplitJoin([a, b, c], sep);
  }

  /** The text of `s` starting at `i` is `pat`. */
  predicate OccursAt(s: string, pat: string, i: int) {
    0 <= i && i + |pat| <= |s| && s[i..i + |pat|] == pat
  }

  predicate Contains(s: string, pat: string) {
    exists i :: 0 <= i <= |s| && OccursAt(s, pat, i)
  }

  /** `s.indexOf(pat, from)`: the first occurrence at or after `from`, or -1. */
  function Find(s: string, pat: string, from: nat): (r: int)
    requires from <= |s|
    ensures r == -1 || (from <= r <= |s| && OccursAt(s, pat, r))
    ensures r >= 0 ==> forall j :: from <= j < r ==> !OccursAt(s, pat, j)
    ensures r == -1 ==> forall j :: from <= j <= |s| ==> !OccursAt(s, pat, j)
    decreases |s| - from
  {
    if OccursAt(s, pat, from) then from
    else if from == |s| then -1
    else Find(s, pat, from + 1)
  }

  /** `s.replace(pat, '')` with a string pattern: only the first
      occurrence is removed. */
  function ReplaceFirst(s: string, pat: string): (r: string)
    ensures !Contains(s, pat) ==> r == s
    ensures Contains(s, pat) ==> |r| == |s| - |pat|
    ensures Contains(s, pat) ==> exists i :: (OccursAt(s, pat, i) && r == s[..i] + s[i + |pat|..]
      && forall j :: 0 <= j < i ==> !OccursAt(s, pat, j))
  {
    var i := Find(s, pat, 0);
    if i < 0 then s else s[..i] + s[i + |pat|..]
  }

  function DigitChar(d: nat): char
    requires d < 10
  {
    ('0' as int + d) as char
  }

  /** A number in a template literal: its shortest decimal digits. */
  function NatToDecimal(n: nat): (s: string)
    ensures |s| >= 1
    ensures forall i :: 0 <= i < |s| ==> '0' <= s[i] <= '9'
    decreases n
  {
    if n < 10 then [DigitChar(n)] else NatToDecimal(n / 10) + [DigitChar(n % 10)]
  }
}
