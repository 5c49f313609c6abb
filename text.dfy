/**
 * The Python string built-ins the core relies on (`str.strip`, `str.split`,
 * `str.join`, `in`, `str.lower`, `str.replace`, slicing and `str(int)`),
 * written over `string` = `seq<char>` with one `char` per code point.
 */
module Text {

  import opened Wrappers

  /** The characters Python's `str.isspace()` accepts, which `str.strip()` removes. */
  predicate IsSpace(c: char) {
    || ('\t' <= c <= '\r')
    || ('\U{1C}' <= c <= ' ')
    || c == '\U{85}' || c == '\U{A0}' || c == '\U{1680}'
    || ('\U{2000}' <= c <= '\U{200A}')
    || c == '\U{2028}' || c == '\U{2029}' || c == '\U{202F}' || c == '\U{205F}'
    || c == '\U{3000}'
  }

  predicate AllSpace(s: string) {
    forall k | 0 <= k < |s| :: IsSpace(s[k])
  }

  /** The `n` characters of `b` from position `i` on, `b[i:i + n]`. */
  function Slice(b: string, i: nat, n: nat): string
    requires i + n <= |b|
  {
    b[i..i + n]
  }

  /** `a` occurs as a contiguous piece of `b`. */
  ghost predicate IsInfix(a: string, b: string) {
    exists i: nat | i + |a| <= |b| :: Slice(b, i, |a|) == a
  }

  lemma InfixOfPrefix(a: string, b: string, n: nat)
    requires IsInfix(a, b) && n <= |a|
    ensures IsInfix(a[..n], b)
  {
    var i: nat :| i + |a| <= |b| && Slice(b, i, |a|) == a;
    assert Slice(b, i, n) == a[..n];
  }

  lemma {:induction false} InfixTransitive(a: string, b: string, c: string)
    requires IsInfix(a, b) && IsInfix(b, c)
    ensures IsInfix(a, c)
  {
    var i: nat :| i + |a| <= |b| && Slice(b, i, |a|) == a;
    var j: nat :| j + |b| <= |c| && Slice(c, j, |b|) == b;
    assert Slice(c, j + i, |a|) == a by {
      forall k | 0 <= k < |a| ensures c[j + i + k] == a[k] {
        assert c[j + (i + k)] == b[i + k];
      }
    }
  }

  /** Every character of a contiguous piece occurs in the whole. */
  lemma InfixChars(a: string, b: string)
    requires IsInfix(a, b)
    ensures forall c | c in a :: c in b
  {
    var i: nat :| i + |a| <= |b| && Slice(b, i, |a|) == a;
    forall c | c in a ensures c in b {
      var j :| 0 <= j < |a| && a[j] == c;
      assert b[i + j] == c;
    }
  }

  /** `str.lstrip()`: drop leading whitespace. */
  function LStrip(s: string): (r: string)
    ensures |r| <= |s|
    ensures r == [] || !IsSpace(r[0])
    ensures forall k | 0 <= k < |s| - |r| :: IsSpace(s[k])
  {
    if s != [] && IsSpace(s[0]) then LStrip(s[1..]) else s
  }

  /** What `str.lstrip()` keeps is the tail of its argument. */
  lemma {:induction false} LStripIsSuffix(s: string)
    ensures LStrip(s) == s[|s| - |LStrip(s)|..]
  {
    if s != [] && IsSpace(s[0]) {
      LStripIsSuffix(s[1..]);
    }
  }

  /** `str.rstrip()`: drop trailing whitespace. */
  function RStrip(s: string): (r: string)
    ensures |r| <= |s|
    ensures r == [] || !IsSpace(r[|r| - 1])
    ensures forall k | |r| <= k < |s| :: IsSpace(s[k])
  {
    if s != [] && IsSpace(s[|s| - 1]) then RStrip(s[..|s| - 1]) else s
  }

  /** What `str.rstrip()` keeps is the head of its argument. */
  lemma {:induction false} RStripIsPrefix(s: string)
    ensures RStrip(s) == s[..|RStrip(s)|]
  {
    if s != [] && IsSpace(s[|s| - 1]) {
      RStripIsPrefix(s[..|s| - 1]);
    }
  }

  /** `str.strip()`: the piece of `s` between its leading and trailing whitespace. */
  function Strip(s: string): (r: string)
    ensures IsInfix(r, s)
    ensures r == [] <==> AllSpace(s)
    ensures r != [] ==> !IsSpace(r[0]) && !IsSpace(r[|r| - 1])
  {
    var l := LStrip(s);
    var r := RStrip(l);
    LStripIsSuffix(s);
    RStripIsPrefix(l);
    assert Slice(s, |s| - |l|, |r|) == r;
    assert r == [] <==> l == [];
    assert l != [] ==> l[0] == s[|s| - |l|];
    r
  }

  /**
   * Only whitespace lies outside what `str.strip()` keeps. With the
   * non-space ends that `Strip` ensures, this pins the result down.
   */
  lemma StripExact(s: string)
    ensures exists i: nat, n: nat | i + n <= |s| ::
              Strip(s) == Slice(s, i, n) && AllSpace(s[..i]) && AllSpace(s[i + n..])
  {
    var l := LStrip(s);
    var r := RStrip(l);
    LStripIsSuffix(s);
    RStripIsPrefix(l);
    var i, n := |s| - |l|, |r|;
    assert Slice(s, i, n) == r;
    forall k | i + n <= k < |s| ensures IsSpace(s[k]) {
      assert s[k] == l[k - i];
    }
    assert Strip(s) == Slice(s, i, n) && AllSpace(s[..i]) && AllSpace(s[i + n..]);
  }

  /** Text without whitespace at either end is its own `str.strip()`. */
  lemma StripIdentity(s: string)
    requires s != [] && !IsSpace(s[0]) && !IsSpace(s[|s| - 1])
    ensures Strip(s) == s
  {
    assert LStrip(s) == s;
    assert RStrip(s) == s;
  }

  /** `str.strip()` is idempotent. */
  lemma StripStrip(s: string)
    ensures Strip(Strip(s)) == Strip(s)
  {
    if Strip(s) != [] {
      StripIdentity(Strip(s));
    }
  }

  /** `str.strip()` adds no character. */
  lemma StripAddsNothing(s: string, c: char)
    requires c !in s
    ensures c !in Strip(s)
  {
    InfixChars(Strip(s), s);
  }

  /** A non-space character of `s` survives `str.strip()`. */
  lemma StripKeeps(s: string, c: char)
    requires c in s && !IsSpace(c)
    ensures c in Strip(s)
  {
    var k :| 0 <= k < |s| && s[k] == c;
    var l := LStrip(s);
    var r := RStrip(l);
    var cut := |s| - |l|;
    LStripIsSuffix(s);
    RStripIsPrefix(l);
    assert cut <= k;
    assert l[k - cut] == c;
    assert k - cut < |r|;
    assert r[k - cut] == c;
  }

  /**
   * `s.split(d)` for a one-character separator `d`: the pieces of `s`
   * between occurrences of `d`, always at least one.
   */
  function Split(s: string, d: char): (parts: seq<string>)
    ensures |parts| >= 1
    ensures forall k | 0 <= k < |parts| :: d !in parts[k]
    ensures |parts[0]| <= |s| && parts[0] == s[..|parts[0]|]
    ensures d in s ==> |parts[0]| < |s| && s[|parts[0]|] == d
    ensures d !in s ==> parts == [s]
  {
    if s == [] then [[]]
    else
      var rest := Split(s[1..], d);
      if s[0] == d then [[]] + rest
      else
        assert d !in s ==> [s[0]] + s[1..] == s;
        [[s[0]] + rest[0]] + rest[1..]
  }

  /** `sep.join(parts)`. */
  function Join(parts: seq<string>, sep: string): (r: string)
    ensures |parts| == 0 ==> r == []
    ensures |parts| > 0 ==> |parts[0]| <= |r| && r[..|parts[0]|] == parts[0]
  {
    if |parts| == 0 then []
    else if |parts| == 1 then parts[0]
    else parts[0] + sep + Join(parts[1..], sep)
  }

  /** Joining the pieces of a split with its separator gives back the original text. */
  lemma {:induction false} JoinSplit(s: string, d: char)
    ensures Join(Split(s, d), [d]) == s
  {
    if s != [] {
      var rest := Split(s[1..], d);
      JoinSplit(s[1..], d);
      if s[0] == d {
        assert Split(s, d) == [[]] + rest;
        assert Join([[]] + rest, [d]) == [] + [d] + Join(rest, [d]);
      } else {
        var parts := [[s[0]] + rest[0]] + rest[1..];
        assert Split(s, d) == parts;
        if |rest| == 1 {
          assert Join(parts, [d]) == [s[0]] + rest[0];
        } else {
          assert parts[1..] == rest[1..];
          assert Join(parts, [d]) == [s[0]] + rest[0] + [d] + Join(rest[1..], [d]);
        }
      }
    }
  }

  lemma {:induction false} SplitAfterPiece(a: string, d: char, rest: string)
    requires d !in a
    ensures Split(a + [d] + rest, d) == [a] + Split(rest, d)
  {
    if a == [] {
      assert ([] + [d] + rest)[1..] == rest;
    } else {
      assert (a + [d] + rest)[1..] == a[1..] + [d] + rest;
      SplitAfterPiece(a[1..], d, rest);
      var r := Split(a[1..] + [d] + rest, d);
      assert r == [a[1..]] + Split(rest, d);
      assert [a[0]] + a[1..] == a;
    }
  }

  /** Splitting pieces joined by a separator they do not contain gives back the pieces. */
  lemma {:induction false} SplitJoin(parts: seq<string>, d: char)
    requires |parts| >= 1
    requires forall k | 0 <= k < |parts| :: d !in parts[k]
    ensures Split(Join(parts, [d]), d) == parts
  {
    if |parts| > 1 {
      SplitJoin(parts[1..], d);
      SplitAfterPiece(parts[0], d, Join(parts[1..], [d]));
      assert [parts[0]] + parts[1..] == parts;
    }
  }

  /** Every piece of a split is a contiguous piece of the original text. */
  lemma {:induction false} SplitPieceInfix(s: string, d: char, k: nat)
    requires k < |Split(s, d)|
    ensures IsInfix(Split(s, d)[k], s)
  {
    var parts := Split(s, d);
    if k == 0 {
      assert Slice(s, 0, |parts[0]|) == parts[0];
    } else {
      var rest := Split(s[1..], d);
      var j := if s[0] == d then k - 1 else k;
      assert parts[k] == rest[j];
      SplitPieceInfix(s[1..], d, j);
      var i: nat :| i + |rest[j]| <= |s[1..]| && Slice(s[1..], i, |rest[j]|) == rest[j];
      assert Slice(s, i + 1, |rest[j]|) == rest[j];
    }
  }

  /** A character other than the separator ends up in some piece of the split. */
  lemma {:induction false} SplitKeeps(s: string, d: char, c: char) returns (k: nat)
    requires c in s && c != d
    ensures k < |Split(s, d)| && c in Split(s, d)[k]
  {
    var rest := Split(s[1..], d);
    if s[0] == c {
      k := 0;
      assert Split(s, d)[0] == [s[0]] + rest[0];
    } else {
      var j := SplitKeeps(s[1..], d, c);
      if s[0] == d {
        k := j + 1;
      } else if j == 0 {
        k := 0;
        assert Split(s, d)[0] == [s[0]] + rest[0];
      } else {
        k := j;
      }
    }
  }

  /** `pat in text`, searched left to right. */
  predicate Occurs(pat: string, text: string)
    decreases |text|
  {
    || (|pat| <= |text| && text[..|pat|] == pat)
    || (text != [] && Occurs(pat, text[1..]))
  }

  /** The search agrees with the definition of a contiguous occurrence. */
  lemma {:induction false} OccursIsInfix(pat: string, text: string)
    ensures Occurs(pat, text) <==> IsInfix(pat, text)
    decreases |text|
  {
    if |pat| <= |text| && text[..|pat|] == pat {
      assert Slice(text, 0, |pat|) == pat;
    } else if text != [] {
      OccursIsInfix(pat, text[1..]);
      if IsInfix(pat, text) {
        var i: nat :| i + |pat| <= |text| && Slice(text, i, |pat|) == pat;
        assert i != 0;
        assert Slice(text[1..], i - 1, |pat|) == pat;
      }
      if IsInfix(pat, text[1..]) {
        var i: nat :| i + |pat| <= |text[1..]| && Slice(text[1..], i, |pat|) == pat;
        assert Slice(text, i + 1, |pat|) == pat;
      }
    }
  }

  /** Some character of `marks` occurs in `s`. */
  predicate HasAny(s: string, marks: set<char>) {
    exists k | 0 <= k < |s| :: s[k] in marks
  }

  /** The first element of `items` holding a character of `marks`. */
  function FirstWith(items: seq<string>, marks: set<char>): (r: Option<string>)
    ensures r.Some? ==> r.value in items && HasAny(r.value, marks)
    ensures r.None? <==> forall k | 0 <= k < |items| :: !HasAny(items[k], marks)
  {
    if items == [] then None
    else if HasAny(items[0], marks) then Some(items[0])
    else FirstWith(items[1..], marks)
  }

  /** A scan that stops at the first match finds what `FirstWith` names. */
  lemma {:induction false} FirstWithAt(items: seq<string>, marks: set<char>, i: nat)
    requires i < |items| && HasAny(items[i], marks)
    requires forall j | 0 <= j < i :: !HasAny(items[j], marks)
    ensures FirstWith(items, marks) == Some(items[i])
  {
    if i > 0 {
      FirstWithAt(items[1..], marks, i - 1);
    }
  }

  /** The ASCII part of `str.lower()`. */
  function LowerChar(c: char): char {
    if 'A' <= c <= 'Z' then (c as int + 32) as char else c
  }

  function Lower(s: string): (r: string)
    ensures |r| == |s|
    ensures forall k | 0 <= k < |s| :: r[k] == LowerChar(s[k])
  {
    seq(|s|, k requires 0 <= k < |s| => LowerChar(s[k]))
  }

  /** `s.replace(from, to)` for single characters. */
  function ReplaceChar(s: string, from: char, to: char): (r: string)
    ensures |r| == |s|
    ensures forall k | 0 <= k < |s| :: r[k] == (if s[k] == from then to else s[k])
  {
    seq(|s|, k requires 0 <= k < |s| => if s[k] == from then to else s[k])
  }

  /** `s[:n]`. */
  function Truncate(s: string, n: nat): (r: string)
    ensures |r| <= n && |r| <= |s| && r == s[..|r|]
    ensures |s| <= n ==> r == s
    ensures |s| > n ==> |r| == n
  {
    if |s| > n then s[..n] else s
  }

  predicate IsDigit(c: char) {
    '0' <= c <= '9'
  }

  function DigitChar(d: nat): (c: char)
    requires d < 10
    ensures IsDigit(c) && c as int - '0' as int == d
  {
    ('0' as int + d) as char
  }

  /** `str(n)` for a natural number: its decimal digits, most significant first. */
  function NatToString(n: nat): (s: string)
    ensures s != [] && forall k | 0 <= k < |s| :: IsDigit(s[k])
    ensures |s| > 1 ==> s[0] != '0'
  {
    if n < 10 then [DigitChar(n)] else NatToString(n / 10) + [DigitChar(n % 10)]
  }

  /** `str(i)` for any integer, with a leading minus sign when negative. */
  function IntToString(i: int): (s: string)
    ensures s != []
    ensures s[0] == '-' <==> i < 0
    ensures forall k | (if i < 0 then 1 else 0) <= k < |s| :: IsDigit(s[k])
    ensures i < 0 ==> |s| > 1 && DigitsValue(s[1..]) == -i
    ensures i >= 0 ==> DigitsValue(s) == i
    ensures |s| > (if i < 0 then 2 else 1) ==> s[if i < 0 then 1 else 0] != '0'
  {
    if i < 0 then
      NatToStringValue(-i);
      assert ("-" + NatToString(-i))[1..] == NatToString(-i);
      assert ("-" + NatToString(-i))[1] == NatToString(-i)[0];
      "-" + NatToString(-i)
    else
      NatToStringValue(i);
      NatToString(i)
  }

  /** The value a string of decimal digits denotes. */
  function DigitsValue(s: string): int
    requires forall k | 0 <= k < |s| :: IsDigit(s[k])
  {
    if s == [] then 0
    else DigitsValue(s[..|s| - 1]) * 10 + (s[|s| - 1] as int - '0' as int)
  }

  /** Reading back the digits of `str(n)` gives `n`. */
  lemma {:induction false} NatToStringValue(n: nat)
    ensures DigitsValue(NatToString(n)) == n
  {
    if n >= 10 {
      var s := NatToString(n);
      NatToStringValue(n / 10);
      assert s[..|s| - 1] == NatToString(n / 10);
    }
  }
}
