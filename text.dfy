/**
 * The string operations of JavaScript's `String.prototype` and of SQLite text that the
 * scrapers and the manager rely on: trimming, searching, lower-casing, splitting,
 * joining, decimal rendering and text ordering.
 */
module Text {
  import opened Options

  /** The white space of JavaScript's `\s` and `trim()`: WhiteSpace and LineTerminator. */
  predicate IsSpace(c: char) {
    || c == ' ' || c == '\t' || c == '\n' || c == '\r' || c == '\U{000B}' || c == '\U{000C}'
    || c == '\U{00A0}' || c == '\U{1680}' || ('\U{2000}' <= c <= '\U{200A}')
    || c == '\U{2028}' || c == '\U{2029}' || c == '\U{202F}' || c == '\U{205F}'
    || c == '\U{3000}' || c == '\U{FEFF}'
  }

  /** The characters JavaScript's regular-expression `.` does not match. */
  predicate IsLineTerminator(c: char) {
    c == '\n' || c == '\r' || c == '\U{2028}' || c == '\U{2029}'
  }

  /** `s.trimStart()`: a suffix of `s` that does not start with white space. */
  function TrimStart(s: string): (r: string)
    ensures |r| <= |s| && r == s[|s| - |r|..]
    ensures r != [] ==> !IsSpace(r[0])
  {
    if s != [] && IsSpace(s[0]) then TrimStart(s[1..]) else s
  }

  /** `trimStart` drops white space and nothing else. */
  lemma {:induction false} TrimStartDropsSpace(s: string)
    ensures forall k :: 0 <= k < |s| - |TrimStart(s)| ==> IsSpace(s[k])
  {
    if s != [] && IsSpace(s[0]) {
      TrimStartDropsSpace(s[1..]);
      forall k | 1 <= k < |s| - |TrimStart(s)|
        ensures IsSpace(s[k])
      {
        assert s[k] == s[1..][k - 1];
      }
    }
  }

  /** `s.trimEnd()`: a prefix of `s` that does not end with white space. */
  function TrimEnd(s: string): (r: string)
    ensures |r| <= |s| && r == s[..|r|]
    ensures r != [] ==> !IsSpace(r[|r| - 1])
  {
    if s != [] && IsSpace(s[|s| - 1]) then TrimEnd(s[..|s| - 1]) else s
  }

  /** `trimEnd` drops white space and nothing else. */
  lemma {:induction false} TrimEndDropsSpace(s: string)
    ensures forall k :: |TrimEnd(s)| <= k < |s| ==> IsSpace(s[k])
  {
    if s != [] && IsSpace(s[|s| - 1]) {
      TrimEndDropsSpace(s[..|s| - 1]);
    }
  }

  /** `s.trim()`: `trimStart` then `trimEnd`, so neither end is white space. */
  function Trim(s: string): (r: string)
    ensures r != [] ==> !IsSpace(r[0]) && !IsSpace(r[|r| - 1])
    ensures |r| <= |s|
  {
    TrimEnd(TrimStart(s))
  }

  /** Only white space lies outside the trimmed slice. */
  lemma TrimDropsOnlySpace(s: string)
    ensures var i, r := |s| - |TrimStart(s)|, Trim(s);
      && (forall k :: 0 <= k < i ==> IsSpace(s[k]))
      && (forall k :: i + |r| <= k < |s| ==> IsSpace(s[k]))
  {
    var a := TrimStart(s);
    var i := |s| - |a|;
    TrimStartDropsSpace(s);
    TrimEndDropsSpace(a);
    forall k | i + |Trim(s)| <= k < |s|
      ensures IsSpace(s[k])
    {
      assert s[k] == a[k - i];
    }
  }

  /** A string without white space at either end is its own trim. */
  lemma TrimOfTrimmed(s: string)
    requires s != [] ==> !IsSpace(s[0]) && !IsSpace(s[|s| - 1])
    ensures Trim(s) == s
  {
  }

  /** Trimming keeps a first character that is not white space. */
  lemma TrimKeepsHead(s: string)
    requires s != [] && !IsSpace(s[0])
    ensures Trim(s) != [] && Trim(s)[0] == s[0]
  {
    assert TrimStart(s) == s;
    TrimEndDropsSpace(s);
  }

  /** `t` occurs in `s` starting at index `i`. */
  predicate OccursAt(s: string, t: string, i: nat) {
    i + |t| <= |s| && s[i..i + |t|] == t
  }

  /** `s.indexOf(t)`: the first occurrence of `t`, with `None` for -1. */
  function IndexOf(s: string, t: string): (r: Option<nat>)
    ensures r.Some? ==> OccursAt(s, t, r.value)
    ensures r.Some? ==> forall k :: 0 <= k < r.value ==> !OccursAt(s, t, k)
    ensures r.None? ==> forall k: nat :: !OccursAt(s, t, k)
    decreases |s|
  {
    if |t| > |s| then None
    else if OccursAt(s, t, 0) then Some(0)
    else
      assert forall k: nat :: 1 <= k ==> (OccursAt(s, t, k) <==> OccursAt(s[1..], t, k - 1)) by {
        forall k: nat | 1 <= k ensures OccursAt(s, t, k) <==> OccursAt(s[1..], t, k - 1) {
          if k + |t| <= |s| { assert s[1..][k - 1..k - 1 + |t|] == s[k..k + |t|]; }
        }
      }
      match IndexOf(s[1..], t)
      case None => None
      case Some(i) => Some(i + 1)
  }

  /** `s.includes(t)` */
  predicate Contains(s: string, t: string) {
    IndexOf(s, t).Some?
  }

  /** `Contains` holds exactly when `t` occurs somewhere in `s`. */
  lemma ContainsIff(s: string, t: string)
    ensures Contains(s, t) <==> exists k: nat :: OccursAt(s, t, k)
  {
  }

  /** A string occurring inside a part of `s` occurs in `s`. */
  lemma ContainsInfix(s: string, i: nat, j: nat, t: string)
    requires i <= j <= |s| && Contains(s[i..j], t)
    ensures Contains(s, t)
  {
    var u := s[i..j];
    var k := IndexOf(u, t).value;
    assert OccursAt(u, t, k);
    assert k + |t| <= |u| && u[k..k + |t|] == t;
    assert u[k..k + |t|] == s[i + k..i + k + |t|];
    assert OccursAt(s, t, i + k);
  }

  /** JavaScript `toLowerCase` restricted to ASCII letters. */
  function LowerChar(c: char): char {
    if 'A' <= c <= 'Z' then (c as int + 32) as char else c
  }

  /** `s.toLowerCase()` for ASCII letters; every other character is kept. */
  function ToLower(s: string): (r: string)
    ensures |r| == |s|
  {
    if s == [] then [] else [LowerChar(s[0])] + ToLower(s[1..])
  }

  /** Each character of the lower-cased string is the lower case of the character at
      its place. */
  lemma {:induction false} ToLowerAt(s: string, k: nat)
    requires k < |s|
    ensures ToLower(s)[k] == LowerChar(s[k])
  {
    if k > 0 {
      ToLowerAt(s[1..], k - 1);
    }
  }

  /** A string none of whose characters starts `t` does not contain `t`. */
  lemma AbsentWithoutHead(u: string, t: string)
    requires t != [] && forall k :: 0 <= k < |u| ==> u[k] != t[0]
    ensures !Contains(u, t)
  {
    assert forall k: nat :: k < |u| && OccursAt(u, t, k) ==> u[k..k + |t|][0] == u[k];
  }

  /** What does not occur in a string does not occur in its trim. */
  lemma TrimKeepsAbsence(x: string, t: string)
    requires !Contains(x, t)
    ensures !Contains(Trim(x), t)
  {
    var r := Trim(x);
    var i := |x| - |TrimStart(x)|;
    assert i + |r| <= |x| && r == x[i..i + |r|];
    if Contains(r, t) {
      ContainsInfix(x, i, i + |r|, t);
    }
  }

  /** `s.replace(pat, '')` with a string pattern: removes the first occurrence only. */
  function RemoveFirst(s: string, pat: string): (r: string)
    ensures IndexOf(s, pat).None? ==> r == s
    ensures IndexOf(s, pat).Some? ==>
      var i := IndexOf(s, pat).value; r == s[..i] + s[i + |pat|..]
  {
    match IndexOf(s, pat)
    case None => s
    case Some(i) => s[..i] + s[i + |pat|..]
  }

  /** `s.replace(/pat/g, '')`: removes non-overlapping occurrences from left to right. */
  function RemoveAll(s: string, pat: string): (r: string)
    requires pat != []
    ensures |r| <= |s|
    decreases |s|
  {
    if s == [] then []
    else if pat <= s then RemoveAll(s[|pat|..], pat)
    else [s[0]] + RemoveAll(s[1..], pat)
  }

  /** Removing every `"**"` leaves no `"**"` behind. */
  lemma {:induction false} RemoveAllStarsLeavesNone(s: string)
    ensures !Contains(RemoveAll(s, "**"), "**")
    decreases |s|
  {
    var r := RemoveAll(s, "**");
    if s == [] {
    } else if "**" <= s {
      RemoveAllStarsLeavesNone(s[2..]);
    } else {
      var rest := RemoveAll(s[1..], "**");
      RemoveAllStarsLeavesNone(s[1..]);
      assert r == [s[0]] + rest && r[1..] == rest;
    }
  }

  /** The index of the first `c` in `s`. */
  function CharIndex(s: string, c: char): (i: nat)
    requires c in s
    ensures i < |s| && s[i] == c && c !in s[..i]
  {
    if s[0] == c then 0 else 1 + CharIndex(s[1..], c)
  }

  /** `s.split(sep)` with a one-character separator. */
  function Split(s: string, sep: char): (parts: seq<string>)
    ensures |parts| >= 1
    ensures forall k :: 0 <= k < |parts| ==> sep !in parts[k]
    decreases |s|
  {
    if sep in s then
      var i := CharIndex(s, sep);
      [s[..i]] + Split(s[i + 1..], sep)
    else
      [s]
  }

  /** `parts.join(sep)` */
  function Join(parts: seq<string>, sep: string): string {
    if parts == [] then ""
    else if |parts| == 1 then parts[0]
    else parts[0] + sep + Join(parts[1..], sep)
  }

  /** Splitting on a character and joining with it gives the string back. */
  lemma {:induction false} JoinSplit(s: string, sep: char)
    ensures Join(Split(s, sep), [sep]) == s
    decreases |s|
  {
    if sep in s {
      var i := CharIndex(s, sep);
      var rest := s[i + 1..];
      var p := Split(rest, sep);
      JoinSplit(rest, sep);
      assert Split(s, sep) == [s[..i]] + p;
      assert ([s[..i]] + p)[0] == s[..i] && ([s[..i]] + p)[1..] == p;
      assert Join([s[..i]] + p, [sep]) == s[..i] + [sep] + Join(p, [sep]);
      assert s == s[..i] + [sep] + rest;
    }
  }

  predicate IsDigit(c: char) {
    '0' <= c <= '9'
  }

  predicate AllDigits(s: string) {
    forall k :: 0 <= k < |s| ==> IsDigit(s[k])
  }

  function DigitChar(d: nat): (c: char)
    requires d < 10
    ensures IsDigit(c)
  {
    (d + '0' as int) as char
  }

  function DigitValue(c: char): (d: nat)
    requires IsDigit(c)
    ensures d < 10 && DigitChar(d) == c
  {
    c as int - '0' as int
  }

  /** `parseInt(s, 10)` of a string made only of digits. */
  function DigitsValue(s: string): nat
    requires AllDigits(s)
  {
    if s == [] then 0 else 10 * DigitsValue(s[..|s| - 1]) + DigitValue(s[|s| - 1])
  }

  /** `String(n)` for a non-negative integer: its decimal digits, with no leading zero. */
  function NatToString(n: nat): (r: string)
    ensures |r| >= 1 && AllDigits(r)
    ensures |r| > 1 ==> r[0] != '0'
    ensures DigitsValue(r) == n
  {
    if n < 10 then [DigitChar(n)]
    else
      var r := NatToString(n / 10) + [DigitChar(n % 10)];
      assert r[..|r| - 1] == NatToString(n / 10);
      r
  }

  /** `String(n)` for an integer. */
  function IntToString(n: int): string {
    if n < 0 then "-" + NatToString(-n) else NatToString(n)
  }

  /** `s.padStart(width, fill)` for a one-character fill. */
  function PadStart(s: string, width: nat, fill: char): (r: string)
    ensures |r| == if |s| >= width then |s| else width
    ensures r[|r| - |s|..] == s
    ensures forall k :: 0 <= k < |r| - |s| ==> r[k] == fill
    decreases width - |s|
  {
    if |s| >= width then s else PadStart([fill] + s, width, fill)
  }

  /** The value of a two-digit string. */
  lemma TwoDigitsValue(g: string)
    requires |g| == 2 && AllDigits(g)
    ensures DigitsValue(g) == 10 * DigitValue(g[0]) + DigitValue(g[1])
  {
    assert g[..|g| - 1] == g[..1] == [g[0]];
    assert g[..1][..0] == [];
    assert DigitsValue(g[..1]) == DigitValue(g[0]);
  }

  /** Division by ten splits a two-digit value into its digits. */
  lemma SplitTens(a: nat, b: nat)
    requires a < 10 && b < 10
    ensures (10 * a + b) / 10 == a && (10 * a + b) % 10 == b
  {
  }

  /** `String(parseInt(g, 10)).padStart(2, '0')` gives a two-digit string back unchanged. */
  lemma TwoDigitsRoundTrip(g: string)
    requires |g| == 2 && AllDigits(g)
    ensures PadStart(NatToString(DigitsValue(g)), 2, '0') == g
  {
    var a, b := DigitValue(g[0]), DigitValue(g[1]);
    TwoDigitsValue(g);
    var v := DigitsValue(g);
    if a == 0 {
      assert v == b;
      var n := NatToString(v);
      assert n == [g[1]];
      assert PadStart(n, 2, '0') == PadStart(['0', g[1]], 2, '0');
      assert g == ['0', g[1]];
    } else {
      SplitTens(a, b);
      assert v >= 10 && v / 10 == a && v % 10 == b;
      var n := NatToString(v);
      assert n == NatToString(a) + [DigitChar(b)];
      assert NatToString(a) == [g[0]];
      assert n == [g[0], g[1]];
      assert g == [g[0], g[1]];
    }
  }

  /** SQLite's BINARY ordering of text: the first differing character decides,
      and a proper prefix comes first. */
  predicate LexLess(a: string, b: string) {
    if a == [] then b != []
    else if b == [] then false
    else if a[0] != b[0] then a[0] < b[0]
    else LexLess(a[1..], b[1..])
  }

  lemma {:induction false} LexLessIrreflexive(a: string)
    ensures !LexLess(a, a)
  {
    if a != [] {
      LexLessIrreflexive(a[1..]);
    }
  }

  lemma {:induction false} LexLessTransitive(a: string, b: string, c: string)
    requires LexLess(a, b) && LexLess(b, c)
    ensures LexLess(a, c)
  {
    if a != [] && b != [] && c != [] && a[0] == b[0] && b[0] == c[0] {
      LexLessTransitive(a[1..], b[1..], c[1..]);
    }
  }

  lemma {:induction false} LexLessTotal(a: string, b: string)
    ensures a == b || LexLess(a, b) || LexLess(b, a)
  {
    if a != [] && b != [] && a[0] == b[0] {
      LexLessTotal(a[1..], b[1..]);
      if a[1..] == b[1..] {
        assert a == [a[0]] + a[1..] && b == [b[0]] + b[1..];
      }
    }
  }
}
