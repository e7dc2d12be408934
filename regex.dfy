/**
 * The fragment of JavaScript regular expressions the scrapers use, with the language's
 * backtracking semantics: quantifiers try their counts greedily (or lazily, for `*?`),
 * alternatives are tried left to right, and `match`, `split` and `replace(/…/g)` take
 * the first match in that priority order at the leftmost position.
 */
module Regex {
  import opened Options
  import opened Text

  /** The character classes the patterns use. */
  datatype Class =
    | Digit           // \d
    | Space           // \s
    | NotLineEnd      // .
    | AsciiLetter     // [A-Za-z]
    | Exactly(c: char)
    | Folded(c: char) // a literal under the `i` flag (the patterns' literals are ASCII)

  predicate InClass(k: Class, c: char) {
    match k
    case Digit => '0' <= c <= '9'
    case Space => IsSpace(c)
    case NotLineEnd => !IsLineTerminator(c)
    case AsciiLetter => 'A' <= c <= 'Z' || 'a' <= c <= 'z'
    case Exactly(d) => c == d
    case Folded(d) => LowerChar(c) == LowerChar(d)
  }

  /** One element of a pattern; a pattern is a sequence of them, read left to right. */
  datatype Node =
    | Rep(k: Class, min: nat, max: Option<nat>, greedy: bool) // k{min,max}; max None is unbounded
    | Alt(left: seq<Node>, right: seq<Node>)                  // (?:left|right)
    | Open(group: nat)                                        // start of capture group
    | Close(group: nat)                                       // end of capture group
    | AheadLineEnd                                            // (?=\n|$)

  /** Capture groups that have been closed or opened, as index ranges of the subject. */
  type Captures = map<nat, (nat, nat)>

  datatype Match = Match(start: nat, end: nat, groups: Captures)

  function One(k: Class): Node { Rep(k, 1, Some(1), true) }

  /** `\s*` */
  function Spaces(): Node { Rep(Space, 0, None, true) }

  function Lit(t: string, fold: bool): seq<Node> {
    seq(|t|, i requires 0 <= i < |t| => One(if fold then Folded(t[i]) else Exactly(t[i])))
  }

  function Size(n: Node): nat {
    match n
    case Alt(l, r) => 1 + SizeAll(l) + SizeAll(r)
    case _ => 1
  }

  function SizeAll(rs: seq<Node>): nat {
    if rs == [] then 0 else Size(rs[0]) + SizeAll(rs[1..])
  }

  lemma {:induction false} SizeAllAppend(a: seq<Node>, b: seq<Node>)
    ensures SizeAll(a + b) == SizeAll(a) + SizeAll(b)
  {
    if a == [] {
      assert a + b == b;
    } else {
      assert (a + b)[0] == a[0];
      assert (a + b)[1..] == a[1..] + b;
      SizeAllAppend(a[1..], b);
    }
  }

  predicate CapsWithin(caps: Captures, i: nat) {
    forall g :: g in caps ==> caps[g].0 <= caps[g].1 <= i
  }

  /** How many characters of class `k` follow position `i`, at most `max`. */
  function Run(k: Class, s: string, i: nat, max: Option<nat>): (n: nat)
    requires i <= |s|
    ensures i + n <= |s|
    ensures max.Some? ==> n <= max.value
    ensures forall j :: i <= j < i + n ==> InClass(k, s[j])
    ensures i + n < |s| && (max.None? || n < max.value) ==> !InClass(k, s[i + n])
    decreases |s| - i
  {
    if i == |s| || max == Some(0) || !InClass(k, s[i]) then 0
    else 1 + Run(k, s, i + 1, if max.Some? then Some(max.value - 1) else None)
  }

  /** The end position and captures of the first way, in priority order, in which the
      pattern `rs` matches `s` starting exactly at `i`. */
  function MatchAt(rs: seq<Node>, s: string, i: nat, caps: Captures): (r: Option<(nat, Captures)>)
    requires i <= |s| && CapsWithin(caps, i)
    ensures r.Some? ==> i <= r.value.0 <= |s| && CapsWithin(r.value.1, r.value.0)
    decreases SizeAll(rs), 0, 0
  {
    if rs == [] then Some((i, caps))
    else
      var rest := rs[1..];
      assert SizeAll(rs) == Size(rs[0]) + SizeAll(rest);
      match rs[0]
      case Rep(k, min, max, greedy) =>
        var avail := Run(k, s, i, max);
        if avail < min then None
        else if greedy then Greedy(rest, s, i, min, avail, caps)
        else Lazy(rest, s, i, min, avail, caps)
      case Alt(l, r) =>
        SizeAllAppend(l, rest);
        SizeAllAppend(r, rest);
        var first := MatchAt(l + rest, s, i, caps);
        if first.Some? then first else MatchAt(r + rest, s, i, caps)
      case Open(g) => MatchAt(rest, s, i, caps[g := (i, i)])
      case Close(g) => MatchAt(rest, s, i, caps[g := (if g in caps then caps[g].0 else i, i)])
      case AheadLineEnd =>
        if i == |s| || s[i] == '\n' then MatchAt(rest, s, i, caps) else None
  }

  /** A greedy quantifier: the counts `c`, `c - 1`, …, `min` in turn. */
  function Greedy(rest: seq<Node>, s: string, i: nat, min: nat, c: nat, caps: Captures): (r: Option<(nat, Captures)>)
    requires i + c <= |s| && CapsWithin(caps, i)
    ensures r.Some? ==> i <= r.value.0 <= |s| && CapsWithin(r.value.1, r.value.0)
    decreases SizeAll(rest), 1, c
  {
    match MatchAt(rest, s, i + c, caps)
    case Some(r) => Some(r)
    case None => if c <= min then None else Greedy(rest, s, i, min, c - 1, caps)
  }

  /** A lazy quantifier: the counts `c`, `c + 1`, …, `avail` in turn. */
  function Lazy(rest: seq<Node>, s: string, i: nat, c: nat, avail: nat, caps: Captures): (r: Option<(nat, Captures)>)
    requires i + avail <= |s| && CapsWithin(caps, i)
    ensures r.Some? ==> i <= r.value.0 <= |s| && CapsWithin(r.value.1, r.value.0)
    decreases SizeAll(rest), 1, avail - c
  {
    if c > avail then None
    else match MatchAt(rest, s, i + c, caps)
      case Some(r) => Some(r)
      case None => Lazy(rest, s, i, c + 1, avail, caps)
  }

  /** Group `g` is opened at the top level of the pattern, outside every alternative. */
  predicate Opens(rs: seq<Node>, g: nat) {
    exists j :: 0 <= j < |rs| && rs[j] == Open(g)
  }

  /** A match keeps the captures it started with and records every group the pattern opens
      at its top level. */
  lemma {:induction false} MatchKeepsGroups(rs: seq<Node>, s: string, i: nat, caps: Captures)
    requires i <= |s| && CapsWithin(caps, i) && MatchAt(rs, s, i, caps).Some?
    ensures caps.Keys <= MatchAt(rs, s, i, caps).value.1.Keys
    ensures forall g :: Opens(rs, g) ==> g in MatchAt(rs, s, i, caps).value.1
    decreases SizeAll(rs), 0, 0
  {
    if rs != [] {
      var rest := rs[1..];
      assert SizeAll(rs) == Size(rs[0]) + SizeAll(rest);
      OpensTail(rs);
      match rs[0]
      case Rep(k, min, max, greedy) =>
        var avail := Run(k, s, i, max);
        if greedy {
          GreedyKeepsGroups(rest, s, i, min, avail, caps);
        } else {
          LazyKeepsGroups(rest, s, i, min, avail, caps);
        }
      case Alt(l, r) =>
        SizeAllAppend(l, rest);
        SizeAllAppend(r, rest);
        OpensAfter(l, rest);
        OpensAfter(r, rest);
        if MatchAt(l + rest, s, i, caps).Some? {
          MatchKeepsGroups(l + rest, s, i, caps);
        } else {
          MatchKeepsGroups(r + rest, s, i, caps);
        }
      case Open(g) =>
        MatchKeepsGroups(rest, s, i, caps[g := (i, i)]);
      case Close(g) =>
        MatchKeepsGroups(rest, s, i, caps[g := (if g in caps then caps[g].0 else i, i)]);
      case AheadLineEnd =>
        MatchKeepsGroups(rest, s, i, caps);
    }
  }

  /** A group opened in a pattern is opened by its first node or by the rest. */
  lemma OpensTail(rs: seq<Node>)
    requires rs != []
    ensures forall g :: Opens(rs, g) && rs[0] != Open(g) ==> Opens(rs[1..], g)
  {
    forall g | Opens(rs, g) && rs[0] != Open(g)
      ensures Opens(rs[1..], g)
    {
      var j :| 0 <= j < |rs| && rs[j] == Open(g);
      assert rs[1..][j - 1] == rs[j];
    }
  }

  /** A group opened in `rest` is opened in anything followed by `rest`. */
  lemma OpensAfter(l: seq<Node>, rest: seq<Node>)
    ensures forall g :: Opens(rest, g) ==> Opens(l + rest, g)
  {
    forall g | Opens(rest, g)
      ensures Opens(l + rest, g)
    {
      var j :| 0 <= j < |rest| && rest[j] == Open(g);
      assert (l + rest)[|l| + j] == Open(g);
    }
  }

  lemma {:induction false} GreedyKeepsGroups(rest: seq<Node>, s: string, i: nat, min: nat, c: nat, caps: Captures)
    requires i + c <= |s| && CapsWithin(caps, i) && Greedy(rest, s, i, min, c, caps).Some?
    ensures caps.Keys <= Greedy(rest, s, i, min, c, caps).value.1.Keys
    ensures forall g :: Opens(rest, g) ==> g in Greedy(rest, s, i, min, c, caps).value.1
    decreases SizeAll(rest), 1, c
  {
    if MatchAt(rest, s, i + c, caps).Some? {
      MatchKeepsGroups(rest, s, i + c, caps);
    } else {
      GreedyKeepsGroups(rest, s, i, min, c - 1, caps);
    }
  }

  lemma {:induction false} LazyKeepsGroups(rest: seq<Node>, s: string, i: nat, c: nat, avail: nat, caps: Captures)
    requires i + avail <= |s| && CapsWithin(caps, i) && Lazy(rest, s, i, c, avail, caps).Some?
    ensures caps.Keys <= Lazy(rest, s, i, c, avail, caps).value.1.Keys
    ensures forall g :: Opens(rest, g) ==> g in Lazy(rest, s, i, c, avail, caps).value.1
    decreases SizeAll(rest), 1, avail - c
  {
    if MatchAt(rest, s, i + c, caps).Some? {
      MatchKeepsGroups(rest, s, i + c, caps);
    } else {
      LazyKeepsGroups(rest, s, i, c + 1, avail, caps);
    }
  }

  /** A found match records every group its pattern opens at the top level. */
  lemma SearchHasGroups(re: seq<Node>, s: string, g: nat)
    requires Search(re, s).Some? && Opens(re, g)
    ensures g in Search(re, s).value.groups
  {
    var m := Search(re, s).value;
    MatchKeepsGroups(re, s, m.start, map[]);
  }

  /** Every way the pattern can begin is with at least one character of class `k`: a
      greedy repetition of `k` at least once, possibly behind group openings and inside
      every branch of an alternative. */
  predicate LeadsWith(rs: seq<Node>, k: Class)
    decreases SizeAll(rs)
  {
    rs != [] &&
    assert SizeAll(rs) == Size(rs[0]) + SizeAll(rs[1..]);
    match rs[0]
    case Rep(c, min, _, greedy) => c == k && min >= 1 && greedy
    case Open(_) => LeadsWith(rs[1..], k)
    case Alt(l, r) => LeadsWith(l, k) && LeadsWith(r, k)
    case _ => false
  }

  lemma {:induction false} LeadsWithAppend(l: seq<Node>, rest: seq<Node>, k: Class)
    requires LeadsWith(l, k)
    ensures LeadsWith(l + rest, k)
    decreases SizeAll(l)
  {
    assert SizeAll(l) == Size(l[0]) + SizeAll(l[1..]);
    assert (l + rest)[0] == l[0] && (l + rest)[1..] == l[1..] + rest;
    if l[0].Open? {
      LeadsWithAppend(l[1..], rest, k);
    }
  }

  /** A pattern that leads with class `k` matches only where such a character stands, and
      the match runs past it. */
  lemma {:induction false} LeadingClassMatches(rs: seq<Node>, k: Class, s: string, i: nat, caps: Captures)
    requires LeadsWith(rs, k) && i <= |s| && CapsWithin(caps, i) && MatchAt(rs, s, i, caps).Some?
    ensures i < |s| && InClass(k, s[i]) && MatchAt(rs, s, i, caps).value.0 > i
    decreases SizeAll(rs)
  {
    var rest := rs[1..];
    assert SizeAll(rs) == Size(rs[0]) + SizeAll(rest);
    match rs[0]
    case Rep(c, min, max, greedy) =>
      var avail := Run(k, s, i, max);
      GreedyAdvances(rest, s, i, min, avail, caps);
    case Open(g) =>
      LeadingClassMatches(rest, k, s, i, caps[g := (i, i)]);
    case Alt(l, r) =>
      SizeAllAppend(l, rest);
      SizeAllAppend(r, rest);
      LeadsWithAppend(l, rest, k);
      LeadsWithAppend(r, rest, k);
      if MatchAt(l + rest, s, i, caps).Some? {
        LeadingClassMatches(l + rest, k, s, i, caps);
      } else {
        LeadingClassMatches(r + rest, k, s, i, caps);
      }
  }

  lemma {:induction false} GreedyAdvances(rest: seq<Node>, s: string, i: nat, min: nat, c: nat, caps: Captures)
    requires i + c <= |s| && CapsWithin(caps, i) && min <= c && Greedy(rest, s, i, min, c, caps).Some?
    ensures Greedy(rest, s, i, min, c, caps).value.0 >= i + min
    decreases c
  {
    if MatchAt(rest, s, i + c, caps).None? {
      GreedyAdvances(rest, s, i, min, c - 1, caps);
    }
  }

  /** `s.match(re)` without the `g` flag, searching from `from`: the leftmost match. */
  function SearchFrom(re: seq<Node>, s: string, from: nat): (r: Option<Match>)
    requires from <= |s|
    ensures r.Some? ==> from <= r.value.start <= r.value.end <= |s| && CapsWithin(r.value.groups, r.value.end)
    ensures r.Some? ==> MatchAt(re, s, r.value.start, map[]) == Some((r.value.end, r.value.groups))
    ensures r.Some? ==> forall j :: from <= j < r.value.start ==> MatchAt(re, s, j, map[]).None?
    ensures r.None? ==> forall j :: from <= j <= |s| ==> MatchAt(re, s, j, map[]).None?
    decreases |s| - from
  {
    match MatchAt(re, s, from, map[])
    case Some((e, caps)) => Some(Match(from, e, caps))
    case None => if from == |s| then None else SearchFrom(re, s, from + 1)
  }

  function Search(re: seq<Node>, s: string): Option<Match> {
    SearchFrom(re, s, 0)
  }

  predicate Matches(re: seq<Node>, s: string) {
    Search(re, s).Some?
  }

  /** `m[0]`: the matched text. */
  function Matched(s: string, m: Match): string
    requires m.start <= m.end <= |s|
  {
    s[m.start..m.end]
  }

  /** `m[g]`: the text of capture group `g`, `None` when the group did not take part. */
  function Group(s: string, m: Match, g: nat): Option<string>
    requires m.end <= |s| && CapsWithin(m.groups, m.end)
  {
    if g in m.groups then Some(s[m.groups[g].0..m.groups[g].1]) else None
  }

  /** `s.split(re)` for a pattern without capture groups. */
  function SplitBy(s: string, re: seq<Node>): seq<string> {
    if |s| == 0 then (if MatchAt(re, s, 0, map[]).Some? then [] else [""])
    else SplitLoop(s, re, 0, 0)
  }

  /** The splitting loop: `p` is where the current piece began, `q` the position tried. */
  function SplitLoop(s: string, re: seq<Node>, p: nat, q: nat): (parts: seq<string>)
    requires p <= q <= |s|
    ensures |parts| >= 1
    decreases |s| - q, q - p
  {
    if q == |s| then [s[p..]]
    else match MatchAt(re, s, q, map[])
      case None => SplitLoop(s, re, p, q + 1)
      case Some((e, _)) =>
        if e == p then SplitLoop(s, re, p, q + 1)
        else [s[p..q]] + SplitLoop(s, re, e, e)
  }

  /** `s.replace(re_g, repl)`: every match, found left to right, replaced by `repl`. */
  function ReplaceMatches(s: string, re: seq<Node>, repl: string): string {
    ReplaceMatchesFrom(s, re, repl, 0, 0)
  }

  /** `pos` is where unreplaced text resumes, `from` the search position (an empty match
      moves the search one place on). */
  function ReplaceMatchesFrom(s: string, re: seq<Node>, repl: string, pos: nat, from: nat): string
    requires pos <= from <= |s| + 1 && pos <= |s|
    decreases |s| + 1 - from
  {
    if from > |s| then s[pos..]
    else match SearchFrom(re, s, from)
      case None => s[pos..]
      case Some(m) =>
        s[pos..m.start] + repl + ReplaceMatchesFrom(s, re, repl, m.end, if m.end == m.start then m.end + 1 else m.end)
  }

  /** `s.replace(re_g, '')` */
  function RemoveMatches(s: string, re: seq<Node>): string {
    ReplaceMatches(s, re, "")
  }

  /** Where the pattern matches nowhere, replacing leaves the text as it is. */
  lemma NoMatchNoReplace(s: string, re: seq<Node>, repl: string)
    requires forall j :: 0 <= j <= |s| ==> MatchAt(re, s, j, map[]).None?
    ensures ReplaceMatches(s, re, repl) == s
  {
    assert SearchFrom(re, s, 0).None?;
  }

  /** Where the pattern matches nowhere, splitting gives the text as the only piece. */
  lemma NoMatchNoSplit(s: string, re: seq<Node>)
    requires forall j :: 0 <= j <= |s| ==> MatchAt(re, s, j, map[]).None?
    ensures SplitBy(s, re) == [s]
  {
    if |s| > 0 {
      SplitLoopNoMatch(s, re, 0);
    }
  }

  lemma {:induction false} SplitLoopNoMatch(s: string, re: seq<Node>, q: nat)
    requires q <= |s|
    requires forall j :: 0 <= j <= |s| ==> MatchAt(re, s, j, map[]).None?
    ensures SplitLoop(s, re, 0, q) == [s]
    decreases |s| - q
  {
    if q < |s| {
      SplitLoopNoMatch(s, re, q + 1);
    }
  }

  /** Positions where the separator does not match are passed over by the splitting
      loop without starting a new piece. */
  lemma {:induction false} SplitLoopSkip(s: string, re: seq<Node>, p: nat, q: nat, q2: nat)
    requires p <= q <= q2 <= |s|
    requires forall j :: q <= j < q2 ==> MatchAt(re, s, j, map[]).None?
    ensures SplitLoop(s, re, p, q) == SplitLoop(s, re, p, q2)
    decreases q2 - q
  {
    if q < q2 {
      SplitLoopSkip(s, re, p, q + 1, q2);
    }
  }

  /** A match at `q` that ends after the piece's start closes the piece at `q` and starts
      the next one where the match ends. */
  lemma SplitLoopCut(s: string, re: seq<Node>, p: nat, q: nat)
    requires p <= q < |s| && MatchAt(re, s, q, map[]).Some? && MatchAt(re, s, q, map[]).value.0 != p
    ensures var e := MatchAt(re, s, q, map[]).value.0;
      e <= |s| && SplitLoop(s, re, p, q) == [s[p..q]] + SplitLoop(s, re, e, e)
  {
  }

  /** The loop ends with the rest of the text as the last piece. */
  lemma SplitLoopEnd(s: string, re: seq<Node>, p: nat)
    requires p <= |s|
    ensures SplitLoop(s, re, p, |s|) == [s[p..]]
  {
  }

  /** Every match of the pattern has to take a character of class `k`: the pattern leads
      with `k`, possibly behind greedy repetitions. */
  predicate Needs(rs: seq<Node>, k: Class) {
    LeadsWith(rs, k) || (rs != [] && rs[0].Rep? && rs[0].greedy && Needs(rs[1..], k))
  }

  /** A pattern that needs class `k` matches only before a character of that class. */
  lemma {:induction false} NeedsMatch(rs: seq<Node>, k: Class, s: string, i: nat, caps: Captures)
    requires Needs(rs, k) && i <= |s| && CapsWithin(caps, i) && MatchAt(rs, s, i, caps).Some?
    ensures exists j :: i <= j < |s| && InClass(k, s[j])
  {
    if LeadsWith(rs, k) {
      LeadingClassMatches(rs, k, s, i, caps);
    } else {
      var rest := rs[1..];
      var avail := Run(rs[0].k, s, i, rs[0].max);
      var c := GreedyFindsRest(rest, s, i, rs[0].min, avail, caps);
      NeedsMatch(rest, k, s, i + c, caps);
    }
  }

  /** A greedy quantifier succeeds only where, for some count, the rest matches. */
  lemma {:induction false} GreedyFindsRest(rest: seq<Node>, s: string, i: nat, min: nat, c: nat, caps: Captures)
    returns (n: nat)
    requires i + c <= |s| && CapsWithin(caps, i) && Greedy(rest, s, i, min, c, caps).Some?
    ensures n <= c && CapsWithin(caps, i + n) && MatchAt(rest, s, i + n, caps).Some?
    decreases c
  {
    if MatchAt(rest, s, i + c, caps).Some? {
      n := c;
    } else {
      n := GreedyFindsRest(rest, s, i, min, c - 1, caps);
    }
  }

  /** A pattern that needs class `k` does not match in a text without such a character. */
  lemma NeedsAbsent(re: seq<Node>, k: Class, s: string)
    requires Needs(re, k) && forall j :: 0 <= j < |s| ==> !InClass(k, s[j])
    ensures forall j :: 0 <= j <= |s| ==> MatchAt(re, s, j, map[]).None?
  {
    forall j | 0 <= j <= |s| ensures MatchAt(re, s, j, map[]).None? {
      if MatchAt(re, s, j, map[]).Some? {
        NeedsMatch(re, k, s, j, map[]);
      }
    }
  }

  /** A text without a character the separator needs is not split. */
  lemma NeedsNoSplit(s: string, re: seq<Node>, k: Class)
    requires Needs(re, k) && forall j :: 0 <= j < |s| ==> !InClass(k, s[j])
    ensures SplitBy(s, re) == [s]
  {
    NeedsAbsent(re, k, s);
    NoMatchNoSplit(s, re);
  }

  /** A text without a character the pattern needs is left as it is by a replacement. */
  lemma NeedsNoReplace(s: string, re: seq<Node>, k: Class, repl: string)
    requires Needs(re, k) && forall j :: 0 <= j < |s| ==> !InClass(k, s[j])
    ensures ReplaceMatches(s, re, repl) == s
  {
    NeedsAbsent(re, k, s);
    NoMatchNoReplace(s, re, repl);
  }
}
