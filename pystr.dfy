/** Python's `str` built-ins that the parsers and renderers rely on, with
    Python's own semantics: `sub in s`, `find`, `rfind`, `strip`, `lstrip`
    with and without a character set, slicing with negative bounds,
    `split` on one separator and `join`. */
module PyStr {

  /** The characters for which Python's `str.isspace()` holds: bidirectional
      class WS, B or S, or general category Zs. `strip()` without an argument
      removes exactly these. */
  const Whitespace: set<char> := {
    '\t', '\n', '\U{0b}', '\U{0c}', '\r', '\U{1c}', '\U{1d}', '\U{1e}', '\U{1f}', ' ',
    '\U{85}', '\U{a0}', '\U{1680}',
    '\U{2000}', '\U{2001}', '\U{2002}', '\U{2003}', '\U{2004}', '\U{2005}',
    '\U{2006}', '\U{2007}', '\U{2008}', '\U{2009}', '\U{200a}',
    '\U{2028}', '\U{2029}', '\U{202f}', '\U{205f}', '\U{3000}'
  }

  predicate IsSpace(c: char) {
    c in Whitespace
  }

  predicate AllIn(s: string, chars: set<char>) {
    forall k :: 0 <= k < |s| ==> s[k] in chars
  }

  /** How many characters at the start of `s` belong to `chars`. */
  function LeadCount(s: string, chars: set<char>): (n: nat)
    ensures n <= |s|
    ensures forall k :: 0 <= k < n ==> s[k] in chars
    ensures n == |s| || s[n] !in chars
  {
    if |s| > 0 && s[0] in chars then 1 + LeadCount(s[1..], chars) else 0
  }

  /** Where the run of `chars` that ends `s` begins, not looking below `lo`. */
  function TrailStart(s: string, chars: set<char>, lo: nat): (b: nat)
    requires lo <= |s|
    decreases |s|
    ensures lo <= b <= |s|
    ensures forall k :: b <= k < |s| ==> s[k] in chars
    ensures b == lo || s[b - 1] !in chars
  {
    if |s| > lo && s[|s| - 1] in chars then TrailStart(s[..|s| - 1], chars, lo) else |s|
  }

  /** The two counts are determined by their contracts. */
  lemma {:induction false} LeadCountUnique(s: string, chars: set<char>, n: nat)
    requires n <= |s| && (forall k :: 0 <= k < n ==> s[k] in chars) && (n == |s| || s[n] !in chars)
    ensures LeadCount(s, chars) == n
  {
    if n > 0 {
      assert s[0] in chars;
      forall k | 0 <= k < n - 1 ensures s[1..][k] in chars {
        assert s[1..][k] == s[k + 1];
      }
      assert n - 1 == |s[1..]| || s[1..][n - 1] == s[n];
      LeadCountUnique(s[1..], chars, n - 1);
    }
  }

  lemma {:induction false} TrailStartUnique(s: string, chars: set<char>, lo: nat, b: nat)
    requires lo <= b <= |s|
    requires (forall k :: b <= k < |s| ==> s[k] in chars) && (b == lo || s[b - 1] !in chars)
    decreases |s|
    ensures TrailStart(s, chars, lo) == b
  {
    if b < |s| {
      var t := s[..|s| - 1];
      assert s[|s| - 1] in chars;
      forall k | b <= k < |t| ensures t[k] in chars {
        assert t[k] == s[k];
      }
      assert b == lo || t[b - 1] == s[b - 1];
      TrailStartUnique(t, chars, lo, b);
    }
  }

  /** `s.lstrip(chars)`: the characters of `chars` removed from the start. */
  function LStripChars(s: string, chars: set<char>): (r: string)
    ensures |r| <= |s|
    ensures r == [] || r[0] !in chars
    ensures r == s[|s| - |r|..] && AllIn(s[..|s| - |r|], chars)
  {
    s[LeadCount(s, chars)..]
  }

  /** `s.strip()`: whitespace removed at both ends. */
  function Strip(s: string): (r: string)
    ensures |r| <= |s|
    ensures r == [] || (!IsSpace(r[0]) && !IsSpace(r[|r| - 1]))
  {
    var a := LeadCount(s, Whitespace);
    s[a..TrailStart(s, Whitespace, a)]
  }

  /** What `strip()` keeps is a contiguous part of its input, and everything
      it drops on either side is whitespace. */
  lemma StripKeepsMiddle(s: string)
    ensures exists a, b | 0 <= a <= b <= |s| ::
              s[a..b] == Strip(s) && AllIn(s[..a], Whitespace) && AllIn(s[b..], Whitespace)
  {
    var a := LeadCount(s, Whitespace);
    var b := TrailStart(s, Whitespace, a);
    assert AllIn(s[..a], Whitespace);
    assert AllIn(s[b..], Whitespace);
  }

  /** Whitespace padding around a text that has none at its ends is exactly
      what `strip()` removes. */
  lemma {:induction false} StripPadded(lead: string, t: string, trail: string)
    requires AllIn(lead, Whitespace) && AllIn(trail, Whitespace)
    requires t == [] || (!IsSpace(t[0]) && !IsSpace(t[|t| - 1]))
    ensures Strip(lead + t + trail) == t
  {
    var s := lead + t + trail;
    forall k | 0 <= k < |lead| ensures s[k] in Whitespace {
      assert s[k] == lead[k];
    }
    forall k | |lead| + |t| <= k < |s| ensures s[k] in Whitespace {
      assert s[k] == trail[k - |lead| - |t|];
    }
    if t == [] {
      LeadCountUnique(s, Whitespace, |s|);
      TrailStartUnique(s, Whitespace, |s|, |s|);
      assert s[|s|..|s|] == t;
    } else {
      assert s[|lead|] == t[0];
      assert s[|lead| + |t| - 1] == t[|t| - 1];
      LeadCountUnique(s, Whitespace, |lead|);
      TrailStartUnique(s, Whitespace, |lead|, |lead| + |t|);
      assert s[|lead|..|lead| + |t|] == t;
    }
  }

  /** A text that starts with whitespace loses at least that character. */
  lemma StripShortensSpaced(s: string)
    requires |s| >= 1 && IsSpace(s[0])
    ensures |Strip(s)| < |s|
  {
    assert LeadCount(s, Whitespace) >= 1;
  }

  /** A text that starts with a non-space character keeps it. */
  lemma StripKeepsNonSpaceHead(s: string)
    requires |s| >= 1 && !IsSpace(s[0])
    ensures Strip(s) != [] && Strip(s)[0] == s[0]
  {
    assert LeadCount(s, Whitespace) == 0;
    assert TrailStart(s, Whitespace, 0) > 0;
  }

  /** `strip()` is idempotent. */
  lemma StripIdempotent(s: string)
    ensures Strip(Strip(s)) == Strip(s)
  {
    StripPadded([], Strip(s), []);
    assert [] + Strip(s) + [] == Strip(s);
  }

  /** `sub` occurs in `s` at index `i`. */
  predicate OccursAt(s: string, sub: string, i: int) {
    0 <= i && i + |sub| <= |s| && s[i..i + |sub|] == sub
  }

  /** Python's `sub in s`. */
  predicate Contains(s: string, sub: string) {
    exists i | 0 <= i <= |s| - |sub| :: OccursAt(s, sub, i)
  }

  /** `s.find(sub, start)`: the least occurrence at or after `start`, or -1. */
  function Find(s: string, sub: string, start: nat): (r: int)
    decreases |s| - start
    ensures r == -1 || (start <= r && OccursAt(s, sub, r))
    ensures forall j :: start <= j && (r == -1 || j < r) ==> !OccursAt(s, sub, j)
  {
    if start + |sub| > |s| then -1
    else if s[start..start + |sub|] == sub then start
    else Find(s, sub, start + 1)
  }

  /** `s.rfind(sub)`: the greatest occurrence, or -1. */
  function RFind(s: string, sub: string): (r: int)
    ensures r == -1 || OccursAt(s, sub, r)
    ensures forall j :: r < j ==> !OccursAt(s, sub, j)
  {
    RFindAtOrBelow(s, sub, |s| - |sub|)
  }

  function RFindAtOrBelow(s: string, sub: string, k: int): (r: int)
    requires k <= |s| - |sub|
    decreases k + 1
    ensures r == -1 || (r <= k && OccursAt(s, sub, r))
    ensures forall j :: r < j <= k ==> !OccursAt(s, sub, j)
  {
    if k < 0 then -1
    else if s[k..k + |sub|] == sub then k
    else RFindAtOrBelow(s, sub, k - 1)
  }

  lemma FindFromStartIffContains(s: string, sub: string)
    ensures Find(s, sub, 0) >= 0 <==> Contains(s, sub)
  {
    if Find(s, sub, 0) >= 0 {
      assert OccursAt(s, sub, Find(s, sub, 0));
    }
  }

  /** Python's normalisation of one slice bound against a length `n`:
      negative bounds count from the end, then the bound is clipped. */
  function SliceBound(i: int, n: nat): (k: nat)
    ensures k <= n
    ensures 0 <= i <= n ==> k == i
    ensures i < 0 && 0 <= n + i ==> k == n + i
  {
    if i < 0 then (if i + n < 0 then 0 else i + n) else if i > n then n else i
  }

  /** `s[i:j]`. */
  function Slice(s: string, i: int, j: int): (r: string)
    ensures 0 <= i <= j <= |s| ==> r == s[i..j]
    ensures 0 <= i <= |s| + j && j < 0 ==> r == s[i..|s| + j]
    ensures 0 <= i && |s| + j < i ==> r == []
    ensures 0 <= j < i ==> r == []
  {
    var a, b := SliceBound(i, |s|), SliceBound(j, |s|);
    if a <= b then s[a..b] else []
  }

  /** `s.split(sep)` for a one-character separator: every separator cuts,
      empty pieces are kept, and `"".split(sep)` is `[""]`. */
  function Split(s: string, sep: char): (parts: seq<string>)
    ensures |parts| >= 1
    ensures forall k :: 0 <= k < |parts| ==> sep !in parts[k]
  {
    if s == [] then [[]]
    else if s[0] == sep then [[]] + Split(s[1..], sep)
    else
      var rest := Split(s[1..], sep);
      [[s[0]] + rest[0]] + rest[1..]
  }

  /** `sep.join(parts)`. */
  function Join(parts: seq<string>, sep: char): string {
    if parts == [] then []
    else if |parts| == 1 then parts[0]
    else parts[0] + [sep] + Join(parts[1..], sep)
  }

  /** Joining the pieces of a split gives back the original text. */
  lemma {:induction false} JoinSplit(s: string, sep: char)
    ensures Join(Split(s, sep), sep) == s
  {
    if s == [] {
    } else if s[0] == sep {
      JoinSplit(s[1..], sep);
      assert s == [sep] + s[1..];
    } else {
      var rest := Split(s[1..], sep);
      JoinSplit(s[1..], sep);
      if |rest| == 1 {
        assert s == [s[0]] + rest[0];
      } else {
        var parts := [[s[0]] + rest[0]] + rest[1..];
        assert parts[1..] == rest[1..];
        assert Join(rest, sep) == rest[0] + [sep] + Join(rest[1..], sep);
        assert s == [s[0]] + s[1..];
      }
    }
  }

  /** A separator-free prefix extends the first piece of a split. */
  lemma {:induction false} SplitSepFreePrefix(a: string, t: string, sep: char)
    requires sep !in a
    ensures Split(a + t, sep) == [a + Split(t, sep)[0]] + Split(t, sep)[1..]
  {
    if a != [] {
      assert (a + t)[0] == a[0];
      assert (a + t)[1..] == a[1..] + t;
      SplitSepFreePrefix(a[1..], t, sep);
      assert [a[0]] + (a[1..] + Split(t, sep)[0]) == a + Split(t, sep)[0];
    } else {
      var p := Split(t, sep);
      assert a + t == t && a + p[0] == p[0];
      assert p == [p[0]] + p[1..];
    }
  }

  /** Splitting a join of separator-free pieces gives back the pieces. */
  lemma {:induction false} SplitJoin(parts: seq<string>, sep: char)
    requires |parts| >= 1
    requires forall k :: 0 <= k < |parts| ==> sep !in parts[k]
    ensures Split(Join(parts, sep), sep) == parts
  {
    if |parts| == 1 {
      SplitSepFreePrefix(parts[0], [], sep);
      assert parts[0] + [] == parts[0];
    } else {
      var tail := [sep] + Join(parts[1..], sep);
      assert Join(parts, sep) == parts[0] + tail;
      SplitSepFreePrefix(parts[0], tail, sep);
      SplitJoin(parts[1..], sep);
      assert tail[1..] == Join(parts[1..], sep);
      assert Split(tail, sep) == [[]] + parts[1..];
      assert parts[0] + [] == parts[0];
      assert parts == [parts[0]] + parts[1..];
    }
  }
}
