/** Pulling a JSON payload out of a model's free-form reply. Two variants
    exist in the code: the backend's `OutlineParser._extract_json`
    (`ExtractJson`: strip first, then a json fence, any fence, a brace span,
    or the whole text) and the one written inline in the slidegen OpenAI and
    LM Studio clients (`ExtractFenced`: fences only, searched in the reply as
    it came, otherwise the stripped reply). Both use the same fence step,
    `FencedBody`. */
module Extraction {
  import opened PyStr

  const JsonFence: string := "```json"
  const Fence: string := "```"

  /** The fence step: start right after the first occurrence of `opener`,
      end at the next "```" at or after that point, strip. With no closing
      fence `find` returns -1, and the slice `content[start:-1]` stops one
      character before the end. */
  function FencedBody(content: string, opener: string): string
    requires Contains(content, opener)
  {
    FindFromStartIffContains(content, opener);
    var start := Find(content, opener, 0) + |opener|;
    var end := Find(content, Fence, start);
    Strip(Slice(content, start, end))
  }

  /** `OutlineParser._extract_json` (backend). */
  function ExtractJson(content: string): string {
    var c := Strip(content);
    if Contains(c, JsonFence) then FencedBody(c, JsonFence)
    else if Contains(c, Fence) then FencedBody(c, Fence)
    else BraceSpanOrWhole(c)
  }

  /** The last two branches of `_extract_json`, on the trimmed reply `c`:
      from the first "{" through the last "}" when that span is not empty,
      otherwise `c` itself. */
  function BraceSpanOrWhole(c: string): string {
    var start := Find(c, "{", 0);
    var end := RFind(c, "}") + 1;
    if start >= 0 && end > start then Slice(c, start, end) else c
  }

  /** The extraction written inline in the slidegen OpenAI and LM Studio
      clients: the fences are searched in the unstripped reply, and there is
      no brace fallback. */
  function ExtractFenced(content: string): string {
    if Contains(content, JsonFence) then FencedBody(content, JsonFence)
    else if Contains(content, Fence) then FencedBody(content, Fence)
    else Strip(content)
  }

  // ----- helpers about occurrences -----

  /** `k` is the first occurrence of `sub` at or after `from`. */
  predicate FirstAtOrAfter(s: string, sub: string, from: nat, k: nat) {
    from <= k && OccursAt(s, sub, k) && forall j :: from <= j < k ==> !OccursAt(s, sub, j)
  }

  /** No occurrence of `sub` at or after `from`. */
  ghost predicate NoneAtOrAfter(s: string, sub: string, from: nat) {
    forall j :: from <= j ==> !OccursAt(s, sub, j)
  }

  lemma FindIsFirst(s: string, sub: string, from: nat, k: nat)
    requires FirstAtOrAfter(s, sub, from, k)
    ensures Find(s, sub, from) == k
  {
  }

  lemma FindIsNone(s: string, sub: string, from: nat)
    requires NoneAtOrAfter(s, sub, from)
    ensures Find(s, sub, from) == -1
  {
  }

  lemma OccursAtChar(s: string, c: char, j: int)
    ensures OccursAt(s, [c], j) <==> 0 <= j < |s| && s[j] == c
  {
    if 0 <= j < |s| {
      assert s[j..j + 1] == [s[j]];
    }
  }

  /** A fence starts with a backtick. */
  lemma FenceStartsWithTick(s: string, sub: string, j: int)
    requires sub == Fence || sub == JsonFence
    requires 0 <= j < |s| && s[j] != '`'
    ensures !OccursAt(s, sub, j)
  {
  }

  lemma JsonFenceIsFence(s: string, k: int)
    requires OccursAt(s, JsonFence, k)
    ensures OccursAt(s, Fence, k)
  {
    assert s[k..k + 3] == s[k..k + 7][..3];
  }

  lemma ContainsJsonFenceContainsFence(s: string)
    requires Contains(s, JsonFence)
    ensures Contains(s, Fence)
  {
    var k :| 0 <= k <= |s| - |JsonFence| && OccursAt(s, JsonFence, k);
    JsonFenceIsFence(s, k);
  }

  // ----- the fence step -----

  /** With a closing fence, the payload is the stripped text strictly
      between the opener and the next fence. */
  lemma {:induction false} FencedBodyClosed(content: string, opener: string, k: nat, e: nat)
    requires FirstAtOrAfter(content, opener, 0, k)
    requires FirstAtOrAfter(content, Fence, k + |opener|, e)
    ensures Contains(content, opener)
    ensures FencedBody(content, opener) == Strip(content[k + |opener|..e])
  {
    assert k <= |content| - |opener| && OccursAt(content, opener, k);
    FindIsFirst(content, opener, 0, k);
    var start := Find(content, opener, 0) + |opener|;
    assert start == k + |opener|;
    FindIsFirst(content, Fence, start, e);
    var end := Find(content, Fence, start);
    assert FencedBody(content, opener) == Strip(Slice(content, start, end));
    assert Slice(content, start, end) == content[k + |opener|..e];
  }

  /** Without a closing fence, the slice ends one character before the end. */
  lemma {:induction false} FencedBodyUnclosed(content: string, opener: string, k: nat)
    requires FirstAtOrAfter(content, opener, 0, k)
    requires NoneAtOrAfter(content, Fence, k + |opener|)
    ensures Contains(content, opener)
    ensures FencedBody(content, opener) ==
              if k + |opener| < |content| then Strip(content[k + |opener|..|content| - 1]) else ""
  {
    assert k <= |content| - |opener| && OccursAt(content, opener, k);
    FindIsFirst(content, opener, 0, k);
    var start := Find(content, opener, 0) + |opener|;
    assert start == k + |opener|;
    FindIsNone(content, Fence, start);
    var end := Find(content, Fence, start);
    assert FencedBody(content, opener) == Strip(Slice(content, start, end));
    assert end == -1;
    if start < |content| {
      assert Slice(content, start, end) == content[start..|content| - 1];
    } else {
      assert Slice(content, start, end) == [];
    }
  }

  // ----- ExtractJson, branch by branch -----

  /** A json fence in the trimmed reply wins over every other branch: the
      payload is the stripped text from 7 characters past its first
      occurrence up to the next fence. */
  lemma {:induction false} JsonFenceWins(content: string, k: nat, e: nat)
    requires FirstAtOrAfter(Strip(content), JsonFence, 0, k)
    requires FirstAtOrAfter(Strip(content), Fence, k + 7, e)
    ensures ExtractJson(content) == Strip(Strip(content)[k + 7..e])
  {
    FencedBodyClosed(Strip(content), JsonFence, k, e);
  }

  /** A json fence that is never closed: the last character of the trimmed
      reply is lost. */
  lemma {:induction false} JsonFenceUnclosed(content: string, k: nat)
    requires FirstAtOrAfter(Strip(content), JsonFence, 0, k)
    requires NoneAtOrAfter(Strip(content), Fence, k + 7)
    ensures var c := Strip(content);
            ExtractJson(content) == if k + 7 < |c| then Strip(c[k + 7..|c| - 1]) else ""
  {
    FencedBodyUnclosed(Strip(content), JsonFence, k);
  }

  /** No json fence but a plain one: the stripped text between the first
      fence's end and the next fence. */
  lemma {:induction false} PlainFenceBranch(content: string, k: nat, e: nat)
    requires !Contains(Strip(content), JsonFence)
    requires FirstAtOrAfter(Strip(content), Fence, 0, k)
    requires FirstAtOrAfter(Strip(content), Fence, k + 3, e)
    ensures ExtractJson(content) == Strip(Strip(content)[k + 3..e])
  {
    FencedBodyClosed(Strip(content), Fence, k, e);
  }

  /** A plain fence that is never closed. */
  lemma {:induction false} PlainFenceUnclosed(content: string, k: nat)
    requires !Contains(Strip(content), JsonFence)
    requires FirstAtOrAfter(Strip(content), Fence, 0, k)
    requires NoneAtOrAfter(Strip(content), Fence, k + 3)
    ensures var c := Strip(content);
            ExtractJson(content) == if k + 3 < |c| then Strip(c[k + 3..|c| - 1]) else ""
  {
    FencedBodyUnclosed(Strip(content), Fence, k);
  }

  /** No fence: the span from the first "{" through the last "}", exactly as
      it stands in the trimmed reply (not stripped again). */
  lemma {:induction false} BraceSpan(content: string, a: nat, b: nat)
    requires var c := Strip(content);
      && !Contains(c, Fence)
      && a < b < |c| && c[a] == '{' && c[b] == '}'
      && (forall j :: 0 <= j < a ==> c[j] != '{')
      && (forall j :: b < j < |c| ==> c[j] != '}')
    ensures ExtractJson(content) == Strip(content)[a..b + 1]
  {
    var c := Strip(content);
    NoFenceTail(content);
    forall j | 0 <= j < a ensures !OccursAt(c, "{", j) {
      OccursAtChar(c, '{', j);
    }
    OccursAtChar(c, '{', a);
    FindIsFirst(c, "{", 0, a);
    OccursAtChar(c, '}', b);
    forall j | b < j ensures !OccursAt(c, "}", j) {
      OccursAtChar(c, '}', j);
    }
    assert RFind(c, "}") == b;
    assert BraceSpanOrWhole(c) == Slice(c, a, b + 1);
  }

  /** Without any fence the trimmed reply goes to the brace step. */
  lemma NoFenceTail(content: string)
    requires !Contains(Strip(content), Fence)
    ensures ExtractJson(content) == BraceSpanOrWhole(Strip(content))
  {
    if Contains(Strip(content), JsonFence) {
      ContainsJsonFenceContainsFence(Strip(content));
    }
  }

  /** No fence, and no "{" with a "}" after it: the trimmed reply itself. */
  lemma {:induction false} NothingFound(content: string)
    requires var c := Strip(content);
      && !Contains(c, Fence)
      && forall a, b :: 0 <= a < b < |c| && c[a] == '{' ==> c[b] != '}'
    ensures ExtractJson(content) == Strip(content)
  {
    var c := Strip(content);
    NoFenceTail(content);
    var start := Find(c, "{", 0);
    var last := RFind(c, "}");
    if start >= 0 && last + 1 > start {
      OccursAtChar(c, '{', start);
      OccursAtChar(c, '}', last);
      assert false;
    }
  }

  // ----- wrapping idempotence -----

  /** A payload that is a bare JSON object without backticks. */
  predicate BareObject(p: string) {
    |p| >= 2 && p[0] == '{' && p[|p| - 1] == '}' && '`' !in p
  }

  lemma {:induction false} BareObjectUnpadded(p: string)
    requires BareObject(p)
    ensures Strip(p) == p
    ensures Strip("\n" + p + "\n") == p
  {
    StripPadded([], p, []);
    assert [] + p + [] == p;
    StripPadded("\n", p, "\n");
  }

  lemma {:induction false} NoFenceInBare(s: string, from: nat, to: nat, sub: string)
    requires sub == Fence || sub == JsonFence
    requires from <= to <= |s|
    requires forall j :: from <= j < to ==> s[j] != '`'
    ensures forall j :: from <= j < to ==> !OccursAt(s, sub, j)
  {
    forall j | from <= j < to ensures !OccursAt(s, sub, j) {
      FenceStartsWithTick(s, sub, j);
    }
  }

  /** Extracting from a json-fenced payload, from a plainly fenced payload
      and from the bare payload gives the same text. */
  lemma {:induction false} WrappingIdempotent(p: string)
    requires BareObject(p)
    ensures ExtractJson(JsonFence + ("\n" + p + "\n") + Fence) == p
    ensures ExtractJson(Fence + ("\n" + p + "\n") + Fence) == p
    ensures ExtractJson(p) == p
  {
    BareObjectUnpadded(p);
    JsonFencedIdempotent(p);
    PlainFencedIdempotent(p);
    BareIdempotent(p);
  }

  /** The positions of a three-part concatenation. */
  lemma Pieces(x: string, y: string, z: string)
    ensures |x + y + z| == |x| + |y| + |z|
    ensures (x + y + z)[..|x|] == x
    ensures (x + y + z)[|x|..|x| + |y|] == y
    ensures (x + y + z)[|x| + |y|..] == z
    ensures forall j :: |x| <= j < |x| + |y| ==> (x + y + z)[j] == y[j - |x|]
  {
  }

  /** A text that starts and ends with a backtick is left alone by
      `strip()`. */
  lemma TickedUnstripped(w: string)
    requires |w| >= 1 && w[0] == '`' && w[|w| - 1] == '`'
    ensures Strip(w) == w
  {
    StripPadded([], w, []);
    assert [] + w + [] == w;
  }

  /** `opener`, a text `y` without backticks and a closing fence: the first
      fence at or after the opener's end is the closing one. */
  lemma {:induction false} WrappedScan(opener: string, y: string)
    requires opener == JsonFence || opener == Fence
    requires '`' !in y
    ensures var w := opener + y + Fence;
            && OccursAt(w, opener, 0)
            && FirstAtOrAfter(w, Fence, |opener|, |opener| + |y|)
            && w[|opener|..|opener| + |y|] == y
            && w[0] == '`' && w[|w| - 1] == '`'
  {
    var w := opener + y + Fence;
    Pieces(opener, y, Fence);
    forall j | |opener| <= j < |opener| + |y| ensures !OccursAt(w, Fence, j) {
      assert w[j] == y[j - |opener|];
      assert y[j - |opener|] in y;
      FenceStartsWithTick(w, Fence, j);
    }
    assert OccursAt(w, Fence, |opener| + |y|);
  }

  lemma NoTickAround(p: string)
    requires '`' !in p
    ensures '`' !in "\n" + p + "\n"
  {
  }

  lemma {:induction false} JsonFencedIdempotent(p: string)
    requires BareObject(p)
    ensures ExtractJson(JsonFence + ("\n" + p + "\n") + Fence) == p
  {
    var y := "\n" + p + "\n";
    NoTickAround(p);
    var w := JsonFence + y + Fence;
    WrappedScan(JsonFence, y);
    TickedUnstripped(w);
    BareObjectUnpadded(p);
    JsonFencedPayload(w, y, p);
  }

  /** The json-fence branch on a reply already known to be trimmed, to open
      with a json fence and to close right after `y`. */
  lemma {:induction false} JsonFencedPayload(w: string, y: string, p: string)
    requires Strip(w) == w
    requires OccursAt(w, JsonFence, 0)
    requires FirstAtOrAfter(w, Fence, 7, 7 + |y|)
    requires w[7..7 + |y|] == y && Strip(y) == p
    ensures ExtractJson(w) == p
  {
    assert FirstAtOrAfter(w, JsonFence, 0, 0);
    JsonFenceWinsTrimmed(w, 0, 7 + |y|);
  }

  /** `JsonFenceWins` for a reply that is already trimmed. */
  lemma {:induction false} JsonFenceWinsTrimmed(w: string, k: nat, e: nat)
    requires Strip(w) == w
    requires FirstAtOrAfter(w, JsonFence, 0, k)
    requires FirstAtOrAfter(w, Fence, k + 7, e)
    ensures ExtractJson(w) == Strip(w[k + 7..e])
  {
    JsonFenceWins(w, k, e);
  }

  /** The same for a reply that opens with a plain fence and holds no json
      fence. */
  lemma {:induction false} PlainFencedPayload(w: string, y: string, p: string)
    requires Strip(w) == w && !Contains(w, JsonFence)
    requires OccursAt(w, Fence, 0)
    requires FirstAtOrAfter(w, Fence, 3, 3 + |y|)
    requires w[3..3 + |y|] == y && Strip(y) == p
    ensures ExtractJson(w) == p
  {
    assert FirstAtOrAfter(w, Fence, 0, 0);
    PlainFenceBranchTrimmed(w, 0, 3 + |y|);
  }

  /** `PlainFenceBranch` for a reply that is already trimmed. */
  lemma {:induction false} PlainFenceBranchTrimmed(w: string, k: nat, e: nat)
    requires Strip(w) == w && !Contains(w, JsonFence)
    requires FirstAtOrAfter(w, Fence, 0, k)
    requires FirstAtOrAfter(w, Fence, k + 3, e)
    ensures ExtractJson(w) == Strip(w[k + 3..e])
  {
    PlainFenceBranch(w, k, e);
  }

  lemma {:induction false} PlainFencedIdempotent(p: string)
    requires BareObject(p)
    ensures ExtractJson(Fence + ("\n" + p + "\n") + Fence) == p
  {
    var y := "\n" + p + "\n";
    NoTickAround(p);
    var w := Fence + y + Fence;
    WrappedScan(Fence, y);
    TickedUnstripped(w);
    NoJsonFenceAfterPlain(y);
    BareObjectUnpadded(p);
    PlainFencedPayload(w, y, p);
  }

  /** A plain fence followed by a newline and no further backtick until a
      closing plain fence holds no json fence. */
  lemma {:induction false} NoJsonFenceAfterPlain(y: string)
    requires '`' !in y && |y| >= 1 && y[0] == '\n'
    ensures !Contains(Fence + y + Fence, JsonFence)
  {
    var w := Fence + y + Fence;
    Pieces(Fence, y, Fence);
    forall j | 0 <= j <= |w| - |JsonFence| ensures !OccursAt(w, JsonFence, j) {
      if j >= 3 {
        assert w[j] == y[j - 3];
        assert y[j - 3] in y;
        FenceStartsWithTick(w, JsonFence, j);
      } else {
        assert w[3] == '\n';
        assert w[j..j + 7][3 - j] == w[3];
      }
    }
  }

  lemma {:induction false} BareIdempotent(p: string)
    requires BareObject(p)
    ensures ExtractJson(p) == p
  {
    BareObjectUnpadded(p);
    forall j | 0 <= j < |p| ensures p[j] != '`' {
      assert p[j] in p;
    }
    NoFenceInBare(p, 0, |p|, Fence);
    assert !Contains(p, Fence);
    BraceSpan(p, 0, |p| - 1);
    assert p[0..|p|] == p;
  }

  // ----- ExtractFenced, branch by branch -----

  /** In the slidegen clients a json fence in the reply as it came wins. */
  lemma {:induction false} FencedJsonWins(content: string, k: nat, e: nat)
    requires FirstAtOrAfter(content, JsonFence, 0, k)
    requires FirstAtOrAfter(content, Fence, k + 7, e)
    ensures ExtractFenced(content) == Strip(content[k + 7..e])
  {
    FencedBodyClosed(content, JsonFence, k, e);
  }

  /** An unclosed json fence: the reply's own last character is dropped
      before stripping. */
  lemma {:induction false} FencedJsonUnclosed(content: string, k: nat)
    requires FirstAtOrAfter(content, JsonFence, 0, k)
    requires NoneAtOrAfter(content, Fence, k + 7)
    ensures ExtractFenced(content) == if k + 7 < |content| then Strip(content[k + 7..|content| - 1]) else ""
  {
    FencedBodyUnclosed(content, JsonFence, k);
  }

  /** A plain fence when there is no json fence. */
  lemma {:induction false} FencedPlainBranch(content: string, k: nat, e: nat)
    requires !Contains(content, JsonFence)
    requires FirstAtOrAfter(content, Fence, 0, k)
    requires FirstAtOrAfter(content, Fence, k + 3, e)
    ensures ExtractFenced(content) == Strip(content[k + 3..e])
  {
    FencedBodyClosed(content, Fence, k, e);
  }

  lemma {:induction false} FencedPlainUnclosed(content: string, k: nat)
    requires !Contains(content, JsonFence)
    requires FirstAtOrAfter(content, Fence, 0, k)
    requires NoneAtOrAfter(content, Fence, k + 3)
    ensures ExtractFenced(content) == if k + 3 < |content| then Strip(content[k + 3..|content| - 1]) else ""
  {
    FencedBodyUnclosed(content, Fence, k);
  }

  /** Without a fence the slidegen clients take the stripped reply, with no
      brace scanning. */
  lemma FencedNoFence(content: string)
    requires !Contains(content, Fence)
    ensures ExtractFenced(content) == Strip(content)
  {
    if Contains(content, JsonFence) {
      ContainsJsonFenceContainsFence(content);
    }
  }

  /** The wrapping idempotence holds for the slidegen variant too. */
  lemma {:induction false} FencedWrappingIdempotent(p: string)
    requires BareObject(p)
    ensures ExtractFenced(JsonFence + ("\n" + p + "\n") + Fence) == p
    ensures ExtractFenced(Fence + ("\n" + p + "\n") + Fence) == p
    ensures ExtractFenced(p) == p
  {
    NoTickAround(p);
    BareObjectUnpadded(p);
    InlineJsonFencedIdempotent("\n" + p + "\n", p);
    NoJsonFenceAfterPlain("\n" + p + "\n");
    InlinePlainFencedIdempotent("\n" + p + "\n", p);
    forall j | 0 <= j < |p| ensures p[j] != '`' {
      assert p[j] in p;
    }
    NoFenceInBare(p, 0, |p|, Fence);
    FencedNoFence(p);
  }

  lemma {:induction false} InlineJsonFencedIdempotent(y: string, p: string)
    requires '`' !in y && Strip(y) == p
    ensures ExtractFenced(JsonFence + y + Fence) == p
  {
    WrappedScan(JsonFence, y);
    assert FirstAtOrAfter(JsonFence + y + Fence, JsonFence, 0, 0);
    FencedJsonWins(JsonFence + y + Fence, 0, 7 + |y|);
  }

  lemma {:induction false} InlinePlainFencedIdempotent(y: string, p: string)
    requires '`' !in y && Strip(y) == p && !Contains(Fence + y + Fence, JsonFence)
    ensures ExtractFenced(Fence + y + Fence) == p
  {
    WrappedScan(Fence, y);
    assert FirstAtOrAfter(Fence + y + Fence, Fence, 0, 0);
    FencedPlainBranch(Fence + y + Fence, 0, 3 + |y|);
  }

  // ----- where the two variants part -----

  /** Prose around a brace span, already trimmed and without backticks: the
      slidegen clients pass the whole text on, the backend cuts out the
      span. */
  lemma {:induction false} ProseAroundBraces(c: string, a: nat, b: nat)
    requires Strip(c) == c && '`' !in c
    requires 0 < a < b < |c| && c[a] == '{' && c[b] == '}'
    requires forall j :: 0 <= j < a ==> c[j] != '{'
    requires forall j :: b < j < |c| ==> c[j] != '}'
    ensures ExtractFenced(c) == c
    ensures ExtractJson(c) == c[a..b + 1] != c
  {
    forall j | 0 <= j < |c| ensures c[j] != '`' {
      assert c[j] in c;
    }
    NoFenceInBare(c, 0, |c|, Fence);
    FencedNoFence(c);
    BraceSpan(c, a, b);
  }

  /** A json fence that is never closed but followed by a final newline: the
      slidegen clients slice the reply before stripping and lose only the
      newline, the backend strips first and loses the payload's last
      character. */
  lemma {:induction false} UnclosedAfterNewline(p: string)
    requires BareObject(p)
    ensures ExtractFenced(JsonFence + ("\n" + p) + "\n") == p
    ensures |ExtractJson(JsonFence + ("\n" + p) + "\n")| < |p|
  {
    UnclosedNewlineSlidegen(p);
    UnclosedNewlineBackend(p);
  }

  lemma {:induction false} UnclosedNewlineSlidegen(p: string)
    requires BareObject(p)
    ensures ExtractFenced(JsonFence + ("\n" + p) + "\n") == p
  {
    NewlineBeforeBare(p);
    UnclosedSlidegen("\n" + p, p);
  }

  lemma {:induction false} UnclosedNewlineBackend(p: string)
    requires BareObject(p)
    ensures |ExtractJson(JsonFence + ("\n" + p) + "\n")| < |p|
  {
    NewlineBeforeBare(p);
    UnclosedBackend("\n" + p);
  }

  /** A bare object after a newline: no backtick, one character longer, and
      stripping removes just the newline. */
  lemma NewlineBeforeBare(p: string)
    requires BareObject(p)
    ensures var x := "\n" + p;
            && '`' !in x && |x| == |p| + 1 && x[0] == '\n' && !IsSpace(x[|x| - 1]) && Strip(x) == p
  {
    var x := "\n" + p;
    assert x[|x| - 1] == p[|p| - 1];
    StripPadded("\n", p, []);
    assert "\n" + p + [] == x;
  }

  /** An opening json fence, then `x` without backticks, then a newline. */
  lemma {:induction false} UnclosedSlidegen(x: string, p: string)
    requires '`' !in x && Strip(x) == p
    ensures ExtractFenced(JsonFence + x + "\n") == p
  {
    var c := JsonFence + x;
    var w := c + "\n";
    forall j | 7 <= j < |w| ensures w[j] != '`' {
      if j < |c| {
        assert w[j] == c[j] == x[j - 7];
        assert x[j - 7] in x;
      } else {
        assert w[j] == '\n';
      }
    }
    NoFenceInBare(w, 7, |w|, Fence);
    assert OccursAt(w, JsonFence, 0);
    assert FirstAtOrAfter(w, JsonFence, 0, 0);
    FencedJsonUnclosed(w, 0);
    assert w[7..|w| - 1] == x;
  }

  lemma {:induction false} UnclosedBackend(x: string)
    requires '`' !in x && |x| >= 2 && x[0] == '\n' && !IsSpace(x[|x| - 1])
    ensures |ExtractJson(JsonFence + x + "\n")| < |x| - 1
  {
    var c := JsonFence + x;
    StripPadded([], c, "\n");
    assert [] + c + "\n" == c + "\n";
    UnclosedTrimmed(c + "\n", x);
  }

  /** The backend's view of a reply that trims to an unclosed json fence
      followed by `x`. */
  lemma {:induction false} UnclosedTrimmed(w: string, x: string)
    requires Strip(w) == JsonFence + x
    requires '`' !in x && |x| >= 2 && x[0] == '\n'
    ensures |ExtractJson(w)| < |x| - 1
  {
    var s := Strip(w);
    UnclosedJsonScan(s, x);
    JsonFenceUnclosed(w, 0);
    StripShortensSpaced(s[7..|s| - 1]);
  }

  /** The scan of an opening json fence followed by `x` without backticks:
      the fence is at 0, nothing closes it, and what the slice keeps starts
      with `x`'s first character. */
  lemma {:induction false} UnclosedJsonScan(s: string, x: string)
    requires s == JsonFence + x
    requires '`' !in x && |x| >= 2 && x[0] == '\n'
    ensures FirstAtOrAfter(s, JsonFence, 0, 0) && NoneAtOrAfter(s, Fence, 7)
    ensures 7 < |s| && |s[7..|s| - 1]| == |x| - 1 && IsSpace(s[7..|s| - 1][0])
  {
    forall j | 7 <= j < |s| ensures s[j] != '`' {
      assert s[j] == x[j - 7];
      assert x[j - 7] in x;
    }
    NoFenceInBare(s, 7, |s|, Fence);
    assert OccursAt(s, JsonFence, 0);
    assert s[7..|s| - 1][0] == x[0];
  }

}
