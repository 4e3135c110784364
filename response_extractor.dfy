/** Recovering a plain translation from a raw model completion
    (`extractFromCodeBlock`): code fences and a single inline code span are
    stripped, then the text is trimmed, when the `filterCodeBlock` setting is on.

    The three regular expressions of the source are written out as the
    deterministic scans a backtracking matcher performs on them:
    - the whole-response pattern  ^[\s\S]*?```[\w]*\r?\n?([\s\S]*?)```[\s\S]*$
      is `WholeBlock`;
    - the global multi-line opening-fence pattern  ^```[\w]*\r?\n?  is
      `StripOpeningFences`;
    - the global multi-line closing-fence pattern  \r?\n?```$  is
      `StripClosingFences`;
    - the inline pattern  ^`([^`]+)`$  is `IsInlineSpan` / `UnwrapInline`. */
module ResponseExtractor {
  import opened Common

  /** `[\w]` in a JavaScript regular expression without the `u` flag. */
  predicate IsWordChar(c: char) {
    ('A' <= c <= 'Z') || ('a' <= c <= 'z') || ('0' <= c <= '9') || c == '_'
  }

  /** Three backticks start at index `i` of `s`. */
  predicate FenceAt(s: string, i: int) {
    0 <= i && i + 3 <= |s| && s[i] == '`' && s[i + 1] == '`' && s[i + 2] == '`'
  }

  /** No fence starts at or after index `i`. */
  ghost predicate NoFenceFrom(s: string, i: int) {
    forall j :: i <= j ==> !FenceAt(s, j)
  }

  ghost predicate ContainsFence(s: string) {
    exists k :: FenceAt(s, k)
  }

  /** `s` holds a fence and, entirely after it, a second one. */
  ghost predicate HasTwoFences(s: string) {
    exists i, j :: FenceAt(s, i) && FenceAt(s, j) && i + 3 <= j
  }

  /** The first fence starting at or after `from`. */
  function FindFence(s: string, from: nat): (r: Option<nat>)
    ensures r.Some? ==> from <= r.value && FenceAt(s, r.value)
    ensures r.Some? ==> forall j :: from <= j < r.value ==> !FenceAt(s, j)
    ensures r.None? <==> NoFenceFrom(s, from)
    decreases |s| - from
  {
    if from + 3 > |s| then None
    else if FenceAt(s, from) then Some(from)
    else FindFence(s, from + 1)
  }

  /** The end of the maximal run of word characters starting at `i`. */
  function WordEnd(s: string, i: nat): (j: nat)
    requires i <= |s|
    ensures i <= j <= |s|
    ensures forall k :: i <= k < j ==> IsWordChar(s[k])
    ensures j == |s| || !IsWordChar(s[j])
    decreases |s| - i
  {
    if i < |s| && IsWordChar(s[i]) then WordEnd(s, i + 1) else i
  }

  /** `\r?\n?` matched greedily at `w` ends at `h`: one optional CR and then
      one optional LF, each taken whenever it is there. */
  predicate GreedyBreak(s: string, w: nat, h: nat) {
    w <= h <= |s| &&
    ( (h == w && (w == |s| || (s[w] != '\r' && s[w] != '\n')))
    || (h == w + 1 && s[w] == '\r' && (h == |s| || s[h] != '\n'))
    || (h == w + 1 && s[w] == '\n')
    || (h == w + 2 && s[w] == '\r' && s[w + 1] == '\n') )
  }

  /** Where the fence header ```[\w]*\r?\n? that starts at `p` ends: the
      fence, the maximal run of word characters after it (`WordEnd`), then
      one optional CR and one optional LF. None of the header's characters
      after the fence is a backtick. */
  function HeaderEnd(s: string, p: nat): (h: nat)
    requires FenceAt(s, p)
    ensures p + 3 <= WordEnd(s, p + 3) <= h <= |s|
    ensures GreedyBreak(s, WordEnd(s, p + 3), h)
    ensures forall k :: p + 3 <= k < h ==> s[k] != '`'
  {
    var w := WordEnd(s, p + 3);
    var a := if w < |s| && s[w] == '\r' then w + 1 else w;
    if a < |s| && s[a] == '\n' then a + 1 else a
  }

  /** The capture of the whole-response pattern, if it matches. The lazy
      prefix stops at the first fence; the header is consumed greedily; the
      lazy capture ends at the next fence. The match exists exactly when the
      text holds two non-overlapping fences; the capture runs from the end of
      the first fence's header up to the next fence, and holds no fence. */
  function WholeBlock(s: string): (r: Option<string>)
    ensures r.Some? <==> HasTwoFences(s)
    ensures r.Some? ==> !ContainsFence(r.value)
    ensures r.Some? ==>
      && FindFence(s, 0).Some?
      && var h := HeaderEnd(s, FindFence(s, 0).value);
      && h + |r.value| + 3 <= |s|
      && r.value == s[h..h + |r.value|]
      && FindFence(s, h) == Some(h + |r.value|)
  {
    match FindFence(s, 0)
    case None => None
    case Some(p) =>
      var h := HeaderEnd(s, p);
      match FindFence(s, h)
      case None =>
        NoSecondFence(s, p, h);
        None
      case Some(q) =>
        FenceFreeBetween(s, h, q);
        assert FenceAt(s, p) && FenceAt(s, q) && p + 3 <= q;
        Some(s[h..q])
  }

  /** When no fence follows the first fence's header, there are not two fences. */
  lemma NoSecondFence(s: string, p: nat, h: nat)
    requires FindFence(s, 0) == Some(p) && h == HeaderEnd(s, p)
    requires FindFence(s, h).None?
    ensures !HasTwoFences(s)
  {
    forall i, j | FenceAt(s, i) && i + 3 <= j ensures !FenceAt(s, j) {
      assert p <= i;
      if j < h { assert s[j] != '`'; }
    }
  }

  /** The text between a header and the next fence holds no fence. */
  lemma FenceFreeBetween(s: string, h: nat, q: nat)
    requires h <= |s| && FindFence(s, h) == Some(q)
    ensures h <= q && !ContainsFence(s[h..q])
  {
    var body := s[h..q];
    forall k | 0 <= k && k + 3 <= |body| ensures !FenceAt(body, k) {
      assert body[k] == s[h + k] && body[k + 1] == s[h + k + 1] && body[k + 2] == s[h + k + 2];
      assert !FenceAt(s, h + k);
    }
  }

  /** Index `i` is where a line starts, for a multi-line `^`. */
  predicate LineStart(s: string, i: int) {
    i == 0 || (0 < i <= |s| && IsLineTerminator(s[i - 1]))
  }

  /** Index `j` is where a line ends, for a multi-line `$`. */
  predicate LineEnd(s: string, j: int) {
    j == |s| || (0 <= j < |s| && IsLineTerminator(s[j]))
  }

  /** The global replace of ^```[\w]*\r?\n? (multi-line) by nothing, scanning
      from index `i` of the original text. */
  function StripOpenFrom(s: string, i: nat): (r: string)
    requires i <= |s|
    ensures (forall j :: i <= j && LineStart(s, j) ==> !FenceAt(s, j)) ==> r == s[i..]
    decreases |s| - i
  {
    if i >= |s| then []
    else if LineStart(s, i) && FenceAt(s, i) then StripOpenFrom(s, HeaderEnd(s, i))
    else [s[i]] + StripOpenFrom(s, i + 1)
  }

  function StripOpeningFences(s: string): string {
    StripOpenFrom(s, 0)
  }

  /** \r?\n?```$ (multi-line) matches at `i` with its fence at `b`: the text
      from `i` to `b` is empty, a CR, an LF or a CRLF, and the fence ends a
      line. */
  predicate ClosingAt(s: string, i: nat, b: nat) {
    && i <= b <= |s|
    && (|| b == i
        || (b == i + 1 && (s[i] == '\r' || s[i] == '\n'))
        || (b == i + 2 && s[i] == '\r' && s[i + 1] == '\n'))
    && FenceAt(s, b) && LineEnd(s, b + 3)
  }

  /** Where a match of \r?\n?```$ (multi-line) that starts at `i` ends. The
      optional CR and LF are taken greedily; giving either back cannot help,
      since a fence starts with a backtick. There is a match exactly when the
      pattern can match at `i`, and it ends a line. */
  function ClosingMatchEnd(s: string, i: nat): (e: Option<nat>)
    ensures e.Some? <==> exists b :: ClosingAt(s, i, b)
    ensures e.Some? ==> i + 3 <= e.value <= |s| && ClosingAt(s, i, e.value - 3) && LineEnd(s, e.value)
  {
    var a := if i < |s| && s[i] == '\r' then i + 1 else i;
    var b := if a < |s| && s[a] == '\n' then a + 1 else a;
    if FenceAt(s, b) && LineEnd(s, b + 3) then
      assert ClosingAt(s, i, b);
      Some(b + 3)
    else
      assert forall b' :: ClosingAt(s, i, b') ==> b' == b;
      None
  }

  /** The global replace of \r?\n?```$ (multi-line) by nothing, scanning from
      index `i`. */
  function StripCloseFrom(s: string, i: nat): (r: string)
    requires i <= |s|
    ensures NoFenceFrom(s, i) ==> r == s[i..]
    decreases |s| - i
  {
    if i >= |s| then []
    else match ClosingMatchEnd(s, i)
      case Some(e) => StripCloseFrom(s, e)
      case None => [s[i]] + StripCloseFrom(s, i + 1)
  }

  function StripClosingFences(s: string): string {
    StripCloseFrom(s, 0)
  }

  /** The whole string is one inline code span ^`([^`]+)`$. */
  predicate IsInlineSpan(s: string) {
    |s| >= 3 && s[0] == '`' && s[|s| - 1] == '`'
    && forall k :: 1 <= k < |s| - 1 ==> s[k] != '`'
  }

  /** Unwraps an inline code span and leaves anything else alone. */
  function UnwrapInline(s: string): (r: string)
    ensures IsInlineSpan(s) ==> "`" + r + "`" == s && r != [] && '`' !in r
    ensures !IsInlineSpan(s) ==> r == s
  {
    if IsInlineSpan(s) then s[1..|s| - 1] else s
  }

  /** `extractFromCodeBlock`: with the filter off the response comes back as
      given, untrimmed; with it on, the result never starts or ends with
      whitespace. */
  function Extract(text: string, filterCodeBlock: bool): (r: string)
    ensures !filterCodeBlock ==> r == text
    ensures filterCodeBlock ==> IsTrimmed(r)
  {
    if !filterCodeBlock then text
    else
      var stripped :=
        match WholeBlock(text)
        case Some(body) => body
        case None => StripClosingFences(StripOpeningFences(text));
      Trim(UnwrapInline(stripped))
  }

  // ---------------------------------------------------------------------
  // Properties of the filter

  /** Text without any fence passes both fence passes untouched: only the
      inline-span rule and the trim apply. */
  lemma ExtractWithoutFence(s: string)
    requires !ContainsFence(s)
    ensures Extract(s, true) == Trim(UnwrapInline(s))
  {
    assert NoFenceFrom(s, 0);
    assert WholeBlock(s).None?;
    assert StripOpeningFences(s) == s;
    assert StripClosingFences(s) == s;
  }

  /** Backtick-free text comes back trimmed and otherwise unchanged. */
  lemma ExtractBacktickFree(s: string)
    requires '`' !in s
    ensures Extract(s, true) == Trim(s)
  {
    BacktickFree(s);
    ExtractWithoutFence(s);
    assert !IsInlineSpan(s) by {
      if |s| >= 3 { assert s[0] in s; }
    }
  }

  /** Backtick-free text holds no fence and does not end with a backtick. */
  lemma BacktickFree(t: string)
    requires '`' !in t
    ensures !ContainsFence(t) && (t == [] || t[|t| - 1] != '`')
  {
    forall k | 0 <= k < |t| ensures t[k] != '`' {
      assert t[k] in t;
    }
  }

  /** The first fence at or after `from` is at `q` when `q` holds a fence and
      no fence starts between them. */
  lemma {:induction false} FindFenceIs(s: string, from: nat, q: nat)
    requires from <= q && FenceAt(s, q)
    requires forall j :: from <= j < q ==> !FenceAt(s, j)
    ensures FindFence(s, from) == Some(q)
    decreases q - from
  {
    if from < q {
      assert !FenceAt(s, from);
      FindFenceIs(s, from + 1, q);
    }
  }

  /** The whole-response pattern, stated on positions: a first fence at `p`,
      a maximal language tag up to `w`, the greedy line break up to `h`, and
      the next fence at `q`. */
  lemma ExtractBlockAt(s: string, p: nat, w: nat, h: nat, q: nat)
    requires p + 3 <= w <= h <= q && q + 3 <= |s|
    requires FenceAt(s, p) && FenceAt(s, q)
    requires forall j :: 0 <= j < p ==> !FenceAt(s, j)
    requires forall k :: p + 3 <= k < w ==> IsWordChar(s[k])
    requires !IsWordChar(s[w])
    requires GreedyBreak(s, w, h)
    requires forall j :: h <= j < q ==> !FenceAt(s, j)
    ensures Extract(s, true) == Trim(UnwrapInline(s[h..q]))
  {
    FindFenceIs(s, 0, p);
    WordEndAt(s, p + 3, w);
    assert HeaderEnd(s, p) == h;
    FindFenceIs(s, h, q);
  }

  /** No fence starts inside a stretch `t` of `s` that holds no fence and does
      not end with a backtick. */
  lemma NoFenceInside(s: string, off: nat, t: string)
    requires off + |t| <= |s| && s[off..off + |t|] == t
    requires !ContainsFence(t) && (t == [] || t[|t| - 1] != '`')
    ensures forall j :: off <= j < off + |t| ==> !FenceAt(s, j)
  {
    forall j | off <= j < off + |t| ensures !FenceAt(s, j) {
      if j + 3 <= off + |t| {
        assert !FenceAt(t, j - off);
        assert t[j - off] == s[j] && t[j - off + 1] == s[j + 1] && t[j - off + 2] == s[j + 2];
      } else {
        assert t[|t| - 1] == s[off + |t| - 1];
      }
    }
  }

  /** A response holding a fenced block: text before the block in which no
      fence starts, the opening fence with its language tag `lang`, a line
      break (none, CR, LF or CRLF), the body, the closing fence, anything
      after. The result is the body, unwrapped if it is one inline span, and
      trimmed. The language tag and the line break are matched greedily, so
      the body must not continue either of them. */
  lemma {:induction false} ExtractFencedBlock(s: string, before: string, lang: string, newline: string, body: string, after: string)
    requires s == before + "```" + lang + newline + body + "```" + after
    requires !ContainsFence(before) && (before == [] || before[|before| - 1] != '`')
    requires forall k :: 0 <= k < |lang| ==> IsWordChar(lang[k])
    requires newline == "" || newline == "\r" || newline == "\n" || newline == "\r\n"
    requires newline == "" && body != [] ==> !IsWordChar(body[0]) && body[0] != '\r' && body[0] != '\n'
    requires newline == "\r" && body != [] ==> body[0] != '\n'
    requires !ContainsFence(body) && (body == [] || body[|body| - 1] != '`')
    ensures Extract(s, true) == Trim(UnwrapInline(body))
  {
    var p := |before|;
    var w := p + 3 + |lang|;
    var h := w + |newline|;
    var q := h + |body|;
    FencedBlockLayout(s, before, lang, newline, body, after);
    forall k | p + 3 <= k < w ensures IsWordChar(s[k]) {
      assert s[k] == lang[k - p - 3];
    }
    FencedBlockAt(s, p, w, h, q, before, newline, body);
  }

  /** `ExtractFencedBlock` on positions. */
  lemma FencedBlockAt(s: string, p: nat, w: nat, h: nat, q: nat, before: string, newline: string, body: string)
    requires p + 3 <= w && w + |newline| == h && h + |body| == q && q + 3 <= |s| && p == |before|
    requires s[0..p] == before && s[w..h] == newline && s[h..q] == body
    requires FenceAt(s, p) && FenceAt(s, q)
    requires forall k :: p + 3 <= k < w ==> IsWordChar(s[k])
    requires !ContainsFence(before) && (before == [] || before[|before| - 1] != '`')
    requires newline == "" || newline == "\r" || newline == "\n" || newline == "\r\n"
    requires newline == "" && body != [] ==> !IsWordChar(body[0]) && body[0] != '\r' && body[0] != '\n'
    requires newline == "\r" && body != [] ==> body[0] != '\n'
    requires !ContainsFence(body) && (body == [] || body[|body| - 1] != '`')
    ensures Extract(s, true) == Trim(UnwrapInline(body))
  {
    NoFenceInside(s, 0, before);
    NoFenceInside(s, h, body);
    assert s[w] == (if newline != "" then newline[0] else if body == [] then '`' else body[0]);
    assert s[h] == (if body == [] then '`' else body[0]);
    if newline == "\r\n" { assert s[w + 1] == newline[1]; }
    assert GreedyBreak(s, w, h);
    ExtractBlockAt(s, p, w, h, q);
  }

  lemma FencedBlockLayout(s: string, before: string, lang: string, newline: string, body: string, after: string)
    requires s == before + "```" + lang + newline + body + "```" + after
    ensures var p := |before|; var w := p + 3 + |lang|; var h := w + |newline|; var q := h + |body|;
      && q + 3 <= |s|
      && s[0..p] == before && s[w..h] == newline && s[h..q] == body
      && FenceAt(s, p) && FenceAt(s, q)
      && (forall k :: p + 3 <= k < w ==> s[k] == lang[k - p - 3])
  {
  }

  /** The word run starting at `i` ends at `j` when everything in between is
      a word character and `s[j]` (if any) is not. */
  lemma {:induction false} WordEndAt(s: string, i: nat, j: nat)
    requires i <= j <= |s|
    requires forall k :: i <= k < j ==> IsWordChar(s[k])
    requires j == |s| || !IsWordChar(s[j])
    ensures WordEnd(s, i) == j
    decreases j - i
  {
    if i < j { WordEndAt(s, i + 1, j); }
  }

  /** An opening fence that is never closed, on a line of its own: the first
      replace removes the header and the body comes back trimmed. */
  lemma {:induction false} ExtractUnclosedFence(lang: string, body: string)
    requires '`' !in body
    requires forall k :: 0 <= k < |lang| ==> IsWordChar(lang[k])
    ensures Extract("```" + lang + "\n" + body, true) == Trim(body)
  {
    var s := "```" + lang + "\n" + body;
    var h := 3 + |lang| + 1;
    assert s[..3] == "```";
    assert s[3..3 + |lang|] == lang;
    assert s[h..] == body;
    assert FenceAt(s, 0);
    assert FindFence(s, 0) == Some(0);
    WordEndAt(s, 3, 3 + |lang|);
    assert HeaderEnd(s, 0) == h;
    forall j | h <= j ensures !FenceAt(s, j) {
      if j < |s| { assert s[j] == body[j - h] && body[j - h] in body; }
    }
    assert FindFence(s, h).None?;
    assert WholeBlock(s).None?;
    assert StripOpeningFences(s) == StripOpenFrom(s, h) == body;
    assert NoFenceFrom(body, 0) by {
      forall j | 0 <= j ensures !FenceAt(body, j) {
        if j < |body| { assert body[j] in body; }
      }
    }
    assert StripClosingFences(body) == body;
    assert !IsInlineSpan(body) by {
      if |body| >= 3 { assert body[0] in body; }
    }
  }

  /** A closing fence glued to the end of a line with no opening fence: the
      second replace removes it. */
  lemma ExtractTrailingFence(s: string, body: string)
    requires s == body + "```"
    requires '`' !in body && body != []
    requires !IsLineTerminator(body[|body| - 1])
    ensures Extract(s, true) == Trim(body)
  {
    TrailingFenceLayout(s, body);
    TrailingNoBlock(s, |body|);
    TrailingNoOpening(s, |body|);
    TrailingClose(s, |body|);
    assert StripClosingFences(StripOpeningFences(s)) == body;
    assert !IsInlineSpan(body) by {
      if |body| >= 3 { assert body[0] in body; }
    }
  }

  lemma TrailingNoBlock(s: string, n: nat)
    requires n + 3 == |s| && FenceAt(s, n)
    requires forall j :: 0 <= j < n ==> s[j] != '`'
    ensures WholeBlock(s).None?
  {
    FindFenceIs(s, 0, n);
    assert NoFenceFrom(s, HeaderEnd(s, n));
  }

  lemma TrailingNoOpening(s: string, n: nat)
    requires n + 3 == |s| && 0 < n && !IsLineTerminator(s[n - 1])
    requires forall j :: 0 <= j < n ==> s[j] != '`'
    ensures StripOpeningFences(s) == s
  {
    forall j | 0 <= j && LineStart(s, j) ensures !FenceAt(s, j) {
      if j < n { assert s[j] != '`'; }
    }
  }

  lemma TrailingClose(s: string, n: nat)
    requires n + 3 == |s| && 0 < n && !IsLineTerminator(s[n - 1]) && FenceAt(s, n)
    requires forall j :: 0 <= j < n ==> s[j] != '`'
    ensures StripClosingFences(s) == s[..n]
  {
    StripCloseSkip(s, 0, n);
    assert ClosingMatchEnd(s, n) == Some(n + 3);
  }

  lemma TrailingFenceLayout(s: string, body: string)
    requires s == body + "```"
    requires '`' !in body && body != []
    requires !IsLineTerminator(body[|body| - 1])
    ensures forall j :: 0 <= j < |body| ==> s[j] != '`'
    ensures FenceAt(s, |body|) && |s| == |body| + 3
    ensures !IsLineTerminator(s[|body| - 1])
    ensures s[..|body|] == body
  {
    forall j | 0 <= j < |body| ensures s[j] != '`' {
      assert s[j] == body[j] && body[j] in body;
    }
  }

  /** The opening-fence pass copies a stretch in which no fence starts a
      line, and at a fence that starts a line it drops exactly the header
      (the fence, its language tag and the greedy line break). */
  lemma {:induction false} StripOpenUpTo(s: string, i: nat, j: nat)
    requires i <= j <= |s|
    requires forall k :: i <= k < j ==> !(LineStart(s, k) && FenceAt(s, k))
    ensures StripOpenFrom(s, i) == s[i..j] + StripOpenFrom(s, j)
    ensures LineStart(s, j) && FenceAt(s, j) ==> StripOpenFrom(s, i) == s[i..j] + StripOpenFrom(s, HeaderEnd(s, j))
    decreases j - i
  {
    if i < j {
      StripOpenUpTo(s, i + 1, j);
      SliceCons(s, i, j, StripOpenFrom(s, j));
    }
  }

  /** The closing-fence pass copies a stretch in which no closing match
      starts, and at a closing match it drops exactly the match (the line
      break before the fence and the fence). */
  lemma {:induction false} StripCloseUpTo(s: string, i: nat, j: nat)
    requires i <= j <= |s|
    requires forall k :: i <= k < j ==> ClosingMatchEnd(s, k).None?
    ensures StripCloseFrom(s, i) == s[i..j] + StripCloseFrom(s, j)
    ensures ClosingMatchEnd(s, j).Some? ==> StripCloseFrom(s, i) == s[i..j] + StripCloseFrom(s, ClosingMatchEnd(s, j).value)
    decreases j - i
  {
    if i < j {
      StripCloseUpTo(s, i + 1, j);
      SliceCons(s, i, j, StripCloseFrom(s, j));
    }
  }

  /** No closing match starts before the last character of the text preceding
      a trailing fence, when that character is not a line terminator. */
  lemma NoClosingMatchBefore(s: string, i: nat, n: nat)
    requires i < n && n + 3 == |s|
    requires forall j :: 0 <= j < n ==> s[j] != '`'
    requires !IsLineTerminator(s[n - 1])
    ensures ClosingMatchEnd(s, i).None?
  {
    var a := if s[i] == '\r' then i + 1 else i;
    var b := if s[a] == '\n' then a + 1 else a;
    assert a < n;
    assert b < n;
    assert !FenceAt(s, b);
  }

  /** Scanning for a closing match copies everything before the trailing
      fence unchanged. */
  lemma StripCloseSkip(s: string, i: nat, n: nat)
    requires i <= n && n + 3 == |s| && n > 0
    requires forall j :: 0 <= j < n ==> s[j] != '`'
    requires !IsLineTerminator(s[n - 1])
    ensures StripCloseFrom(s, i) == s[i..n] + StripCloseFrom(s, n)
  {
    forall k | i <= k < n ensures ClosingMatchEnd(s, k).None? {
      NoClosingMatchBefore(s, k, n);
    }
    StripCloseUpTo(s, i, n);
  }

  lemma SliceCons(s: string, i: nat, n: nat, tail: string)
    requires i < n <= |s|
    ensures s[i..n] + tail == [s[i]] + (s[i + 1..n] + tail)
  {
    assert s[i..n] == [s[i]] + s[i + 1..n];
  }

  /** A response that is one inline code span comes back unwrapped and
      trimmed. */
  lemma ExtractInlineSpan(s: string, inner: string)
    requires s == "`" + inner + "`"
    requires inner != [] && '`' !in inner && IsTrimmed(inner)
    ensures Extract(s, true) == inner
  {
    forall k | 1 <= k < |s| - 1 ensures s[k] != '`' {
      assert s[k] == inner[k - 1] && inner[k - 1] in inner;
    }
    assert !ContainsFence(s) by {
      forall k | 0 <= k && k + 3 <= |s| ensures !FenceAt(s, k) {
        if k == 0 { assert s[1] != '`'; } else { assert s[k] != '`'; }
      }
    }
    ExtractWithoutFence(s);
    assert IsInlineSpan(s);
    assert s[1..|s| - 1] == inner;
  }

  /** A one-line answer between an opening fence on its own line and a
      closing fence on the next line comes back as that line, with LF or CRLF
      line breaks, and whatever inline code the line holds. */
  lemma ExtractFencedLine(s: string, eol: string, line: string)
    requires s == "```" + eol + line + eol + "```"
    requires eol == "\n" || eol == "\r\n"
    requires IsTrimmed(line) && !ContainsFence(line)
    ensures Extract(s, true) == line
  {
    assert s == "" + "```" + "" + eol + (line + eol) + "```" + "";
    FencedLineBody(s, eol, line);
    TrimLine(line, eol);
  }

  lemma TrimLine(line: string, eol: string)
    requires eol == "\n" || eol == "\r\n"
    requires IsTrimmed(line)
    ensures Trim(line + eol) == line
  {
    assert IsBlank(eol) by {
      if eol == "\r\n" { assert eol[0] == '\r' && eol[1] == '\n'; }
    }
    assert line + eol == "" + line + eol;
    TrimSurrounded(line + eol, "", line, eol);
  }

  lemma FencedLineBody(s: string, eol: string, line: string)
    requires s == "" + "```" + "" + eol + (line + eol) + "```" + ""
    requires eol == "\n" || eol == "\r\n"
    requires !ContainsFence(line)
    ensures Extract(s, true) == Trim(line + eol)
  {
    FenceFreeLine(line, eol);
    BacktickFree("");
    ExtractFencedBlock(s, "", "", eol, line + eol, "");
    assert !IsInlineSpan(line + eol);
  }

  /** A fence-free line followed by a line break holds no fence either. */
  lemma FenceFreeLine(line: string, eol: string)
    requires eol == "\n" || eol == "\r\n"
    requires !ContainsFence(line)
    ensures !ContainsFence(line + eol) && (line + eol)[|line + eol| - 1] == '\n'
  {
    var t := line + eol;
    forall k | 0 <= k && k + 3 <= |t| ensures !FenceAt(t, k) {
      if k + 3 <= |line| {
        assert !FenceAt(line, k);
      } else {
        assert t[|line|] == eol[0];
      }
    }
  }

  /** A fenced answer is unwrapped and trimmed. */
  lemma ExtractFencedExample()
    ensures Extract("```\nHola\n```", true) == "Hola"
  {
    BacktickFree("Hola");
    ExtractFencedLine("```\nHola\n```", "\n", "Hola");
  }

  /** A fence with CRLF line breaks is unwrapped the same way. */
  lemma ExtractCrlfExample()
    ensures Extract("```\r\nHola\r\n```", true) == "Hola"
  {
    BacktickFree("Hola");
    ExtractFencedLine("```\r\nHola\r\n```", "\r\n", "Hola");
  }

  /** Inline code inside a fenced block is kept as it is. */
  lemma ExtractInnerBackticksExample(code: string)
    requires code == "use `x`"
    ensures Extract("```\n" + code + "\n```", true) == code
  {
    assert !ContainsFence(code) by {
      forall k | 0 <= k && k + 3 <= |code| ensures !FenceAt(code, k) {
        assert code[k] != '`' || code[k + 1] != '`';
      }
    }
    ExtractFencedLine("```\n" + code + "\n```", "\n", code);
  }

  /** A word right after the opening fence is taken for a language tag, so a
      one-line fenced answer comes back empty. */
  lemma ExtractLanguageTagExample()
    ensures Extract("```Hola```", true) == ""
  {
    assert !ContainsFence("");
    ExtractFencedBlock("```Hola```", "", "Hola", "", "", "");
  }

  /** A single inline code span is unwrapped. */
  lemma ExtractInlineExample()
    ensures Extract("`Hola`", true) == "Hola"
  {
    ExtractInlineSpan("`Hola`", "Hola");
  }

  /** Backtick-free text surrounded by whitespace comes back as its core. */
  lemma ExtractPadded(s: string, lead: string, core: string, trail: string)
    requires s == lead + core + trail && '`' !in s
    requires IsBlank(lead) && IsBlank(trail) && IsTrimmed(core)
    ensures Extract(s, true) == core
  {
    ExtractBacktickFree(s);
    TrimSurrounded(s, lead, core, trail);
  }

  /** Plain text is only trimmed, and only when the filter is on. */
  lemma ExtractPlainExample()
    ensures Extract("  Hola \n", true) == "Hola"
    ensures Extract("  Hola \n", false) == "  Hola \n"
  {
    ExtractPadded("  Hola \n", "  ", "Hola", " \n");
  }
}
