/** Building the translation prompt from a preset template (`translateText`):
    every `{{language}}` is replaced by the target language, and then, in the
    text that results, every `{{targetmessage}}` is replaced by the message. */
module PromptBuilder {

  const LanguageTag: string := "{{language}}"
  const MessageTag: string := "{{targetmessage}}"

  /** `pat` occurs in `s` starting at index `i`. */
  predicate OccursAt(s: string, pat: string, i: int) {
    0 <= i && i + |pat| <= |s| && s[i..i + |pat|] == pat
  }

  ghost predicate Occurs(s: string, pat: string) {
    exists i :: OccursAt(s, pat, i)
  }

  /** The replacement string of a `String.prototype.replace` call with a
      string argument, after substitution patterns are expanded: `$$` is one
      `$`, `$&` the matched text, `` $` `` the text before the match and `$'`
      the text after it. The patterns have no capture groups, so `$1`, `$<`
      and a lone `$` stay as they are. */
  function Expand(rep: string, matched: string, before: string, after: string): (r: string)
    ensures '$' !in rep ==> r == rep
    decreases |rep|
  {
    if rep == [] then []
    else if rep[0] == '$' && |rep| >= 2 && rep[1] == '$' then "$" + Expand(rep[2..], matched, before, after)
    else if rep[0] == '$' && |rep| >= 2 && rep[1] == '&' then matched + Expand(rep[2..], matched, before, after)
    else if rep[0] == '$' && |rep| >= 2 && rep[1] == '`' then before + Expand(rep[2..], matched, before, after)
    else if rep[0] == '$' && |rep| >= 2 && rep[1] == '\'' then after + Expand(rep[2..], matched, before, after)
    else [rep[0]] + Expand(rep[1..], matched, before, after)
  }

  /** A global regular-expression replace of the literal `pat` in `s`,
      scanning from index `i`: the leftmost occurrence is replaced first and
      the scan resumes after it, so replacements never overlap and inserted
      text is never rescanned. With no occurrence from `i` on, the rest of
      the text is copied, whatever the replacement. */
  function ReplaceAllFrom(s: string, i: nat, pat: string, rep: string): (r: string)
    requires pat != [] && i <= |s|
    ensures (forall j :: i <= j ==> !OccursAt(s, pat, j)) ==> r == s[i..]
    decreases |s| - i
  {
    if |s| - i < |pat| then s[i..]
    else if s[i..i + |pat|] == pat then
      assert OccursAt(s, pat, i);
      Expand(rep, pat, s[..i], s[i + |pat|..]) + ReplaceAllFrom(s, i + |pat|, pat, rep)
    else
      assert s[i..] == [s[i]] + s[i + 1..];
      [s[i]] + ReplaceAllFrom(s, i + 1, pat, rep)
  }

  /** Reference definition: the same scan with `rep` inserted verbatim. */
  function ReplaceLiteral(s: string, pat: string, rep: string): string
    requires pat != []
    decreases |s|
  {
    if |s| < |pat| then s
    else if s[..|pat|] == pat then rep + ReplaceLiteral(s[|pat|..], pat, rep)
    else [s[0]] + ReplaceLiteral(s[1..], pat, rep)
  }

  /** Without `$` in the replacement, the regular-expression replace is the
      literal one. */
  lemma {:induction false} ReplaceAllFromLiteral(s: string, i: nat, pat: string, rep: string)
    requires pat != [] && i <= |s| && '$' !in rep
    ensures ReplaceAllFrom(s, i, pat, rep) == ReplaceLiteral(s[i..], pat, rep)
    decreases |s| - i
  {
    var t := s[i..];
    if |s| - i < |pat| {
      assert ReplaceLiteral(t, pat, rep) == t;
    } else if s[i..i + |pat|] == pat {
      assert t[..|pat|] == pat && t[|pat|..] == s[i + |pat|..];
      assert ReplaceLiteral(t, pat, rep) == rep + ReplaceLiteral(s[i + |pat|..], pat, rep);
      assert Expand(rep, pat, s[..i], s[i + |pat|..]) == rep;
      ReplaceAllFromLiteral(s, i + |pat|, pat, rep);
    } else {
      assert t[..|pat|] == s[i..i + |pat|] && t[1..] == s[i + 1..];
      assert ReplaceLiteral(t, pat, rep) == [s[i]] + ReplaceLiteral(s[i + 1..], pat, rep);
      ReplaceAllFromLiteral(s, i + 1, pat, rep);
    }
  }

  /** `s.replace(/pat/g, rep)`. Without `$` in the replacement it is the
      literal reference replace. */
  function ReplaceAll(s: string, pat: string, rep: string): (r: string)
    requires pat != []
    ensures '$' !in rep ==> r == ReplaceLiteral(s, pat, rep)
  {
    assert s[0..] == s;
    if '$' !in rep then ReplaceAllFromLiteral(s, 0, pat, rep); ReplaceAllFrom(s, 0, pat, rep)
    else ReplaceAllFrom(s, 0, pat, rep)
  }

  /** The prompt: language first, then the message, each replacement global. */
  function BuildPrompt(template: string, language: string, text: string): (r: string)
    ensures '$' !in language && '$' !in text
      ==> r == ReplaceLiteral(ReplaceLiteral(template, LanguageTag, language), MessageTag, text)
  {
    ReplaceAll(ReplaceAll(template, LanguageTag, language), MessageTag, text)
  }

  /** The prompt of every new preset and of the default settings:
      `DefaultIntro`, the language placeholder, `DefaultInstruction`,
      `DefaultLead`, the message placeholder. */
  const DefaultIntro: string := "Translate the following text to "
  const DefaultInstruction: string := ". Only output the translation, nothing else."
  const DefaultLead: string := "\n\nText to translate:\n"
  const DefaultPromptTemplate: string := DefaultIntro + LanguageTag + DefaultInstruction + DefaultLead + MessageTag

  // ---------------------------------------------------------------------
  // Properties of ReplaceAll

  /** A text without the pattern is left unchanged, whatever the
      replacement. */
  lemma ReplaceAllAbsent(s: string, pat: string, rep: string)
    requires pat != [] && !Occurs(s, pat)
    ensures ReplaceAll(s, pat, rep) == s
  {
    assert s[0..] == s;
  }

  /** A stretch holding no character that can start the pattern is copied
      verbatim. */
  lemma {:induction false} ReplaceAllFromSkips(s: string, i: nat, k: nat, pat: string, rep: string)
    requires pat != [] && i <= k <= |s|
    requires forall j :: i <= j < k ==> s[j] != pat[0]
    ensures ReplaceAllFrom(s, i, pat, rep) == s[i..k] + ReplaceAllFrom(s, k, pat, rep)
    decreases k - i
  {
    if i < k {
      if |s| - i >= |pat| {
        assert s[i..i + |pat|][0] == s[i];
        ReplaceAllFromSkips(s, i + 1, k, pat, rep);
        assert s[i..k] == [s[i]] + s[i + 1..k];
      } else {
        assert s[i..] == s[i..k] + s[k..];
      }
    } else {
      assert s[i..k] == [];
    }
  }

  /** An occurrence at index `i` is replaced by the expanded replacement and
      the scan resumes after it. */
  lemma ReplaceAllFromMatch(s: string, i: nat, pat: string, rep: string)
    requires pat != [] && OccursAt(s, pat, i)
    ensures ReplaceAllFrom(s, i, pat, rep)
         == Expand(rep, pat, s[..i], s[i + |pat|..]) + ReplaceAllFrom(s, i + |pat|, pat, rep)
  {
  }

  /** The scan reaches the end of the text. */
  lemma ReplaceAllFromEnd(s: string, pat: string, rep: string)
    requires pat != []
    ensures ReplaceAllFrom(s, |s|, pat, rep) == []
  {
  }

  // ---------------------------------------------------------------------
  // Properties of BuildPrompt

  /** A template with neither placeholder is sent as it is. */
  lemma BuildPromptNoPlaceholder(template: string, language: string, text: string)
    requires !Occurs(template, LanguageTag) && !Occurs(template, MessageTag)
    ensures BuildPrompt(template, language, text) == template
  {
    ReplaceAllAbsent(template, LanguageTag, language);
    ReplaceAllAbsent(template, MessageTag, text);
  }

  /** A text holding no first character of the pattern holds no
      occurrence. */
  lemma NoStartNoOccurrence(s: string, pat: string)
    requires pat != [] && pat[0] !in s
    ensures !Occurs(s, pat)
  {
    forall j | 0 <= j ensures !OccursAt(s, pat, j) {
      if j + |pat| <= |s| { assert s[j..j + |pat|][0] == s[j]; }
    }
  }

  /** A pattern opening with `{{` does not occur in brace-free text around a
      tag that opens with `{{` followed by another character and has no
      further brace. */
  lemma NoOccurrenceAround(b: string, tag: string, c: string, pat: string)
    requires |pat| >= 3 && pat[0] == '{' && pat[1] == '{'
    requires |tag| >= 3 && tag[0] == '{' && tag[1] == '{' && tag[2] != pat[2] && '{' !in tag[2..]
    requires '{' !in b && '{' !in c
    ensures !Occurs(b + tag + c, pat)
  {
    var s := b + tag + c;
    forall j | 0 <= j ensures !OccursAt(s, pat, j) {
      if j + |pat| <= |s| {
        var w := s[j..j + |pat|];
        if j < |b| {
          assert w[0] == b[j];
        } else if j == |b| {
          assert w[2] == tag[2];
        } else if j == |b| + 1 {
          assert w[1] == tag[2];
        } else {
          assert w[0] == (tag[2..] + c)[j - |b| - 2];
        }
      }
    }
  }

  /** `{{language}}` does not occur around a `{{targetmessage}}`. */
  lemma NoLanguageTagAround(b: string, c: string)
    requires '{' !in b && '{' !in c
    ensures !Occurs(b + MessageTag + c, LanguageTag)
  {
    assert '{' !in MessageTag[2..];
    NoOccurrenceAround(b, MessageTag, c, LanguageTag);
  }

  /** From index `k` on the text has no occurrence when its suffix has
      none. */
  lemma AbsentFrom(s: string, k: nat, pat: string)
    requires k <= |s| && !Occurs(s[k..], pat)
    ensures forall j :: k <= j ==> !OccursAt(s, pat, j)
  {
    forall j | k <= j ensures !OccursAt(s, pat, j) {
      if j + |pat| <= |s| {
        assert s[j..j + |pat|] == s[k..][j - k..j - k + |pat|];
        assert !OccursAt(s[k..], pat, j - k);
      }
    }
  }

  /** A single occurrence of the pattern is replaced by the expanded
      replacement, everything else is copied. */
  lemma SingleOccurrence(a: string, pat: string, d: string, rep: string)
    requires pat != [] && pat[0] !in a && !Occurs(d, pat)
    ensures ReplaceAll(a + pat + d, pat, rep) == a + Expand(rep, pat, a, d) + d
  {
    var s := a + pat + d;
    var p, q := |a|, |a| + |pat|;
    assert s[..p] == a && s[p..q] == pat && s[q..] == d;
    ReplaceAllFromSkips(s, 0, p, pat, rep);
    ReplaceAllFromMatch(s, p, pat, rep);
    AbsentFrom(s, q, pat);
    assert s[0..p] == a;
  }

  /** The language pass on the usual template shape, for a language name
      without `$`. */
  lemma LanguagePass(a: string, b: string, c: string, language: string)
    requires '{' !in a && '{' !in b && '{' !in c && '$' !in language
    ensures ReplaceAll(a + LanguageTag + b + MessageTag + c, LanguageTag, language)
         == a + language + b + MessageTag + c
  {
    NoLanguageTagAround(b, c);
    assert a + LanguageTag + b + MessageTag + c == a + LanguageTag + (b + MessageTag + c);
    SingleOccurrence(a, LanguageTag, b + MessageTag + c, language);
  }

  /** The message pass: the message is inserted with its substitution
      patterns expanded against the text around the placeholder. */
  lemma MessagePass(a: string, c: string, text: string)
    requires '{' !in a && '{' !in c
    ensures ReplaceAll(a + MessageTag + c, MessageTag, text)
         == a + Expand(text, MessageTag, a, c) + c
  {
    NoStartNoOccurrence(c, MessageTag);
    SingleOccurrence(a, MessageTag, c, text);
  }

  /** The usual template shape, one `{{language}}` before one
      `{{targetmessage}}` in otherwise brace-free text: the language and the
      message land in their places. The message goes in after the language
      pass, so a `{{language}}` inside it survives literally; its `$`
      patterns are expanded, and a message without `$` goes in verbatim. */
  lemma BuildPromptShape(a: string, b: string, c: string, language: string, text: string)
    requires '{' !in a && '{' !in b && '{' !in c && '{' !in language && '$' !in language
    ensures BuildPrompt(a + LanguageTag + b + MessageTag + c, language, text)
         == a + language + b + Expand(text, MessageTag, a + language + b, c) + c
    ensures '$' !in text ==>
      BuildPrompt(a + LanguageTag + b + MessageTag + c, language, text) == a + language + b + text + c
  {
    LanguagePass(a, b, c, language);
    assert a + language + b + MessageTag + c == (a + language + b) + MessageTag + c;
    MessagePass(a + language + b, c, text);
  }

  /** A text that is exactly one occurrence becomes the expanded
      replacement. */
  lemma WholeMatch(pat: string, rep: string)
    requires pat != []
    ensures ReplaceAll(pat, pat, rep) == Expand(rep, pat, [], [])
  {
    assert OccursAt(pat, pat, 0);
    assert pat[..0] == [] && pat[|pat|..] == [];
    ReplaceAllFromMatch(pat, 0, pat, rep);
    ReplaceAllFromEnd(pat, pat, rep);
  }

  /** The two replacements are sequential, not independent: a language value
      that itself reads `{{targetmessage}}` is replaced by the message. */
  lemma BuildPromptOrder(text: string)
    requires '$' !in text
    ensures BuildPrompt(LanguageTag, MessageTag, text) == text
  {
    assert '$' !in MessageTag;
    WholeMatch(LanguageTag, MessageTag);
    WholeMatch(MessageTag, text);
  }

  /** A message's `$` patterns are expanded: `$$` collapses to `$` and `$&`
      becomes the placeholder itself. */
  lemma BuildPromptDollarPatterns(a: string, c: string, language: string)
    requires '{' !in a && '{' !in c
    ensures BuildPrompt(a + MessageTag + c, language, "$$5") == a + "$5" + c
    ensures BuildPrompt(a + MessageTag + c, language, "$&") == a + MessageTag + c
  {
    MessageOnly(a, c, language, "$$5");
    MessageOnly(a, c, language, "$&");
    DollarExpansions(a, c);
  }

  lemma MessageOnly(a: string, c: string, language: string, text: string)
    requires '{' !in a && '{' !in c
    ensures BuildPrompt(a + MessageTag + c, language, text) == a + Expand(text, MessageTag, a, c) + c
  {
    NoLanguageTagAround(a, c);
    ReplaceAllAbsent(a + MessageTag + c, LanguageTag, language);
    MessagePass(a, c, text);
  }

  lemma DollarExpansions(a: string, c: string)
    ensures Expand("$$5", MessageTag, a, c) == "$5"
    ensures Expand("$&", MessageTag, a, c) == MessageTag
  {
    assert Expand("5", MessageTag, a, c) == "5";
    assert Expand("", MessageTag, a, c) == "";
  }

  /** The default template asks for `language` and ends with the message. */
  lemma DefaultPrompt(language: string, text: string)
    requires '{' !in language && '$' !in language && '$' !in text
    ensures BuildPrompt(DefaultPromptTemplate, language, text)
         == DefaultIntro + language + DefaultInstruction + DefaultLead + text
  {
    var b := DefaultInstruction + DefaultLead;
    DefaultTemplateBraceFree();
    assert '{' !in b;
    assert DefaultPromptTemplate == DefaultIntro + LanguageTag + b + MessageTag + [];
    BuildPromptShape(DefaultIntro, b, [], language, text);
    assert DefaultIntro + language + b + text + [] == DefaultIntro + language + DefaultInstruction + DefaultLead + text;
  }

  lemma DefaultTemplateBraceFree()
    ensures '{' !in DefaultIntro && '{' !in DefaultInstruction && '{' !in DefaultLead
  {
    BraceFree(DefaultIntro, "Translate the following text to ");
    BraceFree(DefaultInstruction, ". Only output the translation, nothing else.");
    BraceFree(DefaultLead, "\n\nText to translate:\n");
  }

  lemma BraceFree(chunk: string, literal: string)
    requires chunk == literal
    requires forall k :: 0 <= k < |literal| ==> literal[k] != '{'
    ensures '{' !in chunk
  {
  }

  /** The prompt of a custom preset in the end-to-end example. */
  lemma BuildPromptExample(template: string, prompt: string)
    requires template == "Translate to {{language}}: {{targetmessage}}"
    requires prompt == "Translate to Spanish: Hello"
    ensures BuildPrompt(template, "Spanish", "Hello") == prompt
  {
    var a, b := "Translate to ", ": ";
    ExampleTemplateLayout(template, a, b);
    ExamplePromptLayout(prompt, a, b);
    BuildPromptShape(a, b, [], "Spanish", "Hello");
  }

  lemma ExampleTemplateLayout(template: string, a: string, b: string)
    requires template == "Translate to {{language}}: {{targetmessage}}"
    requires a == "Translate to " && b == ": "
    ensures template == a + LanguageTag + b + MessageTag + []
    ensures '{' !in a && '{' !in b
  {
    BraceFree(a, "Translate to ");
    BraceFree(b, ": ");
  }

  lemma ExamplePromptLayout(prompt: string, a: string, b: string)
    requires prompt == "Translate to Spanish: Hello"
    requires a == "Translate to " && b == ": "
    ensures prompt == a + "Spanish" + b + "Hello" + []
  {
  }
}
