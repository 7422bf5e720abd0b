/**
 * The post-processing around the language-model call
 * (backend/app/services/llm_service.py): the language instruction put into
 * the prompt, the removal of Markdown code fences from the reply, the
 * whitespace trimming before parsing, and the record built when the reply is
 * not JSON. The HTTP call is an input (`LlmCall`) and `json.loads` is a
 * function parameter returning `None` where Python raises `JSONDecodeError`.
 */
module LlmService {
  import opened Wrappers
  import opened Strings
  import Schemas

  /** The instruction for each supported response language. */
  const LanguagePrompts: map<string, string> := map[
    "en" := "Respond in English.",
    "zh" := "用中文回答。",
    "ja" := "日本語で回答してください。",
    "de" := "Antworte auf Deutsch.",
    "fr" := "Répondez en français.",
    "ko" := "한국어로 답변해 주세요.",
    "es" := "Responde en español."
  ]

  /** `language_prompts.get(language, language_prompts["en"])`. */
  function LanguageInstruction(language: string): (s: string)
    ensures language in LanguagePrompts ==> s == LanguagePrompts[language]
    ensures language !in LanguagePrompts ==> s == "Respond in English."
  {
    if language in LanguagePrompts then LanguagePrompts[language] else LanguagePrompts["en"]
  }

  /** Every language the request schema accepts has its own instruction, so only unvalidated input falls back to English. */
  lemma ValidatedLanguagesHaveInstructions()
    ensures LanguagePrompts.Keys == Schemas.Languages
  {
  }

  // Code fences

  const JsonFence := "```json"
  const Fence := "```"

  /** The text after the first occurrence of `p` in `s`. */
  function After(s: string, p: string): (r: string)
    requires Contains(s, p)
    ensures |r| <= |s|
  {
    s[IndexOf(s, p).value + |p|..]
  }

  /** The text of `s` before the first occurrence of `p`, or all of `s` when there is none. */
  function UpTo(s: string, p: string): (r: string)
    ensures r <= s
  {
    match IndexOf(s, p)
    case None => s
    case Some(j) => s[..j]
  }

  /**
   * The reply as the source trims it: after a "```json" fence when there is
   * one, else after the first "```", in both cases up to the next "```".
   */
  function StripFences(content: string): string
  {
    if Contains(content, JsonFence) then Split(Split(content, JsonFence)[1], Fence)[0]
    else if Contains(content, Fence) then Split(Split(content, Fence)[1], Fence)[0]
    else content
  }

  /** The second piece of a split runs from the first separator to the next one, or to the end. */
  lemma SecondPiece(s: string, sep: string)
    requires sep != [] && Contains(s, sep)
    ensures |Split(s, sep)| >= 2 && Split(s, sep)[1] == UpTo(After(s, sep), sep)
  {
    var rest := After(s, sep);
    assert Split(s, sep) == [s[..IndexOf(s, sep).value]] + Split(rest, sep);
    SplitFirst(rest, sep);
  }

  /** Text cut before the first occurrence of `p` does not contain `p`. */
  lemma UpToFree(s: string, p: string)
    requires p != []
    ensures !Contains(UpTo(s, p), p)
  {
    var t := UpTo(s, p);
    IndexOfFirst(s, p);
    IndexOfFirst(t, p);
    if Contains(t, p) {
      var j := IndexOf(t, p).value;
      match IndexOf(s, p)
      case None =>
        assert false;
      case Some(i) =>
        assert t == s[..i];
        PrefixOccurrence(s, i, p, j);
        assert false;
    }
  }

  /**
   * The fences are removed as the source does it: with a "```json" fence, the
   * text after it up to the next "```json", then up to the first "```" in
   * that; failing that, the text between the first and second "```"; a reply
   * without fences passes unchanged. No fence is left in the result.
   */
  lemma StripFencesMeaning(content: string)
    ensures Contains(content, JsonFence) ==>
      StripFences(content) == UpTo(UpTo(After(content, JsonFence), JsonFence), Fence)
    ensures !Contains(content, JsonFence) && Contains(content, Fence) ==>
      StripFences(content) == UpTo(After(content, Fence), Fence)
    ensures !Contains(content, Fence) ==> StripFences(content) == content
    ensures Contains(content, Fence) ==> !Contains(StripFences(content), Fence)
  {
    if Contains(content, JsonFence) {
      SecondPiece(content, JsonFence);
      var piece := UpTo(After(content, JsonFence), JsonFence);
      SplitFirst(piece, Fence);
      UpToFree(piece, Fence);
      JsonFenceIsFence(content);
    } else if Contains(content, Fence) {
      SecondPiece(content, Fence);
      var piece := UpTo(After(content, Fence), Fence);
      UpToFree(After(content, Fence), Fence);
      SplitFirst(piece, Fence);
    } else {
      JsonFenceIsFence(content);
    }
  }

  /**
   * Unless the reply runs four backticks together, the "```json" branch keeps
   * exactly the text between the "```json" fence and the next "```".
   */
  lemma JsonBlock(content: string)
    requires Contains(content, JsonFence) && !Contains(After(content, JsonFence), "````")
    ensures StripFences(content) == UpTo(After(content, JsonFence), Fence)
  {
    StripFencesMeaning(content);
    FenceBeforeJsonFence(After(content, JsonFence));
  }

  /** Cutting at the first "```json" and then at the first "```" is cutting at the first "```", when no four backticks run together. */
  lemma FenceBeforeJsonFence(x: string)
    requires !Contains(x, "````")
    ensures UpTo(UpTo(x, JsonFence), Fence) == UpTo(x, Fence)
  {
    IndexOfFirst(x, JsonFence);
    match IndexOf(x, JsonFence)
    case None =>
    case Some(i) =>
      assert OccursAt(x, Fence, i) by {
        assert x[i..i + 3] == x[i..i + 7][..3];
      }
      FirstFenceBefore(x, i);
  }

  /** With a "```" at `i` and no four backticks in a row, the first "```" of `x[..i]` is the first of `x`. */
  lemma FirstFenceBefore(x: string, i: nat)
    requires OccursAt(x, Fence, i) && !Contains(x, "````")
    ensures UpTo(x[..i], Fence) == UpTo(x, Fence)
  {
    IndexOfFirst(x, Fence);
    IndexOfFirst(x, "````");
    var t := x[..i];
    var j := IndexOf(x, Fence).value;
    assert j <= i;
    IndexOfFirst(t, Fence);
    if j + 3 <= i {
      assert OccursAt(t, Fence, j) by {
        assert t[j..j + 3] == x[j..j + 3];
      }
      var k := IndexOf(t, Fence).value;
      PrefixOccurrence(x, i, Fence, k);
    } else if j == i {
      if Contains(t, Fence) {
        PrefixOccurrence(x, i, Fence, IndexOf(t, Fence).value);
        assert false;
      }
    } else {
      OverlappingFences(x, j, i);
      assert false;
    }
  }

  /** Two "```" starting less than three characters apart make four backticks in a row. */
  lemma OverlappingFences(x: string, j: nat, i: nat)
    requires OccursAt(x, Fence, j) && OccursAt(x, Fence, i) && j < i < j + 3
    ensures OccursAt(x, "````", j)
  {
    assert x[j..j + 3] == "```";
    assert x[i..i + 3] == "```";
    assert x[j + 3] == '`' by {
      assert x[j + 3] == x[i..i + 3][j + 3 - i];
    }
    assert x[j..j + 4] == x[j..j + 3] + [x[j + 3]];
  }

  /** A "```json" fence is also a "```" fence. */
  lemma JsonFenceIsFence(content: string)
    ensures Contains(content, JsonFence) ==> Contains(content, Fence)
  {
    if Contains(content, JsonFence) {
      IndexOfOccurs(content, JsonFence);
      var i := IndexOf(content, JsonFence).value;
      assert OccursAt(content, Fence, i) by {
        assert content[i..i + 3] == content[i..i + 7][..3];
      }
      IndexOfFirst(content, Fence);
    }
  }

  /** Cutting at a separator that does not occur changes nothing. */
  lemma UpToOfFree(s: string, p: string)
    requires !Contains(s, p)
    ensures UpTo(s, p) == s
  {
  }

  // Whitespace

  /** The characters Python's `str.isspace` accepts, which `str.strip()` removes. */
  predicate IsSpace(c: char)
  {
    c == ' ' || ('\t' <= c <= '\r') || ('\U{1C}' <= c <= '\U{1F}') ||
    c == '\U{85}' || c == '\U{A0}' || c == '\U{1680}' || ('\U{2000}' <= c <= '\U{200A}') ||
    c == '\U{2028}' || c == '\U{2029}' || c == '\U{202F}' || c == '\U{205F}' || c == '\U{3000}'
  }

  /** The number of whitespace characters at the start of `s`. */
  function LeadingSpaces(s: string): (n: nat)
    ensures n <= |s|
    ensures forall k :: 0 <= k < n ==> IsSpace(s[k])
    ensures n < |s| ==> !IsSpace(s[n])
  {
    if s == [] || !IsSpace(s[0]) then 0 else 1 + LeadingSpaces(s[1..])
  }

  /** The number of whitespace characters at the end of `s`. */
  function TrailingSpaces(s: string): (n: nat)
    ensures n <= |s|
    ensures forall k :: |s| - n <= k < |s| ==> IsSpace(s[k])
    ensures n < |s| ==> !IsSpace(s[|s| - n - 1])
  {
    if s == [] || !IsSpace(s[|s| - 1]) then 0 else 1 + TrailingSpaces(s[..|s| - 1])
  }

  /** `s.strip()`: the middle of `s`, with the whitespace at both ends removed. */
  function Strip(s: string): (r: string)
    ensures var a := LeadingSpaces(s);
      a + |r| <= |s| && r == s[a..a + |r|] &&
      (forall k :: a + |r| <= k < |s| ==> IsSpace(s[k]))
    ensures r != [] ==> !IsSpace(r[0]) && !IsSpace(r[|r| - 1])
  {
    var t := s[LeadingSpaces(s)..];
    t[..|t| - TrailingSpaces(t)]
  }

  /** Stripping twice is stripping once. */
  lemma StripIdempotent(s: string)
    ensures Strip(Strip(s)) == Strip(s)
  {
    var r := Strip(s);
    assert LeadingSpaces(r) == 0;
    assert TrailingSpaces(r) == 0;
    assert r[0..][..|r|] == r;
  }

  // The reply

  /** A section of the vision. */
  datatype Section = Section(title: string, content: string)

  /**
   * The parsed reply as the endpoint reads it: a JSON object with its optional
   * fields, or some other JSON value.
   */
  datatype Vision =
    | VisionObject(
        title: Option<string>,
        year: Option<int>,
        summary: Option<string>,
        sections: Option<map<string, Section>>,
        keyChanges: Option<seq<string>>)
    | NotAnObject

  const FallbackYear := 2036
  const SummaryLength := 500

  /** The record built when the reply is not JSON. */
  function Fallback(concept: string, content: string): (v: Vision)
    ensures v.VisionObject?
    ensures v.title == Some("The Future of " + concept) && v.year == Some(2036)
    ensures v.summary.Some? && v.summary.value <= content && |v.summary.value| == if |content| <= 500 then |content| else 500
    ensures v.sections.Some? && v.sections.value.Keys == {"technology", "experience", "society", "wildcard"}
    ensures v.sections.value["technology"] == Section("Technology", content)
    ensures v.sections.value["experience"].content == "" && v.sections.value["society"].content == ""
    ensures v.sections.value["wildcard"].content == ""
    ensures v.keyChanges == Some([])
  {
    VisionObject(
      Some("The Future of " + concept),
      Some(FallbackYear),
      Some(Take(content, SummaryLength)),
      Some(map[
        "technology" := Section("Technology", content),
        "experience" := Section("Experience", ""),
        "society" := Section("Society", ""),
        "wildcard" := Section("Wildcard", "")
      ]),
      Some([]))
  }

  /** The outcome of the HTTP call: an exception (a non-200 status or a transport error), or the reply text. */
  datatype LlmCall = CallFailed(message: string) | Replied(content: string)

  /** What `generate_future_vision` does: raises, or returns a value. */
  datatype VisionResult = Raised(message: string) | Returned(vision: Vision)

  /**
   * `generate_future_vision` after the HTTP call: the fences are removed, the
   * trimmed text is parsed, and an unparsable reply becomes the fallback
   * record built from the untrimmed text.
   */
  function GenerateFutureVision(concept: string, call: LlmCall, parse: string -> Option<Vision>): (r: VisionResult)
    ensures call.CallFailed? <==> r.Raised?
    ensures call.CallFailed? ==> r.message == call.message
    ensures call.Replied? && parse(Strip(StripFences(call.content))).Some? ==>
      r == Returned(parse(Strip(StripFences(call.content))).value)
    ensures call.Replied? && parse(Strip(StripFences(call.content))).None? ==>
      r == Returned(Fallback(concept, StripFences(call.content)))
  {
    match call
    case CallFailed(message) => Raised(message)
    case Replied(reply) =>
      var content := StripFences(reply);
      match parse(Strip(content))
      case None => Returned(Fallback(concept, content))
      case Some(v) => Returned(v)
  }

  /** A reply the parser refuses still yields an object, whose summary is the start of the unfenced reply. */
  lemma UnparsableReplyFallsBack(concept: string, reply: string, parse: string -> Option<Vision>)
    requires parse(Strip(StripFences(reply))).None?
    ensures var r := GenerateFutureVision(concept, Replied(reply), parse);
      r.Returned? && r.vision.VisionObject? && r.vision.summary == Some(Take(StripFences(reply), 500))
  {
  }
}
