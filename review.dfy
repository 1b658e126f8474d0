/**
 * `main`, the entry point of the AI service: reject missing code, build the
 * review prompt, call the model through the retry loop with the service's
 * fixed policy, and pull the review text out of whatever shape of response
 * comes back.
 */
module Review {
  import opened Wrappers
  import opened JsValues
  import opened Backoff
  import opened Status
  import opened Retry

  /** The reviewer role and the nine-section output schema that open every prompt. */
  const SystemInstruction: string :=
    "\nYou are a senior software engineer and professional code reviewer.\n"
    + "When given a code snippet, produce a concise, accurate, and well-structured review that a developer can use immediately.\n"
    + "Follow this output schema exactly:\n"
    + "\n"
    + "1. One-line summary.\n"
    + "2. Key issues (title, severity, short impact).\n"
    + "3. Reproduction & assumptions.\n"
    + "4. Corrected code (complete, runnable snippet).\n"
    + "5. Minimal patch/diff.\n"
    + "6. Explanation of changes.\n"
    + "7. Tests & validation example.\n"
    + "8. Edge cases & further improvements.\n"
    + "9. Final verdict and recommended next steps.\n"
    + "\n"
    + "Use Markdown, code fences, and idiomatic language-specific best practices.\n"

  const ModelName := "gemini-2.5-flash"

  /** The value of `language` when the caller passes none. */
  const DefaultLanguage := "javascript"

  /** The retry options `main` passes: 5 attempts, base delay 600 ms, cap 8000 ms. */
  const MainPolicy := Policy(5, 600, 8000)

  /** The error thrown, before any call, when there is no code to review. */
  const MissingCode := ServiceError(Num(400), "Code input is required", Undefined)

  /** A default parameter: it replaces `undefined` only, not `null` or `""`. */
  function LanguageOrDefault(language: Value): (tag: Value)
    ensures !tag.Undefined?
    ensures tag == language || tag == Str(DefaultLanguage)
  {
    if language.Undefined? then Str(DefaultLanguage) else language
  }

  /** The line that introduces the code, naming its language. */
  function Intro(language: string): string {
    "  \n\nUser code (" + language + "):\n"
  }

  /** The opening code fence, tagged with the language. */
  function OpenFence(language: string): string {
    "```" + language + "\n"
  }

  const CloseFence := "\n```"

  const ClosingRequest := "\n\nPlease produce the review following the schema above.\n"

  /**
   * The prompt up to the user's code: the instruction, then the opening fence
   * tagged with the language. The instruction is a parameter so that the
   * lemmas below hold for any instruction text.
   */
  function PromptHead(instruction: string, language: string): string {
    "\n" + instruction + Intro(language) + OpenFence(language)
  }

  /** The prompt after the user's code: the closing fence and the closing request. */
  const PromptTail := CloseFence + ClosingRequest

  /**
   * The prompt template, with the language and the code interpolated as
   * strings; PromptRoundTrip and PromptContents say what it keeps.
   */
  function Prompt(instruction: string, language: string, code: string): string {
    PromptHead(instruction, language) + code + PromptTail
  }

  /** The parameters handed to the model client for `userCode` in `language`, opening with `instruction`. */
  function ReviewRequest(instruction: string, userCode: Value, language: Value): (request: Request)
    ensures request.model == "gemini-2.5-flash"
  {
    Request(ModelName, Prompt(instruction, ToStr(LanguageOrDefault(language)), ToStr(userCode)))
  }

  /** `part` occurs somewhere in `whole`. */
  ghost predicate InfixOf(part: string, whole: string) {
    exists i :: 0 <= i <= |whole| && part <= whole[i..]
  }

  /** The second of six consecutive pieces occurs in their concatenation. */
  lemma InfixSecond(a: string, b: string, c: string, d: string, e: string, f: string)
    ensures InfixOf(b, a + b + c + d + e + f)
  {
    var whole := a + b + c + d + e + f;
    assert whole[|a|..] == b + (c + d + e + f);
  }

  /** A fence, the code and the closing fence occur together after the head, before the closing request. */
  lemma InfixFenced(head: string, open: string, code: string, close: string, rest: string)
    ensures InfixOf(open + code + close, head + open + code + (close + rest))
  {
    var whole := head + open + code + (close + rest);
    assert whole[|head|..] == open + code + close + rest;
  }

  /** The code read back out of a prompt: what lies between the two fences. */
  function CodeOf(instruction: string, language: string, prompt: string): (code: Option<string>)
    ensures code.Some? ==> |code.value| == |prompt| - |PromptHead(instruction, language)| - |PromptTail|
  {
    var head := PromptHead(instruction, language);
    if |head| + |PromptTail| <= |prompt| && head <= prompt && prompt[|prompt| - |PromptTail|..] == PromptTail
    then Some(prompt[|head|..|prompt| - |PromptTail|])
    else None
  }

  /** The code is sent verbatim: it can be read back out of the prompt, so different code gives different prompts. */
  lemma PromptRoundTrip(instruction: string, language: string, code: string)
    ensures CodeOf(instruction, language, Prompt(instruction, language, code)) == Some(code)
  {
    var head, prompt := PromptHead(instruction, language), Prompt(instruction, language, code);
    assert prompt[..|head|] == head;
    assert prompt[|prompt| - |PromptTail|..] == PromptTail;
    assert prompt[|head|..|prompt| - |PromptTail|] == code;
  }

  /** The prompt carries the whole instruction, and the code inside a fence tagged with the language. */
  lemma PromptContents(instruction: string, language: string, code: string)
    ensures InfixOf(instruction, Prompt(instruction, language, code))
    ensures InfixOf(OpenFence(language) + code + CloseFence, Prompt(instruction, language, code))
  {
    InfixSecond("\n", instruction, Intro(language), OpenFence(language), code, PromptTail);
    InfixFenced("\n" + instruction + Intro(language), OpenFence(language), code, CloseFence, ClosingRequest);
  }

  /**
   * The request `main` sends: the fixed model, a prompt carrying the whole
   * instruction and `String(userCode)` verbatim, and the language tag, which
   * is "javascript" only when no language is passed; `null` gives "null".
   */
  lemma ReviewPrompt(instruction: string, userCode: Value, language: Value)
    ensures var request := ReviewRequest(instruction, userCode, language);
      var tag := ToStr(LanguageOrDefault(language));
      && request.model == "gemini-2.5-flash"
      && CodeOf(instruction, tag, request.contents) == Some(ToStr(userCode))
      && InfixOf(instruction, request.contents)
      && (language.Undefined? ==> tag == "javascript")
      && (language.Null? ==> tag == "null")
      && (language.Str? ==> tag == language.s)
      && (!language.Undefined? ==> tag == ToStr(language))
  {
    var tag := ToStr(LanguageOrDefault(language));
    PromptRoundTrip(instruction, tag, ToStr(userCode));
    PromptContents(instruction, tag, ToStr(userCode));
  }

  /** What one extraction strategy makes of a response: nothing, a text, or an exception. */
  datatype Attempt = Skip | Take(text: Value) | Abort

  /**
   * `parts.map(p => p.text)` over an array: each part's `text`, or `None` for
   * the TypeError thrown when a part is `null` or `undefined`.
   */
  function PartTexts(parts: seq<Value>): (texts: Option<seq<Value>>)
    ensures texts.None? <==> exists i :: 0 <= i < |parts| && Nullish(parts[i])
    ensures texts.Some? ==>
      |texts.value| == |parts| && forall i :: 0 <= i < |parts| ==> texts.value[i] == Prop(parts[i], "text")
  {
    if parts == [] then Some([])
    else if Nullish(parts[0]) then None
    else match PartTexts(parts[1..])
      case None => None
      case Some(rest) => Some([Prop(parts[0], "text")] + rest)
  }

  /** `texts.join('\n')`: `null` and `undefined` entries contribute the empty string. */
  function JoinLines(texts: seq<Value>): string {
    JoinSep(seq(|texts|, i requires 0 <= i < |texts| => JoinElement(texts[i])), "\n")
  }

  /** The parts of the first candidate, `response?.candidates[0]?.content?.parts`, when there are candidates. */
  function FirstParts(response: Value): (parts: Option<Value>)
    ensures Nullish(response) ==> parts.None?
    ensures Prop(response, "candidates").Arr? ==> (parts.Some? <==> Prop(response, "candidates").items != [])
  {
    var candidates := Prop(response, "candidates");
    if Truthy(Prop(candidates, "length")) then Some(Prop(Prop(Index0(candidates), "content"), "parts"))
    else None
  }

  /**
   * The first strategy, given the first candidate's parts if there are
   * candidates: the parts' texts joined by newlines, an exception when `parts`
   * is not an array or holds a missing part, and nothing when there are no
   * candidates or the parts are falsy.
   */
  function FromParts(firstParts: Option<Value>): (a: Attempt)
    ensures a.Take? ==> a.text.Str?
    ensures a.Abort? <==>
      (&& firstParts.Some? && Truthy(firstParts.value)
       && (!firstParts.value.Arr? || exists i :: 0 <= i < |firstParts.value.items| && Nullish(firstParts.value.items[i])))
  {
    match firstParts
    case None => Skip
    case Some(parts) =>
      if !Truthy(parts) then Skip
      else if !parts.Arr? then Abort
      else match PartTexts(parts.items)
        case None => Abort
        case Some(texts) => Take(Str(JoinLines(texts)))
  }

  /** The ways of finding the text, tried in this order. */
  datatype Strategy = CandidateParts | DirectText | NestedText | Serialized

  const Strategies := [CandidateParts, DirectText, NestedText, Serialized]

  /**
   * One strategy on its own: the candidates' parts, the response's `text`,
   * the wrapped response's `text`, and the JSON text of the whole response,
   * which always applies.
   */
  function Try(s: Strategy, response: Value): (a: Attempt)
    ensures s.Serialized? ==> a == Take(JsonValue(Stringify(response)))
    ensures a.Abort? ==> s.CandidateParts?
    ensures a.Take? && !response.Undefined? ==> !Nullish(a.text)
    ensures response.Undefined? ==> a == if s.Serialized? then Take(Undefined) else Skip
  {
    match s
    case CandidateParts => FromParts(FirstParts(response))
    case DirectText =>
      if Nullish(Prop(response, "text")) then Skip else Take(Prop(response, "text"))
    case NestedText =>
      if Nullish(Prop(Prop(response, "response"), "text")) then Skip else Take(Prop(Prop(response, "response"), "text"))
    case Serialized => Take(JsonValue(Stringify(response)))
  }

  /** The first strategy that takes a text wins; an exception falls back to the JSON text of the response. */
  function FirstApplicable(strategies: seq<Strategy>, response: Value): (text: Value)
    ensures Nullish(text) <==> response.Undefined?
  {
    if strategies == [] then JsonValue(Stringify(response))
    else match Try(strategies[0], response)
      case Take(text) => text
      case Abort => JsonValue(Stringify(response))
      case Skip => FirstApplicable(strategies[1..], response)
  }

  /** The review text extracted from a response, converted with `String(...)`. */
  function ExtractText(response: Value): (text: string)
    ensures response.Undefined? ==> text == "undefined"
  {
    ToStr(FirstApplicable(Strategies, response))
  }

  /**
   * The strategy list is the code's `??` chain: the parts' text when there is
   * one, the JSON text after an exception, and otherwise the first of
   * `response.text`, `response.response.text` and the JSON text that is
   * neither `null` nor `undefined`.
   */
  lemma {:induction false} ExtractionChain(response: Value)
    ensures FirstApplicable(Strategies, response) ==
      match FromParts(FirstParts(response))
      case Take(text) => text
      case Abort => JsonValue(Stringify(response))
      case Skip =>
        Coalesce(Coalesce(Prop(response, "text"), Prop(Prop(response, "response"), "text")), JsonValue(Stringify(response)))
  {
    var rest := Strategies[1..];
    assert rest == [DirectText, NestedText, Serialized];
    assert rest[1..] == [NestedText, Serialized];
    assert rest[1..][1..] == [Serialized];
    var nested := FirstApplicable([NestedText, Serialized], response);
    assert FirstApplicable([Serialized], response) == JsonValue(Stringify(response));
    assert nested == Coalesce(Prop(Prop(response, "response"), "text"), JsonValue(Stringify(response)));
  }

  /** `parts.map(p => p.text)`, one part at a time; `threw` is the TypeError on a missing part. */
  method MapPartTexts(parts: seq<Value>) returns (texts: seq<Value>, threw: bool)
    ensures threw <==> PartTexts(parts).None?
    ensures !threw ==> texts == PartTexts(parts).value
  {
    texts := [];
    var i := 0;
    while i < |parts|
      invariant 0 <= i <= |parts|
      invariant |texts| == i
      invariant forall j :: 0 <= j < i ==> !Nullish(parts[j]) && texts[j] == Prop(parts[j], "text")
    {
      if Nullish(parts[i]) {
        return texts, true;
      }
      texts := texts + [Prop(parts[i], "text")];
      i := i + 1;
    }
    threw := false;
  }

  /**
   * The extraction block of `main`: a mutable `text` filled from the first
   * candidate's parts, then the `??` chain, with the exception path falling
   * back to the JSON text of the response. It computes ExtractText.
   */
  method NormalizeResponse(response: Value) returns (s: string)
    ensures s == ExtractText(response)
  {
    var text := Null;
    var threw := false;
    var candidates := Prop(response, "candidates");
    if Truthy(Prop(candidates, "length")) {
      var cand0 := Index0(candidates);
      var parts := Prop(Prop(cand0, "content"), "parts");
      if Truthy(parts) {
        if parts.Arr? {
          var texts, mapThrew := MapPartTexts(parts.items);
          if mapThrew {
            threw := true;
          } else {
            text := Str(JoinLines(texts));
          }
        } else {
          threw := true;
        }
      } else if Truthy(Prop(Index0(parts), "text")) {
        // A falsy `parts` has no first element, so this branch is never taken.
        assert false;
      }
    }
    ghost var parts := FromParts(FirstParts(response));
    assert threw <==> parts.Abort?;
    assert !threw ==> (parts.Skip? && text == Null) || parts == Take(text);
    ExtractionChain(response);
    if threw {
      text := JsonValue(Stringify(response));
    } else {
      text := Coalesce(Coalesce(Coalesce(text, Prop(response, "text")), Prop(Prop(response, "response"), "text")),
                       JsonValue(Stringify(response)));
    }
    s := ToStr(text);
  }

  /** The `else if` on the first part's text can never hold: it is reached only when `parts` is falsy. */
  lemma FirstPartBranchDead(parts: Value)
    requires !Truthy(parts)
    ensures !Truthy(Prop(Index0(parts), "text"))
  {
  }

  /**
   * The whole of `main`: its result (the review text, or the error thrown)
   * and the trace of the calls, warnings and sleeps it caused.
   */
  function ReviewRun(instruction: string, userCode: Value, language: Value, remote: Remote, draws: Draws)
    : (r: (Result<string, ServiceError>, seq<Event>))
    ensures r.1 == [] <==> !Truthy(userCode)
    ensures r.1 == [] ==> r.0 == Failure(MissingCode)
    ensures r.1 != [] ==> r.1[0] == Called(1)
  {
    if !Truthy(userCode) then (Failure(MissingCode), [])
    else
      var run := RetryFrom(1, Null, MainPolicy, ReviewRequest(instruction, userCode, language), remote, draws, IsOverloaded);
      match Finish(run.0)
      case Success(response) => (Success(ExtractText(response)), run.1)
      case Failure(e) => (Failure(e), run.1)
  }

  /** `main(userCode, language)`: validation, the prompt, the retried call and the extraction. */
  method ReviewCode(userCode: Value, language: Value, remote: Remote, draws: Draws)
    returns (result: Result<string, ServiceError>, trace: seq<Event>)
    ensures (result, trace) == ReviewRun(SystemInstruction, userCode, language, remote, draws)
  {
    if !Truthy(userCode) {
      return Failure(MissingCode), [];
    }
    var prompt := Prompt(SystemInstruction, ToStr(LanguageOrDefault(language)), ToStr(userCode));
    var params := Request(ModelName, prompt);
    var response;
    response, trace := GenerateWithRetry(params, MainPolicy, remote, draws);
    match response {
      case Failure(e) =>
        result := Failure(e);
      case Success(r) =>
        var text := NormalizeResponse(r);
        result := Success(text);
    }
  }

  /** When the first candidate's parts are an array without missing parts, their texts joined by newlines are the result. */
  lemma ExtractJoinsParts(response: Value, items: seq<Value>)
    requires FirstParts(response) == Some(Arr(items))
    requires forall i :: 0 <= i < |items| ==> !Nullish(items[i])
    ensures ExtractText(response) == JoinLines(PartTexts(items).value)
  {
    var joined := JoinLines(PartTexts(items).value);
    assert FromParts(FirstParts(response)) == Take(Str(joined)) by {
      PartsJoined(items);
    }
    assert FirstApplicable(Strategies, response) == Str(joined) by {
      ExtractionChain(response);
    }
  }

  lemma PartsJoined(items: seq<Value>)
    requires forall i :: 0 <= i < |items| ==> !Nullish(items[i])
    ensures FromParts(Some(Arr(items))) == Take(Str(JoinLines(PartTexts(items).value)))
  {
    assert PartTexts(items).Some?;
    assert Truthy(Arr(items));
  }

  /**
   * When the first candidate's parts are present but `map` throws on them (not
   * an array, or a missing part), the result is the JSON text of the response.
   */
  lemma ExtractAfterException(response: Value, parts: Value)
    requires FirstParts(response) == Some(parts) && Truthy(parts)
    requires !parts.Arr? || exists i :: 0 <= i < |parts.items| && Nullish(parts.items[i])
    ensures Stringify(response).Some?
    ensures ExtractText(response) == Stringify(response).value
  {
    ExtractionChain(response);
  }

  /** Without usable candidate parts, a string `response.text` is the result, even when it is empty. */
  lemma ExtractDirectText(response: Value, text: string)
    requires FirstParts(response).None? || !Truthy(FirstParts(response).value)
    requires Prop(response, "text") == Str(text)
    ensures ExtractText(response) == text
  {
    ExtractionChain(response);
  }

  /** Next comes `response.response.text`, used when `response.text` is `null` or `undefined`. */
  lemma ExtractNestedText(response: Value, text: string)
    requires FirstParts(response).None? || !Truthy(FirstParts(response).value)
    requires Nullish(Prop(response, "text"))
    requires Prop(Prop(response, "response"), "text") == Str(text)
    ensures ExtractText(response) == text
  {
    ExtractionChain(response);
  }

  /** With none of those, the result is the JSON text of the response, or "undefined" for no response at all. */
  lemma ExtractSerialized(response: Value)
    requires FirstParts(response).None? || !Truthy(FirstParts(response).value)
    requires Nullish(Prop(response, "text")) && Nullish(Prop(Prop(response, "response"), "text"))
    ensures response.Undefined? ==> ExtractText(response) == "undefined"
    ensures !response.Undefined? ==> ExtractText(response) == Stringify(response).value
  {
    ExtractionChain(response);
  }

  /** A candidate-shaped response with two parts gives their texts on two lines. */
  lemma ExtractCandidateExample(a: string, b: string)
    ensures ExtractText(Obj([Field("candidates", Arr([
              Obj([Field("content", Obj([Field("parts", Arr([
                Obj([Field("text", Str(a))]), Obj([Field("text", Str(b))])]))]))])]))])) == a + "\n" + b
  {
    var items := [Obj([Field("text", Str(a))]), Obj([Field("text", Str(b))])];
    var response := Obj([Field("candidates", Arr([Obj([Field("content", Obj([Field("parts", Arr(items))]))])]))]);
    assert FirstParts(response) == Some(Arr(items));
    TwoPartsJoined(a, b);
    ExtractJoinsParts(response, items);
  }

  /** Two parts with string texts map to those texts, which join into two lines. */
  lemma TwoPartsJoined(a: string, b: string)
    ensures PartTexts([Obj([Field("text", Str(a))]), Obj([Field("text", Str(b))])]) == Some([Str(a), Str(b)])
    ensures JoinLines([Str(a), Str(b)]) == a + "\n" + b
  {
    var items := [Obj([Field("text", Str(a))]), Obj([Field("text", Str(b))])];
    assert PartTexts(items) == Some([Str(a), Str(b)]) by {
      assert items[1..] == [items[1]];
      assert PartTexts([items[1]]) == Some([Str(b)]) by {
        assert Prop(items[1], "text") == Str(b);
        assert [items[1]][1..] == [];
        assert PartTexts([]) == Some([]);
        assert [Str(b)] + [] == [Str(b)];
      }
      assert [Str(a)] + [Str(b)] == [Str(a), Str(b)];
    }
    var texts := [Str(a), Str(b)];
    var lines := seq(2, i requires 0 <= i < 2 => JoinElement(texts[i]));
    assert JoinElement(Str(a)) == a && JoinElement(Str(b)) == b;
    assert lines[0] == JoinElement(texts[0]) && lines[1] == JoinElement(texts[1]);
    assert lines == [a, b];
    assert lines[1..] == [b];
  }

  /** A flat response gives its `text`. */
  lemma ExtractTextExample()
    ensures ExtractText(Obj([Field("text", Str("hello"))])) == "hello"
  {
    ExtractDirectText(Obj([Field("text", Str("hello"))]), "hello");
  }

  /** An unrecognised shape gives its JSON text. */
  lemma ExtractUnknownExample()
    ensures ExtractText(Obj([Field("foo", Num(1))])) == "{\"foo\":1}"
  {
    ExtractSerialized(Obj([Field("foo", Num(1))]));
    StringifyExample();
  }

  /** Missing or empty code is rejected with status 400 before the model is called. */
  lemma ReviewRejectsMissingCode(instruction: string, userCode: Value, language: Value, remote: Remote, draws: Draws)
    requires !Truthy(userCode)
    ensures var (result, trace) := ReviewRun(instruction, userCode, language, remote, draws);
      result.Failure? && result.error.status == Num(400) && Calls(trace) == 0
  {
  }

  /** The model is called at most five times, with exactly one sleep between consecutive calls. */
  lemma ReviewCallsBounded(instruction: string, userCode: Value, language: Value, remote: Remote, draws: Draws)
    ensures var trace := ReviewRun(instruction, userCode, language, remote, draws).1;
      Calls(trace) <= 5 && Sleeps(trace) == (if Calls(trace) == 0 then 0 else Calls(trace) - 1)
  {
    if Truthy(userCode) {
      RunCallsBounded(1, Null, MainPolicy, ReviewRequest(instruction, userCode, language), remote, draws, IsOverloaded);
    }
  }

  /** For draws in [0, 1), every sleep lasts between 300 and 8000 milliseconds. */
  lemma ReviewDelaysBounded(instruction: string, userCode: Value, language: Value, remote: Remote, draws: Draws)
    requires forall i: nat :: 0.0 <= draws(i) < 1.0
    ensures SleepsWithin(ReviewRun(instruction, userCode, language, remote, draws).1, 300, 8000)
  {
    ServiceSchedule();
    if Truthy(userCode) {
      RunDelaysBounded(1, Null, MainPolicy, ReviewRequest(instruction, userCode, language), remote, draws, IsOverloaded);
    } else {
      SleepsWithinRound(0, 300, [], 300, 8000);
    }
  }

  /**
   * When the model answers call `k` after `k` overloaded failures, the review
   * is the text extracted from that answer, after `k + 1` calls and `k` sleeps.
   */
  lemma ReviewSucceedsAfter(instruction: string, userCode: Value, language: Value, remote: Remote, draws: Draws, k: nat, response: Value)
    requires Truthy(userCode) && k < 5
    requires remote(ReviewRequest(instruction, userCode, language), k) == Returned(response)
    requires forall j :: 0 <= j < k ==> RetryableThrow(remote(ReviewRequest(instruction, userCode, language), j), IsOverloaded)
    ensures var (result, trace) := ReviewRun(instruction, userCode, language, remote, draws);
      result == Success(ExtractText(response)) && Calls(trace) == k + 1 && Sleeps(trace) == k
  {
    RunSucceedsAt(1, Null, MainPolicy, ReviewRequest(instruction, userCode, language), remote, draws, IsOverloaded, k, response);
  }

  /** A first failure that is not an overload is thrown, wrapped, after that one call and no sleep. */
  lemma ReviewFatal(instruction: string, userCode: Value, language: Value, remote: Remote, draws: Draws, err: Value)
    requires Truthy(userCode)
    requires remote(ReviewRequest(instruction, userCode, language), 0) == Threw(err) && !IsOverloaded(err)
    ensures var (result, trace) := ReviewRun(instruction, userCode, language, remote, draws);
      result == Failure(WrapError(err)) && trace == [Called(1)]
  {
  }

  /**
   * When all five calls fail overloaded, the error thrown has status 503 and
   * wraps the fifth failure, after five calls, five warnings and four sleeps.
   */
  lemma ReviewExhausted(instruction: string, userCode: Value, language: Value, remote: Remote, draws: Draws)
    requires Truthy(userCode)
    requires forall j :: 0 <= j < 5 ==> RetryableThrow(remote(ReviewRequest(instruction, userCode, language), j), IsOverloaded)
    ensures var (result, trace) := ReviewRun(instruction, userCode, language, remote, draws);
      && result.Failure? && result.error.status == Overloaded
      && remote(ReviewRequest(instruction, userCode, language), 4).Threw?
      && result.error.raw == remote(ReviewRequest(instruction, userCode, language), 4).error
      && Calls(trace) == 5 && Warnings(trace) == 5 && Sleeps(trace) == 4
  {
    var request := ReviewRequest(instruction, userCode, language);
    var run := RetryFrom(1, Null, MainPolicy, request, remote, draws, IsOverloaded);
    var last := remote(request, 4).error;
    assert run.0 == GaveUp(last) && Calls(run.1) == 5 && Warnings(run.1) == 5 && Sleeps(run.1) == 4 by {
      RunExhausted(1, Null, MainPolicy, request, remote, draws, IsOverloaded);
    }
    assert Finish(run.0) == Failure(WrapError(last)) && WrapError(last).status == Overloaded by {
      WrappedOverloadIs503(last);
    }
  }
}
