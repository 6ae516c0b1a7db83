/**
  Question generation through OpenRouter (lib/integrations/openrouter/questions.ts).
  The chat request itself is an outcome given as a parameter, and `JSON.parse` is the
  parameter `parse` (missing result for text that is not JSON). Every failure is caught
  and turns into the fixed Mona Lisa question.
 */
module OpenRouterQuestions {
  import opened Wrappers
  import opened JsValue
  import opened GeneratedQuestion

  /** The chat call: it threw, or it answered with `choices[0]?.message?.content` (`Undefined` if any step is missing). */
  datatype Reply = SendFailed | Replied(content: Value)

  /** Whether an array item contributes to the text: `item.type === 'text' && item.text`. */
  predicate IsTextPart(item: Value) {
    Get(item, "type") == Str("text") && Truthy(Get(item, "text"))
  }

  /** What one item adds to the joined text: its `text` as a string, or nothing if it is filtered out. */
  function PartText(item: Value): Option<string> {
    if IsTextPart(item) then ToJsString(Get(item, "text")) else Some("")
  }

  /** Two pieces of text joined, missing when either is. */
  function Append(x: Option<string>, y: Option<string>): (r: Option<string>)
    ensures r.Some? <==> x.Some? && y.Some?
    ensures r.Some? ==> r.value == x.value + y.value
  {
    match (x, y)
    case (Some(a), Some(b)) => Some(a + b)
    case _ => None
  }

  /** `filter(IsTextPart).map(item => item.text).join('')`, missing when `join` throws on some text. */
  function PartsText(items: seq<Value>): (r: Option<string>)
    ensures r.None? <==> exists i :: 0 <= i < |items| && PartText(items[i]).None?
  {
    if items == [] then Some("")
    else
      assert forall i :: 0 <= i < |items| - 1 ==> items[..|items| - 1][i] == items[i];
      Append(PartsText(items[..|items| - 1]), PartText(items[|items| - 1]))
  }

  /** The joined text is built part by part, in order. */
  lemma {:induction false} PartsTextConcat(a: seq<Value>, b: seq<Value>)
    ensures PartsText(a + b) == Append(PartsText(a), PartsText(b))
    decreases |b|
  {
    if b == [] {
      assert a + b == a;
      if PartsText(a).Some? {
        assert PartsText(a).value + "" == PartsText(a).value;
      }
    } else {
      var front, last := b[..|b| - 1], b[|b| - 1];
      assert (a + b)[..|a + b| - 1] == a + front;
      PartsTextConcat(a, front);
      if PartsText(a).Some? && PartsText(front).Some? && PartText(last).Some? {
        var x, y, z := PartsText(a).value, PartsText(front).value, PartText(last).value;
        assert (x + y) + z == x + (y + z);
      }
    }
  }

  /** Only text parts with non-empty text contribute (each one its own text), and such a part throws exactly when `String` of its text does. */
  lemma PartsTextSingle(item: Value)
    ensures PartsText([item]) == if IsTextPart(item) then ToJsString(Get(item, "text")) else Some("")
    ensures PartsText([item]).None? <==> IsTextPart(item) && StringThrows(Get(item, "text"))
  {
    assert [item][..0] == [];
    if PartText(item).Some? {
      assert "" + PartText(item).value == PartText(item).value;
    }
  }

  /**
    The parsed content, or missing when the code throws: no content, an array with a
    `null` item (reading its `type` throws), a text that `join` cannot convert, no
    text, or text that does not parse. Any other content is serialised and parsed
    back, which gives the same value.
   */
  function ParsedContent(content: Value, parse: string -> Option<Value>): Option<Value> {
    if !Truthy(content) then None
    else match content
      case Str(s) => parse(s)
      case Arr(items) =>
        if exists i :: 0 <= i < |items| && Nullish(items[i]) then None
        else (
          match PartsText(items)
          case None => None
          case Some(text) => if text == "" then None else parse(text))
      case _ => Some(content)
  }

  /**
    `generateTriviaQuestion(difficulty)`; the difficulty only reaches the prompt.
    A throw anywhere in the `try`, normalisation included, gives the fallback.
   */
  function Generate(available: bool, reply: Reply, parse: string -> Option<Value>): Question {
    if !available then MonaLisa
    else match reply
      case SendFailed => MonaLisa
      case Replied(content) =>
        match ParsedContent(content, parse)
        case None => MonaLisa
        case Some(parsed) => FromParsed(parsed).GetOr(MonaLisa)
  }

  /** Without OpenRouter the fallback is returned, whatever the reply would have been. */
  lemma UnavailableGivesFallback(reply: Reply, parse: string -> Option<Value>)
    ensures Generate(false, reply, parse) == MonaLisa
  {
  }

  /** String content is parsed as it is; if it does not parse, or its options throw, the fallback is returned. */
  lemma StringContentParsed(s: string, parse: string -> Option<Value>)
    requires s != ""
    ensures parse(s).Some? && FromParsed(parse(s).value).Some? ==> Generate(true, Replied(Str(s)), parse) == FromParsed(parse(s).value).value
    ensures parse(s).None? || FromParsed(parse(s).value).None? ==> Generate(true, Replied(Str(s)), parse) == MonaLisa
  {
  }

  /** Array content is parsed as the in-order concatenation of its text parts. */
  lemma ArrayContentJoined(items: seq<Value>, parse: string -> Option<Value>)
    requires forall i :: 0 <= i < |items| ==> !Nullish(items[i])
    requires PartsText(items).Some? && PartsText(items).value != "" && parse(PartsText(items).value).Some?
    ensures Generate(true, Replied(Arr(items)), parse) == FromParsed(parse(PartsText(items).value).value).GetOr(MonaLisa)
  {
    var content := Arr(items);
    assert Truthy(content);
    assert ParsedContent(content, parse) == parse(PartsText(items).value);
  }

  /**
    Missing or empty content, a failed call, a `null` part, a text part whose text
    `String` cannot convert, text without any part, or options that throw all give
    the fallback.
   */
  lemma ErrorsGiveFallback(reply: Reply, parse: string -> Option<Value>)
    requires || reply.SendFailed?
             || !Truthy(reply.content)
             || (reply.content.Arr? && (PartsText(reply.content.items) == Some("")
                                        || PartsText(reply.content.items).None?
                                        || exists i :: 0 <= i < |reply.content.items| && Nullish(reply.content.items[i])))
             || (ParsedContent(reply.content, parse).Some? && FromParsed(ParsedContent(reply.content, parse).value).None?)
    ensures Generate(true, reply, parse) == MonaLisa
  {
  }

  /** An option `{"toString": 1}` makes `String(opt)` throw; the catch turns that into the fallback. */
  lemma ToStringOptionGivesFallback(s: string, parse: string -> Option<Value>)
    requires s != "" && parse(s) == Some(Obj(map["options" := Arr([Obj(map["toString" := Num(1)])])]))
    ensures Generate(true, Replied(Str(s)), parse) == MonaLisa
  {
    ToStringMemberThrows();
  }

  /** The result is either the fallback or built from some parsed value: the function never throws. */
  lemma GenerateIsFallbackOrParsed(available: bool, reply: Reply, parse: string -> Option<Value>)
    ensures Generate(available, reply, parse) == MonaLisa
         || exists parsed :: ParsedContent(reply.content, parse) == Some(parsed)
                          && FromParsed(parsed) == Some(Generate(available, reply, parse))
  {
    var q := Generate(available, reply, parse);
    if q != MonaLisa {
      var parsed := ParsedContent(reply.content, parse).value;
      assert FromParsed(parsed) == Some(Generate(available, reply, parse));
    }
  }

  /** `generateAndSaveQuestion`: generate (never failing) and save. */
  function GenerateAndSave(available: bool, reply: Reply, parse: string -> Option<Value>, insertedId: Option<string>): (r: Result<QuestionRow>)
    ensures insertedId.None? <==> r.Err?
    ensures r.Ok? ==> r.value == QuestionRow(insertedId.value, Generate(available, reply, parse).question,
                                              Generate(available, reply, parse).options,
                                              Generate(available, reply, parse).correctAnswerIndex,
                                              Generate(available, reply, parse).explanation)
  {
    Saved(Generate(available, reply, parse), insertedId)
  }
}
