/**
  Question generation through OpenAI (lib/integrations/openai/questions.ts). Unlike the
  OpenRouter path nothing is caught: a failed call or content that does not parse
  reaches the caller as an error.
 */
module OpenAIQuestions {
  import opened Wrappers
  import opened JsValue
  import opened GeneratedQuestion
  import OpenRouterQuestions

  /** The completion call: it threw, or it returned `choices[0]?.message?.content`. */
  datatype Completion = CreateFailed | Completed(content: Option<string>)

  /** `content ? JSON.parse(content) : null`; `parse` is `JSON.parse`, missing when it throws. */
  function Parsed(content: Option<string>, parse: string -> Option<Value>): (r: Option<Value>)
    ensures !TruthyString(content) ==> r == Some(Null)
    ensures TruthyString(content) ==> r == parse(content.value)
  {
    if TruthyString(content) then parse(content.value) else Some(Null)
  }

  /**
    `generateTriviaQuestion(difficulty)`: a failed call, a `JSON.parse` error and a
    throwing `String(opt)` in the normalisation all reach the caller.
   */
  function Generate(completion: Completion, parse: string -> Option<Value>): Result<Question> {
    match completion
    case CreateFailed => Err("completion failed")
    case Completed(content) =>
      match Parsed(content, parse)
      case None => Err("SyntaxError")
      case Some(parsed) =>
        match FromParsed(parsed)
        case None => Err("TypeError")
        case Some(q) => Ok(q)
  }

  /** Missing or empty content parses as `null`, so every field takes its default. */
  lemma EmptyContentAllDefaults(content: Option<string>, parse: string -> Option<Value>)
    requires !TruthyString(content)
    ensures Generate(Completed(content), parse) == Ok(MonaLisa)
  {
    NothingParsedIsMonaLisa(Null);
  }

  /**
    The call fails exactly when the completion fails, the content does not parse,
    or normalising the parsed options throws; otherwise the parsed content is used
    with its defaults.
   */
  lemma ErrorsPropagate(completion: Completion, parse: string -> Option<Value>)
    ensures Generate(completion, parse).Err? <==>
      || completion.CreateFailed?
      || (TruthyString(completion.content) && parse(completion.content.value).None?)
      || (Parsed(completion.content, parse).Some? && FromParsed(Parsed(completion.content, parse).value).None?)
    ensures completion.Completed? && Parsed(completion.content, parse).Some? && FromParsed(Parsed(completion.content, parse).value).Some? ==>
      Generate(completion, parse) == Ok(FromParsed(Parsed(completion.content, parse).value).value)
  {
  }

  /** An option `{"toString": 1}` makes `String(opt)` throw an error here, where OpenRouter catches it and returns the fallback. */
  lemma ToStringOptionUnlikeOpenRouter(s: string, parse: string -> Option<Value>)
    requires s != "" && parse(s) == Some(Obj(map["options" := Arr([Obj(map["toString" := Num(1)])])]))
    ensures Generate(Completed(Some(s)), parse).Err?
    ensures OpenRouterQuestions.Generate(true, OpenRouterQuestions.Replied(Str(s)), parse) == MonaLisa
  {
    ToStringMemberThrows();
  }

  /** The same unparseable non-empty text is an error here but the fallback question through OpenRouter. */
  lemma UnlikeOpenRouter(s: string, parse: string -> Option<Value>)
    requires s != "" && parse(s).None?
    ensures Generate(Completed(Some(s)), parse).Err?
    ensures OpenRouterQuestions.Generate(true, OpenRouterQuestions.Replied(Str(s)), parse) == MonaLisa
  {
  }

  /** `generateAndSaveQuestion`: a generation error propagates before anything is saved. */
  function GenerateAndSave(completion: Completion, parse: string -> Option<Value>, insertedId: Option<string>): (r: Result<QuestionRow>)
    ensures Generate(completion, parse).Err? ==> r.Err?
    ensures Generate(completion, parse).Ok? ==> r == Saved(Generate(completion, parse).value, insertedId)
    ensures r.Ok? ==> r.value.id == insertedId.value && r.value.questionText == Generate(completion, parse).value.question
  {
    match Generate(completion, parse)
    case Err(e) => Err(e)
    case Ok(q) => Saved(q, insertedId)
  }
}
