/**
  The part the two question generators share (lib/integrations/openrouter/questions.ts
  and lib/integrations/openai/questions.ts run the same lines after parsing): option
  normalisation, the `??` defaults and the saved-row projection of `generateAndSaveQuestion`.
 */
module GeneratedQuestion {
  import opened Wrappers
  import opened JsValue

  /** A generated question; each field holds whatever value the parsed reply or its default supplied. */
  datatype Question = Question(question: Value, options: Value, correctAnswerIndex: Value, explanation: Value)

  const DefaultQuestionText: string := "Who painted the Mona Lisa?"
  const DefaultOptions: seq<string> := ["Leonardo da Vinci", "Michelangelo", "Raphael", "Donatello"]
  const DefaultExplanation: string :=
    "Leonardo da Vinci painted the Mona Lisa, one of the most famous portraits in the world."

  /** The fixed Mona Lisa question, with index 0 (Leonardo da Vinci) correct. */
  const MonaLisa: Question :=
    Question(Str(DefaultQuestionText), Arr(Strs(DefaultOptions)), Num(0), Str(DefaultExplanation))

  /** The fixed question is well formed: four string options, and its index 0 names Leonardo da Vinci. */
  lemma MonaLisaWellFormed()
    ensures MonaLisa.options.Arr? && |MonaLisa.options.items| == 4
    ensures forall i :: 0 <= i < 4 ==> MonaLisa.options.items[i].Str?
    ensures MonaLisa.correctAnswerIndex == Num(0) && MonaLisa.options.items[0] == Str("Leonardo da Vinci")
  {
  }

  /**
    One option: a string is kept; otherwise a truthy `text`, else a truthy `option`,
    else `String(opt)`. Missing when that `String(opt)` throws, which makes the
    whole `map` throw.
   */
  function NormalisedOption(opt: Value): (r: Option<Value>)
    ensures r.None? <==> !opt.Str? && !Truthy(Get(opt, "text")) && !Truthy(Get(opt, "option")) && StringThrows(opt)
    ensures opt.Str? ==> r == Some(opt)
    ensures !opt.Str? && Truthy(Get(opt, "text")) ==> r == Some(Get(opt, "text"))
    ensures !opt.Str? && !Truthy(Get(opt, "text")) && Truthy(Get(opt, "option")) ==> r == Some(Get(opt, "option"))
    ensures !opt.Str? && !Truthy(Get(opt, "text")) && !Truthy(Get(opt, "option")) && r.Some? ==> r == Some(Str(ToJsString(opt).value))
  {
    if opt.Str? then Some(opt)
    else if Truthy(Get(opt, "text")) then Some(Get(opt, "text"))
    else if Truthy(Get(opt, "option")) then Some(Get(opt, "option"))
    else match ToJsString(opt)
      case None => None
      case Some(text) => Some(Str(text))
  }

  /**
    The options normalisation: an array is mapped element by element, anything else
    is left as it is. Missing when normalising some element throws.
   */
  function NormalisedOptions(options: Value): (r: Option<Value>)
    ensures !options.Arr? ==> r == Some(options)
    ensures options.Arr? ==> (r.None? <==> exists i :: 0 <= i < |options.items| && NormalisedOption(options.items[i]).None?)
    ensures options.Arr? && r.Some? ==> r.value.Arr? && |r.value.items| == |options.items|
    ensures options.Arr? && r.Some? ==> forall i :: 0 <= i < |options.items| ==> Some(r.value.items[i]) == NormalisedOption(options.items[i])
  {
    if !options.Arr? then Some(options)
    else if exists i :: 0 <= i < |options.items| && NormalisedOption(options.items[i]).None? then None
    else Some(Arr(seq(|options.items|, i requires 0 <= i < |options.items| => NormalisedOption(options.items[i]).value)))
  }

  /** `parsed?.options ?? [the four Mona Lisa options]`. */
  function RawOptions(parsed: Value): Value {
    Coalesce(Get(parsed, "options"), Arr(Strs(DefaultOptions)))
  }

  /**
    The question built from a parsed reply (`null` when there was no content),
    missing when normalising the options throws.
   */
  function FromParsed(parsed: Value): (r: Option<Question>)
    ensures r.None? <==> NormalisedOptions(RawOptions(parsed)).None?
  {
    match NormalisedOptions(RawOptions(parsed))
    case None => None
    case Some(options) =>
      Some(Question(
        Coalesce(Get(parsed, "question"), Str(DefaultQuestionText)),
        options,
        Coalesce(Get(parsed, "correct_answer_index"), Num(0)),
        Coalesce(Get(parsed, "explanation"), Str(DefaultExplanation))))
  }

  /**
    Normalising throws exactly for an array element that is an object with an own
    `toString` member and no truthy `text` or `option`, or an array holding
    something that throws; every other element comes out.
   */
  lemma OptionThrowsExactly(opt: Value)
    ensures NormalisedOption(opt).None? <==>
      || (opt.Obj? && "toString" in opt.fields && !Truthy(Get(opt, "text")) && !Truthy(Get(opt, "option")))
      || (opt.Arr? && exists i :: 0 <= i < |opt.items| && StringThrows(opt.items[i]))
  {
  }

  /** The smallest throwing reply: an option `{"toString": 1}`. */
  lemma ToStringMemberThrows()
    ensures NormalisedOption(Obj(map["toString" := Num(1)])).None?
    ensures FromParsed(Obj(map["options" := Arr([Obj(map["toString" := Num(1)])])])).None?
  {
    var opt := Obj(map["toString" := Num(1)]);
    assert RawOptions(Obj(map["options" := Arr([opt])])) == Arr([opt]);
    assert NormalisedOption(Arr([opt]).items[0]).None?;
  }

  /**
    Normalising keeps the number and order of the options, and string items are left
    unchanged; it throws only when some item does.
   */
  lemma OptionsKeepLengthAndStrings(options: seq<Value>)
    ensures NormalisedOptions(Arr(options)).None? <==> exists i :: 0 <= i < |options| && NormalisedOption(options[i]).None?
    ensures NormalisedOptions(Arr(options)).Some? ==>
      && NormalisedOptions(Arr(options)).value.Arr?
      && |NormalisedOptions(Arr(options)).value.items| == |options|
      && forall i :: 0 <= i < |options| && options[i].Str? ==> NormalisedOptions(Arr(options)).value.items[i] == options[i]
  {
  }

  /**
    An option that does not throw comes out as a string unless it is an object whose
    chosen `text` or `option` value is itself not a string.
   */
  lemma OptionBecomesString(opt: Value)
    requires !opt.Obj? || ((Truthy(Get(opt, "text")) ==> Get(opt, "text").Str?)
                           && (Truthy(Get(opt, "option")) ==> Get(opt, "option").Str?))
    ensures NormalisedOption(opt).None? <==> StringThrows(opt) && !Truthy(Get(opt, "text")) && !Truthy(Get(opt, "option"))
    ensures NormalisedOption(opt).Some? ==> NormalisedOption(opt).value.Str?
  {
  }

  /** Normalising twice changes nothing more: the result of one pass is kept by the next. */
  lemma NormaliseIdempotent(options: Value)
    requires options.Arr? ==> forall i :: 0 <= i < |options.items| ==>
      NormalisedOption(options.items[i]).Some? && NormalisedOption(options.items[i]).value.Str?
    ensures NormalisedOptions(options).Some?
    ensures NormalisedOptions(NormalisedOptions(options).value) == NormalisedOptions(options)
  {
    if options.Arr? {
      var r := NormalisedOptions(options).value;
      assert forall i :: 0 <= i < |r.items| ==> NormalisedOption(r.items[i]) == Some(r.items[i]);
      assert NormalisedOptions(r).value.items == r.items;
    }
  }

  /**
    When the options do not throw, each field is taken from the reply when present
    and not null, and only a missing or null field gets its default.
   */
  lemma DefaultsOnlyForMissing(parsed: Value, key: string)
    requires key in {"question", "correct_answer_index", "explanation"}
    ensures FromParsed(parsed).Some? ==>
      var q := FromParsed(parsed).value;
      var field := if key == "question" then q.question
                   else if key == "correct_answer_index" then q.correctAnswerIndex
                   else q.explanation;
      var default := if key == "question" then Str(DefaultQuestionText)
                     else if key == "correct_answer_index" then Num(0)
                     else Str(DefaultExplanation);
      && (!Nullish(Get(parsed, key)) ==> field == Get(parsed, key))
      && (Nullish(Get(parsed, key)) ==> field == default)
  {
  }

  /** A present but falsy value such as `""` or `0` is kept, not defaulted. */
  lemma FalsyValuesKept(fields: map<string, Value>)
    requires "question" in fields && fields["question"] == Str("")
    requires "correct_answer_index" in fields && fields["correct_answer_index"] == Num(0)
    requires "explanation" in fields && fields["explanation"] == Bool(false)
    ensures FromParsed(Obj(fields)).Some? ==> FromParsed(Obj(fields)).value.question == Str("")
    ensures FromParsed(Obj(fields)).Some? ==> FromParsed(Obj(fields)).value.correctAnswerIndex == Num(0)
    ensures FromParsed(Obj(fields)).Some? ==> FromParsed(Obj(fields)).value.explanation == Bool(false)
  {
  }

  /** A reply of `null` (or anything without the fields) gives exactly the Mona Lisa question. */
  lemma NothingParsedIsMonaLisa(parsed: Value)
    requires !parsed.Obj?
    ensures FromParsed(parsed) == Some(MonaLisa)
  {
    var defaults := Strs(DefaultOptions);
    assert forall i :: 0 <= i < |defaults| ==> NormalisedOption(defaults[i]) == Some(defaults[i]);
    assert NormalisedOptions(Arr(defaults)).value.items == defaults;
  }

  /** A row of the `questions` table as `saveQuestion` returns it. */
  datatype QuestionRow = QuestionRow(id: string, questionText: Value, options: Value, correctAnswerIndex: Value, explanation: Value)

  /**
    `generateAndSaveQuestion` after generation: insert the question and return the
    stored row's fields. `insertedId` is the id the database assigns, or missing when
    the insert fails, which throws to the caller.
   */
  function Saved(generated: Question, insertedId: Option<string>): (r: Result<QuestionRow>)
    ensures insertedId.None? ==> r.Err?
    ensures insertedId.Some? ==> r.Ok? && r.value.id == insertedId.value
    ensures insertedId.Some? ==> r.value.questionText == generated.question && r.value.options == generated.options
    ensures insertedId.Some? ==> r.value.correctAnswerIndex == generated.correctAnswerIndex
    ensures insertedId.Some? ==> r.value.explanation == generated.explanation
  {
    match insertedId
    case None => Err("insert failed")
    case Some(id) => Ok(QuestionRow(id, generated.question, generated.options, generated.correctAnswerIndex, generated.explanation))
  }
}
