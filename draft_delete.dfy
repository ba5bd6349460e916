/** The first draft generator (`src/generatorDELETE.py`): `generate_question` builds the
    prompt from the phase and the category descriptor and hands it to
    `call_huggingface_api`, which asks the inference client when it can and otherwise
    posts to the HTTP endpoint, and formats the candidate with `format_question`. */
module DraftDelete {
  import opened Wrappers
  import opened PyText
  import opened PyJson
  import opened Errors
  import opened Phase
  import opened Category
  import opened Format
  import opened Transport
  import opened Environ

  /** `generate_question(topic, fase, categoria)` */
  function GenerateQuestion(p: Provider, topic: string, fase: PhaseArg, categoria: Option<string>): (r: Result<Json, Failure>)
    ensures r.Success? ==> Delivered(r.value, AltCount(NormalizePhase(fase)))
    ensures UsesClient(p) && r.Failure? ==> Class(r.error) == RuntimeError
  {
    var count := AltCount(NormalizePhase(fase));
    CallHuggingFace(p, PromptFor(topic, count, categoria), count, Letters)
  }

  /** What the prompt is built from: the category descriptor, the topic, and the
      number and letters of the alternatives. */
  function PromptFor(topic: string, count: nat, categoria: Option<string>): Prompt
    requires count <= |Letters|
  {
    Prompt(CategoryDescriptor(categoria), topic, count, LabelList(count))
  }

  /** `call_huggingface_api(prompt, num_alts, letters)`; an empty `letters` stands for
      the default `None`, and both are replaced by A..E. Every failure on the client
      path is a `RuntimeError` wrapping the original one. */
  function CallHuggingFace(p: Provider, prompt: Prompt, count: int, letters: seq<string>): (r: Result<Json, Failure>)
    ensures r.Success? ==> Delivered(r.value, count)
    ensures UsesClient(p) && r.Failure? ==> r.error.ClientFailed? && Class(r.error) == RuntimeError
  {
    var letters := if letters == [] then Letters else letters;
    if UsesClient(p) then ClientPath(p, prompt, count, letters) else HttpPath(p, prompt, count, letters)
  }

  /** The `try` block around the inference client: whatever it raises, the model's own
      `ValueError` included, comes out as `RuntimeError("Erro no InferenceClient: ...")`. */
  function ClientPath(p: Provider, prompt: Prompt, count: int, letters: seq<string>): (r: Result<Json, Failure>)
    ensures r.Success? ==> r == ClientAttempt(p, prompt, count, letters)
    ensures ClientAttempt(p, prompt, count, letters).Failure? ==> r == Failure(ClientFailed(ClientAttempt(p, prompt, count, letters).error))
    ensures r.Failure? ==> Class(r.error) == RuntimeError
  {
    var a := ClientAttempt(p, prompt, count, letters);
    if a.Success? then a else Failure(ClientFailed(a.error))
  }

  /** The body of that `try` block: what the client raises comes out as it is, and a
      question comes only from a reply whose candidate formats. */
  function ClientAttempt(p: Provider, prompt: Prompt, count: int, letters: seq<string>): (r: Result<Json, Failure>)
    ensures p.chat(prompt).ClientRaised? ==> r == Failure(LibraryFault(p.chat(prompt).detail))
    ensures r.Success? ==> Delivered(r.value, count)
  {
    match p.chat(prompt)
    case ClientRaised(detail) => Failure(LibraryFault(detail))
    case ClientReplied(reply) =>
      var text :- ChatText(reply, Arr([Obj(map[])]));
      var parsed :- FindJsonIn(text, p.builtins);
      if parsed.Some? && Truthy(parsed.value) then FormatQuestion(parsed.value, count, letters, p.builtins.render)
      else Failure(InvalidModelResponse(text))
  }

  /** The HTTP fallback: a failed POST and a 4xx or 5xx status (`raise_for_status`) are
      connection errors; then only a non-empty list whose first item is a dictionary is
      understood, and its text goes through `_find_json` and `format_question`, whose
      errors are not caught. */
  function HttpPath(p: Provider, prompt: Prompt, count: int, letters: seq<string>): (r: Result<Json, Failure>)
    ensures p.post(prompt).PostRaised? ==> r.Failure? && r.error.ConnectionFailed?
    ensures r.Success? ==> p.post(prompt).HttpResponse? && !(400 <= p.post(prompt).status < 600)
    ensures r.Success? ==> Delivered(r.value, count)
  {
    match p.post(prompt)
    case PostRaised(detail) => Failure(ConnectionFailed(LibraryFault(detail)))
    case HttpResponse(status, text) =>
      if 400 <= status < 600 then Failure(ConnectionFailed(StatusRejected(status)))
      else
        var body := DecodeBody(text, p.builtins);
        match FirstRecord(body)
        case None => Failure(NotUnderstood(BodyValue(body)))
        case Some(rec) =>
          var txt := ResponseText(rec, Str(""));
          var parsed :- FindJsonIn(OrEmpty(txt), p.builtins);
          if parsed.Some? && Truthy(parsed.value) then FormatQuestion(parsed.value, count, letters, p.builtins.render)
          else Failure(InvalidFallbackResponse(txt))
  }

  /** Every question the first draft returns has the shape the tests check: 4
      alternatives starting "A) ".."D) " in phase 1, 5 starting "A) ".."E) " otherwise,
      and a stripped, upper-cased answer. */
  lemma GeneratedShape(p: Provider, topic: string, fase: PhaseArg, categoria: Option<string>)
    requires GenerateQuestion(p, topic, fase, categoria).Success?
    ensures Shaped(GenerateQuestion(p, topic, fase, categoria).value, AltCount(NormalizePhase(fase)))
    ensures var q := GenerateQuestion(p, topic, fase, categoria).value;
      if NormalizePhase(fase) == 1 then |q.fields[AltsKey].items| == 4 && "A) " <= q.fields[AltsKey].items[0].s
      else |q.fields[AltsKey].items| == 5 && "E) " <= q.fields[AltsKey].items[4].s
  {
    var count := AltCount(NormalizePhase(fase));
    var prompt := PromptFor(topic, count, categoria);
    var q := GenerateQuestion(p, topic, fase, categoria);
    assert q == CallHuggingFace(p, prompt, count, Letters);
    var parsed := FormatSource(p, prompt, count);
    FormattedShaped(parsed.fields, q.value.fields, count, p.builtins.render);
    ShapedEnds(q.value.fields[AltsKey].items, count);
  }

  /** The candidate a successful call formatted, on whichever path it was found. */
  ghost function FormatSource(p: Provider, prompt: Prompt, count: nat): (parsed: Json)
    requires count <= |Letters|
    requires CallHuggingFace(p, prompt, count, Letters).Success?
    ensures parsed.Obj? && HasAlternatives(parsed.fields, count)
    ensures FormatQuestion(parsed, count, Letters, p.builtins.render) == CallHuggingFace(p, prompt, count, Letters)
  {
    if UsesClient(p) then
      var reply := p.chat(prompt).reply;
      var text := ChatText(reply, Arr([Obj(map[])])).value;
      FindJsonIn(text, p.builtins).value.value
    else
      var body := DecodeBody(p.post(prompt).text, p.builtins);
      var txt := ResponseText(FirstRecord(body).value, Str(""));
      FindJsonIn(OrEmpty(txt), p.builtins).value.value
  }

  /** The answer is normalised but never checked against the labels: a model that
      answers "f" to a phase-2 question yields a question whose answer "F" is none of
      A..E, which the tests' `resposta_correta in ('A', ..., 'E')` rejects. */
  lemma AnswerNotValidated()
    ensures var q := GenerateQuestion(UnlabelledAnswer(), "t", IntArg(2), None);
      q.Success? && q.value.Obj? && AnswerKey in q.value.fields && q.value.fields[AnswerKey] == Str("F")
      && "F" !in Labels(5)
  {
    var p := UnlabelledAnswer();
    var prompt := PromptFor("t", 5, None);
    UnlabelledGoesToClient();
    UnlabelledAttempt(prompt);
    FormatsToF(p.builtins.render);
    FNotALabel();
  }

  /** The statement is never checked either: the same model reply has no "pergunta",
      and the first draft still returns it as a question, which the tests'
      `'pergunta' in q` rejects. */
  lemma StatementNotRequired()
    ensures var q := GenerateQuestion(UnlabelledAnswer(), "t", IntArg(2), None);
      q.Success? && q.value.Obj? && "pergunta" !in q.value.fields
  {
    var p := UnlabelledAnswer();
    UnlabelledGoesToClient();
    UnlabelledAttempt(PromptFor("t", 5, None));
    FormatsWithoutStatement(p.builtins.render);
  }

  lemma FormatsWithoutStatement(render: Json -> string)
    ensures var r := FormatQuestion(Obj(QuestionF()), 5, Letters, render);
      r.Success? && r.value.Obj? && "pergunta" !in r.value.fields
  {
    QuestionFShape();
    QuestionFKeys();
    FormattedLacks(Obj(QuestionF()), 5, Letters, render, "pergunta");
  }

  lemma QuestionFKeys()
    ensures "pergunta" !in QuestionF()
  {
    assert QuestionF().Keys == {AltsKey, AnswerKey};
  }

  lemma FNotALabel()
    ensures "F" !in Labels(5)
  {
    assert Labels(5) == ["A", "B", "C", "D", "E"];
  }

  lemma UnlabelledGoesToClient()
    ensures GenerateQuestion(UnlabelledAnswer(), "t", IntArg(2), None)
      == ClientPath(UnlabelledAnswer(), PromptFor("t", 5, None), 5, Letters)
  {
    UnlabelledUsesClient();
    assert AltCount(NormalizePhase(IntArg(2))) == 5;
    assert GenerateQuestion(UnlabelledAnswer(), "t", IntArg(2), None)
      == CallHuggingFace(UnlabelledAnswer(), PromptFor("t", 5, None), 5, Letters);
  }

  lemma UnlabelledUsesClient()
    ensures UsesClient(UnlabelledAnswer())
  {
    var env := UnlabelledAnswer().env;
    assert GetEnv(env, "HF_TOKEN") == Some("k");
    assert FirstSet(env, KeyVars) == Some("k");
  }

  lemma UnlabelledAttempt(prompt: Prompt)
    ensures ClientAttempt(UnlabelledAnswer(), prompt, 5, Letters)
      == FormatQuestion(Obj(QuestionF()), 5, Letters, UnlabelledAnswer().builtins.render)
  {
    var p := UnlabelledAnswer();
    assert p.chat(prompt) == ClientReplied(ChatReply(Str(QuestionFText)));
    UnlabelledFound();
    assert Truthy(Obj(QuestionF())) by {
      assert AltsKey in QuestionF();
    }
    RepliedAttempt(p, prompt, 5, Letters, QuestionFText, Obj(QuestionF()));
  }

  /** A reply whose text holds a truthy candidate is formatted. */
  lemma RepliedAttempt(p: Provider, prompt: Prompt, count: int, letters: seq<string>, t: string, j: Json)
    requires p.chat(prompt) == ClientReplied(ChatReply(Str(t)))
    requires FindJsonIn(Str(t), p.builtins) == Success(Some(j)) && Truthy(j)
    ensures ClientAttempt(p, prompt, count, letters) == FormatQuestion(j, count, letters, p.builtins.render)
  {
    ChatTextReads(Str(t), Arr([Obj(map[])]));
    var reply := ChatReply(Str(t));
    assert ChatText(reply, Arr([Obj(map[])])) == Success(Str(t));
    assert p.chat(prompt).reply == reply;
  }

  lemma UnlabelledFound()
    ensures FindJsonIn(Str(QuestionFText), UnlabelledAnswer().builtins) == Success(Some(Obj(QuestionF())))
  {
    QuestionFTextFound();
  }

  lemma QuestionFTextFound()
    ensures JsonScan.Candidate(QuestionFText) == Some(QuestionFText)
  {
    assert JsonScan.NoTicks(QuestionFText);
    JsonScan.BareObject(QuestionFText);
  }

  lemma FormatsToF(render: Json -> string)
    ensures var r := FormatQuestion(Obj(QuestionF()), 5, Letters, render);
      r.Success? && r.value.Obj? && AnswerKey in r.value.fields && r.value.fields[AnswerKey] == Str("F")
  {
    QuestionFShape();
    FormattedAnswer(Obj(QuestionF()), 5, Letters, render);
    NormalizeF();
  }

  lemma QuestionFShape()
    ensures HasAlternatives(QuestionF(), 5) && AnswerOf(QuestionF()) == Str("f")
  {
  }

  lemma NormalizeF()
    ensures NormalizeAnswer("f") == "F"
  {
    StripStripped("f");
    UpperF();
  }

  lemma UpperF()
    ensures Upper("f") == "F"
  {
    assert UpperChar('f') == 'F';
    assert |Upper("f")| == 1 && Upper("f")[0] == 'F';
  }

  /** A provider whose client replies with the JSON text of a five-alternative question
      answered "f", and whose decoder reads exactly that text. */
  function UnlabelledAnswer(): Provider {
    Provider(map["HF_TOKEN" := "k"], true,
      _ => ClientReplied(ChatReply(Str(QuestionFText))),
      _ => PostRaised(""),
      Builtins((t: string) => if t == QuestionFText then Some(Obj(QuestionF())) else None,
        (j: Json) => if j.Str? then j.s else ""))
  }

  /** `{"alternativas": ["a", "b", "c", "d", "e"], "resposta_correta": "f"}` */
  const QuestionFText := "{\"alternativas\": " + "[\"a\", \"b\", \"c\", \"d\", \"e\"], "
    + "\"resposta_correta\": " + "\"f\"}"

  function QuestionF(): map<string, Json> {
    map[AltsKey := Arr([Str("a"), Str("b"), Str("c"), Str("d"), Str("e")]), AnswerKey := Str("f")]
  }

  /** A model text in which `_find_json` finds nothing, or only a falsy value (no braces,
      a candidate that does not decode, or `{}`), is an invalid model response,
      re-raised as a client failure, on the client path. */
  lemma ClientNoJson(p: Provider, prompt: Prompt, count: int, letters: seq<string>, t: string)
    requires UsesClient(p) && letters != []
    requires p.chat(prompt) == ClientReplied(ChatReply(Str(t)))
    requires JsonScan.FindJson(t, p.builtins).None? || !Truthy(JsonScan.FindJson(t, p.builtins).value)
    ensures CallHuggingFace(p, prompt, count, letters) == Failure(ClientFailed(InvalidModelResponse(Str(t))))
  {
    ChatTextReads(Str(t), Arr([Obj(map[])]));
    var reply := ChatReply(Str(t));
    assert ChatText(reply, Arr([Obj(map[])])) == Success(Str(t));
    assert p.chat(prompt).reply == reply;
  }

  /** On the HTTP path the same text is an invalid fallback response, not wrapped. */
  lemma HttpNoJson(p: Provider, prompt: Prompt, count: int, letters: seq<string>, status: int, text: string, t: string)
    requires !UsesClient(p) && letters != []
    requires p.post(prompt) == HttpResponse(status, text) && !(400 <= status < 600)
    requires FirstRecord(DecodeBody(text, p.builtins)).Some?
    requires ResponseText(FirstRecord(DecodeBody(text, p.builtins)).value, Str("")) == Str(t)
    requires JsonScan.FindJson(t, p.builtins).None? || !Truthy(JsonScan.FindJson(t, p.builtins).value)
    ensures CallHuggingFace(p, prompt, count, letters) == Failure(InvalidFallbackResponse(Str(t)))
  {
    assert OrEmpty(Str(t)) == Str(t);
  }

  /** On the HTTP path a truthy candidate goes to `format_question`, and whatever it
      raises comes out as it is, not wrapped. */
  lemma HttpFormatted(p: Provider, prompt: Prompt, count: int, letters: seq<string>, status: int, text: string, t: string, j: Json)
    requires !UsesClient(p) && letters != []
    requires p.post(prompt) == HttpResponse(status, text) && !(400 <= status < 600)
    requires FirstRecord(DecodeBody(text, p.builtins)).Some?
    requires ResponseText(FirstRecord(DecodeBody(text, p.builtins)).value, Str("")) == Str(t)
    requires JsonScan.FindJson(t, p.builtins) == Some(j) && Truthy(j)
    ensures CallHuggingFace(p, prompt, count, letters) == FormatQuestion(j, count, letters, p.builtins.render)
  {
    assert OrEmpty(Str(t)) == Str(t);
  }

  /** A 4xx or 5xx status is a connection error whatever the body says; any other
      status, redirects and 201 included, goes on to the body. */
  lemma StatusRejection(p: Provider, prompt: Prompt, count: int, letters: seq<string>, status: int, text: string)
    requires !UsesClient(p)
    requires p.post(prompt) == HttpResponse(status, text)
    ensures 400 <= status < 600 ==> CallHuggingFace(p, prompt, count, letters) == Failure(ConnectionFailed(StatusRejected(status)))
    ensures !(400 <= status < 600) && FirstRecord(DecodeBody(text, p.builtins)).None?
      ==> CallHuggingFace(p, prompt, count, letters) == Failure(NotUnderstood(BodyValue(DecodeBody(text, p.builtins))))
  {
  }
}
