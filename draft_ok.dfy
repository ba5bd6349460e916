/** The second draft generator (`src/generatorOKdeleteArq.py`): one `generate_question`
    that builds the prompt from the phase and the category introduction, asks the
    inference client when it can, and otherwise posts to the HTTP endpoint. The client
    path formats the candidate inline; the HTTP path checks it but leaves its
    alternatives without letters. */
module DraftOk {
  import opened Wrappers
  import opened PyText
  import opened PyJson
  import opened Errors
  import opened Phase
  import opened Category
  import opened Format
  import opened Transport
  import opened Environ

  /** `generate_question(topic, fase, categoria)` */
  function GenerateQuestion(p: Provider, topic: string, fase: PhaseArg, categoria: Option<string>): (r: Result<Json, Failure>)
    ensures r.Success? ==> Delivered(r.value, AltCount(NormalizePhase(fase)))
    ensures UsesClient(p) && r.Failure? ==> Class(r.error) == RuntimeError
  {
    var count := AltCount(NormalizePhase(fase));
    Ask(p, PromptFor(topic, count, categoria), count)
  }

  /** `if InferenceClient and API_KEY:` the client path, else the HTTP fallback. Every
      failure on the client path is a `RuntimeError` wrapping the original one. */
  function Ask(p: Provider, prompt: Prompt, count: nat): (r: Result<Json, Failure>)
    ensures r.Success? ==> Delivered(r.value, count)
    ensures UsesClient(p) && r.Failure? ==> r.error.ClientFailed? && Class(r.error) == RuntimeError
  {
    if UsesClient(p) then ClientPath(p, prompt, count) else HttpPath(p, prompt, count)
  }

  /** What the prompt is built from: the category introduction, the topic, and the
      number and letters of the alternatives. */
  function PromptFor(topic: string, count: nat, categoria: Option<string>): Prompt
    requires count <= |Letters|
  {
    Prompt(CategoryIntro(categoria), topic, count, LabelList(count))
  }

  /** The `try` block around the inference client; what it raises is re-raised as
      `RuntimeError("Erro no InferenceClient: ...")`. */
  function ClientPath(p: Provider, prompt: Prompt, count: nat): (r: Result<Json, Failure>)
    ensures r.Success? ==> r == ClientAttempt(p, prompt, count)
    ensures ClientAttempt(p, prompt, count).Failure? ==> r == Failure(ClientFailed(ClientAttempt(p, prompt, count).error))
    ensures r.Failure? ==> Class(r.error) == RuntimeError
  {
    var a := ClientAttempt(p, prompt, count);
    if a.Success? then a else Failure(ClientFailed(a.error))
  }

  /** The body of that block: the chat text (with `[]` as the default choices), its
      candidate, and the inline formatting. What the client raises comes out as it is. */
  function ClientAttempt(p: Provider, prompt: Prompt, count: nat): (r: Result<Json, Failure>)
    ensures p.chat(prompt).ClientRaised? ==> r == Failure(LibraryFault(p.chat(prompt).detail))
    ensures r.Success? ==> Delivered(r.value, count)
  {
    match p.chat(prompt)
    case ClientRaised(detail) => Failure(LibraryFault(detail))
    case ClientReplied(reply) =>
      var text :- ChatText(reply, Arr([]));
      var parsed :- FindJsonIn(text, p.builtins);
      ClientFormat(text, parsed, count, p.builtins.render)
  }

  /** The HTTP fallback: a failed POST is a connection error, any status but 200 is an
      HTTP error before the body is looked at, only a non-empty list whose first item is
      a dictionary is understood, and its text is checked by the fallback validation. */
  function HttpPath(p: Provider, prompt: Prompt, count: nat): (r: Result<Json, Failure>)
    ensures p.post(prompt).PostRaised? ==> r.Failure? && r.error.ConnectionFailed?
    ensures r.Success? ==> p.post(prompt) == HttpResponse(200, p.post(prompt).text)
    ensures r.Success? ==> Delivered(r.value, count)
  {
    match p.post(prompt)
    case PostRaised(detail) => Failure(ConnectionFailed(LibraryFault(detail)))
    case HttpResponse(status, text) =>
      if status != 200 then Failure(HttpStatus(status, text))
      else
        var body := DecodeBody(text, p.builtins);
        match FirstRecord(body)
        case None => Failure(NotUnderstood(BodyValue(body)))
        case Some(rec) =>
          var txt := ResponseText(rec, Null);
          var parsed :- FindJsonIn(OrEmpty(txt), p.builtins);
          FallbackCheck(txt, parsed, count)
  }

  /** On the client path the question is `ClientFormat` of what `_find_json` finds in
      the reply's content: the returned alternatives are the model's own, labelled. */
  lemma ClientReplyFormatted(p: Provider, prompt: Prompt, count: nat, t: string)
    requires p.chat(prompt) == ClientReplied(ChatReply(Str(t)))
    ensures ClientAttempt(p, prompt, count) == ClientFormat(Str(t), JsonScan.FindJson(t, p.builtins), count, p.builtins.render)
  {
    ChatTextReads(Str(t), Arr([]));
    assert p.chat(prompt).reply == ChatReply(Str(t));
  }

  /** The client path can succeed: a reply whose content decodes to a dictionary with
      `count` alternatives and a string answer gives that dictionary, formatted. */
  lemma ClientSucceeds(p: Provider, prompt: Prompt, count: nat, t: string, fields: map<string, Json>)
    requires UsesClient(p) && count <= |Letters|
    requires p.chat(prompt) == ClientReplied(ChatReply(Str(t)))
    requires JsonScan.FindJson(t, p.builtins) == Some(Obj(fields))
    requires HasAlternatives(fields, count) && AnswerOf(fields).Str?
    ensures Ask(p, prompt, count).Success?
    ensures Formatted(fields, Ask(p, prompt, count).value.fields, count, Letters, p.builtins.render)
  {
    ClientReplyFormatted(p, prompt, count, t);
  }

  /** A question from the inference client has the shape the tests check: 4 or 5
      alternatives by phase, prefixed "A) ", "B) ", ..., and a normalised answer. */
  lemma ClientShape(p: Provider, topic: string, fase: PhaseArg, categoria: Option<string>)
    requires UsesClient(p)
    requires GenerateQuestion(p, topic, fase, categoria).Success?
    ensures Shaped(GenerateQuestion(p, topic, fase, categoria).value, AltCount(NormalizePhase(fase)))
  {
    var count := AltCount(NormalizePhase(fase));
    var prompt := PromptFor(topic, count, categoria);
    var q := GenerateQuestion(p, topic, fase, categoria);
    assert q == ClientPath(p, prompt, count);
    var text := ChatText(p.chat(prompt).reply, Arr([])).value;
    var parsed := FindJsonIn(text, p.builtins).value;
    assert q == ClientFormat(text, parsed, count, p.builtins.render);
    FormattedShaped(parsed.value.fields, q.value.fields, count, p.builtins.render);
  }

  /** What the HTTP path returns: for a 200 response whose first record's text holds a
      candidate dictionary with the right number of alternatives and a string answer,
      the candidate with its alternatives exactly as decoded (no letters) and only its
      answer normalised. */
  lemma HttpResult(p: Provider, prompt: Prompt, count: nat, text: string, t: string, fields: map<string, Json>)
    requires p.post(prompt) == HttpResponse(200, text)
    requires FirstRecord(DecodeBody(text, p.builtins)).Some?
    requires ResponseText(FirstRecord(DecodeBody(text, p.builtins)).value, Null) == Str(t)
    requires JsonScan.FindJson(t, p.builtins) == Some(Obj(fields))
    requires HasAlternatives(fields, count) && AnswerOf(fields).Str?
    ensures var r := HttpPath(p, prompt, count);
      r.Success? && r.value.Obj? && r.value.fields.Keys == fields.Keys + {AnswerKey}
      && r.value.fields[AltsKey] == fields[AltsKey]
      && r.value.fields[AnswerKey] == Str(NormalizeAnswer(AnswerOf(fields).s))
  {
    assert FindJsonIn(OrEmpty(Str(t)), p.builtins) == Success(Some(Obj(fields)));
    assert HttpPath(p, prompt, count) == FallbackCheck(Str(t), Some(Obj(fields)), count);
  }

  /** So the HTTP path breaks the tests' "A)" prefix: a server whose response carries
      the JSON text of a phase-1 question with alternatives "w".."z" makes the second
      draft return "w" as the first alternative. */
  lemma HttpUnprefixed()
    ensures var q := GenerateQuestion(PlainServer(), "t", IntArg(1), None);
      q.Success? && q.value.Obj? && AltsKey in q.value.fields && q.value.fields[AltsKey].Arr?
      && q.value.fields[AltsKey].items != [] && q.value.fields[AltsKey].items[0] == Str("w") && !("A)" <= "w")
  {
    var p := PlainServer();
    var count := AltCount(NormalizePhase(IntArg(1)));
    var prompt := PromptFor("t", count, None);
    assert count == 4;
    PlainServerIsHttp();
    PlainServerRecord();
    PlainServerCandidate();
    HttpResult(p, prompt, 4, PlainBody, PlainText, PlainQuestion());
  }

  /** A provider without the client library whose server answers 200 with a one-record
      list whose `generated_text` is the JSON text of a four-alternative question, and
      whose decoder reads exactly those two texts. */
  function PlainServer(): Provider {
    Provider(map[], false,
      _ => ClientRaised(""),
      _ => HttpResponse(200, PlainBody),
      Builtins(
        (t: string) =>
          if t == PlainBody then Some(Arr([Obj(map["generated_text" := Str(PlainText)])]))
          else if t == PlainText then Some(Obj(PlainQuestion()))
          else None,
        (j: Json) => if j.Str? then j.s else ""))
  }

  /** `{"alternativas": ["w", "x", "y", "z"], "resposta_correta": "A"}` */
  const PlainText := "{\"alternativas\": " + "[\"w\", \"x\", \"y\", \"z\"], "
    + "\"resposta_correta\": " + "\"A\"}"

  /** `[{"generated_text": "<PlainText with its quotes escaped>"}]` */
  const PlainBody := "[{\"generated_text\": \"" + "{\\\"alternativas\\\": "
    + "[\\\"w\\\", \\\"x\\\", \\\"y\\\", \\\"z\\\"], "
    + "\\\"resposta_correta\\\": " + "\\\"A\\\"}" + "\"}]"

  function PlainQuestion(): map<string, Json> {
    map[AltsKey := Arr([Str("w"), Str("x"), Str("y"), Str("z")]), AnswerKey := Str("A")]
  }

  lemma PlainServerIsHttp()
    ensures !UsesClient(PlainServer())
  {
  }

  lemma PlainServerRecord()
    ensures FirstRecord(DecodeBody(PlainBody, PlainServer().builtins)) == Some(map["generated_text" := Str(PlainText)])
    ensures ResponseText(map["generated_text" := Str(PlainText)], Null) == Str(PlainText)
  {
  }

  lemma PlainServerCandidate()
    ensures JsonScan.FindJson(PlainText, PlainServer().builtins) == Some(Obj(PlainQuestion()))
    ensures HasAlternatives(PlainQuestion(), 4) && AnswerOf(PlainQuestion()).Str?
  {
    assert JsonScan.NoTicks(PlainText);
    JsonScan.BareObject(PlainText);
    assert |PlainText| != |PlainBody|;
  }

  /** Any status but 200 is an HTTP error carrying the status and the body text,
      whatever the body holds and whichever decoder is used. */
  lemma StatusNot200(p: Provider, prompt: Prompt, count: nat, status: int, text: string)
    requires p.post(prompt) == HttpResponse(status, text) && status != 200
    ensures HttpPath(p, prompt, count) == Failure(HttpStatus(status, text))
    ensures Class(HttpPath(p, prompt, count).error) == RuntimeError
  {
  }

  /** Only a non-empty list whose first item is a dictionary is processed; every other
      body of a 200 response is reported as not understood, with the body itself. */
  lemma BodyDispatch(p: Provider, prompt: Prompt, count: nat, text: string)
    requires p.post(prompt) == HttpResponse(200, text)
    ensures FirstRecord(DecodeBody(text, p.builtins)).None?
      ==> HttpPath(p, prompt, count) == Failure(NotUnderstood(BodyValue(DecodeBody(text, p.builtins))))
    ensures (FirstRecord(DecodeBody(text, p.builtins)).Some? ==>
      HttpPath(p, prompt, count).Failure? ==> !HttpPath(p, prompt, count).error.NotUnderstood?)
  {
  }
}
