/** The live generator (`src/generator.py`): it reads the API key from the environment,
    asks the remote model when a key is set, and otherwise, or when the request fails,
    answers with a fixed local question instead of raising. */
module Generator {
  import opened Wrappers
  import opened PyJson
  import opened Environ
  import opened Phase

  /** `os.getenv("OPENAI_API_KEY") or os.getenv("DEEPSEEK_API_KEY")` */
  const KeyVars: seq<string> := ["OPENAI_API_KEY", "DEEPSEEK_API_KEY"]

  /** The key is the value of one of the two variables, unset when neither is set. */
  function ApiKey(env: map<string, string>): (r: Option<string>)
    ensures r == GetEnv(env, "OPENAI_API_KEY") || r == GetEnv(env, "DEEPSEEK_API_KEY")
    ensures r.None? ==> "DEEPSEEK_API_KEY" !in env
  {
    assert KeyVars[1..] == ["DEEPSEEK_API_KEY"];
    assert FirstSet(env, KeyVars[1..]) == GetEnv(env, "DEEPSEEK_API_KEY");
    FirstSet(env, KeyVars)
  }

  /** `_get_client()` returns a client exactly when the key is truthy. */
  predicate HasClient(env: map<string, string>) {
    Usable(ApiKey(env))
  }

  /** `OPENAI_API_KEY` wins whenever it is set and not empty; an absent or empty value
      falls through to `DEEPSEEK_API_KEY`; with neither usable there is no client. */
  lemma KeyPrecedence(env: map<string, string>)
    ensures Usable(GetEnv(env, "OPENAI_API_KEY")) ==> ApiKey(env) == Some(env["OPENAI_API_KEY"])
    ensures !Usable(GetEnv(env, "OPENAI_API_KEY")) ==> ApiKey(env) == GetEnv(env, "DEEPSEEK_API_KEY")
    ensures HasClient(env) <==> Usable(GetEnv(env, "OPENAI_API_KEY")) || Usable(GetEnv(env, "DEEPSEEK_API_KEY"))
  {
    FirstSetPrecedence(env, KeyVars);
    assert KeyVars[1..] == ["DEEPSEEK_API_KEY"];
  }

  /** The outcome of `client.chat.completions.create(...)` and reading
      `response.choices[0].message.content`: the content, or the text of the exception. */
  datatype Completion = Completed(content: Json) | RequestFailed(error: string)

  const MissingKeyReason := "OPENAI_API_KEY (ou DEEPSEEK_API_KEY) não definida"
  const FeedbackPrefix := "Questão gerada localmente porque o gerador externo falhou: "
  const FallbackAlternatives: seq<string> := ["Alternativa 1", "Alternativa 2", "Alternativa 3", "Alternativa 4"]

  /** `_local_fallback_question(topic, reason)` */
  function LocalFallbackQuestion(topic: string, reason: string): (q: Json)
    ensures q.Obj? && q.fields.Keys == {"enunciado", "alternativas", "correta", "feedback"}
  {
    Obj(map[
      "enunciado" := Str("(Fallback) Sobre " + topic + ": Qual é a alternativa correta?"),
      "alternativas" := Arr(seq(4, i requires 0 <= i < 4 => Str(FallbackAlternatives[i]))),
      "correta" := Str("A"),
      "feedback" := Str(FeedbackPrefix + reason)])
  }

  /** The fallback question has four alternatives "Alternativa 1".."Alternativa 4" in
      order, its answer "A" is the label of the first of them, its statement names the
      topic, and its feedback is the fixed prefix followed by the reason (so the default
      reason `""` leaves just the prefix). */
  lemma FallbackShape(topic: string, reason: string)
    ensures var f := LocalFallbackQuestion(topic, reason).fields;
      f["alternativas"].Arr? && |f["alternativas"].items| == 4
      && (forall i :: 0 <= i < 4 ==> f["alternativas"].items[i] == Str(FallbackAlternatives[i]))
      && f["correta"] == Str(Labels(4)[0])
      && f["enunciado"].Str? && f["enunciado"].s[17..17 + |topic|] == topic
      && f["feedback"].Str? && FeedbackPrefix <= f["feedback"].s
      && f["feedback"].s[|FeedbackPrefix|..] == reason
  {
    var statement := "(Fallback) Sobre " + topic + ": Qual é a alternativa correta?";
    assert |"(Fallback) Sobre "| == 17;
    assert statement[17..17 + |topic|] == topic;
    var feedback := FeedbackPrefix + reason;
    assert feedback[..|FeedbackPrefix|] == FeedbackPrefix;
    assert feedback[|FeedbackPrefix|..] == reason;
  }

  /** `generate_question(topic)`; `request` is the remote call, asked only when there is
      a client. */
  function GenerateQuestion(env: map<string, string>, topic: string, request: string -> Completion): (q: Json)
    ensures q.Obj?
    ensures q.fields.Keys == {"raw"} || q.fields.Keys == {"enunciado", "alternativas", "correta", "feedback"}
  {
    if !HasClient(env) then LocalFallbackQuestion(topic, MissingKeyReason)
    else match request(topic)
      case Completed(content) => Obj(map["raw" := content])
      case RequestFailed(error) => LocalFallbackQuestion(topic, error)
  }

  /** It never raises: it answers the raw model text exactly when a key is set and the
      request succeeds, and the local question otherwise, with the missing-key reason
      when no key is set and the exception's text when the request failed. */
  lemma NeverRaises(env: map<string, string>, topic: string, request: string -> Completion)
    ensures var q := GenerateQuestion(env, topic, request);
      q.Obj? && ("raw" in q.fields <==> HasClient(env) && request(topic).Completed?)
    ensures !HasClient(env) ==> GenerateQuestion(env, topic, request) == LocalFallbackQuestion(topic, MissingKeyReason)
    ensures (HasClient(env) && request(topic).RequestFailed?
      ==> GenerateQuestion(env, topic, request) == LocalFallbackQuestion(topic, request(topic).error))
    ensures (HasClient(env) && request(topic).Completed?
      ==> GenerateQuestion(env, topic, request).fields == map["raw" := request(topic).content])
  {
  }
}
