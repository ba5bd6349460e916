/** What the two draft generators share around the provider: the credential chain, the
    prompt's parameters, the two replies a provider can give (the inference client's
    chat completion and the plain HTTP POST), and the small Python steps that pull the
    model's text out of a reply. The provider itself is a value of the model: its
    answers are functions of the prompt, never behaviour. */
module Transport {
  import opened Wrappers
  import opened PyJson
  import opened Errors
  import opened JsonScan
  import opened Environ

  /** What the prompt embeds: the category text, the topic, the number of alternatives
      and the comma-separated label list. The surrounding prose is not modelled. */
  datatype Prompt = Prompt(category: string, topic: string, count: nat, labels: string)

  /** `InferenceClient(token=...).chat_completion(...)`: it raises, or replies with a
      decoded value. */
  datatype ClientReply = ClientRaised(detail: string) | ClientReplied(reply: Json)

  /** `requests.post(...)`: it raises, or answers with a status code and a body text. */
  datatype HttpReply = PostRaised(detail: string) | HttpResponse(status: int, text: string)

  /** Everything outside the drafts' own code: the environment, whether
      `huggingface_hub` could be imported, the two remote calls, and the built-ins. */
  datatype Provider = Provider(
    env: map<string, string>,
    clientInstalled: bool,
    chat: Prompt -> ClientReply,
    post: Prompt -> HttpReply,
    builtins: Builtins)

  /** `API_KEY = os.getenv("HF_TOKEN") or os.getenv("HF_API_KEY") or os.getenv("HUGGINGFACE_API_KEY")` */
  const KeyVars: seq<string> := ["HF_TOKEN", "HF_API_KEY", "HUGGINGFACE_API_KEY"]

  /** The key is the value of one of the three variables, unset when the last is unset. */
  function ApiKey(env: map<string, string>): (r: Option<string>)
    ensures r == GetEnv(env, "HF_TOKEN") || r == GetEnv(env, "HF_API_KEY") || r == GetEnv(env, "HUGGINGFACE_API_KEY")
    ensures r.None? ==> "HUGGINGFACE_API_KEY" !in env
  {
    assert KeyVars[1..] == ["HF_API_KEY", "HUGGINGFACE_API_KEY"];
    assert KeyVars[1..][1..] == ["HUGGINGFACE_API_KEY"];
    assert FirstSet(env, KeyVars[1..][1..]) == GetEnv(env, "HUGGINGFACE_API_KEY");
    assert FirstSet(env, KeyVars[1..]) == GetEnv(env, "HF_API_KEY") || FirstSet(env, KeyVars[1..]) == GetEnv(env, "HUGGINGFACE_API_KEY");
    FirstSet(env, KeyVars)
  }

  /** `if InferenceClient and API_KEY:` */
  predicate UsesClient(p: Provider) {
    p.clientInstalled && Usable(ApiKey(p.env))
  }

  /** The inference client is used exactly when the library is installed and one of the
      three variables holds a non-empty value; `HF_TOKEN` wins over the other two. */
  lemma ClientChoice(p: Provider)
    ensures UsesClient(p) <==> p.clientInstalled && exists i :: 0 <= i < 3 && Usable(GetEnv(p.env, KeyVars[i]))
    ensures Usable(GetEnv(p.env, "HF_TOKEN")) ==> ApiKey(p.env) == Some(p.env["HF_TOKEN"])
  {
    FirstSetPrecedence(p.env, KeyVars);
    assert FirstUsable(p.env, KeyVars, 0) <== Usable(GetEnv(p.env, "HF_TOKEN"));
  }

  /** The body of an HTTP response after `try: body = r.json() except: body = r.text`. */
  datatype Body = JsonBody(value: Json) | TextBody(text: string)

  function DecodeBody(text: string, b: Builtins): (r: Body)
    ensures r.JsonBody? <==> b.loads(text).Some?
    ensures r.JsonBody? ==> r.value == b.loads(text).value
    ensures r.TextBody? ==> r.text == text
  {
    match b.loads(text)
    case Some(v) => JsonBody(v)
    case None => TextBody(text)
  }

  /** The body as the Python value it is: a text body is a `str`. */
  function BodyValue(body: Body): Json {
    match body
    case JsonBody(v) => v
    case TextBody(t) => Str(t)
  }

  /** `isinstance(body, list) and body and isinstance(body[0], dict)`, giving `body[0]`. */
  function FirstRecord(body: Body): (r: Option<map<string, Json>>)
    ensures r.Some? <==> (BodyValue(body).Arr? && BodyValue(body).items != [] && BodyValue(body).items[0].Obj?)
    ensures r.Some? ==> r.value == BodyValue(body).items[0].fields
  {
    match body
    case JsonBody(Arr(items)) => if items != [] && items[0].Obj? then Some(items[0].fields) else None
    case _ => None
  }

  /** `x.get(key, default)`; only a dictionary has `.get`. */
  function MethodGet(x: Json, key: string, default: Json): (r: Result<Json, Failure>)
    ensures r.Success? <==> x.Obj?
    ensures x.Obj? ==> r.value == Get(x.fields, key, default)
    ensures !x.Obj? ==> r.error == NoAttribute(TypeName(x), "get")
  {
    if x.Obj? then Success(Get(x.fields, key, default)) else Failure(NoAttribute(TypeName(x), "get"))
  }

  /** `x[0]`: the first item of a list, the first character of a string; an empty list
      or string is out of range, a dictionary has no key `0`, and nothing else can be
      indexed. */
  function Subscript0(x: Json): (r: Result<Json, Failure>)
    ensures r.Success? <==> (x.Arr? && x.items != []) || (x.Str? && x.s != [])
    ensures x.Arr? && x.items != [] ==> r.value == x.items[0]
    ensures x.Str? && x.s != [] ==> r.value == Str(x.s[..1])
    ensures (x.Arr? && x.items == []) || (x.Str? && x.s == []) ==> r.error == OutOfRange
    ensures x.Obj? ==> r.error == MissingKey
  {
    match x
    case Arr(items) => if items == [] then Failure(OutOfRange) else Success(items[0])
    case Str(s) => if s == [] then Failure(OutOfRange) else Success(Str(s[..1]))
    case Obj(_) => Failure(MissingKey)
    case _ => Failure(NotSubscriptable(TypeName(x)))
  }

  /** `r.get("choices", choicesDefault)[0].get("message", {}).get("content", "")`: the
      text of a chat completion. The two drafts differ only in `choicesDefault`. */
  function ChatText(reply: Json, choicesDefault: Json): (r: Result<Json, Failure>)
    ensures !reply.Obj? ==> r == Failure(NoAttribute(TypeName(reply), "get"))
    ensures r.Success? ==> reply.Obj?
  {
    var choices :- MethodGet(reply, "choices", choicesDefault);
    var first :- Subscript0(choices);
    var message :- MethodGet(first, "message", Obj(map[]));
    MethodGet(message, "content", Str(""))
  }

  /** The chat completion whose first choice carries `content`. */
  function ChatReply(content: Json): Json {
    Obj(map["choices" := Arr([Obj(map["message" := Obj(map["content" := content])])])])
  }

  /** The text is read back from a well-formed completion whatever the default; a
      dictionary without "choices" gives `""` with the first draft's default `[{}]` and
      an index error with the second draft's `[]`. */
  lemma ChatTextReads(content: Json, choicesDefault: Json)
    ensures ChatText(ChatReply(content), choicesDefault) == Success(content)
    ensures ChatText(Obj(map[]), Arr([Obj(map[])])) == Success(Str(""))
    ensures ChatText(Obj(map[]), Arr([])) == Failure(OutOfRange)
  {
    var message := Obj(map["content" := content]);
    var choice := Obj(map["message" := message]);
    assert MethodGet(ChatReply(content), "choices", choicesDefault) == Success(Arr([choice]));
    assert Subscript0(Arr([choice])) == Success(choice);
    assert MethodGet(choice, "message", Obj(map[])) == Success(message);
  }

  /** `_find_json(x)`: `re.search` accepts only a string. */
  function FindJsonIn(x: Json, b: Builtins): (r: Result<Option<Json>, Failure>)
    ensures r.Success? <==> x.Str?
    ensures x.Str? ==> r.value == FindJson(x.s, b)
    ensures !x.Str? ==> r.error == ExpectedString(TypeName(x))
  {
    if x.Str? then Success(FindJson(x.s, b)) else Failure(ExpectedString(TypeName(x)))
  }

  /** `rec.get("generated_text") or rec.get("text", textDefault)`: the first draft passes
      `""` as the default, the second none (so `None`). */
  function ResponseText(rec: map<string, Json>, textDefault: Json): (r: Json)
    ensures "generated_text" in rec && Truthy(rec["generated_text"]) ==> r == rec["generated_text"]
    ensures !("generated_text" in rec && Truthy(rec["generated_text"])) ==> r == Get(rec, "text", textDefault)
  {
    var generated := Get(rec, "generated_text", Null);
    if Truthy(generated) then generated else Get(rec, "text", textDefault)
  }

  /** `txt or ""` */
  function OrEmpty(x: Json): (r: Json)
    ensures Truthy(x) ==> r == x
    ensures !Truthy(x) ==> r == Str("")
  {
    if Truthy(x) then x else Str("")
  }

  /** A falsy response text is searched as `""`, which has no braces and so gives no
      candidate; a truthy non-string stops the search with a type error. */
  lemma EmptyTextFindsNothing(x: Json, b: Builtins)
    ensures !Truthy(x) ==> FindJsonIn(OrEmpty(x), b) == Success(None)
    ensures Truthy(x) && !x.Str? ==> FindJsonIn(OrEmpty(x), b) == Failure(ExpectedString(TypeName(x)))
  {
  }
}
