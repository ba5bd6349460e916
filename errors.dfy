/** The exceptions the generators raise or let escape, one constructor per raise site
    (or per kind of library failure), each with the Python class it belongs to. */
module Errors {
  import opened PyJson

  /** `LibraryError` stands for whatever class the inference library or `requests` raised. */
  datatype ErrorClass = ValueError | RuntimeError | AttributeError | IndexError | KeyError | TypeError | HTTPError | LibraryError

  datatype Failure =
    /** `format_question`: the alternatives are missing, not a list, or of the wrong length. */
    | InvalidAlternatives
    /** The client path found no usable question in the model's text. */
    | InvalidModelResponse(text: Json)
    /** The HTTP path found no usable question in the response text. */
    | InvalidFallbackResponse(text: Json)
    /** `x.attr` on a value of a type that has no such attribute (`.get` on a list, `.strip` on a number). */
    | NoAttribute(typeName: string, attr: string)
    /** `xs[i]` past the end of a list or string. */
    | OutOfRange
    /** `d[0]` on a dictionary. */
    | MissingKey
    /** `x[0]` on a value that cannot be indexed. */
    | NotSubscriptable(typeName: string)
    /** `re.search` given something other than a string. */
    | ExpectedString(typeName: string)
    /** `raise_for_status()` on a 4xx or 5xx response. */
    | StatusRejected(status: int)
    /** An exception raised inside the inference library or `requests`, with its text. */
    | LibraryFault(detail: string)
    /** `RuntimeError("Erro no InferenceClient: ...")` wrapping whatever the client path raised. */
    | ClientFailed(cause: Failure)
    /** `RuntimeError("Erro de conexão no requests: ...")` wrapping what the POST raised. */
    | ConnectionFailed(cause: Failure)
    /** `RuntimeError("Erro HTTP <status>: <text>")` */
    | HttpStatus(status: int, responseText: string)
    /** `RuntimeError("Resposta não compreendida: <body>")` */
    | NotUnderstood(body: Json)

  /** The Python exception class of each failure. */
  function Class(f: Failure): ErrorClass {
    match f
    case InvalidAlternatives => ValueError
    case InvalidModelResponse(_) => ValueError
    case InvalidFallbackResponse(_) => ValueError
    case NoAttribute(_, _) => AttributeError
    case OutOfRange => IndexError
    case MissingKey => KeyError
    case NotSubscriptable(_) => TypeError
    case ExpectedString(_) => TypeError
    case StatusRejected(_) => HTTPError
    case LibraryFault(_) => LibraryError
    case ClientFailed(_) => RuntimeError
    case ConnectionFailed(_) => RuntimeError
    case HttpStatus(_, _) => RuntimeError
    case NotUnderstood(_) => RuntimeError
  }
}
