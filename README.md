# Question generator core of tutor-programacao

This project models the part of the tutor's question generator that works on text and
decoded values. It covers three files:

- **The first draft, `src/generatorDELETE.py`.** `generate_question` normalises the
  phase (`fase`) and the category (`categoria`) and builds the prompt.
  `call_huggingface_api` asks the Hugging Face inference client when it can, and
  otherwise posts to the HTTP endpoint. `_find_json` picks a JSON candidate out of the
  model's text. `format_question` prefixes the alternatives with their letters and
  normalises the correct answer.
- **The second draft, `src/generatorOKdeleteArq.py`.** It has the same phase, category
  and `_find_json` logic. Its client path formats the candidate inline. Its HTTP
  fallback checks the status, dispatches on the body's shape, and returns the
  alternatives without letters.
- **The live `src/generator.py`.** It reads an OpenAI/DeepSeek key from the
  environment. It asks the remote model when it has a key. It never raises: when there
  is no key or the request fails, it answers with a fixed local fallback question.

Both drafts are commented out in the repository. They are modelled as written, within the
limits listed under "Left out" (notably `upper()` and `lower()` outside Latin-1).

The model is functional throughout:

- Python values are the `PyJson.Json` datatype.
- Raised exceptions are `Errors.Failure` values inside a `Result`. Each failure knows
  its Python exception class.
- The environment, the network calls and two built-ins are given to the model as
  values (`Transport.Provider`, `PyJson.Builtins`). The built-ins are `json.loads`, with
  its exception turned into `None`, and `str()` of a decoded value.
- The in-place updates `parsed["alternativas"] = ...` and
  `parsed["resposta_correta"] = ...` become returned updated maps. In every draft the
  dictionary is a local that is then returned, so no other reference observes the
  update.

The regular expression ```` ```(?:json)?\s*(\{.*?\})\s*``` ```` of `_find_json` is
modelled by what the backtracking search does with it:

- The search tries each start position in turn and takes the leftmost position where a
  match succeeds.
- At a start position, the match needs three backticks.
- It then takes the optional `json` tag, which is tried first.
- It skips the whole run of whitespace after it, and needs a `{` there.
- It takes the first `}` whose following whitespace ends in three backticks. This is
  the lazy `.*?`.

Whitespace is never `{`, `j` or a backtick, so no other backtracking choice can succeed.

Where the drafts' code falls short of what their own prompt (src/generatorDELETE.py:88-97)
and the tests (tests/test_generator.py:8-24) expect, the model follows the code:

- The correct answer is normalised but never checked against the letters
  (`DraftDelete.AnswerNotValidated`).
- The second draft's HTTP fallback does not prefix the alternatives
  (`DraftOk.HttpUnprefixed`).
- The statement `pergunta`, which the tests require, is never checked: a reply without
  it is still returned as a question (`DraftDelete.StatementNotRequired`).
- The two drafts reject different statuses: the first rejects only 4xx and 5xx
  (`raise_for_status`, src/generatorDELETE.py:146), so a 3xx response goes on to its
  body, while the second rejects every status but 200 (src/generatorOKdeleteArq.py:214)
  (`DraftDelete.StatusRejection`, `DraftOk.StatusNot200`).

## Model

| member | source | states |
|---|---|---|
| PyText.Find | src/generatorDELETE.py:28 | `s.find("{")` is absent exactly when the character does not occur, and otherwise is the index of its first occurrence |
| PyText.RFind | src/generatorDELETE.py:29 | `s.rfind("}")` is absent exactly when the character does not occur, and otherwise is the index of its last occurrence |
| PyText.TrimStart | src/generatorDELETE.py:73 | the leading part of `strip()`: the result is the suffix of the text that starts at its first non-whitespace character |
| PyText.TrimEnd | src/generatorDELETE.py:73 | the trailing part of `strip()`: the result is the prefix of the text that ends at its last non-whitespace character |
| PyText.StripPadded | src/generatorDELETE.py:73 | whitespace added on either side of a text does not change what `strip()` returns |
| PyText.Strip | src/generatorDELETE.py:73 | `strip()` leaves no whitespace at either end and never lengthens the text |
| PyText.Lower | src/generatorDELETE.py:73 | `lower()` keeps the length and maps each character on its own, so no upper-case letter is left |
| PyText.Upper | src/generatorDELETE.py:110-111 | `upper()` keeps the length and maps each character on its own, so no lower-case letter is left |
| PyText.UpperChar | src/generatorDELETE.py:110-111 | `upper()` of one character leaves no lower-case letter, keeps whitespace, changes only lower-case letters, and `lower()` undoes it |
| PyText.ParseSigned | src/generatorDELETE.py:48 | a number is read only from an optional sign followed by digits: the text ends in a digit, and a negative number starts with `-` |
| PyText.ParseInt | src/generatorDELETE.py:47-50 | `int()` of a text reads the stripped text; a value comes only from a non-blank text that ends in a digit, and a negative one only from a text starting with `-` |
| PyText.ParseIntText | src/generatorDELETE.py:48 | `int()` reads back the decimal text of any integer, with or without surrounding whitespace |
| Environ.FirstSetPrecedence | src/generatorDELETE.py:8-12 | an `os.getenv(a) or os.getenv(b) or ...` chain is truthy exactly when some variable is set and non-empty; it then gives the first such variable's value, and otherwise the last operand |
| Transport.ApiKey | src/generatorDELETE.py:8-12 | the key is the value of `HF_TOKEN`, `HF_API_KEY` or `HUGGINGFACE_API_KEY`, and is unset only when the last is unset |
| Transport.ClientChoice | src/generatorOKdeleteArq.py:178 | `if InferenceClient and API_KEY` (with `API_KEY` from the chain at lines 7-11): the inference client is used exactly when the library is installed and one of `HF_TOKEN`, `HF_API_KEY`, `HUGGINGFACE_API_KEY` is non-empty; `HF_TOKEN` wins |
| Phase.IntOf | src/generatorDELETE.py:47-50 | `int(fase)`: an `int` is itself, `True`/`False` are 1/0, `None` raises, and a text gives a value only when it holds a number |
| Phase.NormalizePhase | src/generatorDELETE.py:47-52 | the phase is always 1 or 2; it is 1 exactly when `int(fase)` is 1, and anything that fails `int()` or is not 1 or 2 becomes 2 |
| Phase.AltCount | src/generatorDELETE.py:55 | 4 alternatives exactly in phase 1, and otherwise 5 |
| Phase.Labels | src/generatorOKdeleteArq.py:125-126 | `letters[:num_alts]` has `num_alts` distinct one-letter labels: the first letters of A..E, in order |
| Phase.LabelListByPhase | src/generatorDELETE.py:82 | the prompt's label list is "A, B, C, D" in phase 1 and "A, B, C, D, E" otherwise |
| Phase.TextPhase | src/generatorOKdeleteArq.py:118-123 | a phase given as text is read as `int()` reads it: the padded text of 1 selects phase 1, and the text of any other integer selects phase 2 |
| Category.CategoryKey | src/generatorDELETE.py:73 | the key has no upper-case letter and no whitespace at either end, and `None` gives the empty key |
| Category.Lookup | src/generatorDELETE.py:73-76 | a key found among the 13 synonyms gives its area's text and any other key gives the default; when no area's text is the default, the default comes back exactly for unknown keys |
| Category.EmptyKeyUnknown | src/generatorDELETE.py:73 | the empty key, which `None` gives, is not in the table |
| Category.DescriptorsDistinct | src/generatorDELETE.py:57-71 | the four descriptors differ from each other and from "Geral" |
| Category.IntrosDistinct | src/generatorOKdeleteArq.py:128-148 | the four introductions differ from each other and from the general one |
| Category.DescriptorChoice | src/generatorDELETE.py:57-76 | `cat_desc` is "Geral" for `None` and exactly for keys outside the table; a known key gives its area's descriptor |
| Category.IntroChoice | src/generatorOKdeleteArq.py:128-148 | `intro` is the general introduction for `None` and exactly for keys outside the table; a known key gives its area's introduction |
| Category.KeysReachable | src/generatorDELETE.py:57-73 | every key of the table is already stripped and lower-cased, so each entry can be selected |
| Category.AreasCovered | src/generatorOKdeleteArq.py:128-142 | the 13 keys name all four areas, "aplicacoes"/"aplicações" included |
| Category.LookupIgnoresCaseAndSpace | src/generatorOKdeleteArq.py:144-148 | a key in capitals with whitespace around it selects the same entry as the key itself |
| JsonScan.SkipSpaces | src/generatorOKdeleteArq.py:24 | the greedy `\s*` ends at the end of the text or at a non-whitespace character |
| JsonScan.SkipSpacesRun | src/generatorOKdeleteArq.py:24 | everything `\s*` passes over is whitespace |
| JsonScan.OpeningBrace | src/generatorOKdeleteArq.py:24 | the group's `{` stands after the opening backticks |
| JsonScan.ClosingBrace | src/generatorOKdeleteArq.py:24 | the lazy close is a `}` that is followed by whitespace and three backticks |
| JsonScan.ClosingBraceFirst | src/generatorOKdeleteArq.py:24 | the lazy close is the first `}` that can close the fence, and when there is none, no `}` can |
| JsonScan.MatchAt | src/generatorOKdeleteArq.py:24 | a match at a position starts with three backticks; its group starts with `{`, ends with `}`, and is followed by whitespace and three backticks |
| JsonScan.FirstFence | src/generatorDELETE.py:26 | `re.search` gives a match that the expression makes at its own start position |
| JsonScan.FirstFenceLeftmost | src/generatorDELETE.py:26 | `re.search` finds the leftmost match, and when it finds none, no position matches |
| JsonScan.FirstFenceAt | src/generatorDELETE.py:26 | a match with no match before it is the one `re.search` finds |
| JsonScan.MatchLaidOut | src/generatorOKdeleteArq.py:24 | backticks, the tag, whitespace, a braced body without backticks, whitespace and backticks make a match whose group is the braced body |
| JsonScan.FencedBlockWins | src/generatorOKdeleteArq.py:24-32 | a fenced block wins: braces in the prose before it and any trailing text are ignored, and the candidate is exactly the braced body |
| JsonScan.FenceMatch | src/generatorOKdeleteArq.py:24 | the expression matches where the fence's backticks start, with the braced body as its group |
| JsonScan.NoMatchBefore | src/generatorOKdeleteArq.py:24 | no match starts inside prose that holds no backtick |
| JsonScan.Candidate | src/generatorDELETE.py:26-34 | there is a candidate exactly when the text holds both a `{` and a `}`, and it is either empty or opens with `{` and closes with `}` |
| JsonScan.BraceCandidate | src/generatorDELETE.py:28-32 | the `find`/`rfind` fallback gives a span exactly when both braces occur; it is empty or runs from a `{` to a `}` |
| JsonScan.FindJson | src/generatorOKdeleteArq.py:22-36 | `_find_json` returns `None` for a text without a `{` or without a `}`; when there is a candidate, it is decoded and exactly what the decoder gives is returned (a decoding error is `None`); a returned value comes from a candidate, which is not the empty text when the decoder rejects that |
| JsonScan.NoFenceWithoutTicks | src/generatorDELETE.py:26 | a text without backticks holds no fenced block, so `re.search` finds nothing |
| JsonScan.BareObject | src/generatorDELETE.py:27-32 | a bare object with braces at both ends and no backtick is its own candidate |
| JsonScan.BraceSpan | src/generatorDELETE.py:27-32 | with no fenced block, the candidate is the inclusive span from the first `{` to the last `}`, and is empty when that `}` comes first |
| JsonScan.BackwardsSpan | src/generatorDELETE.py:27-38 | when the last `}` comes before the first `{`, `_find_json` decodes the empty text and so returns `None` |
| Format.NormalizeAnswer | src/generatorDELETE.py:110-111 | `.strip().upper()` of the answer has no whitespace at either end and is never longer than the answer |
| Format.NormalizedForm | src/generatorDELETE.py:110-111 | a normalised answer has no surrounding whitespace and no lower-case letter |
| Format.NormalizeAnswerCanonical | src/generatorDELETE.py:110-111 | normalising twice changes nothing, and the whitespace and letter case around the answer do not matter |
| Format.UpperStrip | src/generatorDELETE.py:110-111 | upper-casing before `strip()` gives what upper-casing after it gives |
| Format.SetAnswer | src/generatorDELETE.py:110-111 | setting the answer succeeds exactly when the answer (`""` if absent) is a string; it then adds the answer key and stores the stripped, upper-cased answer, and otherwise reports the missing `.strip` |
| Format.SetAnswerKeeps | src/generatorOKdeleteArq.py:228-229 | setting the answer leaves every other key as it was |
| Format.Labelled | src/generatorDELETE.py:108-109 | the labelled alternatives are as many as the originals, each is a string starting with its letter, ")" and a space, and with Python's `str()` a string alternative `a` becomes exactly `letters[i] + ") " + a` |
| Format.Relabel | src/generatorDELETE.py:108-109 | relabelling keeps the keys and the answer of the candidate |
| Format.RelabelFormats | src/generatorDELETE.py:108-112 | relabelling and then setting the answer prefixes alternative i with `letters[i] + ") "` in order, normalises the answer, and leaves every other key untouched |
| Format.FormatQuestion | src/generatorDELETE.py:102-113 | `format_question` succeeds exactly when the candidate is a dictionary whose alternatives are a list of exactly `num_alts` items and whose answer is a string. On success it is formatted as above. Each failing case raises its own error: no `.get`, invalid alternatives, too few letters, no `.strip` |
| Format.FormattedLacks | src/generatorDELETE.py:106-112 | `format_question` writes only the alternatives and the answer back, so a key the candidate lacks, such as "pergunta", is missing from the question too |
| Format.FormattedAnswer | src/generatorDELETE.py:110-112 | a formatted question carries the normalised answer of its candidate |
| Format.FormattedTexts | src/generatorDELETE.py:108-109 | with Python's `str()`, formatting turns each string alternative `a` into exactly `letters[i] + ") " + a`, in order |
| Format.LabelsRemovable | src/generatorDELETE.py:108-109 | each formatted alternative is its letter, ")" and a space, followed by `str()` of the original alternative; removing that prefix gives back a string alternative exactly. What `str()` makes of a non-string alternative is a parameter of the model |
| Format.FormattedShaped | tests/test_generator.py:5-24 | formatting with A..E gives the shape the tests check: `count` alternatives prefixed "A) ", "B) ", ... and a stripped, upper-cased answer |
| Format.ShapedEnds | tests/test_generator.py:12-23 | the first alternative of such a question starts with "A) " and the fifth with "E) " |
| Format.ClientFormat | src/generatorOKdeleteArq.py:192-202 | the client path succeeds exactly when the candidate is a dictionary with exactly `num_alts` alternatives and a string answer, and then formats it; a missing candidate or a wrong shape is an invalid model response carrying the model's text |
| Format.FallbackCheck | src/generatorOKdeleteArq.py:224-231 | the fallback check succeeds exactly for a dictionary with exactly `num_alts` alternatives and a string answer. It returns the alternatives as decoded, with no letters, and only the answer normalised. A falsy candidate or a wrong length is an invalid fallback response; a truthy non-dictionary has no `.get` |
| Format.FallbackKeepsOthers | src/generatorOKdeleteArq.py:228-230 | the fallback check changes nothing but the answer |
| Transport.DecodeBody | src/generatorOKdeleteArq.py:217-220 | the body is the decoded value when `r.json()` succeeds and the raw text otherwise |
| Transport.FirstRecord | src/generatorOKdeleteArq.py:222 | a record is found exactly when the body is a non-empty list whose first item is a dictionary, and it is that item |
| Transport.MethodGet | src/generatorDELETE.py:131-132 | `.get` succeeds exactly on a dictionary; any other value has no attribute `get` |
| Transport.Subscript0 | src/generatorDELETE.py:131 | `[0]` gives the first item of a non-empty list or string, is out of range on an empty one, is a missing key on a dictionary, and is a type error otherwise |
| Transport.ChatText | src/generatorOKdeleteArq.py:186-190 | `r.get("choices", ...)[0].get("message", {}).get("content", "")` (also src/generatorDELETE.py:131-132): a reply that is not a dictionary has no `.get`, and any text read comes from a dictionary reply; Transport.ChatTextReads states what is read |
| Transport.ChatTextReads | src/generatorOKdeleteArq.py:186-190 | the content is read back from a well-formed completion. A reply without "choices" gives `""` with the first draft's default `[{}]` and an index error with the second draft's `[]` |
| Transport.FindJsonIn | src/generatorOKdeleteArq.py:191 | `_find_json` runs exactly on a string; anything else is a type error |
| Transport.ResponseText | src/generatorOKdeleteArq.py:223 | the text is `generated_text` when it is truthy, and `text` (or its default) otherwise |
| Transport.OrEmpty | src/generatorOKdeleteArq.py:224 | `txt or ""` keeps a truthy value and turns a falsy one into `""` |
| Transport.EmptyTextFindsNothing | src/generatorDELETE.py:156-157 | a falsy response text finds no candidate; a truthy non-string is a type error |
| DraftDelete.GenerateQuestion | src/generatorDELETE.py:41-99 | a returned question is a dictionary with 4 alternatives in phase 1 and 5 otherwise and a string answer; when the client is used every failure is a `RuntimeError` |
| DraftDelete.CallHuggingFace | src/generatorDELETE.py:116-162 | a returned question is a dictionary with `num_alts` alternatives and a string answer; when the client is used every failure is a `RuntimeError` wrapping the original failure |
| DraftDelete.ClientPath | src/generatorDELETE.py:124-138 | the `try` block's result passes through when it succeeds, and every failure in it, the model's own `ValueError` included, is re-raised wrapped in a `RuntimeError` |
| DraftDelete.ClientAttempt | src/generatorDELETE.py:125-136 | what the client raises comes out as it is, and a question comes only from a candidate that formats |
| DraftDelete.HttpPath | src/generatorDELETE.py:141-162 | a failed POST is a connection error, a question comes only from a response whose status is not 4xx or 5xx, and it has `num_alts` alternatives and a string answer |
| DraftDelete.GeneratedShape | src/generatorDELETE.py:99-162 | every question the first draft returns, on either path, has 4 alternatives "A) ".."D) " in phase 1 and 5 alternatives "A) ".."E) " otherwise, with a stripped, upper-cased answer |
| DraftDelete.FormatSource | src/generatorDELETE.py:133-159 | a successful call is `format_question` applied to a candidate dictionary with the right number of alternatives |
| DraftDelete.AnswerNotValidated | src/generatorDELETE.py:110-111 | a model answer "f" to a phase-2 question comes back as "F", which is none of A..E |
| DraftDelete.StatementNotRequired | tests/test_generator.py:8 | a model reply without "pergunta" still comes back from the first draft as a question, which the tests' `'pergunta' in q` rejects |
| DraftDelete.ClientNoJson | src/generatorDELETE.py:133-138 | a model text in which `_find_json` finds nothing or only a falsy value (no braces, an undecodable candidate, `{}`) is an invalid model response, re-raised as a client failure |
| DraftDelete.HttpNoJson | src/generatorDELETE.py:155-160 | on the HTTP path the same kind of text is an invalid fallback response, not wrapped |
| DraftDelete.HttpFormatted | src/generatorDELETE.py:141-160 | on the HTTP path, a status that is not 4xx or 5xx and a truthy candidate in the first record's text give exactly `format_question` of that candidate, its errors not wrapped |
| DraftDelete.StatusRejection | src/generatorDELETE.py:143-162 | a 4xx or 5xx status is a connection error; any other status goes on to the body, and an unusable body is not understood |
| DraftOk.GenerateQuestion | src/generatorOKdeleteArq.py:111-233 | a returned question is a dictionary with 4 alternatives in phase 1 and 5 otherwise and a string answer; when the client is used every failure is a `RuntimeError` |
| DraftOk.Ask | src/generatorOKdeleteArq.py:178-233 | a returned question is a dictionary with `num_alts` alternatives and a string answer; when the client is used every failure is a `RuntimeError` wrapping the original failure |
| DraftOk.ClientPath | src/generatorOKdeleteArq.py:179-204 | the `try` block's result passes through when it succeeds, and every failure in it is re-raised wrapped in a `RuntimeError` |
| DraftOk.ClientAttempt | src/generatorOKdeleteArq.py:180-202 | what the client raises comes out as it is, and a question comes only from a candidate that formats; what a reply's text gives is stated by `DraftOk.ClientReplyFormatted` |
| DraftOk.ClientReplyFormatted | src/generatorOKdeleteArq.py:186-202 | a reply whose content is a text gives exactly the client-path formatting (`ClientFormat`) of what `_find_json` finds in that text |
| DraftOk.ClientSucceeds | src/generatorOKdeleteArq.py:178-202 | a reply whose candidate is a dictionary with `num_alts` alternatives and a string answer makes the client path succeed with those alternatives labelled and the answer normalised |
| DraftOk.HttpPath | src/generatorOKdeleteArq.py:206-233 | a failed POST is a connection error, a question comes only from a 200 response, and it has `num_alts` alternatives and a string answer |
| DraftOk.ClientShape | src/generatorOKdeleteArq.py:178-201 | a question from the client path has the shape the tests check for its phase |
| DraftOk.HttpResult | src/generatorOKdeleteArq.py:214-230 | for a 200 response with a usable candidate, the HTTP path returns the candidate's alternatives as decoded and only the answer normalised |
| DraftOk.HttpUnprefixed | src/generatorOKdeleteArq.py:225-230 | the HTTP path can return a first alternative "w" without the "A)" prefix the tests expect |
| DraftOk.StatusNot200 | src/generatorOKdeleteArq.py:214-215 | any status but 200 is a `RuntimeError` carrying the status and the body text, before the body is looked at |
| DraftOk.BodyDispatch | src/generatorOKdeleteArq.py:222-233 | a body that is not a non-empty list starting with a dictionary is not understood; any other body never fails that way |
| Generator.ApiKey | src/generator.py:11-16 | the key is the value of `OPENAI_API_KEY` or of `DEEPSEEK_API_KEY`, and is unset only when the latter is unset |
| Generator.KeyPrecedence | src/generator.py:11-28 | `OPENAI_API_KEY` wins when it is non-empty; otherwise the key is `DEEPSEEK_API_KEY`; there is a client exactly when one of them is non-empty |
| Generator.LocalFallbackQuestion | src/generator.py:61-78 | the fallback question is a dictionary with exactly the keys `enunciado`, `alternativas`, `correta` and `feedback` |
| Generator.FallbackShape | src/generator.py:61-78 | the fallback question has "Alternativa 1".."Alternativa 4" in order, answer "A" (the first label), a statement that names the topic, and feedback that is the fixed prefix followed by the reason |
| Generator.GenerateQuestion | src/generator.py:31-58 | the answer is always a dictionary, either `{"raw": ...}` or one with exactly the fallback question's four keys |
| Generator.NeverRaises | src/generator.py:31-58 | `generate_question` never raises. It returns `{"raw": text}` exactly when a key is set and the request succeeds. With no key it returns the fallback with the missing-key reason; when the request fails, the fallback with the error's text |

## Left out

- The prompt's prose (src/generatorDELETE.py:78-98, src/generatorOKdeleteArq.py:150-176) is not reproduced. `Transport.Prompt` keeps what it embeds: the category text, the topic, the count and the label list. The same holds for the live generator's prompt (src/generator.py:37-40).
- The network is not modelled. The inference client, `requests.post`, the OpenAI client and `load_dotenv` are not modelled as behaviour. The two remote calls are functions of the prompt in `Transport.Provider`, and the live generator's request is a parameter. For the same reason, the model name, the endpoint setting, the URL, the headers, `max_tokens` and the timeout are not part of the model.
- `json.loads`, `r.json()` and `str()` of a decoded value are parameters (`PyJson.Builtins`), not verified parsers or printers.
- Exception message texts are not modelled. Each failure is a `Failure` constructor that carries the value it reports, together with its Python class.
- The general regular-expression engine is not modelled, only this one expression.
- Dictionary key order is not modelled: `PyJson.Json` objects are maps. The in-place update of `parsed` is modelled as a returned map. No other reference to that dictionary exists in the drafts.
- PyText.ParseIntText: models only the sign-and-digits form of `int()` on text. Underscores, non-ASCII digits and `int()` of a float are not modelled.
- PyText.UpperChar: Python's `upper()` maps `ß` to "SS", `ÿ` to `Ÿ` (U+0178) and `µ` to `Μ` (U+039C); the model leaves those three characters unchanged. So Format.NormalizeAnswer differs from `.strip().upper()` on an answer that contains one of them.
- PyText.LowerChar and PyText.UpperChar model the case mapping of the Basic Latin and Latin-1 letters only, as one character to one character. Case mappings outside Latin-1 are not modelled (for example `İ`, which `lower()` turns into two characters). The category keys and the letters A..E lie inside that range.
- `logging.warning` in the live generator is not modelled, because it has no effect on the result.
- src/db.py and src/main.py are not part of this model.
- The tests call the live generator with `fase`, which it no longer accepts. The shape the tests check is stated against the two drafts (DraftDelete.GeneratedShape, DraftOk.ClientShape).
