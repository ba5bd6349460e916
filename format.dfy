/** Turning a decoded candidate into a question: `format_question` of the first draft,
    and the two inline copies of the second draft (the client path, which prefixes the
    alternatives, and the HTTP fallback, whose prefixing is commented out). */
module Format {
  import opened Wrappers
  import opened PyText
  import opened PyJson
  import opened Errors
  import opened Phase

  const AltsKey := "alternativas"
  const AnswerKey := "resposta_correta"

  /** `answer.strip().upper()`: no whitespace at either end, and never longer than the
      answer it came from (`NormalizedForm` adds that no lower-case letter is left). */
  function NormalizeAnswer(t: string): (r: string)
    ensures |r| <= |t|
    ensures r != [] ==> !IsSpace(r[0]) && !IsSpace(r[|r| - 1])
  {
    Upper(Strip(t))
  }

  /** A normalised answer has no surrounding whitespace and no lower-case letter. */
  lemma NormalizedForm(t: string)
    ensures Strip(NormalizeAnswer(t)) == NormalizeAnswer(t)
    ensures forall i :: 0 <= i < |NormalizeAnswer(t)| ==> !IsLowerChar(NormalizeAnswer(t)[i])
  {
    var s := Strip(t);
    var u := Upper(s);
    if u != [] {
      assert u[0] == UpperChar(s[0]) && u[|u| - 1] == UpperChar(s[|s| - 1]);
    }
    StripStripped(u);
  }

  /** Normalising an answer twice changes nothing, and whitespace and letter case
      around the letter do not matter (so " b\n" and "B" both give "B"). */
  lemma NormalizeAnswerCanonical(p: string, t: string, q: string)
    requires AllSpace(p) && AllSpace(q)
    ensures NormalizeAnswer(NormalizeAnswer(t)) == NormalizeAnswer(t)
    ensures NormalizeAnswer(p + t + q) == NormalizeAnswer(t)
    ensures NormalizeAnswer(p + Upper(t) + q) == NormalizeAnswer(t)
  {
    NormalizeTwice(t);
    NormalizePadded(p, t, q);
    NormalizePadded(p, Upper(t), q);
    NormalizeUpper(t);
  }

  lemma NormalizePadded(p: string, t: string, q: string)
    requires AllSpace(p) && AllSpace(q)
    ensures NormalizeAnswer(p + t + q) == NormalizeAnswer(t)
  {
    StripPadded(p, t, q);
  }

  lemma NormalizeUpper(t: string)
    ensures NormalizeAnswer(Upper(t)) == NormalizeAnswer(t)
  {
    UpperStrip(t);
  }

  lemma NormalizeTwice(t: string)
    ensures NormalizeAnswer(NormalizeAnswer(t)) == NormalizeAnswer(t)
  {
    var n := NormalizeAnswer(t);
    NormalizedForm(t);
    UpperIdempotent(Strip(t));
    assert NormalizeAnswer(n) == Upper(n);
  }

  /** Upper-casing first and stripping later gives what stripping first and upper-casing
      later gives. */
  lemma UpperStrip(t: string)
    ensures Upper(Strip(Upper(t))) == Upper(Strip(t))
  {
    UpperTrimStart(t);
    UpperTrimEnd(TrimStart(t));
    UpperIdempotent(Strip(t));
  }

  lemma {:induction false} UpperTrimStart(t: string)
    ensures TrimStart(Upper(t)) == Upper(TrimStart(t))
    decreases |t|
  {
    if t != [] && IsSpace(t[0]) {
      assert Upper(t)[1..] == Upper(t[1..]);
      UpperTrimStart(t[1..]);
    }
  }

  lemma {:induction false} UpperTrimEnd(t: string)
    ensures TrimEnd(Upper(t)) == Upper(TrimEnd(t))
    decreases |t|
  {
    if t != [] && IsSpace(t[|t| - 1]) {
      assert Upper(t)[..|t| - 1] == Upper(t[..|t| - 1]);
      UpperTrimEnd(t[..|t| - 1]);
    }
  }

  /** `isinstance(d.get("alternativas"), list) and len(d["alternativas"]) == count` */
  predicate HasAlternatives(fields: map<string, Json>, count: int) {
    AltsKey in fields && fields[AltsKey].Arr? && |fields[AltsKey].items| == count
  }

  /** What every question a draft returns is: a dictionary with `count` alternatives and
      a string answer. */
  predicate Delivered(q: Json, count: int) {
    q.Obj? && HasAlternatives(q.fields, count) && AnswerKey in q.fields && q.fields[AnswerKey].Str?
  }

  /** The answer the candidate carries, `""` when it has none. */
  function AnswerOf(fields: map<string, Json>): Json {
    Get(fields, AnswerKey, Str(""))
  }

  /** Updating one key of a dictionary leaves every other key as it was. */
  lemma UpdateKeeps(fields: map<string, Json>, key: string, v: Json)
    ensures forall k :: k in fields && k != key ==> fields[key := v][k] == fields[k]
  {
  }

  /** `d["resposta_correta"] = d.get("resposta_correta", "").strip().upper()`; a
      non-string answer has no `.strip()`. */
  function SetAnswer(fields: map<string, Json>): (r: Result<map<string, Json>, Failure>)
    ensures r.Success? <==> AnswerOf(fields).Str?
    ensures r.Failure? ==> r.error == NoAttribute(TypeName(AnswerOf(fields)), "strip")
    ensures r.Success? ==> r.value.Keys == fields.Keys + {AnswerKey}
    ensures r.Success? ==> r.value[AnswerKey] == Str(NormalizeAnswer(AnswerOf(fields).s))
  {
    match AnswerOf(fields)
    case Str(t) => Success(fields[AnswerKey := Str(NormalizeAnswer(t))])
    case other => Failure(NoAttribute(TypeName(other), "strip"))
  }

  /** Setting the answer leaves every other key of the candidate as it was. */
  lemma SetAnswerKeeps(fields: map<string, Json>)
    requires AnswerOf(fields).Str?
    ensures forall k :: k in fields && k != AnswerKey ==> SetAnswer(fields).value[k] == fields[k]
  {
    UpdateKeeps(fields, AnswerKey, Str(NormalizeAnswer(AnswerOf(fields).s)));
  }

  /** `[f"{letters[i]}) {a}" for i, a in enumerate(alts)]`: one string per alternative,
      in order, each starting with its letter, ")" and a space; with Python's `str()`
      a string alternative is kept verbatim after that prefix. */
  function Labelled(alts: seq<Json>, letters: seq<string>, render: Json -> string): (r: seq<Json>)
    requires |alts| <= |letters|
    ensures |r| == |alts|
    ensures forall i :: 0 <= i < |alts| ==> r[i].Str? && letters[i] + ") " <= r[i].s
    ensures RendersText(render) ==> forall i :: 0 <= i < |alts| && alts[i].Str? ==> r[i] == Str(letters[i] + ") " + alts[i].s)
  {
    var r := seq(|alts|, i requires 0 <= i < |alts| => Str(letters[i] + ") " + render(alts[i])));
    assert forall i :: 0 <= i < |alts| ==> (letters[i] + ") " + render(alts[i]))[..|letters[i]| + 2] == letters[i] + ") ";
    r
  }

  /** `after` is `before` with its alternatives prefixed by their letters, in order, and its
      answer normalised; every other key is untouched. */
  ghost predicate Formatted(before: map<string, Json>, after: map<string, Json>, count: int, letters: seq<string>, render: Json -> string)
    requires HasAlternatives(before, count) && count <= |letters|
  {
    after.Keys == before.Keys + {AnswerKey}
    && AltsLabelled(before, after, count, letters, render)
    && AnswerNormalised(before, after)
    && OthersKept(before, after)
  }

  ghost predicate AltsLabelled(before: map<string, Json>, after: map<string, Json>, count: int, letters: seq<string>, render: Json -> string)
    requires HasAlternatives(before, count) && count <= |letters|
  {
    AltsKey in after && after[AltsKey].Arr? && |after[AltsKey].items| == count
    && forall i :: 0 <= i < count ==> after[AltsKey].items[i] == Str(letters[i] + ") " + render(before[AltsKey].items[i]))
  }

  ghost predicate AnswerNormalised(before: map<string, Json>, after: map<string, Json>) {
    AnswerOf(before).Str? && AnswerKey in after && after[AnswerKey] == Str(NormalizeAnswer(AnswerOf(before).s))
  }

  ghost predicate OthersKept(before: map<string, Json>, after: map<string, Json>) {
    forall k :: k in before && k != AltsKey && k != AnswerKey ==> k in after && after[k] == before[k]
  }

  /** The candidate with its alternatives replaced by their labelled texts. */
  function Relabel(fields: map<string, Json>, count: int, letters: seq<string>, render: Json -> string): (r: map<string, Json>)
    requires HasAlternatives(fields, count) && count <= |letters|
    ensures r.Keys == fields.Keys && AnswerOf(r) == AnswerOf(fields)
  {
    fields[AltsKey := Arr(Labelled(fields[AltsKey].items, letters, render))]
  }

  /** Relabelling and then normalising the answer gives a formatted candidate. */
  lemma RelabelFormats(fields: map<string, Json>, count: int, letters: seq<string>, render: Json -> string)
    requires HasAlternatives(fields, count) && count <= |letters|
    requires SetAnswer(Relabel(fields, count, letters, render)).Success?
    ensures Formatted(fields, SetAnswer(Relabel(fields, count, letters, render)).value, count, letters, render)
  {
    RelabelAlts(fields, count, letters, render);
    RelabelAnswer(fields, count, letters, render);
    RelabelOthers(fields, count, letters, render);
  }

  lemma RelabelAlts(fields: map<string, Json>, count: int, letters: seq<string>, render: Json -> string)
    requires HasAlternatives(fields, count) && count <= |letters|
    requires SetAnswer(Relabel(fields, count, letters, render)).Success?
    ensures AltsLabelled(fields, SetAnswer(Relabel(fields, count, letters, render)).value, count, letters, render)
  {
    var relabelled := Relabel(fields, count, letters, render);
    var done := SetAnswer(relabelled).value;
    SetAnswerKeeps(relabelled);
    assert done[AltsKey] == relabelled[AltsKey];
  }

  lemma RelabelAnswer(fields: map<string, Json>, count: int, letters: seq<string>, render: Json -> string)
    requires HasAlternatives(fields, count) && count <= |letters|
    requires SetAnswer(Relabel(fields, count, letters, render)).Success?
    ensures AnswerNormalised(fields, SetAnswer(Relabel(fields, count, letters, render)).value)
  {
  }

  lemma RelabelOthers(fields: map<string, Json>, count: int, letters: seq<string>, render: Json -> string)
    requires HasAlternatives(fields, count) && count <= |letters|
    requires SetAnswer(Relabel(fields, count, letters, render)).Success?
    ensures OthersKept(fields, SetAnswer(Relabel(fields, count, letters, render)).value)
  {
    var relabelled := Relabel(fields, count, letters, render);
    var done := SetAnswer(relabelled).value;
    UpdateKeeps(fields, AltsKey, relabelled[AltsKey]);
    assert relabelled == fields[AltsKey := relabelled[AltsKey]];
    SetAnswerKeeps(relabelled);
    forall k | k in fields && k != AltsKey && k != AnswerKey
      ensures k in done && done[k] == fields[k]
    {
      assert done[k] == relabelled[k];
    }
  }

  /** `format_question(parsed, num_alts, letters)` of the first draft. It succeeds exactly
      when the candidate is a dictionary whose alternatives are a list of exactly `count`
      items (there are enough letters for them) and whose answer, if any, is a string;
      it never truncates or pads. */
  function FormatQuestion(parsed: Json, count: int, letters: seq<string>, render: Json -> string): (r: Result<Json, Failure>)
    ensures r.Success? <==> parsed.Obj? && HasAlternatives(parsed.fields, count) && count <= |letters| && AnswerOf(parsed.fields).Str?
    ensures !parsed.Obj? ==> r == Failure(NoAttribute(TypeName(parsed), "get"))
    ensures parsed.Obj? && !HasAlternatives(parsed.fields, count) ==> r == Failure(InvalidAlternatives)
    ensures parsed.Obj? && HasAlternatives(parsed.fields, count) && count > |letters| ==> r == Failure(OutOfRange)
    ensures (parsed.Obj? && HasAlternatives(parsed.fields, count) && count <= |letters| && !AnswerOf(parsed.fields).Str?
      ==> r == Failure(NoAttribute(TypeName(AnswerOf(parsed.fields)), "strip")))
    ensures r.Success? ==> r.value.Obj? && Formatted(parsed.fields, r.value.fields, count, letters, render)
  {
    if !parsed.Obj? then Failure(NoAttribute(TypeName(parsed), "get"))
    else if !HasAlternatives(parsed.fields, count) then Failure(InvalidAlternatives)
    else if count > |letters| then Failure(OutOfRange)
    else
      match SetAnswer(Relabel(parsed.fields, count, letters, render))
      case Failure(e) => Failure(e)
      case Success(done) =>
        RelabelFormats(parsed.fields, count, letters, render);
        Success(Obj(done))
  }

  /** Formatting adds no key but the answer: a key the candidate lacks, other than the
      answer's, is missing from the question too. */
  lemma FormattedLacks(parsed: Json, count: int, letters: seq<string>, render: Json -> string, key: string)
    requires parsed.Obj? && HasAlternatives(parsed.fields, count) && count <= |letters| && AnswerOf(parsed.fields).Str?
    requires key !in parsed.fields && key != AnswerKey
    ensures var r := FormatQuestion(parsed, count, letters, render);
      r.Success? && r.value.Obj? && key !in r.value.fields
  {
    var r := FormatQuestion(parsed, count, letters, render);
    assert Formatted(parsed.fields, r.value.fields, count, letters, render);
  }

  /** A formatted question carries the normalised answer of its candidate. */
  lemma FormattedAnswer(parsed: Json, count: int, letters: seq<string>, render: Json -> string)
    requires parsed.Obj? && HasAlternatives(parsed.fields, count) && count <= |letters| && AnswerOf(parsed.fields).Str?
    ensures var r := FormatQuestion(parsed, count, letters, render);
      r.Success? && r.value.Obj? && AnswerKey in r.value.fields
      && r.value.fields[AnswerKey] == Str(NormalizeAnswer(AnswerOf(parsed.fields).s))
  {
    var r := FormatQuestion(parsed, count, letters, render);
    assert AnswerNormalised(parsed.fields, r.value.fields);
  }

  /** With Python's `str()`, formatting turns each string alternative `a` into exactly
      `letters[i] + ") " + a`, in order. */
  lemma FormattedTexts(parsed: Json, count: int, letters: seq<string>, render: Json -> string)
    requires FormatQuestion(parsed, count, letters, render).Success?
    requires RendersText(render)
    ensures var r := FormatQuestion(parsed, count, letters, render).value;
      forall i :: 0 <= i < count && parsed.fields[AltsKey].items[i].Str? ==>
        r.fields[AltsKey].items[i] == Str(letters[i] + ") " + parsed.fields[AltsKey].items[i].s)
  {
    var r := FormatQuestion(parsed, count, letters, render).value;
    assert AltsLabelled(parsed.fields, r.fields, count, letters, render);
  }

  /** The prefix is a letter, ")" and a space, and removing it gives back `str()` of the
      original alternative, which for a string alternative is the string itself. */
  lemma LabelsRemovable(before: map<string, Json>, after: map<string, Json>, count: int, letters: seq<string>, render: Json -> string, i: int)
    requires HasAlternatives(before, count) && count <= |letters|
    requires Formatted(before, after, count, letters, render)
    requires 0 <= i < count
    ensures var item := after[AltsKey].items[i];
      item.Str? && item.s[..|letters[i]| + 2] == letters[i] + ") "
      && item.s[|letters[i]| + 2..] == render(before[AltsKey].items[i])
    ensures RendersText(render) && before[AltsKey].items[i].Str? ==>
      after[AltsKey].items[i].s[|letters[i]| + 2..] == before[AltsKey].items[i].s
  {
    var prefix := letters[i] + ") ";
    var text := render(before[AltsKey].items[i]);
    var item := after[AltsKey].items[i];
    assert item.s == prefix + text;
    assert (prefix + text)[..|prefix|] == prefix;
    assert (prefix + text)[|prefix|..] == text;
  }

  /** What the tests expect of a generated question: a dictionary whose alternatives
      are `count` strings that start with "A) ", "B) ", ... in order, and whose answer
      is a string that is already stripped and upper-cased. */
  ghost predicate Shaped(q: Json, count: nat) {
    count <= |Letters| && q.Obj? && AltsKey in q.fields && q.fields[AltsKey].Arr?
    && Prefixed(q.fields[AltsKey].items, count)
    && AnswerKey in q.fields && q.fields[AnswerKey].Str? && Canonical(q.fields[AnswerKey].s)
  }

  /** `count` strings, the i-th starting with the i-th letter, ")" and a space. */
  ghost predicate Prefixed(items: seq<Json>, count: nat)
    requires count <= |Letters|
  {
    |items| == count && forall i :: 0 <= i < count ==> items[i].Str? && Letters[i] + ") " <= items[i].s
  }

  /** An answer that normalising leaves as it is. */
  ghost predicate Canonical(answer: string) {
    NormalizeAnswer(answer) == answer
  }

  /** Formatting with the fixed letters gives the shape the tests check. */
  lemma FormattedShaped(before: map<string, Json>, after: map<string, Json>, count: nat, render: Json -> string)
    requires HasAlternatives(before, count) && count <= |Letters|
    requires Formatted(before, after, count, Letters, render)
    ensures Shaped(Obj(after), count)
  {
    NormalizeAnswerCanonical("", AnswerOf(before).s, "");
    forall i | 0 <= i < count
      ensures Letters[i] + ") " <= after[AltsKey].items[i].s
    {
      var prefix := Letters[i] + ") ";
      assert after[AltsKey].items[i].s == prefix + render(before[AltsKey].items[i]);
      assert (prefix + render(before[AltsKey].items[i]))[..|prefix|] == prefix;
    }
  }

  /** The first alternative of a shaped question starts with "A) ", and the fifth, when
      there is one, with "E) ". */
  lemma ShapedEnds(items: seq<Json>, count: nat)
    requires count <= |Letters| && Prefixed(items, count)
    ensures count > 0 ==> "A) " <= items[0].s
    ensures count == 5 ==> "E) " <= items[4].s
  {
    if count > 0 {
      assert Letters[0] + ") " <= items[0].s;
      assert Letters[0] + ") " == "A) ";
    }
    if count == 5 {
      assert Letters[4] + ") " <= items[4].s;
      assert Letters[4] + ") " == "E) ";
    }
  }

  /** The second draft's client path (`if parsed and isinstance(parsed, dict)` and the
      inline formatting): the same formatting with the fixed letters A..E, but every
      shape problem of the candidate, a missing one included, is reported as an invalid
      model response carrying the model's text. */
  function ClientFormat(text: Json, parsed: Option<Json>, count: int, render: Json -> string): (r: Result<Json, Failure>)
    ensures r.Success? <==> (parsed.Some? && parsed.value.Obj? && HasAlternatives(parsed.value.fields, count)
      && count <= |Letters| && AnswerOf(parsed.value.fields).Str?)
    ensures r.Success? ==> r.value.Obj? && Formatted(parsed.value.fields, r.value.fields, count, Letters, render)
    ensures parsed.None? || !parsed.value.Obj? || !HasAlternatives(parsed.value.fields, count)
      ==> r == Failure(InvalidModelResponse(text))
  {
    if parsed.Some? && Truthy(parsed.value) && parsed.value.Obj? && HasAlternatives(parsed.value.fields, count) then
      FormatQuestion(parsed.value, count, Letters, render)
    else Failure(InvalidModelResponse(text))
  }

  /** The second draft's HTTP fallback check: the length of the alternatives is checked
      and the answer normalised, but the alternatives are returned as decoded, without
      letters. A falsy candidate is an invalid fallback response; a truthy one that is not
      a dictionary has no `.get`. */
  function FallbackCheck(txt: Json, parsed: Option<Json>, count: int): (r: Result<Json, Failure>)
    ensures r.Success? <==> (parsed.Some? && parsed.value.Obj? && HasAlternatives(parsed.value.fields, count)
      && AnswerOf(parsed.value.fields).Str?)
    ensures r.Success? ==> (r.value.Obj? && r.value.fields.Keys == parsed.value.fields.Keys + {AnswerKey}
      && r.value.fields[AltsKey] == parsed.value.fields[AltsKey]
      && r.value.fields[AnswerKey] == Str(NormalizeAnswer(AnswerOf(parsed.value.fields).s)))
    ensures parsed.Some? && Truthy(parsed.value) && !parsed.value.Obj?
      ==> r == Failure(NoAttribute(TypeName(parsed.value), "get"))
    ensures parsed.None? || !Truthy(parsed.value) || (parsed.value.Obj? && !HasAlternatives(parsed.value.fields, count))
      ==> r == Failure(InvalidFallbackResponse(txt))
  {
    if parsed.None? || !Truthy(parsed.value) then Failure(InvalidFallbackResponse(txt))
    else if !parsed.value.Obj? then Failure(NoAttribute(TypeName(parsed.value), "get"))
    else if !HasAlternatives(parsed.value.fields, count) then Failure(InvalidFallbackResponse(txt))
    else match SetAnswer(parsed.value.fields)
      case Failure(e) => Failure(e)
      case Success(done) =>
        SetAnswerKeeps(parsed.value.fields);
        Success(Obj(done))
  }

  /** The fallback check changes nothing but the answer. */
  lemma FallbackKeepsOthers(txt: Json, parsed: Option<Json>, count: int)
    requires FallbackCheck(txt, parsed, count).Success?
    ensures var kept := parsed.value.fields;
      forall k :: k in kept && k != AnswerKey ==> FallbackCheck(txt, parsed, count).value.fields[k] == kept[k]
  {
    SetAnswerKeeps(parsed.value.fields);
  }
}
