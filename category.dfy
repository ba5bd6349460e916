/** The category lookup of both draft generators: `(categoria or "").strip().lower()`
    is looked up in a table of 13 synonyms for 4 areas, with a fixed text for
    anything else. The two drafts share the keys and differ only in the text each
    area maps to: a short descriptor in one, a one-sentence introduction in the other. */
module Category {
  import opened Wrappers
  import opened PyText

  datatype Area = Logic | Conceptual | Ethics | Applications

  /** The 13 keys of the `CATEGORIAS` tables and the area each names. */
  const Synonyms: map<string, Area> := map[
    "logica" := Logic, "lógica" := Logic, "raciocinio" := Logic, "raciocínio" := Logic,
    "conceitual" := Conceptual, "teorica" := Conceptual, "teórica" := Conceptual, "teorico" := Conceptual,
    "etica" := Ethics, "ética" := Ethics, "sociedade" := Ethics,
    "aplicacoes" := Applications, "aplicações" := Applications
  ]

  /** The lookup key: `(categoria or "").strip().lower()`; `None` and `""` give `""`. */
  function CategoryKey(categoria: Option<string>): (key: string)
    ensures categoria.None? ==> key == ""
    ensures forall i :: 0 <= i < |key| ==> !IsUpperChar(key[i])
    ensures key != [] ==> !IsSpace(key[0]) && !IsSpace(key[|key| - 1])
  {
    match categoria
    case None => Lower(Strip(""))
    case Some(c) => Lower(Strip(c))
  }

  /** `CATEGORIAS.get(key, default)`, with each table written as area -> text. When no
      area's text is the default, the default comes back exactly for unknown keys. */
  function Lookup(categoria: Option<string>, text: Area -> string, default: string): (r: string)
    ensures CategoryKey(categoria) in Synonyms ==> r == text(Synonyms[CategoryKey(categoria)])
    ensures CategoryKey(categoria) !in Synonyms ==> r == default
    ensures (forall a :: text(a) != default) ==> (r == default <==> CategoryKey(categoria) !in Synonyms)
  {
    var key := CategoryKey(categoria);
    if key in Synonyms then text(Synonyms[key]) else default
  }

  /** The empty key, which `None` gives, is not in the table. */
  lemma EmptyKeyUnknown()
    ensures "" !in Synonyms
  {
  }

  /** The descriptor table of the first draft. */
  function Descriptor(a: Area): string {
    match a
    case Logic => "Lógica/Algoritmo"
    case Conceptual => "Conceitual"
    case Ethics => "Ética e Sociedade"
    case Applications => "Aplicações e História"
  }

  const GeneralDescriptor := "Geral"

  /** The introduction table of the second draft: each entry is "(Categoria: ",
      the first draft's descriptor, ") " and one sentence about the area. */
  function Intro(a: Area): string {
    "(Categoria: " + Descriptor(a) + ") " + Sentence(a)
  }

  function Sentence(a: Area): string {
    match a
    case Logic => "Questão que exige raciocínio, padrões, sequências, comandos ou grafos."
    case Conceptual => "Questão sobre definições, história, fundamentos e tipos de IA."
    case Ethics => "Questão sobre vieses, riscos sociais, privacidade e implicações éticas."
    case Applications => "Questão sobre uso prático da IA em setores diversos ou contexto histórico."
  }

  const GeneralSentence := "Questão interdisciplinar no estilo ONIA, podendo ser conceitual, lógica, ética ou aplicada."

  const GeneralIntro := "(Categoria: " + GeneralDescriptor + ") " + GeneralSentence

  /** The descriptors start with different letters, none of them "G": each area has its
      own descriptor and none is the default "Geral". */
  lemma DescriptorsDistinct()
    ensures forall a :: Descriptor(a) != [] && Descriptor(a)[0] != 'G'
    ensures forall a, b :: a != b ==> Descriptor(a)[0] != Descriptor(b)[0]
    ensures forall a :: Descriptor(a) != GeneralDescriptor
  {
    assert Descriptor(Logic)[0] == 'L' && Descriptor(Conceptual)[0] == 'C';
    assert Descriptor(Ethics)[0] == 'É' && Descriptor(Applications)[0] == 'A';
    assert GeneralDescriptor[0] == 'G';
  }

  /** An introduction shows its descriptor's first letter at position 12, so each area
      has its own introduction and none is the general one. */
  lemma IntrosDistinct()
    ensures forall a, b :: a != b ==> Intro(a) != Intro(b)
    ensures forall a :: Intro(a) != GeneralIntro
  {
    DescriptorsDistinct();
    forall a
      ensures Intro(a)[12] == Descriptor(a)[0]
    {
      IntroHead(Descriptor(a), ") ", Sentence(a));
    }
    IntroHead(GeneralDescriptor, ") ", GeneralSentence);
  }

  lemma IntroHead(d: string, x: string, y: string)
    requires d != []
    ensures ("(Categoria: " + d + x + y)[12] == d[0]
  {
  }

  /** The first draft's `cat_desc`. */
  function CategoryDescriptor(categoria: Option<string>): string {
    Lookup(categoria, Descriptor, GeneralDescriptor)
  }

  /** A known key selects its area's descriptor and anything else, `None` included,
      gives "Geral". */
  lemma DescriptorChoice(categoria: Option<string>)
    ensures categoria.None? ==> CategoryDescriptor(categoria) == GeneralDescriptor
    ensures CategoryDescriptor(categoria) == GeneralDescriptor <==> CategoryKey(categoria) !in Synonyms
    ensures CategoryKey(categoria) in Synonyms ==> CategoryDescriptor(categoria) == Descriptor(Synonyms[CategoryKey(categoria)])
  {
    DescriptorsDistinct();
    EmptyKeyUnknown();
  }

  /** The second draft's `intro`. */
  function CategoryIntro(categoria: Option<string>): string {
    Lookup(categoria, Intro, GeneralIntro)
  }

  /** A known key selects its area's introduction and anything else, `None` included,
      gives the general one. */
  lemma IntroChoice(categoria: Option<string>)
    ensures categoria.None? ==> CategoryIntro(categoria) == GeneralIntro
    ensures CategoryIntro(categoria) == GeneralIntro <==> CategoryKey(categoria) !in Synonyms
    ensures CategoryKey(categoria) in Synonyms ==> CategoryIntro(categoria) == Intro(Synonyms[CategoryKey(categoria)])
  {
    IntrosDistinct();
    EmptyKeyUnknown();
  }

  /** A word made only of lower-case letters. */
  ghost predicate LowerWord(k: string) {
    forall i :: 0 <= i < |k| ==> IsLowerChar(k[i])
  }

  /** Such a word is already stripped and lower-cased. */
  lemma LowerWordForm(k: string)
    requires LowerWord(k)
    ensures Strip(k) == k && Lower(k) == k
    ensures forall i :: 0 <= i < |k| ==> !IsUpperChar(k[i])
  {
    forall i | 0 <= i < |k|
      ensures !IsUpperChar(k[i]) && Lower(k)[i] == k[i]
    {
      LowerCharFixed(k[i]);
    }
    if k != [] {
      LowerCharFixed(k[0]);
      LowerCharFixed(k[|k| - 1]);
    }
    StripStripped(k);
  }

  lemma LowerCharFixed(c: char)
    requires IsLowerChar(c)
    ensures !IsUpperChar(c) && !IsSpace(c) && LowerChar(c) == c
  {
  }

  /** Every key of the table is a lower-case word. */
  lemma KeyForm(k: string)
    requires k in Synonyms
    ensures LowerWord(k)
  {
    if k == "logica" {
    } else if k == "lógica" {
    } else if k == "raciocinio" {
    } else if k == "raciocínio" {
    } else if k == "conceitual" {
    } else if k == "teorica" {
    } else if k == "teórica" {
    } else if k == "teorico" {
    } else if k == "etica" {
    } else if k == "ética" {
    } else if k == "sociedade" {
    } else if k == "aplicacoes" {
    } else {
      assert k == "aplicações";
    }
  }

  /** Every key is already in the form the lookup produces, so every entry of the
      table is reachable. */
  lemma KeysReachable()
    ensures forall k :: k in Synonyms ==> CategoryKey(Some(k)) == k
  {
    forall k | k in Synonyms
      ensures CategoryKey(Some(k)) == k
    {
      KeyForm(k);
      LowerWordForm(k);
    }
  }

  /** Every area is named by some key of the table. */
  lemma AreasCovered()
    ensures Synonyms.Values == {Logic, Conceptual, Ethics, Applications}
  {
    assert Synonyms["logica"] == Logic && Synonyms["conceitual"] == Conceptual;
    assert Synonyms["etica"] == Ethics && Synonyms["aplicacoes"] == Applications;
  }

  /** The lookup ignores surrounding whitespace and letter case: the key padded with
      whitespace, in capitals, selects the same text as the key itself, for every key
      of the table (so " LÓGICA\n" finds the Logic entry). */
  lemma LookupIgnoresCaseAndSpace(k: string, p: string, q: string, text: Area -> string, default: string)
    requires k in Synonyms
    requires AllSpace(p) && AllSpace(q)
    ensures Lookup(Some(p + Upper(k) + q), text, default) == text(Synonyms[k])
  {
    KeyForm(k);
    LowerWordForm(k);
    StripUpper(k);
    StripPadded(p, Upper(k), q);
    LowerUpper(k);
  }
}
