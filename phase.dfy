/** The phase switch shared by both draft generators: `fase` is coerced with `int()`,
    anything that fails or is not 1 or 2 becomes 2, and the phase picks 4 or 5
    alternatives labelled with the first letters of A..E. */
module Phase {
  import opened Wrappers
  import opened PyText

  /** The value passed as `fase`: an `int`, a `bool`, a `str`, or `None`. */
  datatype PhaseArg = IntArg(i: int) | BoolArg(b: bool) | TextArg(t: string) | NoneArg

  /** `int(fase)`, `None` when it raises: an `int` is itself, a `bool` is 0 or 1,
      `None` raises, and a text must hold a number. */
  function IntOf(a: PhaseArg): (r: Option<int>)
    ensures a.IntArg? ==> r == Some(a.i)
    ensures a.BoolArg? ==> r.Some? && (r.value == 1 <==> a.b) && 0 <= r.value <= 1
    ensures a.NoneArg? ==> r.None?
    ensures a.TextArg? && r.Some? ==> Strip(a.t) != [] && IsDigit(Strip(a.t)[|Strip(a.t)| - 1])
  {
    match a
    case IntArg(i) => Some(i)
    case BoolArg(b) => Some(if b then 1 else 0)
    case TextArg(t) => ParseInt(t)
    case NoneArg => None
  }

  /** The phase after `try: fase = int(fase) except: fase = 2` and
      `if fase not in (1, 2): fase = 2`. */
  function NormalizePhase(a: PhaseArg): (phase: int)
    ensures phase == 1 || phase == 2
    ensures phase == 1 <==> IntOf(a) == Some(1)
    ensures IntOf(a) == Some(2) ==> phase == 2
  {
    match IntOf(a)
    case None => 2
    case Some(n) => if n == 1 || n == 2 then n else 2
  }

  /** `letters = ["A", "B", "C", "D", "E"]` */
  const Letters: seq<string> := ["A", "B", "C", "D", "E"]

  /** `num_alts = 4 if fase == 1 else 5` */
  function AltCount(phase: int): (n: nat)
    ensures n == 4 || n == 5
    ensures n == 4 <==> phase == 1
  {
    if phase == 1 then 4 else 5
  }

  /** `letters[:num_alts]` */
  function Labels(n: nat): (r: seq<string>)
    requires n <= |Letters|
    ensures |r| == n
    ensures forall i :: 0 <= i < n ==> r[i] == Letters[i] && |r[i]| == 1
    ensures forall i, k :: 0 <= i < k < n ==> r[i] != r[k]
  {
    Letters[..n]
  }

  /** `", ".join(letters[:num_alts])`, the label list the prompt embeds. */
  function LabelList(n: nat): string
    requires n <= |Letters|
  {
    Join(Labels(n), ", ")
  }

  /** Phase 1 asks for "A, B, C, D" and every other phase for "A, B, C, D, E". */
  lemma LabelListByPhase(a: PhaseArg)
    ensures NormalizePhase(a) == 1 ==> LabelList(AltCount(NormalizePhase(a))) == "A, B, C, D"
    ensures NormalizePhase(a) != 1 ==> LabelList(AltCount(NormalizePhase(a))) == "A, B, C, D, E"
  {
    LabelListFour();
    LabelListFive();
  }

  lemma LabelListFour()
    ensures LabelList(4) == "A, B, C, D"
  {
    assert Labels(4) == ["A"] + ["B", "C", "D"];
    JoinCons("A", ["B", "C", "D"], ", ");
    JoinCons("B", ["C", "D"], ", ");
    JoinCons("C", ["D"], ", ");
  }

  lemma LabelListFive()
    ensures LabelList(5) == "A, B, C, D, E"
  {
    assert Labels(5) == ["A"] + ["B", "C", "D", "E"];
    JoinCons("A", ["B", "C", "D", "E"], ", ");
    JoinCons("B", ["C", "D", "E"], ", ");
    JoinCons("C", ["D", "E"], ", ");
    JoinCons("D", ["E"], ", ");
  }

  /** A phase written as text is read the way `int()` reads it, so `" 1 "` selects the
      four-alternative format and `"abc"` or `"3"` fall back to phase 2. */
  lemma TextPhase(p: string, n: int, q: string)
    requires AllSpace(p) && AllSpace(q)
    ensures NormalizePhase(TextArg(p + IntText(n) + q)) == (if n == 1 then 1 else 2)
  {
    ParseIntText(p, n, q);
  }
}
