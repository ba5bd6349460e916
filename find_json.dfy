/** `_find_json(s)`: pick a candidate JSON text out of free model output and decode it,
    answering `None` instead of raising.

    The candidate is, first, the group of the leftmost match of the regular expression
    ```(?:json)?\s*(\{.*?\})\s*``` (with `.` matching newlines); failing that, the span
    from the first `{` to the last `}`. The match is modelled by what the backtracking
    search does: at a start position holding three backticks it skips an optional `json`
    tag (tried first) and the whole run of whitespace, needs a `{` there, and then takes
    the FIRST `}` after it whose following run of whitespace ends in three backticks
    (the lazy `.*?`). Because whitespace is never `{`, `j` or a backtick, no other
    backtracking choice can succeed. */
module JsonScan {
  import opened Wrappers
  import opened PyText
  import opened PyJson

  /** Three backticks start at `i`. */
  predicate TicksAt(s: string, i: nat) {
    i + 3 <= |s| && s[i] == '`' && s[i + 1] == '`' && s[i + 2] == '`'
  }

  /** The tag `json` starts at `i`. */
  predicate JsonTagAt(s: string, i: nat) {
    i + 4 <= |s| && s[i] == 'j' && s[i + 1] == 's' && s[i + 2] == 'o' && s[i + 3] == 'n'
  }

  /** The end of the run of whitespace that starts at `i` (greedy `\s*`). */
  function SkipSpaces(s: string, i: nat): (k: nat)
    requires i <= |s|
    ensures i <= k <= |s|
    ensures k == |s| || !IsSpace(s[k])
    decreases |s| - i
  {
    if i < |s| && IsSpace(s[i]) then SkipSpaces(s, i + 1) else i
  }

  /** Everything the skip passes over is whitespace. */
  lemma {:induction false} SkipSpacesRun(s: string, i: nat)
    requires i <= |s|
    ensures forall m :: i <= m < SkipSpaces(s, i) ==> IsSpace(s[m])
    decreases |s| - i
  {
    if i < |s| && IsSpace(s[i]) {
      SkipSpacesRun(s, i + 1);
    }
  }

  /** The skip stops at or before any character that is not whitespace. */
  lemma {:induction false} SkipSpacesStops(s: string, i: nat, c: nat)
    requires i <= c < |s| && !IsSpace(s[c])
    ensures SkipSpaces(s, i) <= c
    decreases c - i
  {
    if i < c && IsSpace(s[i]) {
      SkipSpacesStops(s, i + 1, c);
    }
  }

  /** The `}` at `m` can end the fenced group: whitespace, then three backticks, follow it. */
  predicate ClosesFence(s: string, m: nat)
    requires m < |s|
  {
    s[m] == '}' && TicksAt(s, SkipSpaces(s, m + 1))
  }

  /** Where the `{` of a fence opened at `p` stands, if the fence has one. */
  function OpeningBrace(s: string, p: nat): (q: Option<nat>)
    requires TicksAt(s, p)
    ensures q.Some? ==> p + 3 <= q.value < |s| && s[q.value] == '{'
  {
    var t := if JsonTagAt(s, p + 3) then p + 7 else p + 3;
    var k := SkipSpaces(s, t);
    if k < |s| && s[k] == '{' then Some(k) else None
  }

  /** The lazy `.*?\}\s*```` from `e` on: the first `}` at or after `e` that closes the fence. */
  function ClosingBrace(s: string, e: nat): (c: Option<nat>)
    requires e <= |s|
    ensures c.Some? ==> e <= c.value < |s| && ClosesFence(s, c.value)
    decreases |s| - e
  {
    if e == |s| then None
    else if ClosesFence(s, e) then Some(e)
    else ClosingBrace(s, e + 1)
  }

  /** The lazy close is the first `}` that can close: none before it can, and when
      there is none, no `}` from `e` on can. */
  lemma {:induction false} ClosingBraceFirst(s: string, e: nat)
    requires e <= |s|
    ensures ClosingBrace(s, e).Some? ==> forall m :: e <= m < ClosingBrace(s, e).value ==> !ClosesFence(s, m)
    ensures ClosingBrace(s, e).None? ==> forall m :: e <= m < |s| ==> !ClosesFence(s, m)
    decreases |s| - e
  {
    if e < |s| && !ClosesFence(s, e) {
      ClosingBraceFirst(s, e + 1);
    }
  }

  /** A match of the fence expression: it starts at `start`, and its group is `s[open..close]`. */
  datatype Fence = Fence(start: nat, open: nat, close: nat)

  /** The match of the fence expression that starts at `p`, if there is one. */
  function MatchAt(s: string, p: nat): (r: Option<Fence>)
    ensures r.Some? ==> r.value.start == p && TicksAt(s, p)
    ensures r.Some? ==> p + 3 <= r.value.open < r.value.close <= |s|
    ensures r.Some? ==> s[r.value.open] == '{' && s[r.value.close - 1] == '}'
    ensures r.Some? ==> TicksAt(s, SkipSpaces(s, r.value.close))
  {
    if !TicksAt(s, p) then None
    else match OpeningBrace(s, p)
      case None => None
      case Some(q) =>
        match ClosingBrace(s, q + 1)
        case None => None
        case Some(e) => Some(Fence(p, q, e + 1))
  }

  /** The outcome of trying the fence expression at each start position `0..|s|`. */
  function Attempts(s: string): (xs: seq<Option<Fence>>)
    ensures |xs| == |s| + 1
  {
    seq(|s| + 1, k requires 0 <= k <= |s| => MatchAt(s, k))
  }

  /** The first position at or after `p` whose attempt succeeded. */
  function FirstSome(xs: seq<Option<Fence>>, p: nat): (r: Option<nat>)
    requires p <= |xs|
    ensures r.Some? ==> p <= r.value < |xs| && xs[r.value].Some?
    decreases |xs| - p
  {
    if p == |xs| then None
    else if xs[p].Some? then Some(p)
    else FirstSome(xs, p + 1)
  }

  /** No attempt before the one found succeeded; when none is found, none succeeded. */
  lemma {:induction false} FirstSomeLeftmost(xs: seq<Option<Fence>>, p: nat)
    requires p <= |xs|
    ensures FirstSome(xs, p).Some? ==> forall k :: p <= k < FirstSome(xs, p).value ==> xs[k].None?
    ensures FirstSome(xs, p).None? ==> forall k :: p <= k < |xs| ==> xs[k].None?
    decreases |xs| - p
  {
    if p < |xs| && xs[p].None? {
      FirstSomeLeftmost(xs, p + 1);
    }
  }

  /** The attempt at `i` is the first to succeed when none from `p` up to it did. */
  lemma {:induction false} FirstSomeAt(xs: seq<Option<Fence>>, p: nat, i: nat)
    requires p <= i < |xs| && xs[i].Some?
    requires forall k :: p <= k < i ==> xs[k].None?
    ensures FirstSome(xs, p) == Some(i)
    decreases i - p
  {
    if p < i {
      FirstSomeAt(xs, p + 1, i);
    }
  }

  /** `re.search`: the match at the leftmost start position where one succeeds. */
  function FirstFence(s: string): (r: Option<Fence>)
    ensures r.Some? ==> r.value.start <= |s| && MatchAt(s, r.value.start) == r
  {
    match FirstSome(Attempts(s), 0)
    case None => None
    case Some(i) => MatchAt(s, i)
  }

  /** The search finds the leftmost match: none starts before the one found, and when
      none is found, none starts anywhere. */
  lemma FirstFenceLeftmost(s: string)
    ensures FirstFence(s).Some? ==> forall k :: 0 <= k < FirstFence(s).value.start ==> MatchAt(s, k).None?
    ensures FirstFence(s).None? ==> forall k :: 0 <= k <= |s| ==> MatchAt(s, k).None?
  {
    var xs := Attempts(s);
    FirstSomeLeftmost(xs, 0);
    if FirstFence(s).Some? {
      forall k | 0 <= k < FirstFence(s).value.start
        ensures MatchAt(s, k).None?
      {
        assert xs[k] == MatchAt(s, k);
      }
    } else {
      forall k | 0 <= k <= |s|
        ensures MatchAt(s, k).None?
      {
        assert xs[k] == MatchAt(s, k);
      }
    }
  }

  /** The text `_find_json` hands to `json.loads`, or `None` when it returns `None` without
      decoding anything. There is one exactly when the text holds both a `{` and a `}`,
      and it is either empty (when the last `}` comes before the first `{`, the slice
      `s[i:j+1]` is empty) or a text that opens with `{` and closes with `}`. */
  function Candidate(s: string): (r: Option<string>)
    ensures r.Some? <==> '{' in s && '}' in s
    ensures r.Some? ==> r.value == [] || (|r.value| >= 2 && r.value[0] == '{' && r.value[|r.value| - 1] == '}')
  {
    match FirstFence(s)
    case Some(f) =>
      var c := s[f.open..f.close];
      assert c[0] == s[f.open] && c[|c| - 1] == s[f.close - 1];
      Some(c)
    case None => BraceCandidate(s)
  }

  /** The fallback `i = s.find("{")`, `j = s.rfind("}")`, `s[i:j+1]` when both are found:
      the span from the first `{` to the last `}`, or empty when they are backwards. */
  function BraceCandidate(s: string): (r: Option<string>)
    ensures r.Some? <==> '{' in s && '}' in s
    ensures r.Some? ==> r.value == [] || (|r.value| >= 2 && r.value[0] == '{' && r.value[|r.value| - 1] == '}')
  {
    var i := Find(s, '{');
    var j := RFind(s, '}');
    if i.Some? && j.Some? then
      if i.value <= j.value then
        var c := s[i.value..j.value + 1];
        assert c[0] == s[i.value] && c[|c| - 1] == s[j.value];
        Some(c)
      else Some("")
    else None
  }

  /** `_find_json(s)`: on a text that lacks a `{` or a `}` it answers `None` without
      calling the decoder; otherwise it answers whatever the decoder makes of the
      candidate, so a value it answers is that decoding, and the candidate is never the
      empty text when the decoder rejects that. */
  function FindJson(s: string, b: Builtins): (r: Option<Json>)
    ensures '{' !in s || '}' !in s ==> r.None?
    ensures Candidate(s).Some? ==> r == b.loads(Candidate(s).value)
    ensures r.Some? ==> Candidate(s).Some? && b.loads(Candidate(s).value) == r
    ensures r.Some? && RejectsEmpty(b) ==> Candidate(s).value != []
  {
    match Candidate(s)
    case None => None
    case Some(c) => b.loads(c)
  }

  /** `find` answers the index of the first occurrence. */
  lemma FindAt(s: string, c: char, i: nat)
    requires i < |s| && s[i] == c && c !in s[..i]
    ensures Find(s, c) == Some(i)
  {
    assert s[i] in s;
  }

  /** `rfind` answers the index of the last occurrence. */
  lemma RFindAt(s: string, c: char, j: nat)
    requires j < |s| && s[j] == c && c !in s[j + 1..]
    ensures RFind(s, c) == Some(j)
  {
    assert s[j] in s;
  }

  /** With no fenced block, the candidate runs from the first `{` to the last `}`
      inclusive, and is empty when that `}` comes before that `{`. */
  lemma BraceSpan(s: string, i: nat, j: nat)
    requires FirstFence(s).None?
    requires i < |s| && s[i] == '{' && '{' !in s[..i]
    requires j < |s| && s[j] == '}' && '}' !in s[j + 1..]
    ensures Candidate(s) == Some(if i <= j then s[i..j + 1] else "")
  {
    BraceCandidateSpan(s, i, j);
  }

  lemma BraceCandidateSpan(s: string, i: nat, j: nat)
    requires i < |s| && s[i] == '{' && '{' !in s[..i]
    requires j < |s| && s[j] == '}' && '}' !in s[j + 1..]
    ensures BraceCandidate(s) == Some(if i <= j then s[i..j + 1] else "")
  {
    FindAt(s, '{', i);
    RFindAt(s, '}', j);
  }

  /** Text without backticks holds no fenced block. */
  lemma NoFenceWithoutTicks(s: string)
    requires NoTicks(s)
    ensures FirstFence(s).None?
  {
  }

  /** A bare object, braces at both ends and no backtick, is its own candidate. */
  lemma BareObject(s: string)
    requires NoTicks(s) && |s| >= 2 && s[0] == '{' && s[|s| - 1] == '}'
    ensures Candidate(s) == Some(s)
  {
    NoFenceWithoutTicks(s);
    BraceSpan(s, 0, |s| - 1);
    assert s[0..|s|] == s;
  }

  /** When the last `}` comes before the first `{` (and there is no fenced block),
      `_find_json` decodes the empty text and so returns `None`. */
  lemma BackwardsSpan(s: string, i: nat, j: nat, b: Builtins)
    requires RejectsEmpty(b)
    requires FirstFence(s).None?
    requires i < |s| && s[i] == '{' && '{' !in s[..i]
    requires j < |s| && s[j] == '}' && '}' !in s[j + 1..]
    requires j < i
    ensures FindJson(s, b) == None
  {
    BraceSpan(s, i, j);
  }

  /** The skip over a run of whitespace ends at the first character after it. */
  lemma {:induction false} SkipSpacesTo(s: string, i: nat, k: nat)
    requires i <= k < |s|
    requires forall m :: i <= m < k ==> IsSpace(s[m])
    requires !IsSpace(s[k])
    ensures SkipSpaces(s, i) == k
    decreases k - i
  {
    if i < k {
      SkipSpacesTo(s, i + 1, k);
    }
  }

  /** No match starts before `p`. */
  ghost predicate NoMatchBelow(s: string, p: nat) {
    forall k :: 0 <= k < p ==> MatchAt(s, k).None?
  }

  /** The leftmost match is the one at `p` when no match starts before it. */
  lemma FirstFenceAt(s: string, p: nat, f: Fence)
    requires p <= |s|
    requires NoMatchBelow(s, p)
    requires MatchAt(s, p) == Some(f)
    ensures FirstFence(s) == Some(f)
  {
    var xs := Attempts(s);
    forall k | 0 <= k < p
      ensures xs[k].None?
    {
      assert xs[k] == MatchAt(s, k);
    }
    assert xs[p] == Some(f);
    FirstSomeAt(xs, 0, p);
  }

  /** The lazy close is the `}` at `c` when no earlier `}` from `e` on closes the fence. */
  lemma {:induction false} ClosingBraceAt(s: string, e: nat, c: nat)
    requires e <= c < |s|
    requires forall m :: e <= m < c ==> !ClosesFence(s, m)
    requires ClosesFence(s, c)
    ensures ClosingBrace(s, e) == Some(c)
    decreases c - e
  {
    if e < c {
      assert !ClosesFence(s, e);
      ClosingBraceAt(s, e + 1, c);
    }
  }

  /** The fence expression matches at `p` with its group at `s[q..c + 1]` when the
      characters are laid out as the expression demands and no backtick stands
      between the braces. */
  lemma MatchLaidOut(s: string, p: nat, t: nat, q: nat, c: nat, u: nat)
    requires TicksAt(s, p)
    requires t == (if JsonTagAt(s, p + 3) then p + 7 else p + 3)
    requires t <= q < c < u && TicksAt(s, u)
    requires forall m :: t <= m < q ==> IsSpace(s[m])
    requires s[q] == '{' && s[c] == '}'
    requires forall m :: q < m < c ==> s[m] != '`'
    requires forall m :: c < m < u ==> IsSpace(s[m])
    ensures MatchAt(s, p) == Some(Fence(p, q, c + 1))
  {
    OpeningAt(s, p, t, q);
    ClosingAt(s, q, c, u);
  }

  lemma OpeningAt(s: string, p: nat, t: nat, q: nat)
    requires TicksAt(s, p)
    requires t == (if JsonTagAt(s, p + 3) then p + 7 else p + 3)
    requires t <= q < |s| && s[q] == '{'
    requires forall m :: t <= m < q ==> IsSpace(s[m])
    ensures OpeningBrace(s, p) == Some(q)
  {
    SkipSpacesTo(s, t, q);
  }

  lemma ClosingAt(s: string, q: nat, c: nat, u: nat)
    requires q < c < u && TicksAt(s, u)
    requires s[c] == '}'
    requires forall m :: q < m < c ==> s[m] != '`'
    requires forall m :: c < m < u ==> IsSpace(s[m])
    ensures ClosingBrace(s, q + 1) == Some(c)
  {
    SkipSpacesTo(s, c + 1, u);
    forall m | q + 1 <= m < c
      ensures !ClosesFence(s, m)
    {
      SkipSpacesStops(s, m + 1, c);
      var k := SkipSpaces(s, m + 1);
      assert s[k] != '`';
    }
    ClosingBraceAt(s, q + 1, c);
  }

  /** No backtick anywhere in the text. */
  predicate NoTicks(s: string) {
    '`' !in s
  }

  /** The fenced block wins. In a text made of prose without backticks, three backticks,
      an optional `json` tag, whitespace, a braced body without backticks, whitespace,
      three backticks and any trailing text at all, the candidate is exactly the braced
      body: braces in the prose before the fence and everything after it are ignored. */
  lemma FencedBlockWins(pre: string, tag: string, ws1: string, body: string, ws2: string, post: string)
    requires NoTicks(pre) && NoTicks(body)
    requires tag == "json" || tag == ""
    requires AllSpace(ws1) && AllSpace(ws2)
    requires |body| >= 2 && body[0] == '{' && body[|body| - 1] == '}'
    ensures Candidate(Fenced(pre, tag, ws1, body, ws2, post)) == Some(body)
  {
    var P := |pre|;
    var Q := P + 3 + |tag| + |ws1|;
    FenceMatch(pre, tag, ws1, body, ws2, post);
    NoMatchBefore(pre, tag, ws1, body, ws2, post);
    FenceGroup(pre, tag, ws1, body, ws2, post);
    FenceWins(Fenced(pre, tag, ws1, body, ws2, post), P, Q, body);
  }

  /** A match at `p` with no match before it makes its group the candidate. */
  lemma FenceWins(s: string, p: nat, q: nat, body: string)
    requires MatchAt(s, p) == Some(Fence(p, q, q + |body|))
    requires NoMatchBelow(s, p)
    requires q + |body| <= |s| && s[q..q + |body|] == body
    ensures Candidate(s) == Some(body)
  {
    FirstFenceAt(s, p, Fence(p, q, q + |body|));
  }

  /** The braced body is the slice of the text right after the opening. */
  lemma FenceGroup(pre: string, tag: string, ws1: string, body: string, ws2: string, post: string)
    ensures var s := Fenced(pre, tag, ws1, body, ws2, post); var Q := |pre| + 3 + |tag| + |ws1|;
      Q + |body| <= |s| && s[Q..Q + |body|] == body
  {
    var s := Fenced(pre, tag, ws1, body, ws2, post);
    var Q := |pre| + 3 + |tag| + |ws1|;
    forall m | Q <= m < Q + |body|
      ensures s[m] == body[m - Q]
    {
    }
    assert s[Q..Q + |body|] == body;
  }

  /** The fence expression matches where the three backticks after the prose start,
      with the braced body as its group. */
  lemma FenceMatch(pre: string, tag: string, ws1: string, body: string, ws2: string, post: string)
    requires NoTicks(body)
    requires tag == "json" || tag == ""
    requires AllSpace(ws1) && AllSpace(ws2)
    requires |body| >= 2 && body[0] == '{' && body[|body| - 1] == '}'
    ensures var Q := |pre| + 3 + |tag| + |ws1|;
      MatchAt(Fenced(pre, tag, ws1, body, ws2, post), |pre|) == Some(Fence(|pre|, Q, Q + |body|))
  {
    var s := Fenced(pre, tag, ws1, body, ws2, post);
    var P := |pre|;
    var t := P + 3 + |tag|;
    var Q := t + |ws1|;
    var E := Q + |body| - 1;
    var T := E + 1 + |ws2|;
    FenceOpens(pre, tag, ws1, body, ws2, post);
    FenceBody(pre, tag, ws1, body, ws2, post);
    FenceCloses(pre, tag, ws1, body, ws2, post);
    MatchLaidOut(s, P, t, Q, E, T);
  }

  /** The text of a fenced block with prose before it and any text after it. */
  function Fenced(pre: string, tag: string, ws1: string, body: string, ws2: string, post: string): string {
    pre + "```" + tag + ws1 + body + ws2 + "```" + post
  }

  /** The opening of the fence: three backticks at the end of the prose, the tag read
      exactly when it is there, and whitespace up to the `{`. */
  lemma FenceOpens(pre: string, tag: string, ws1: string, body: string, ws2: string, post: string)
    requires tag == "json" || tag == ""
    requires AllSpace(ws1) && body != [] && body[0] == '{'
    ensures var s := Fenced(pre, tag, ws1, body, ws2, post); var t := |pre| + 3 + |tag|;
      TicksAt(s, |pre|) && (JsonTagAt(s, |pre| + 3) <==> tag == "json")
      && (forall m :: t <= m < t + |ws1| ==> IsSpace(s[m])) && s[t + |ws1|] == '{'
  {
    var s := Fenced(pre, tag, ws1, body, ws2, post);
    var P := |pre|;
    var t := P + 3 + |tag|;
    assert s[P] == '`' && s[P + 1] == '`' && s[P + 2] == '`';
    if tag == "" {
      if |ws1| > 0 { assert s[P + 3] == ws1[0]; assert IsSpace(s[P + 3]); } else { assert s[P + 3] == '{'; }
    } else {
      assert s[P + 3] == 'j' && s[P + 4] == 's' && s[P + 5] == 'o' && s[P + 6] == 'n';
    }
    forall m | t <= m < t + |ws1|
      ensures IsSpace(s[m])
    {
      assert s[m] == ws1[m - t];
    }
    assert s[t + |ws1|] == body[0];
  }

  /** The braced body stands right after the opening and holds no backtick between
      its braces. */
  lemma FenceBody(pre: string, tag: string, ws1: string, body: string, ws2: string, post: string)
    requires NoTicks(body) && |body| >= 2 && body[0] == '{' && body[|body| - 1] == '}'
    ensures var s := Fenced(pre, tag, ws1, body, ws2, post);
      var Q := |pre| + 3 + |tag| + |ws1|; var E := Q + |body| - 1;
      s[Q] == '{' && s[E] == '}' && forall m :: Q < m < E ==> s[m] != '`'
  {
    var s := Fenced(pre, tag, ws1, body, ws2, post);
    var Q := |pre| + 3 + |tag| + |ws1|;
    var E := Q + |body| - 1;
    assert s[Q] == body[0] && s[E] == body[|body| - 1];
    forall m | Q < m < E
      ensures s[m] != '`'
    {
      assert s[m] == body[m - Q];
      assert body[m - Q] in body;
    }
  }

  /** After the body: whitespace, then the closing backticks. */
  lemma FenceCloses(pre: string, tag: string, ws1: string, body: string, ws2: string, post: string)
    requires AllSpace(ws2) && body != []
    ensures var s := Fenced(pre, tag, ws1, body, ws2, post);
      var E := |pre| + 3 + |tag| + |ws1| + |body| - 1; var T := E + 1 + |ws2|;
      (forall m :: E < m < T ==> IsSpace(s[m])) && TicksAt(s, T)
  {
    var s := Fenced(pre, tag, ws1, body, ws2, post);
    var E := |pre| + 3 + |tag| + |ws1| + |body| - 1;
    var T := E + 1 + |ws2|;
    forall m | E < m < T
      ensures IsSpace(s[m])
    {
      assert s[m] == ws2[m - E - 1];
    }
    assert s[T] == '`' && s[T + 1] == '`' && s[T + 2] == '`';
  }

  /** No match starts inside prose that holds no backtick. */
  lemma NoMatchBefore(pre: string, tag: string, ws1: string, body: string, ws2: string, post: string)
    requires NoTicks(pre)
    ensures NoMatchBelow(Fenced(pre, tag, ws1, body, ws2, post), |pre|)
  {
    var s := Fenced(pre, tag, ws1, body, ws2, post);
    forall k | 0 <= k < |pre|
      ensures MatchAt(s, k).None?
    {
      assert s[k] == pre[k];
      assert pre[k] in pre;
    }
  }
}
