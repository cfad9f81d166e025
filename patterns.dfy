/**
 * The three regular expressions the agents search model output with, each
 * written as the result `re.search(pattern, text, re.DOTALL)` gives under
 * Python's leftmost, backtracking semantics:
 *
 *   fence:         ```json\s*(\[.*?\])\s*```           (group 1 is the candidate)
 *   object array:  \[\s*\{.*?\}\s*(?:,\s*\{.*?\}\s*)*\]  (group 0)
 *   any brackets:  \[.*\]                                (group 0)
 *
 * In each, a `\s*` is followed by a character that is not whitespace, so
 * backtracking into it never helps: it always takes the whole run (`SkipWs`).
 */
module Patterns {
  import opened Wrappers
  import opened Text

  predicate HasAt(t: string, i: nat, w: string) {
    i + |w| <= |t| && t[i..i + |w|] == w
  }

  // ---------------------------------------------------------------------------
  // ```json\s*(\[.*?\])\s*```

  const FenceOpen: string := "```json"
  const FenceClose: string := "```"

  /**
   * The fence pattern matches at `p` with its lazy body ending at the `]` at
   * `e`: "```json", blanks, `[` ... `]` at `e`, blanks, "```".
   */
  predicate FenceAt(t: string, p: nat, e: nat) {
    HasAt(t, p, FenceOpen) &&
    (var q := SkipWs(t, p + |FenceOpen|);
     q < e < |t| && t[q] == '[' && t[e] == ']' && HasAt(t, SkipWs(t, e + 1), FenceClose))
  }

  /** The smallest `e >= from` at which the fence starting at `p` can close: `.*?` tries short bodies first. */
  function FenceEnd(t: string, p: nat, from: nat): (r: Option<nat>)
    ensures r.Some? ==> from <= r.value && FenceAt(t, p, r.value)
    ensures r.Some? ==> forall e :: from <= e < r.value ==> !FenceAt(t, p, e)
    ensures r.None? ==> forall e :: from <= e ==> !FenceAt(t, p, e)
    decreases |t| - from
  {
    if from >= |t| then None
    else if FenceAt(t, p, from) then Some(from)
    else FenceEnd(t, p, from + 1)
  }

  /** The leftmost start at or after `p` where the fence matches, with the shortest body there. */
  function FenceFrom(t: string, p: nat): (r: Option<(nat, nat)>)
    ensures r.Some? ==> p <= r.value.0 && FenceAt(t, r.value.0, r.value.1)
    ensures r.Some? ==> forall p', e :: p <= p' < r.value.0 ==> !FenceAt(t, p', e)
    ensures r.Some? ==> forall e: nat :: e < r.value.1 ==> !FenceAt(t, r.value.0, e)
    ensures r.None? ==> forall p', e :: p <= p' ==> !FenceAt(t, p', e)
    decreases |t| - p
  {
    if p >= |t| then None
    else
      match FenceEnd(t, p, 0)
      case Some(e) => Some((p, e))
      case None => FenceFrom(t, p + 1)
  }

  /** `group(1)` of the fence search: the bracketed text between "```json" and "```", or None. */
  function FenceGroup(t: string): Option<string> {
    match FenceFrom(t, 0)
    case None => None
    case Some((p, e)) => Some(t[SkipWs(t, p + |FenceOpen|)..e + 1])
  }

  // ---------------------------------------------------------------------------
  // \[\s*\{.*?\}\s*(?:,\s*\{.*?\}\s*)*\]

  /**
   * Matching resumes at `r`, just after an object's `}` and the blanks after it.
   * `]` ends the match; `,` blanks `{` opens the next object (another turn of
   * the greedy group). Since the two first characters differ, at most one
   * branch applies. The result is the end of the whole match.
   */
  function Tail(t: string, r: nat): (end: Option<nat>)
    requires r <= |t|
    ensures end.Some? ==> r < end.value <= |t| && t[end.value - 1] == ']'
    ensures r < |t| && t[r] == ']' ==> end == Some(r + 1)
    ensures r == |t| || (t[r] != ']' && t[r] != ',') ==> end.None?
    decreases |t| - r
  {
    if r == |t| then None
    else if t[r] == ']' then Some(r + 1)
    else if t[r] == ',' then
      (var s := SkipWs(t, r + 1);
       if s < |t| && t[s] == '{' then CloseFrom(t, s + 1) else None)
    else None
  }

  /**
   * Inside an object whose `{` is just before `e`: the lazy `.*?` tries each `}`
   * at `e` or later, in order, and keeps the first from which the rest of the
   * pattern matches (backtracking into the object when the rest fails).
   */
  function CloseFrom(t: string, e: nat): (end: Option<nat>)
    requires e <= |t|
    ensures end.Some? ==> e < end.value <= |t| && t[end.value - 1] == ']'
    decreases |t| - e
  {
    if e == |t| then None
    else if t[e] == '}' && Tail(t, SkipWs(t, e + 1)).Some? then Tail(t, SkipWs(t, e + 1))
    else CloseFrom(t, e + 1)
  }

  /** A `}` at `c` after which the rest of the pattern matches. */
  predicate ClosesAt(t: string, c: nat)
    requires c < |t|
  {
    t[c] == '}' && Tail(t, SkipWs(t, c + 1)).Some?
  }

  /** The lazy search inside an object fails exactly when no `}` from `e` on lets the rest match. */
  lemma {:induction false} CloseFromNone(t: string, e: nat)
    requires e <= |t|
    ensures CloseFrom(t, e).None? <==> forall c :: e <= c < |t| ==> !ClosesAt(t, c)
    decreases |t| - e
  {
    if e < |t| {
      CloseFromNone(t, e + 1);
      if !ClosesAt(t, e) {
        assert CloseFrom(t, e) == CloseFrom(t, e + 1);
      }
    }
  }

  /** When some `}` lets the rest match, the lazy search's match is the one after the first such `}`. */
  lemma {:induction false} CloseFromFirst(t: string, e: nat, c: nat)
    requires e <= c < |t| && ClosesAt(t, c)
    requires forall c' :: e <= c' < c ==> !ClosesAt(t, c')
    ensures CloseFrom(t, e) == Tail(t, SkipWs(t, c + 1))
    decreases c - e
  {
    if e < c {
      assert !ClosesAt(t, e);
      CloseFromFirst(t, e + 1, c);
    }
  }

  /** The end of the object-array match starting at `p`, if there is one. */
  function ArrayAt(t: string, p: nat): (end: Option<nat>)
    requires p <= |t|
    ensures end.Some? ==> p < |t| && t[p] == '['
    ensures end.Some? ==> SkipWs(t, p + 1) < |t| && t[SkipWs(t, p + 1)] == '{'
    ensures end.Some? ==> SkipWs(t, p + 1) + 1 < end.value <= |t| && t[end.value - 1] == ']'
  {
    if p < |t| && t[p] == '[' then
      (var q := SkipWs(t, p + 1);
       if q < |t| && t[q] == '{' then CloseFrom(t, q + 1) else None)
    else None
  }

  /** The leftmost start at or after `p` where the object-array pattern matches, with the end of that match. */
  function ArrayFrom(t: string, p: nat): (r: Option<(nat, nat)>)
    requires p <= |t|
    ensures r.Some? ==> p <= r.value.0 <= |t| && ArrayAt(t, r.value.0) == Some(r.value.1)
    ensures r.Some? ==> forall p' :: p <= p' < r.value.0 ==> ArrayAt(t, p').None?
    ensures r.None? ==> forall p' :: p <= p' <= |t| ==> ArrayAt(t, p').None?
    decreases |t| - p
  {
    if ArrayAt(t, p).Some? then Some((p, ArrayAt(t, p).value))
    else if p == |t| then None
    else ArrayFrom(t, p + 1)
  }

  /** `group(0)` of the object-array search. */
  function ObjectArray(t: string): Option<string> {
    match ArrayFrom(t, 0)
    case None => None
    case Some((s, e)) => Some(t[s..e])
  }

  // ---------------------------------------------------------------------------
  // \[.*\]

  function IndexFrom(t: string, c: char, i: nat): (r: Option<nat>)
    requires i <= |t|
    ensures r.Some? ==> i <= r.value < |t| && t[r.value] == c
    ensures r.Some? ==> forall k :: i <= k < r.value ==> t[k] != c
    ensures r.None? ==> forall k :: i <= k < |t| ==> t[k] != c
    decreases |t| - i
  {
    if i == |t| then None else if t[i] == c then Some(i) else IndexFrom(t, c, i + 1)
  }

  function LastIndexBelow(t: string, c: char, j: nat): (r: Option<nat>)
    requires j <= |t|
    ensures r.Some? ==> r.value < j && t[r.value] == c
    ensures r.Some? ==> forall k :: r.value < k < j ==> t[k] != c
    ensures r.None? ==> forall k :: 0 <= k < j ==> t[k] != c
  {
    if j == 0 then None else if t[j - 1] == c then Some(j - 1) else LastIndexBelow(t, c, j - 1)
  }

  /**
   * The greedy search: the leftmost `[` that has some `]` after it, and `.*`
   * running to the LAST `]` of the whole text.
   */
  function BracketSpan(t: string): (r: Option<(nat, nat)>)
    ensures r.Some? ==> r.value.0 + 1 < r.value.1 <= |t|
    ensures r.Some? ==> t[r.value.0] == '[' && t[r.value.1 - 1] == ']'
    ensures r.Some? ==> forall k :: 0 <= k < r.value.0 ==> t[k] != '['
    ensures r.Some? ==> forall k :: r.value.1 <= k < |t| ==> t[k] != ']'
    ensures r.None? <==> forall i, j :: 0 <= i < j < |t| && t[i] == '[' ==> t[j] != ']'
  {
    match (IndexFrom(t, '[', 0), LastIndexBelow(t, ']', |t|))
    case (Some(i), Some(j)) => if i < j then Some((i, j + 1)) else None
    case _ => None
  }

  /** `group(0)` of the greedy search. */
  function AnyBrackets(t: string): Option<string> {
    match BracketSpan(t)
    case None => None
    case Some((s, e)) => Some(t[s..e])
  }
}
