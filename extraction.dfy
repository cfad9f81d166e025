/**
 * `_extract_and_parse_json`, shared by the question, track and roadmap agents:
 * pick a candidate string (a fenced json block first, else the agent's bare
 * array pattern), parse it, and keep it only if it is a list of records of the
 * agent's shape. `json.loads` is the parameter `parse`; `None` is a
 * `JSONDecodeError`.
 */
module Extraction {
  import opened Wrappers
  import opened Text
  import opened JsonModel
  import opened Patterns

  /** The bare-array pattern an agent falls back to when there is no fenced block. */
  datatype BarePattern =
    | ObjectArrayPattern   // \[\s*\{.*?\}\s*(?:,\s*\{.*?\}\s*)*\]  (question and track agents)
    | AnyBracketsPattern   // \[.*\]                                (roadmap agent)

  function BareCandidate(t: string, bare: BarePattern): Option<string> {
    match bare
    case ObjectArrayPattern => ObjectArray(t)
    case AnyBracketsPattern => AnyBrackets(t)
  }

  /** The string handed to `json.loads`: the fenced block if there is one, else the bare match. */
  function Candidate(t: string, bare: BarePattern): Option<string> {
    if FenceGroup(t).Some? then FenceGroup(t) else BareCandidate(t, bare)
  }

  /** Every candidate starts with `[`, so the roadmap extractor's `if json_str:` never rejects one. */
  lemma CandidateNonEmpty(t: string, bare: BarePattern)
    requires Candidate(t, bare).Some?
    ensures |Candidate(t, bare).value| > 0 && Candidate(t, bare).value[0] == '['
  {
    match FenceFrom(t, 0)
    case Some((p, e)) =>
    case None =>
      match bare
      case ObjectArrayPattern =>
        var (s, e) := ArrayFrom(t, 0).value;
        assert t[s..e][0] == t[s];
      case AnyBracketsPattern =>
        var (s, e) := BracketSpan(t).value;
        assert t[s..e][0] == t[s];
  }

  /**
   * The extractor: the parsed value's elements when the candidate parses to a
   * list whose every element conforms to `schema`; None when there is no
   * candidate, when it does not parse, or when its shape is wrong.
   */
  function Extract(t: string, parse: string -> Option<Json>, bare: BarePattern, schema: Schema): (r: Option<seq<Json>>)
    ensures r.Some? ==> Validates(JArr(r.value), schema)
    ensures r.Some? <==> Candidate(t, bare).Some? && parse(Candidate(t, bare).value).Some?
                         && Validates(parse(Candidate(t, bare).value).value, schema)
    ensures r.Some? ==> parse(Candidate(t, bare).value) == Some(JArr(r.value))
  {
    match Candidate(t, bare)
    case None => None
    case Some(c) =>
      match parse(c)
      case None => None
      case Some(v) => if Validates(v, schema) then Some(v.items) else None
  }

  /**
   * A fenced block anywhere in the text decides the candidate: the bare pattern,
   * and any bare array before or after the block, play no part.
   */
  lemma FencePriority(t: string, bare: BarePattern, p: nat, e: nat)
    requires FenceAt(t, p, e)
    ensures Candidate(t, bare).Some?
    ensures Candidate(t, bare) == Candidate(t, ObjectArrayPattern) == Candidate(t, AnyBracketsPattern) == FenceGroup(t)
  {
  }

  /** A fence read position by position: "```json" at `p`, blanks, `[` at `q`, `]` at `e`, blanks, "```" at `f`. */
  lemma FenceShape(t: string, p: nat, q: nat, e: nat, f: nat)
    requires p + |FenceOpen| <= q < e < f && f + |FenceClose| <= |t|
    requires HasAt(t, p, FenceOpen) && HasAt(t, f, FenceClose)
    requires forall k :: p + |FenceOpen| <= k < q ==> IsSpace(t[k])
    requires forall k :: e < k < f ==> IsSpace(t[k])
    requires t[q] == '[' && t[e] == ']'
    requires forall k :: q <= k <= e ==> t[k] != '`'
    ensures FenceAt(t, p, e)
    ensures forall e': nat :: e' < e ==> !FenceAt(t, p, e')
  {
    SkipWsRun(t, p + |FenceOpen|, q);
    SkipWsRun(t, e + 1, f);
    forall e': nat | e' < e ensures !FenceAt(t, p, e') {
      if q < e' {
        var g := SkipWs(t, e' + 1);
        assert g <= e by { assert !IsSpace(t[e]); }
        assert t[g] != '`';
      }
    }
  }

  /** A fence at `p`, closing at its first possible `]`, with no "```json" starting before it, is the leftmost match. */
  lemma LeftmostFence(t: string, p: nat, e: nat)
    requires FenceAt(t, p, e)
    requires forall e': nat :: e' < e ==> !FenceAt(t, p, e')
    requires forall k :: 0 <= k < p ==> !HasAt(t, k, FenceOpen)
    ensures FenceFrom(t, 0) == Some((p, e))
  {
    var r := FenceFrom(t, 0);
    assert r.Some? && FenceAt(t, r.value.0, r.value.1);
  }

  /** Where the pieces of a fenced reply sit in the text. */
  lemma FenceLayout(before: string, w1: string, block: string, w2: string, after: string)
    ensures var t := before + FenceOpen + w1 + block + w2 + FenceClose + after;
            var p, q := |before|, |before| + |FenceOpen| + |w1|;
            var f := q + |block| + |w2|;
            && f + |FenceClose| <= |t|
            && HasAt(t, p, FenceOpen) && HasAt(t, f, FenceClose)
            && (forall k :: 0 <= k < p ==> t[k] == before[k])
            && (forall k :: p + |FenceOpen| <= k < q ==> t[k] == w1[k - p - |FenceOpen|])
            && t[q..q + |block|] == block
            && (forall k :: q + |block| <= k < f ==> t[k] == w2[k - q - |block|])
  {
    var x1 := before + FenceOpen;
    var x2 := x1 + w1;
    var x3 := x2 + block;
    var x4 := x3 + w2;
    var x5 := x4 + FenceClose;
    var t := x5 + after;
    var p := |before|;
    var q := |x2|;
    var f := |x4|;
    assert t[..|x5|] == x5;
    assert x5[..|x4|] == x4;
    assert x4[..|x3|] == x3;
    assert x3[..|x2|] == x2;
    assert x2[..|x1|] == x1;
    assert x5[f..] == FenceClose;
    assert x4[|x3|..] == w2;
    assert x3[q..] == block;
    assert x2[|x1|..] == w1;
    assert x1[p..] == FenceOpen;
    assert x1[..p] == before;
    assert t[f..f + |FenceClose|] == FenceClose;
    assert t[p..p + |FenceOpen|] == FenceOpen;
    assert t[q..q + |block|] == block;
  }

  /**
   * "```json" at `p` with none starting before it, blanks, `[` at `q`, a body
   * without backticks, `]` at `e`, blanks, and "```" at `f`.
   */
  predicate FenceLaid(t: string, p: nat, q: nat, e: nat, f: nat) {
    && p + |FenceOpen| <= q < e < f && f + |FenceClose| <= |t|
    && HasAt(t, p, FenceOpen) && HasAt(t, f, FenceClose)
    && (forall k :: p + |FenceOpen| <= k < q ==> IsSpace(t[k]))
    && (forall k :: e < k < f ==> IsSpace(t[k]))
    && t[q] == '[' && t[e] == ']'
    && (forall k :: 0 <= k < p ==> !HasAt(t, k, FenceOpen))
    && (forall k :: q <= k <= e ==> t[k] != '`')
  }

  /** A fence read position by position, with no "```json" starting before it, is what the extractor takes. */
  lemma FenceCandidate(t: string, p: nat, q: nat, e: nat, f: nat, block: string, bare: BarePattern)
    requires FenceLaid(t, p, q, e, f) && t[q..e + 1] == block
    ensures Candidate(t, bare) == Some(block)
  {
    FenceFound(t, p, q, e, f);
    SkipWsRun(t, p + |FenceOpen|, q);
    FenceGroupIs(t, p, q, e);
  }

  /** The fence search's match and the blanks it skips give the captured group. */
  lemma FenceGroupIs(t: string, p: nat, q: nat, e: nat)
    requires q <= e < |t| && FenceFrom(t, 0) == Some((p, e)) && SkipWs(t, p + |FenceOpen|) == q
    ensures FenceGroup(t) == Some(t[q..e + 1])
  {
  }

  /** The same layout is the fence search's leftmost, shortest match. */
  lemma FenceFound(t: string, p: nat, q: nat, e: nat, f: nat)
    requires p + |FenceOpen| <= q < e < f && f + |FenceClose| <= |t|
    requires HasAt(t, p, FenceOpen) && HasAt(t, f, FenceClose)
    requires forall k :: p + |FenceOpen| <= k < q ==> IsSpace(t[k])
    requires forall k :: e < k < f ==> IsSpace(t[k])
    requires t[q] == '[' && t[e] == ']'
    requires forall k :: 0 <= k < p ==> !HasAt(t, k, FenceOpen)
    requires forall k :: q <= k <= e ==> t[k] != '`'
    ensures FenceFrom(t, 0) == Some((p, e))
  {
    FenceShape(t, p, q, e, f);
    LeftmostFence(t, p, e);
  }

  /**
   * Prose in which "```json" does not occur, "```json", blanks, a bracketed
   * block without backticks, blanks, "```" and anything after: the candidate
   * is exactly the block. Backticks in the prose, inline code included, are
   * allowed; an earlier "```json" is not, since the search would start there.
   */
  lemma FencedBlockRecovered(before: string, w1: string, block: string, w2: string, after: string, bare: BarePattern)
    requires forall i :: 0 <= i < |before| ==> !HasAt(before, i, FenceOpen)
    requires '`' !in block
    requires AllBy(w1, IsSpace) && AllBy(w2, IsSpace)
    requires |block| >= 2 && block[0] == '[' && block[|block| - 1] == ']'
    ensures Candidate(before + FenceOpen + w1 + block + w2 + FenceClose + after, bare) == Some(block)
  {
    FencedLaid(before, w1, block, w2, after);
    FenceCandidate(before + FenceOpen + w1 + block + w2 + FenceClose + after,
                   |before|, |before| + |FenceOpen| + |w1|, |before| + |FenceOpen| + |w1| + |block| - 1,
                   |before| + |FenceOpen| + |w1| + |block| + |w2|, block, bare);
  }

  /** The pieces of such a reply, read as positions in the whole text. */
  lemma FencedLaid(before: string, w1: string, block: string, w2: string, after: string)
    requires forall i :: 0 <= i < |before| ==> !HasAt(before, i, FenceOpen)
    requires '`' !in block
    requires AllBy(w1, IsSpace) && AllBy(w2, IsSpace)
    requires |block| >= 2 && block[0] == '[' && block[|block| - 1] == ']'
    ensures FenceLaid(before + FenceOpen + w1 + block + w2 + FenceClose + after,
                      |before|, |before| + |FenceOpen| + |w1|, |before| + |FenceOpen| + |w1| + |block| - 1,
                      |before| + |FenceOpen| + |w1| + |block| + |w2|)
    ensures (before + FenceOpen + w1 + block + w2 + FenceClose + after)
              [|before| + |FenceOpen| + |w1|..|before| + |FenceOpen| + |w1| + |block| - 1 + 1] == block
  {
    var t := before + FenceOpen + w1 + block + w2 + FenceClose + after;
    var p, q := |before|, |before| + |FenceOpen| + |w1|;
    var e := q + |block| - 1;
    FenceLayout(before, w1, block, w2, after);
    assert forall k :: q <= k <= e ==> t[k] == block[k - q] by {
      forall k | q <= k <= e ensures t[k] == block[k - q] {
        assert t[q..q + |block|][k - q] == t[k];
      }
    }
    NoEarlierFence(t, before);
  }

  /**
   * "```json" does not overlap itself, so with one at the end of `before` and
   * none inside `before`, none starts before it.
   */
  lemma NoEarlierFence(t: string, before: string)
    requires |before| <= |t| && HasAt(t, |before|, FenceOpen)
    requires forall k :: 0 <= k < |before| ==> t[k] == before[k]
    requires forall i :: 0 <= i < |before| ==> !HasAt(before, i, FenceOpen)
    ensures forall k :: 0 <= k < |before| ==> !HasAt(t, k, FenceOpen)
  {
    var p := |before|;
    forall k | 0 <= k < p ensures !HasAt(t, k, FenceOpen) {
      if k + |FenceOpen| <= p {
        assert !HasAt(before, k, FenceOpen);
        assert before[k..k + |FenceOpen|] == t[k..k + |FenceOpen|];
      } else {
        FenceOpenNoOverlap(t, k, p);
      }
    }
  }

  /** An occurrence of "```json" at `p` rules one out at each of the six positions before it. */
  lemma FenceOpenNoOverlap(t: string, k: nat, p: nat)
    requires k < p < k + |FenceOpen| && HasAt(t, p, FenceOpen)
    ensures !HasAt(t, k, FenceOpen)
  {
    var d := p - k;
    var j := if d <= 3 then 3 - d else 0;
    assert t[p + j] == FenceOpen[j] by { assert t[p..p + |FenceOpen|][j] == t[p + j]; }
    if k + |FenceOpen| <= |t| {
      assert t[k..k + |FenceOpen|][d + j] == t[p + j];
    }
  }

  /** Skipping a known blank run. */
  lemma SkipWsRun(t: string, i: nat, j: nat)
    requires i <= j <= |t|
    requires forall k :: i <= k < j ==> IsSpace(t[k])
    requires j < |t| ==> !IsSpace(t[j])
    ensures SkipWs(t, i) == j
  {
  }

  /** Inside an object, positions with no `}` are stepped over. */
  lemma {:induction false} CloseFromSkips(t: string, e: nat, e': nat)
    requires e <= e' <= |t|
    requires forall k :: e <= k < e' ==> t[k] != '}'
    ensures CloseFrom(t, e) == CloseFrom(t, e')
    decreases e' - e
  {
    if e < e' {
      CloseFromSkips(t, e + 1, e');
    }
  }

  /** A `}` from which the rest of the pattern matches ends the lazy search there. */
  lemma CloseHere(t: string, c: nat, r: nat)
    requires c < r <= |t| && t[c] == '}'
    requires SkipWs(t, c + 1) == r && Tail(t, r).Some?
    ensures CloseFrom(t, c) == Tail(t, r)
  {
  }

  /** A `,`, blanks and `{`: the rest of the pattern is the lazy search inside that next object. */
  lemma CommaTail(t: string, r: nat, q: nat)
    requires r < q < |t| && t[r] == ',' && t[q] == '{'
    requires SkipWs(t, r + 1) == q
    ensures Tail(t, r) == CloseFrom(t, q + 1)
  {
  }

  /** A `}` followed by `,` and blanks before the next `{`: the match continues inside the next object. */
  lemma NextObject(t: string, c: nat, q: nat, end: nat)
    requires c + 2 <= q < |t|
    requires t[c] == '}' && t[c + 1] == ',' && t[q] == '{'
    requires SkipWs(t, c + 2) == q
    requires CloseFrom(t, q + 1) == Some(end)
    ensures CloseFrom(t, c) == Some(end)
  {
    CommaTail(t, c + 1, q);
    CloseHere(t, c, c + 1);
  }

  /** A match at `p` with no `[` before it is the leftmost match. */
  lemma LeftmostArray(t: string, p: nat, end: nat)
    requires p <= |t| && ArrayAt(t, p) == Some(end)
    requires forall k :: 0 <= k < p ==> t[k] != '['
    ensures ArrayFrom(t, 0) == Some((p, end))
  {
    var m := ArrayFrom(t, 0);
    assert m.Some? && ArrayAt(t, m.value.0).Some?;
  }

  /** An object body that closes at its end: no `}` inside it. */
  predicate Flat(body: string) {
    forall k :: 0 <= k < |body| ==> body[k] != '}'
  }

  /** A blank run: whitespace only. */
  predicate Blank(w: string) {
    forall k :: 0 <= k < |w| ==> IsSpace(w[k])
  }

  /** Objects `{body}`, one per body, each after the first preceded by `,` and the blank run `sep`. */
  function ObjectList(bodies: seq<string>, sep: string): (l: string)
    requires |bodies| >= 1
    ensures |l| >= 2 && l[0] == '{'
    decreases |bodies|
  {
    if |bodies| == 1 then "{" + bodies[0] + "}"
    else "{" + bodies[0] + "}," + sep + ObjectList(bodies[1..], sep)
  }

  /** Every body after the first is flat when every body is. */
  lemma FlatTail(bodies: seq<string>)
    requires |bodies| >= 1 && forall i :: 0 <= i < |bodies| ==> Flat(bodies[i])
    ensures forall i :: 0 <= i < |bodies[1..]| ==> Flat(bodies[1..][i])
  {
    forall i | 0 <= i < |bodies[1..]| ensures Flat(bodies[1..][i]) {
      assert bodies[1..][i] == bodies[i + 1];
    }
  }

  /** An object at `q` of `t`: `{`, `n` characters none of which is `}`, then `}`. */
  predicate ObjectAt(t: string, q: nat, n: nat) {
    && q + 1 + n < |t| && t[q] == '{' && t[q + 1 + n] == '}'
    && forall k :: q < k < q + 1 + n ==> t[k] != '}'
  }

  /** Blanks from `i` up to `j` of `t`. */
  predicate BlanksAt(t: string, i: nat, j: nat) {
    i <= j <= |t| && forall k :: i <= k < j ==> IsSpace(t[k])
  }

  /**
   * From position `q` of `t`: the objects of `bodies` in turn, each as long as
   * its body, each after the first behind `,` and as many blanks as `sep` has,
   * the last followed by blanks and the `]` at `r`.
   */
  predicate ListAt(t: string, q: nat, bodies: seq<string>, sep: string, r: nat)
    requires |bodies| >= 1
    decreases |bodies|
  {
    && ObjectAt(t, q, |bodies[0]|)
    && if |bodies| == 1 then
         BlanksAt(t, q + 1 + |bodies[0]| + 1, r) && r < |t| && t[r] == ']'
       else
         && BlanksAt(t, q + 1 + |bodies[0]| + 2, q + 1 + |bodies[0]| + 2 + |sep|)
         && t[q + 1 + |bodies[0]| + 1] == ','
         && ListAt(t, q + 1 + |bodies[0]| + 2 + |sep|, bodies[1..], sep, r)
  }

  /** A list laid out from `q`: the lazy search inside its first object ends just after the `]` at `r`. */
  lemma {:induction false} ListAtCloses(t: string, q: nat, bodies: seq<string>, sep: string, r: nat)
    requires |bodies| >= 1 && ListAt(t, q, bodies, sep, r)
    ensures CloseFrom(t, q + 1) == Some(r + 1)
    decreases |bodies|
  {
    if |bodies| == 1 {
      LastAtCloses(t, q, bodies, sep, r);
    } else {
      assert ObjectAt(t, q + 1 + |bodies[0]| + 2 + |sep|, |bodies[1..][0]|);
      ListAtCloses(t, q + 1 + |bodies[0]| + 2 + |sep|, bodies[1..], sep, r);
      HeadAtCloses(t, q, |bodies[0]|, q + 1 + |bodies[0]| + 2 + |sep|, r + 1);
    }
  }

  /** A list of one object: the lazy search ends just after the `]` at `r`. */
  lemma LastAtCloses(t: string, q: nat, bodies: seq<string>, sep: string, r: nat)
    requires |bodies| == 1 && ListAt(t, q, bodies, sep, r)
    ensures CloseFrom(t, q + 1) == Some(r + 1)
  {
    var c := q + 1 + |bodies[0]|;
    SkipWsRun(t, c + 1, r);
    assert Tail(t, r) == Some(r + 1);
    CloseHere(t, c, r);
    CloseFromSkips(t, q + 1, c);
  }

  /** A longer list: the lazy search goes on as in the list after its first object. */
  lemma HeadAtCloses(t: string, q: nat, n: nat, q': nat, end: nat)
    requires ObjectAt(t, q, n) && q + 1 + n + 2 <= q' < |t|
    requires BlanksAt(t, q + 1 + n + 2, q') && t[q + 1 + n + 1] == ',' && t[q'] == '{'
    requires CloseFrom(t, q' + 1) == Some(end)
    ensures CloseFrom(t, q + 1) == Some(end)
  {
    var c := q + 1 + n;
    SkipWsRun(t, c + 2, q');
    NextObject(t, c, q', end);
    CloseFromSkips(t, q + 1, c);
  }

  /** The same layout in the same text, written another way. */
  lemma ListAtTransfer(t: string, t': string, q: nat, bodies: seq<string>, sep: string, r: nat)
    requires t == t' && |bodies| >= 1 && ListAt(t', q, bodies, sep, r)
    ensures ListAt(t, q, bodies, sep, r)
  {
  }

  /** The first `[` of `t` at `p`, blanks up to `q`, and `block` the text from `p` through `r`. */
  predicate ArrayOpenAt(t: string, p: nat, q: nat, r: nat, block: string) {
    && p < q < r < |t| && t[p] == '[' && BlanksAt(t, p + 1, q)
    && (forall k :: 0 <= k < p ==> t[k] != '[')
    && t[p..r + 1] == block
  }

  /** Such an array, after `[` and blanks, with no `[` before it and spelling `block`: the object-array search returns `block`. */
  /** An array opening at `p` whose objects are laid out from `q`, up to its `]` at `r`. */
  predicate ArrayListAt(t: string, p: nat, q: nat, bodies: seq<string>, sep: string, r: nat, block: string)
    requires |bodies| >= 1
  {
    ArrayOpenAt(t, p, q, r, block) && ListAt(t, q, bodies, sep, r)
  }

  lemma ListAtRecovered(t: string, p: nat, q: nat, bodies: seq<string>, sep: string, r: nat, block: string)
    requires |bodies| >= 1 && ArrayListAt(t, p, q, bodies, sep, r, block)
    ensures ObjectArray(t) == Some(block)
  {
    ListAtCloses(t, q, bodies, sep, r);
    assert t[q] == '{';
    SkipWsRun(t, p + 1, q);
    assert ArrayAt(t, p) == Some(r + 1);
    LeftmostArray(t, p, r + 1);
  }

  /** One object, then blanks and `]`, laid out as a list. */
  lemma LastAt(t: string, q: nat, bodies: seq<string>, sep: string, r: nat)
    requires |bodies| == 1 && ObjectAt(t, q, |bodies[0]|)
    requires BlanksAt(t, q + 1 + |bodies[0]| + 1, r) && r < |t| && t[r] == ']'
    ensures ListAt(t, q, bodies, sep, r)
  {
  }

  /** An object, `,` and blanks before a list: a longer list. */
  lemma HeadAt(t: string, q: nat, bodies: seq<string>, sep: string, r: nat)
    requires |bodies| >= 2 && ObjectAt(t, q, |bodies[0]|)
    requires BlanksAt(t, q + 1 + |bodies[0]| + 2, q + 1 + |bodies[0]| + 2 + |sep|)
    requires t[q + 1 + |bodies[0]| + 1] == ','
    requires ListAt(t, q + 1 + |bodies[0]| + 2 + |sep|, bodies[1..], sep, r)
    ensures ListAt(t, q, bodies, sep, r)
  {
  }

  /** The last object of a list, then blanks and `]`, read position by position. */
  lemma LastObjectChars(a: string, b: string, w2: string, after: string)
    requires Flat(b) && Blank(w2)
    ensures var t := a + (("{" + b + "}") + (w2 + "]" + after));
            && ObjectAt(t, |a|, |b|)
            && BlanksAt(t, |a| + 1 + |b| + 1, |a| + 1 + |b| + 1 + |w2|)
            && |a| + 1 + |b| + 1 + |w2| < |t| && t[|a| + 1 + |b| + 1 + |w2|] == ']'
  {
    var l := "{" + b + "}";
    var rest := w2 + "]" + after;
    var t := a + (l + rest);
    var c := |a| + 1 + |b|;
    assert forall k :: |a| <= k < |a| + |l| ==> t[k] == l[k - |a|];
    assert forall k :: |a| + |l| <= k < |t| ==> t[k] == rest[k - |a| - |l|];
    assert forall k :: |a| < k < c ==> t[k] != '}' by {
      forall k | |a| < k < c ensures t[k] != '}' {
        assert l[k - |a|] == b[k - |a| - 1];
      }
    }
    assert forall k :: c + 1 <= k < c + 1 + |w2| ==> IsSpace(t[k]) by {
      forall k | c + 1 <= k < c + 1 + |w2| ensures IsSpace(t[k]) {
        assert rest[k - c - 1] == w2[k - c - 1];
      }
    }
    assert t[|a|] == l[0] && t[c] == l[c - |a|] && t[c + 1 + |w2|] == rest[|w2|];
  }

  /** A first object, `,` and blanks before the rest of a list, read position by position. */
  lemma HeadObjectChars(a: string, b: string, sep: string, rest: string)
    requires Flat(b) && Blank(sep)
    ensures var t := a + (("{" + b + "}," + sep) + rest);
            && ObjectAt(t, |a|, |b|)
            && BlanksAt(t, |a| + 1 + |b| + 2, |a| + 1 + |b| + 2 + |sep|)
            && t[|a| + 1 + |b| + 1] == ','
            && t == (a + ("{" + b + "}," + sep)) + rest
            && |a + ("{" + b + "}," + sep)| == |a| + 1 + |b| + 2 + |sep|
  {
    var h := "{" + b + "}," + sep;
    var t := a + (h + rest);
    var c := |a| + 1 + |b|;
    var q := c + 2 + |sep|;
    AppendAssoc(a, h, rest);
    assert forall k :: |a| <= k < q ==> t[k] == h[k - |a|];
    assert forall k :: |a| < k < c ==> t[k] != '}' by {
      forall k | |a| < k < c ensures t[k] != '}' {
        assert h[k - |a|] == b[k - |a| - 1];
      }
    }
    assert forall k :: c + 2 <= k < q ==> IsSpace(t[k]) by {
      forall k | c + 2 <= k < q ensures IsSpace(t[k]) {
        assert h[k - |a|] == sep[k - c - 2];
      }
    }
    assert t[|a|] == h[0] && t[c] == h[c - |a|] && t[c + 1] == h[c + 1 - |a|];
  }

  /** The last object of a list, then blanks and `]`: laid out as a list of one. */
  lemma SingleListLaid(a: string, bodies: seq<string>, sep: string, w2: string, after: string)
    requires |bodies| == 1 && Flat(bodies[0]) && Blank(w2)
    ensures ListAt(a + (ObjectList(bodies, sep) + (w2 + "]" + after)), |a|, bodies, sep,
                   |a| + 1 + |bodies[0]| + 1 + |w2|)
  {
    assert ObjectList(bodies, sep) == "{" + bodies[0] + "}";
    LastObjectChars(a, bodies[0], w2, after);
    LastAt(a + (("{" + bodies[0] + "}") + (w2 + "]" + after)), |a|, bodies, sep, |a| + 1 + |bodies[0]| + 1 + |w2|);
  }

  /** A first object, `,` and blanks before the rest: laid out as the longer list. */
  lemma HeadListLaid(a: string, bodies: seq<string>, sep: string, rest: string, r: nat)
    requires |bodies| >= 2 && Flat(bodies[0]) && Blank(sep)
    requires ListAt((a + ("{" + bodies[0] + "}," + sep)) + rest, |a| + 1 + |bodies[0]| + 2 + |sep|, bodies[1..], sep, r)
    ensures ListAt(a + (("{" + bodies[0] + "}," + sep) + rest), |a|, bodies, sep, r)
  {
    HeadObjectChars(a, bodies[0], sep, rest);
    HeadAt(a + (("{" + bodies[0] + "}," + sep) + rest), |a|, bodies, sep, r);
  }

  /** An object list, then blanks and `]`, behind any text `a`: laid out from `|a|`, its `]` after the blanks. */
  lemma {:induction false} ObjectListLaid(a: string, bodies: seq<string>, sep: string, w2: string, after: string)
    requires |bodies| >= 1 && forall i :: 0 <= i < |bodies| ==> Flat(bodies[i])
    requires Blank(sep) && Blank(w2)
    ensures ListAt(a + (ObjectList(bodies, sep) + (w2 + "]" + after)), |a|, bodies, sep,
                   |a| + |ObjectList(bodies, sep)| + |w2|)
    decreases |bodies|
  {
    if |bodies| == 1 {
      SingleListLaid(a, bodies, sep, w2, after);
      assert |ObjectList(bodies, sep)| == 1 + |bodies[0]| + 1;
    } else {
      FlatTail(bodies);
      ObjectListLaid(a + ("{" + bodies[0] + "}," + sep), bodies[1..], sep, w2, after);
      ListStepLaid(a, bodies, sep, w2, after);
    }
  }

  /** The step of `ObjectListLaid`: the first object, then the rest of the list laid out after it. */
  lemma ListStepLaid(a: string, bodies: seq<string>, sep: string, w2: string, after: string)
    requires |bodies| >= 2 && Flat(bodies[0]) && Blank(sep)
    requires var a' := a + ("{" + bodies[0] + "}," + sep);
             ListAt(a' + (ObjectList(bodies[1..], sep) + (w2 + "]" + after)), |a'|, bodies[1..], sep,
                    |a'| + |ObjectList(bodies[1..], sep)| + |w2|)
    ensures ListAt(a + (ObjectList(bodies, sep) + (w2 + "]" + after)), |a|, bodies, sep,
                   |a| + |ObjectList(bodies, sep)| + |w2|)
  {
    var h := "{" + bodies[0] + "}," + sep;
    var l' := ObjectList(bodies[1..], sep);
    var rest := w2 + "]" + after;
    assert ObjectList(bodies, sep) == h + l';
    AppendAssoc(h, l', rest);
    assert |a + h| == |a| + 1 + |bodies[0]| + 2 + |sep|;
    HeadListLaid(a, bodies, sep, l' + rest, |a| + |ObjectList(bodies, sep)| + |w2|);
  }

  /** Concatenation regrouped. */
  lemma AppendAssoc(a: string, b: string, c: string)
    ensures a + (b + c) == a + b + c
  {
  }

  /** Prose, `[` and blanks before an object list, read position by position. */
  lemma ArrayLaid(before: string, w1: string, l: string, w2: string, after: string)
    requires '[' !in before && Blank(w1) && |l| >= 1 && l[0] == '{'
    ensures ArrayOpenAt(before + ("[" + w1 + l + w2 + "]") + after, |before|, |before + ("[" + w1)|,
                        |before + ("[" + w1)| + |l| + |w2|, "[" + w1 + l + w2 + "]")
  {
    var block := "[" + w1 + l + w2 + "]";
    var o := "[" + w1;
    var t := before + block + after;
    var p := |before|;
    assert block + after == o + (l + (w2 + "]" + after));
    AppendAssoc(before, block, after);
    AppendAssoc(before, o, l + (w2 + "]" + after));
    assert forall k :: 0 <= k < |before| ==> t[k] == before[k];
    assert forall k :: p <= k < p + |block| ==> t[k] == block[k - p];
    assert forall k :: p < k < p + |o| ==> IsSpace(t[k]) by {
      forall k | p < k < p + |o| ensures IsSpace(t[k]) {
        assert block[k - p] == w1[k - p - 1];
      }
    }
    assert t[p] == block[0];
    assert t[p..p + |block|] == block;
  }

  /**
   * Prose without `[`, then an array of one or more objects whose bodies have
   * no `}`, separated by `,` and blanks, then anything (more arrays included):
   * the object-array search returns exactly that array, every object of it.
   */
  lemma ObjectListRecovered(before: string, w1: string, bodies: seq<string>, sep: string, w2: string, after: string)
    requires '[' !in before
    requires |bodies| >= 1 && forall i :: 0 <= i < |bodies| ==> Flat(bodies[i])
    requires Blank(w1) && Blank(sep) && Blank(w2)
    ensures ObjectArray(before + ("[" + w1 + ObjectList(bodies, sep) + w2 + "]") + after)
              == Some("[" + w1 + ObjectList(bodies, sep) + w2 + "]")
  {
    ArrayListLaid(before, w1, bodies, sep, w2, after);
    ListAtRecovered(before + ("[" + w1 + ObjectList(bodies, sep) + w2 + "]") + after,
                    |before|, |before + ("[" + w1)|, bodies, sep,
                    |before + ("[" + w1)| + |ObjectList(bodies, sep)| + |w2|,
                    "[" + w1 + ObjectList(bodies, sep) + w2 + "]");
  }

  /** The opening of the array and the layout of its objects, as positions in the whole text. */
  lemma ArrayListLaid(before: string, w1: string, bodies: seq<string>, sep: string, w2: string, after: string)
    requires '[' !in before
    requires |bodies| >= 1 && forall i :: 0 <= i < |bodies| ==> Flat(bodies[i])
    requires Blank(w1) && Blank(sep) && Blank(w2)
    ensures ArrayListAt(before + ("[" + w1 + ObjectList(bodies, sep) + w2 + "]") + after,
                        |before|, |before + ("[" + w1)|, bodies, sep,
                        |before + ("[" + w1)| + |ObjectList(bodies, sep)| + |w2|,
                        "[" + w1 + ObjectList(bodies, sep) + w2 + "]")
  {
    ListInArray(before, w1, bodies, sep, w2, after);
    ArrayLaid(before, w1, ObjectList(bodies, sep), w2, after);
  }

  /** The layout of the list, read inside the whole text rather than after its prefix. */
  lemma ListInArray(before: string, w1: string, bodies: seq<string>, sep: string, w2: string, after: string)
    requires |bodies| >= 1 && forall i :: 0 <= i < |bodies| ==> Flat(bodies[i])
    requires Blank(sep) && Blank(w2)
    ensures ListAt(before + ("[" + w1 + ObjectList(bodies, sep) + w2 + "]") + after, |before + ("[" + w1)|,
                   bodies, sep, |before + ("[" + w1)| + |ObjectList(bodies, sep)| + |w2|)
  {
    ObjectListLaid(before + ("[" + w1), bodies, sep, w2, after);
    ArrayRegroup(before, w1, ObjectList(bodies, sep), w2, after);
    ListAtTransfer(before + ("[" + w1 + ObjectList(bodies, sep) + w2 + "]") + after,
                   (before + ("[" + w1)) + (ObjectList(bodies, sep) + (w2 + "]" + after)),
                   |before + ("[" + w1)|, bodies, sep, |before + ("[" + w1)| + |ObjectList(bodies, sep)| + |w2|);
  }

  lemma ArrayRegroup(before: string, w1: string, l: string, w2: string, after: string)
    ensures before + ("[" + w1 + l + w2 + "]") + after == (before + ("[" + w1)) + (l + (w2 + "]" + after))
  {
    assert "[" + w1 + l + w2 + "]" + after == ("[" + w1) + (l + (w2 + "]" + after));
    AppendAssoc(before, "[" + w1 + l + w2 + "]", after);
    AppendAssoc(before, "[" + w1, l + (w2 + "]" + after));
  }

  /**
   * Prose without `[`, then a one-object array whose body has no `}`, then
   * anything (more arrays included): the object-array search returns exactly
   * that first array.
   */
  lemma FirstObjectArrayRecovered(before: string, w1: string, body: string, w2: string, after: string)
    requires '[' !in before && '}' !in body
    requires AllBy(w1, IsSpace) && AllBy(w2, IsSpace)
    ensures var block := "[" + w1 + "{" + body + "}" + w2 + "]";
            ObjectArray(before + block + after) == Some(block)
  {
    var l := ObjectList([body], "");
    assert l == "{" + body + "}";
    assert "[" + w1 + l + w2 + "]" == "[" + w1 + "{" + body + "}" + w2 + "]";
    assert Flat([body][0]) && Blank(w1) && Blank("") && Blank(w2);
    ObjectListRecovered(before, w1, [body], "", w2, after);
  }

  /**
   * Prose without `[`, a span that opens with `[` and closes with `]`, and a
   * tail without `]`: the greedy search returns the whole span, whatever
   * brackets it contains.
   */
  lemma BracketSpanRecovered(before: string, span: string, after: string)
    requires '[' !in before && ']' !in after
    requires |span| >= 2 && span[0] == '[' && span[|span| - 1] == ']'
    ensures AnyBrackets(before + span + after) == Some(span)
  {
    var t := before + span + after;
    var s := |before|;
    var e := s + |span|;
    assert t[s..e] == span;
    assert t[s] == '[' && t[e - 1] == ']';
    assert BracketSpan(t).Some?;
    forall k | 0 <= k < s ensures t[k] != '[' {
      assert t[k] == before[k];
    }
    forall k | e <= k < |t| ensures t[k] != ']' {
      assert t[k] == after[k - e];
    }
  }

  /**
   * Two separate unfenced one-object arrays: the object-array search takes the
   * first array alone, while the greedy search takes one span running from the
   * first `[` to the last `]`, both arrays and the prose between them.
   */
  lemma TwoBareArrays(before: string, body1: string, middle: string, body2: string, after: string)
    requires '[' !in before && '}' !in body1 && ']' !in after
    ensures var first := "[{" + body1 + "}]";
            var second := "[{" + body2 + "}]";
            var t := before + first + middle + second + after;
            && ObjectArray(t) == Some(first)
            && AnyBrackets(t) == Some(first + middle + second)
  {
    var first := "[{" + body1 + "}]";
    var second := "[{" + body2 + "}]";
    var span := first + middle + second;
    Regroup(before, first, middle, second, after);
    FirstBareArray(before, body1, middle + second + after);
    assert span[0] == '[' && span[|span| - 1] == ']' by {
      assert span[0] == first[0];
      assert span[|span| - 1] == second[|second| - 1];
    }
    BracketSpanRecovered(before, span, after);
  }

  /** A one-object array with no blanks inside, after prose without `[`, is the object-array match. */
  lemma FirstBareArray(before: string, body: string, rest: string)
    requires '[' !in before && '}' !in body
    ensures ObjectArray(before + ("[{" + body + "}]") + rest) == Some("[{" + body + "}]")
  {
    assert "[" + "" + "{" + body + "}" + "" + "]" == "[{" + body + "}]";
    FirstObjectArrayRecovered(before, "", body, "", rest);
  }

  lemma Regroup(a: string, b: string, c: string, d: string, e: string)
    ensures a + b + c + d + e == a + b + (c + d + e)
    ensures a + b + c + d + e == a + (b + c + d) + e
  {
  }

}
