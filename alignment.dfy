/** Ontology alignment: every mapping predicate of the mediator's own RDG is
    scored against every mapping predicate of an external RDG, the
    candidates are ranked by score with the best one preselected, and the
    chosen pairs are written as `owl:sameAs` Turtle lines.  The string
    similarity (`Levenshtein.ratio`) is a parameter. */
module Alignment {
  import opened Wrappers
  import opened RdfGraph
  import opened DateText

  /** A string similarity score. */
  type Ratio = (string, string) -> real

  /** `(str(p2), ratio(str(p1), str(p2)))`. */
  datatype Match = Match(term: string, score: real)

  // ---------------------------------------------------------------------
  // align_terms
  // ---------------------------------------------------------------------

  /** The predicates of the nodes that `hasMapping` points to. */
  function MappingPredicates(g: set<Triple>): set<Node> {
    set h, t | h in g && t in g && h.p == Iri(HAS_MAPPING) && t.s == h.o :: t.p
  }

  /** `order` lists the elements of `s` once each, in the order Python's
      set iteration yields them. */
  ghost predicate Enumerates(order: seq<Node>, s: set<Node>) {
    && (forall i, j :: 0 <= i < j < |order| ==> order[i] != order[j])
    && (forall p :: p in s <==> p in order)
  }

  lemma {:induction false} EnumerationSize(order: seq<Node>, s: set<Node>)
    requires Enumerates(order, s)
    ensures |order| == |s|
  {
    if order != [] {
      var rest := order[1..];
      assert forall p :: p in rest ==> p != order[0] by {
        forall p | p in rest
          ensures p != order[0]
        {
          var i :| 0 <= i < |rest| && rest[i] == p;
          assert order[i + 1] == p;
        }
      }
      assert Enumerates(rest, s - {order[0]}) by {
        forall p | p in s - {order[0]}
          ensures p in rest
        {
          var i :| 0 <= i < |order| && order[i] == p;
          assert rest[i - 1] == p;
        }
      }
      EnumerationSize(rest, s - {order[0]});
    }
  }

  /** The candidates for the base term `term`, in the order `order2`. */
  function Matches(term: string, order2: seq<Node>, ratio: Ratio): seq<Match> {
    seq(|order2|, i requires 0 <= i < |order2| => Match(Text(order2[i]), ratio(term, Text(order2[i]))))
  }

  /** `align_terms(graph1, graph2)`: one entry per distinct text of a
      mapping predicate of `g1`, each listing as many scored candidates as
      `g2` has mapping predicates (`AlignedCandidates` says which). */
  function AlignTerms(g1: set<Triple>, g2: set<Triple>, order2: seq<Node>, ratio: Ratio): (aligned: map<string, seq<Match>>)
    requires Enumerates(order2, MappingPredicates(g2))
    ensures aligned.Keys == set p | p in MappingPredicates(g1) :: Text(p)
    ensures forall k :: k in aligned ==> |aligned[k]| == |MappingPredicates(g2)|
  {
    EnumerationSize(order2, MappingPredicates(g2));
    map k | k in (set p | p in MappingPredicates(g1) :: Text(p)) :: Matches(k, order2, ratio)
  }

  /** The candidates of a base term are exactly the mapping predicates of
      `g2`, each with its score against that term. */
  lemma AlignedCandidates(g1: set<Triple>, g2: set<Triple>, order2: seq<Node>, ratio: Ratio, k: string)
    requires Enumerates(order2, MappingPredicates(g2))
    requires k in AlignTerms(g1, g2, order2, ratio)
    ensures forall p2 :: p2 in MappingPredicates(g2) ==>
      Match(Text(p2), ratio(k, Text(p2))) in AlignTerms(g1, g2, order2, ratio)[k]
    ensures forall m :: m in AlignTerms(g1, g2, order2, ratio)[k] ==>
      exists p2 :: p2 in MappingPredicates(g2) && m == Match(Text(p2), ratio(k, Text(p2)))
  {
    var ms := AlignTerms(g1, g2, order2, ratio)[k];
    assert ms == Matches(k, order2, ratio);
    forall p2 | p2 in MappingPredicates(g2)
      ensures Match(Text(p2), ratio(k, Text(p2))) in ms
    {
      var i :| 0 <= i < |order2| && order2[i] == p2;
      assert ms[i] == Match(Text(p2), ratio(k, Text(p2)));
    }
    forall m | m in ms
      ensures exists p2 :: p2 in MappingPredicates(g2) && m == Match(Text(p2), ratio(k, Text(p2)))
    {
      var i :| 0 <= i < |ms| && ms[i] == m;
      assert order2[i] in MappingPredicates(g2);
    }
  }

  // ---------------------------------------------------------------------
  // Ranking in perform_alignment
  // ---------------------------------------------------------------------

  /** Places `m` after every candidate that scores strictly higher. */
  function Insert(m: Match, ranked: seq<Match>): seq<Match> {
    if ranked == [] || ranked[0].score <= m.score then [m] + ranked
    else [ranked[0]] + Insert(m, ranked[1..])
  }

  /** `sorted(matches, key=lambda x: x[1], reverse=True)`. */
  function RankMatches(ms: seq<Match>): seq<Match> {
    if ms == [] then [] else Insert(ms[0], RankMatches(ms[1..]))
  }

  predicate Descending(ms: seq<Match>) {
    forall i, j :: 0 <= i < j < |ms| ==> ms[j].score <= ms[i].score
  }

  /** The candidates scoring exactly `r`, in their order. */
  function WithScore(ms: seq<Match>, r: real): seq<Match> {
    if ms == [] then [] else (if ms[0].score == r then [ms[0]] else []) + WithScore(ms[1..], r)
  }

  lemma {:induction false} InsertFacts(m: Match, ranked: seq<Match>)
    ensures multiset(Insert(m, ranked)) == multiset(ranked) + multiset{m}
    ensures |Insert(m, ranked)| == |ranked| + 1
    ensures Insert(m, ranked)[0] == m || Insert(m, ranked)[0] == ranked[0]
  {
    if !(ranked == [] || ranked[0].score <= m.score) {
      InsertFacts(m, ranked[1..]);
      assert ranked == [ranked[0]] + ranked[1..];
    }
  }

  lemma {:induction false} InsertDescending(m: Match, ranked: seq<Match>)
    requires Descending(ranked)
    ensures Descending(Insert(m, ranked))
  {
    if !(ranked == [] || ranked[0].score <= m.score) {
      var rest := ranked[1..];
      InsertDescending(m, rest);
      InsertFacts(m, rest);
      var r := Insert(m, ranked);
      assert r == [ranked[0]] + Insert(m, rest);
      forall j | 0 < j < |r|
        ensures r[j].score <= r[0].score
      {
        assert r[j] in multiset(Insert(m, rest));
        assert r[j] == m || r[j] in rest;
      }
    }
  }

  /** The ranking is sorted by non-increasing score. */
  lemma {:induction false} RankDescending(ms: seq<Match>)
    ensures Descending(RankMatches(ms))
  {
    if ms != [] {
      RankDescending(ms[1..]);
      InsertDescending(ms[0], RankMatches(ms[1..]));
    }
  }

  /** The ranking is a permutation of the candidates. */
  lemma {:induction false} RankPermutation(ms: seq<Match>)
    ensures multiset(RankMatches(ms)) == multiset(ms)
  {
    if ms != [] {
      RankPermutation(ms[1..]);
      InsertFacts(ms[0], RankMatches(ms[1..]));
      assert ms == [ms[0]] + ms[1..];
    }
  }

  function Picked(m: Match, r: real): seq<Match> {
    if m.score == r then [m] else []
  }

  lemma WithScoreCons(m: Match, ms: seq<Match>, r: real)
    ensures WithScore([m] + ms, r) == Picked(m, r) + WithScore(ms, r)
  {
    var x := [m] + ms;
    assert x[0] == m && x[1..] == ms;
  }

  lemma {:induction false} InsertWithScore(m: Match, ranked: seq<Match>, r: real)
    ensures WithScore(Insert(m, ranked), r) == Picked(m, r) + WithScore(ranked, r)
  {
    if ranked == [] || ranked[0].score <= m.score {
      WithScoreCons(m, ranked, r);
    } else {
      var top, rest := ranked[0], ranked[1..];
      assert ranked == [top] + rest;
      InsertWithScore(m, rest, r);
      WithScoreCons(top, Insert(m, rest), r);
      WithScoreCons(top, rest, r);
      assert Picked(m, r) == [] || Picked(top, r) == [];
      assert Picked(top, r) + (Picked(m, r) + WithScore(rest, r)) == Picked(m, r) + (Picked(top, r) + WithScore(rest, r));
    }
  }

  /** The sort is stable: candidates with equal scores keep their order. */
  lemma {:induction false} RankStable(ms: seq<Match>, r: real)
    ensures WithScore(RankMatches(ms), r) == WithScore(ms, r)
  {
    if ms != [] {
      RankStable(ms[1..], r);
      InsertWithScore(ms[0], RankMatches(ms[1..]), r);
    }
  }

  /** `highest_scoring_match`: the first ranked term, or `""`. */
  function DefaultTerm(ms: seq<Match>): string {
    var ranked := RankMatches(ms);
    if ranked == [] then "" else ranked[0].term
  }

  /** The preselected term is `""` when there are no candidates;
      otherwise it belongs to a candidate whose score no other candidate
      exceeds. */
  lemma DefaultIsBest(ms: seq<Match>)
    ensures DefaultTerm(ms) == "" <== ms == []
    ensures ms != [] ==> exists best :: (best in ms && best.term == DefaultTerm(ms) &&
      forall m :: m in ms ==> m.score <= best.score)
  {
    RankPermutation(ms);
    RankDescending(ms);
    var ranked := RankMatches(ms);
    if ms != [] {
      assert ms[0] in multiset(ranked);
      var best := ranked[0];
      assert best in multiset(ms);
      forall m | m in ms
        ensures m.score <= best.score
      {
        assert m in multiset(ranked);
        var j :| 0 <= j < |ranked| && ranked[j] == m;
      }
    }
  }

  // ---------------------------------------------------------------------
  // save_alignment
  // ---------------------------------------------------------------------

  const OWL_SAME_AS: string := "http://www.w3.org/2002/07/owl#sameAs"

  /** The two fixed pieces of a line around the aligned term. */
  const MIDDLE: string := "> <" + OWL_SAME_AS + "> <"
  const TAIL: string := "> ."

  /** A line of the saved Turtle without its line break. */
  function LineBody(base: string, aligned: string): string {
    "<" + base + MIDDLE + aligned + TAIL
  }

  /** One line of the saved Turtle: `<base> owl:sameAs <aligned> .`. */
  function SameAsLine(base: string, aligned: string): string {
    LineBody(base, aligned) + "\n"
  }

  /** The file written for the chosen pairs, one line per pair in order. */
  function TtlDocument(pairs: seq<(string, string)>): string {
    if pairs == [] then "" else SameAsLine(pairs[0].0, pairs[0].1) + TtlDocument(pairs[1..])
  }

  lemma {:induction false} TtlDocumentAppend(pairs: seq<(string, string)>, p: (string, string))
    ensures TtlDocument(pairs + [p]) == TtlDocument(pairs) + SameAsLine(p.0, p.1)
  {
    if pairs != [] {
      assert (pairs + [p])[1..] == pairs[1..] + [p];
      TtlDocumentAppend(pairs[1..], p);
    }
  }

  /** The TTL building loop of `save_alignment`. */
  method SaveAlignmentTtl(pairs: seq<(string, string)>) returns (ttl: string)
    ensures ttl == TtlDocument(pairs)
  {
    ttl := "";
    var i := 0;
    while i < |pairs|
      invariant 0 <= i <= |pairs|
      invariant ttl == TtlDocument(pairs[..i])
    {
      TtlDocumentAppend(pairs[..i], pairs[i]);
      assert pairs[..i + 1] == pairs[..i] + [pairs[i]];
      ttl := ttl + SameAsLine(pairs[i].0, pairs[i].1);
      i := i + 1;
    }
    assert pairs[..|pairs|] == pairs;
  }

  /** Reads one line back, without its line break. */
  function ParseLine(line: string): Option<(string, string)> {
    if line == [] || line[0] != '<' then None
    else
      var j := IndexOf(line, '>');
      var rest := line[j..];
      if |rest| >= |MIDDLE| + |TAIL| && rest[..|MIDDLE|] == MIDDLE && rest[|rest| - |TAIL|..] == TAIL
      then Some((line[1..j], rest[|MIDDLE|..|rest| - |TAIL|]))
      else None
  }

  /** Reads a saved file back into its pairs. */
  function ParseTtl(doc: string): Option<seq<(string, string)>>
    decreases |doc|
  {
    if doc == [] then Some([])
    else
      var i := IndexOf(doc, '\n');
      if i == |doc| then None
      else
        match ParseLine(doc[..i])
        case None => None
        case Some(pair) =>
          match ParseTtl(doc[i + 1..])
          case None => None
          case Some(rest) => Some([pair] + rest)
  }

  predicate Free(s: string, c: char) {
    forall i :: 0 <= i < |s| ==> s[i] != c
  }

  /** A term that can sit inside `<...>` on one line. */
  predicate LineSafe(base: string, aligned: string) {
    Free(base, '>') && Free(base, '\n') && Free(aligned, '\n')
  }

  lemma FreeConcat(a: string, b: string, c: char)
    requires Free(a, c) && Free(b, c)
    ensures Free(a + b, c)
  {
    assert forall i :: |a| <= i < |a + b| ==> (a + b)[i] == b[i - |a|];
  }

  lemma FixedPartsFree()
    ensures Free(MIDDLE, '\n') && Free(TAIL, '\n') && Free("<", '\n')
    ensures MIDDLE == ">" + MIDDLE[1..]
  {
  }

  lemma LineBodyFree(base: string, aligned: string)
    requires LineSafe(base, aligned)
    ensures Free(LineBody(base, aligned), '\n')
  {
    FixedPartsFree();
    FreeConcat("<", base, '\n');
    FreeConcat("<" + base, MIDDLE, '\n');
    FreeConcat("<" + base + MIDDLE, aligned, '\n');
    FreeConcat("<" + base + MIDDLE + aligned, TAIL, '\n');
  }

  lemma ParseLineBody(base: string, aligned: string)
    requires LineSafe(base, aligned)
    ensures ParseLine(LineBody(base, aligned)) == Some((base, aligned))
  {
    var body := LineBody(base, aligned);
    var head, tail := "<" + base, MIDDLE[1..] + aligned + TAIL;
    FixedPartsFree();
    assert body == head + (">" + tail);
    assert Free(head, '>') by {
      assert forall i :: 1 <= i < |head| ==> head[i] == base[i - 1];
    }
    IndexOfAfter(head, '>', tail);
    var rest := body[|head|..];
    assert rest == MIDDLE + aligned + TAIL;
    assert body[1..|head|] == base;
    assert rest[..|MIDDLE|] == MIDDLE;
    assert rest[|rest| - |TAIL|..] == TAIL;
    assert rest[|MIDDLE|..|rest| - |TAIL|] == aligned;
  }

  /** Reading a line break-free line followed by more text. */
  lemma ParseTtlCons(body: string, rest: string)
    requires Free(body, '\n')
    ensures ParseTtl(body + ("\n" + rest)) ==
      match ParseLine(body)
      case None => None
      case Some(pair) => (match ParseTtl(rest) case None => None case Some(more) => Some([pair] + more))
  {
    var doc := body + ("\n" + rest);
    IndexOfAfter(body, '\n', rest);
    assert doc[..|body|] == body;
    assert doc[|body| + 1..] == rest;
  }

  /** One more pair in front of a file that reads back correctly. */
  lemma TtlRoundTripStep(p: (string, string), more: seq<(string, string)>)
    requires LineSafe(p.0, p.1)
    requires ParseTtl(TtlDocument(more)) == Some(more)
    ensures ParseTtl(TtlDocument([p] + more)) == Some([p] + more)
  {
    var pairs := [p] + more;
    assert pairs[0] == p && pairs[1..] == more;
    var body, rest := LineBody(p.0, p.1), TtlDocument(more);
    assert TtlDocument(pairs) == body + ("\n" + rest);
    LineBodyFree(p.0, p.1);
    ParseLineBody(p.0, p.1);
    ParseTtlCons(body, rest);
  }

  /** Reading the saved file gives back exactly the pairs, in order, when no
      base term contains `>` and no term contains a line break. */
  lemma {:induction false} TtlRoundTrip(pairs: seq<(string, string)>)
    requires forall i :: 0 <= i < |pairs| ==> LineSafe(pairs[i].0, pairs[i].1)
    ensures ParseTtl(TtlDocument(pairs)) == Some(pairs)
  {
    if pairs != [] {
      TtlRoundTrip(pairs[1..]);
      TtlRoundTripStep(pairs[0], pairs[1..]);
      assert [pairs[0]] + pairs[1..] == pairs;
    }
  }
}
