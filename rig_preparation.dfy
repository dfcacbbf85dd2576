/** How the mediator turns the service's description graph (RDG) into the
    request graph (RIG) it posts back: empty typed placeholders become
    sentinel values, the booking form is written onto every booking request,
    and the sentinels become empty literals again.  Each step updates one
    graph in place. */
module RigPreparation {
  import opened Wrappers
  import opened DateText
  import opened RdfGraph

  const INT_SENTINEL: Node := Literal("0", XsdInt)
  const DATETIME_SENTINEL: Node := Literal("1970-01-01T00:00:00", XsdDateTime)
  /** `Literal("")`: an empty literal with no datatype. */
  const EMPTY_LITERAL: Node := Literal("", Plain)

  // ---------------------------------------------------------------------
  // preprocess_rdg
  // ---------------------------------------------------------------------

  /** An empty literal typed `xsd:int` or `xsd:dateTime`. */
  predicate IsPlaceholder(o: Node) {
    o.Literal? && o.lexical == "" && (o.dtype == XsdInt || o.dtype == XsdDateTime)
  }

  /** The value a placeholder of datatype `d` is replaced with. */
  function Sentinel(d: Datatype): Node {
    if d == XsdInt then INT_SENTINEL else DATETIME_SENTINEL
  }

  /** The datatypes of the placeholders on `(s, p)` among `ts`. */
  function PlaceholderTypes(ts: set<Triple>, s: Node, p: Node): set<Datatype> {
    set t | t in ts && t.s == s && t.p == p && IsPlaceholder(t.o) :: t.o.dtype
  }

  /** `objs` is the single sentinel of one of the datatypes `types`. */
  predicate SentinelSet(objs: set<Node>, types: set<Datatype>) {
    || (XsdInt in types && objs == {INT_SENTINEL})
    || (XsdDateTime in types && objs == {DATETIME_SENTINEL})
  }

  /** `after` is what `preprocess_rdg` leaves once it has visited the triples
      `seen` of `before`, in whatever order: every `(s, p)` that carries a
      visited placeholder has exactly one object left, the sentinel of one
      of its placeholders' datatypes, and every triple on any other
      `(s, p)` is present exactly when it was before. */
  ghost predicate Preprocessed(before: set<Triple>, seen: set<Triple>, after: set<Triple>) {
    && (forall q :: q in seen && IsPlaceholder(q.o) ==>
          SentinelSet(Objects(after, q.s, q.p), PlaceholderTypes(seen, q.s, q.p)))
    && (forall t: Triple :: PlaceholderTypes(seen, t.s, t.p) == {} ==> (t in after <==> t in before))
  }

  /** What visiting the triple `q` does to the graph `g`. */
  function PreprocessVisit(g: set<Triple>, q: Triple): set<Triple> {
    if IsPlaceholder(q.o) then SetTriple(g, q.s, q.p, Sentinel(q.o.dtype)) else g
  }

  lemma PlaceholderTypesAdd(seen: set<Triple>, q: Triple, s: Node, p: Node)
    ensures PlaceholderTypes(seen + {q}, s, p) ==
      PlaceholderTypes(seen, s, p) + (if q.s == s && q.p == p && IsPlaceholder(q.o) then {q.o.dtype} else {})
  {
  }

  /** `SetTriple` on one `(s, p)` leaves the objects of every other pair alone. */
  lemma SetTripleElsewhere(g: set<Triple>, s: Node, p: Node, o: Node, s2: Node, p2: Node)
    requires s2 != s || p2 != p
    ensures Objects(SetTriple(g, s, p, o), s2, p2) == Objects(g, s2, p2)
  {
  }

  /** Visiting one more triple keeps the description of the loop's state. */
  lemma PreprocessVisitKeeps(before: set<Triple>, seen: set<Triple>, after: set<Triple>, q: Triple)
    requires Preprocessed(before, seen, after)
    ensures Preprocessed(before, seen + {q}, PreprocessVisit(after, q))
  {
    var seen', after' := seen + {q}, PreprocessVisit(after, q);
    forall q2 | q2 in seen' && IsPlaceholder(q2.o)
      ensures SentinelSet(Objects(after', q2.s, q2.p), PlaceholderTypes(seen', q2.s, q2.p))
    {
      PlaceholderTypesAdd(seen, q, q2.s, q2.p);
      if IsPlaceholder(q.o) {
        if q2.s == q.s && q2.p == q.p {
          assert q.o.dtype in PlaceholderTypes(seen', q2.s, q2.p);
        } else {
          SetTripleElsewhere(after, q.s, q.p, Sentinel(q.o.dtype), q2.s, q2.p);
        }
      }
    }
    forall t: Triple | PlaceholderTypes(seen', t.s, t.p) == {}
      ensures t in after' <==> t in before
    {
      PlaceholderTypesAdd(seen, q, t.s, t.p);
    }
  }

  /** `preprocess_rdg`.  The loop visits the triples the graph held when it
      started, in an order the model leaves open. */
  method PreprocessRdg(g: Graph)
    modifies g
    ensures Preprocessed(old(g.triples), old(g.triples), g.triples)
  {
    ghost var before := g.triples;
    var pending := g.triples;
    ghost var seen: set<Triple> := {};
    while pending != {}
      invariant pending + seen == before
      invariant Preprocessed(before, seen, g.triples)
      decreases |pending|
    {
      var t :| t in pending;
      PreprocessVisitKeeps(before, seen, g.triples, t);
      if t.o.Literal? && t.o.lexical == "" {
        if t.o.dtype == XsdInt {
          g.Set(t.s, t.p, INT_SENTINEL);
        } else if t.o.dtype == XsdDateTime {
          g.Set(t.s, t.p, DATETIME_SENTINEL);
        }
      }
      pending := pending - {t};
      seen := seen + {t};
    }
  }

  // ---------------------------------------------------------------------
  // postprocess_rig
  // ---------------------------------------------------------------------

  /** An `xsd:int` literal `0`, or an `xsd:dateTime` literal on 1970-01-01. */
  predicate LooksUnset(o: Node) {
    && o.Literal?
    && ((o.dtype == XsdInt && o.lexical == "0") ||
        // `<=` on sequences is the prefix test: `startswith`, not string order
        (o.dtype == XsdDateTime && "1970-01-01T" <= o.lexical))
  }

  /** The same subject and predicate with an empty untyped literal. */
  function Blanked(t: Triple): Triple {
    Triple(t.s, t.p, EMPTY_LITERAL)
  }

  /** The graph `postprocess_rig` leaves: every triple whose object looks
      unset is replaced by its blanked form; nothing else changes. */
  function Postprocessed(g: set<Triple>): (r: set<Triple>)
    ensures forall t :: t in g && !LooksUnset(t.o) ==> t in r
    ensures forall t :: t in g && LooksUnset(t.o) ==> t !in r && Blanked(t) in r
    ensures forall t :: t in r ==> !LooksUnset(t.o)
    ensures forall t :: t in r && t !in g ==> exists q :: q in g && LooksUnset(q.o) && t == Blanked(q)
  {
    (set t | t in g && !LooksUnset(t.o)) + (set t | t in g && LooksUnset(t.o) :: Blanked(t))
  }

  function UnsetAmong(ts: set<Triple>): set<Triple> {
    set t | t in ts && LooksUnset(t.o)
  }

  function BlankedAmong(ts: set<Triple>): set<Triple> {
    set t | t in ts && LooksUnset(t.o) :: Blanked(t)
  }

  /** The graph after `postprocess_rig` has visited the triples `seen` of `before`. */
  function PostprocessedSoFar(before: set<Triple>, seen: set<Triple>): set<Triple> {
    (before - UnsetAmong(seen)) + BlankedAmong(seen)
  }

  /** Visiting one more triple: a triple that looks unset is removed and its
      blanked form added. */
  lemma PostprocessVisit(before: set<Triple>, seen: set<Triple>, t: Triple)
    requires t in before && t !in seen
    ensures PostprocessedSoFar(before, seen + {t}) ==
      if LooksUnset(t.o) then (PostprocessedSoFar(before, seen) - {t}) + {Blanked(t)}
      else PostprocessedSoFar(before, seen)
  {
    assert UnsetAmong(seen + {t}) == UnsetAmong(seen) + (if LooksUnset(t.o) then {t} else {});
    assert BlankedAmong(seen + {t}) == BlankedAmong(seen) + (if LooksUnset(t.o) then {Blanked(t)} else {});
    assert LooksUnset(t.o) ==> t !in BlankedAmong(seen);
  }

  /** Once every triple is visited, the graph is the postprocessed one. */
  lemma PostprocessedAll(before: set<Triple>)
    ensures PostprocessedSoFar(before, before) == Postprocessed(before)
  {
    assert (before - UnsetAmong(before)) == set t | t in before && !LooksUnset(t.o);
  }

  /** `postprocess_rig`.  The loop runs over a copy of the triples
      (`list(rig_graph)`), in an order the model leaves open; the result
      does not depend on it. */
  method PostprocessRig(g: Graph)
    modifies g
    ensures g.triples == Postprocessed(old(g.triples))
  {
    ghost var before := g.triples;
    var pending := g.triples;
    ghost var seen: set<Triple> := {};
    while pending != {}
      invariant pending + seen == before && pending !! seen
      invariant g.triples == PostprocessedSoFar(before, seen)
      decreases |pending|
    {
      var t :| t in pending;
      PostprocessVisit(before, seen, t);
      if t.o.Literal? {
        if t.o.dtype == XsdInt && t.o.lexical == "0" {
          g.Remove(t);
          g.Add(Blanked(t));
        } else if t.o.dtype == XsdDateTime && "1970-01-01T" <= t.o.lexical {
          g.Remove(t);
          g.Add(Blanked(t));
        }
      }
      pending := pending - {t};
      seen := seen + {t};
    }
    PostprocessedAll(before);
  }

  /** Running `postprocess_rig` a second time changes nothing. */
  lemma PostprocessIdempotent(g: set<Triple>)
    ensures Postprocessed(Postprocessed(g)) == Postprocessed(g)
  {
    var r := Postprocessed(g);
    assert forall t :: t in r ==> t in Postprocessed(r);
  }

  /** A pair whose objects all look set keeps exactly those objects. */
  lemma PostprocessKeepsSetObjects(g: set<Triple>, s: Node, p: Node)
    requires forall o :: o in Objects(g, s, p) ==> !LooksUnset(o)
    ensures Objects(Postprocessed(g), s, p) == Objects(g, s, p)
  {
    forall o | o in Objects(Postprocessed(g), s, p)
      ensures o in Objects(g, s, p)
    {
      var t :| t in Postprocessed(g) && t.s == s && t.p == p && t.o == o;
      assert t in g;
    }
    forall o | o in Objects(g, s, p)
      ensures o in Objects(Postprocessed(g), s, p)
    {
      var t :| t in g && t.s == s && t.p == p && t.o == o;
      assert t in Postprocessed(g);
    }
  }

  /** A pair whose single object looks unset ends with the empty literal as
      its single object. */
  lemma PostprocessBlanksPair(g: set<Triple>, s: Node, p: Node, o: Node)
    requires Objects(g, s, p) == {o} && LooksUnset(o)
    ensures Objects(Postprocessed(g), s, p) == {EMPTY_LITERAL}
  {
    assert Triple(s, p, o) in g by {
      assert o in Objects(g, s, p);
    }
    assert EMPTY_LITERAL in Objects(Postprocessed(g), s, p) by {
      assert Blanked(Triple(s, p, o)) in Postprocessed(g);
    }
    forall x | x in Objects(Postprocessed(g), s, p)
      ensures x == EMPTY_LITERAL
    {
      var t :| t in Postprocessed(g) && t.s == s && t.p == p && t.o == x;
      assert t in g ==> t.o in Objects(g, s, p);
      assert t !in g;
    }
  }

  /** Pre- and postprocessing undo each other only up to the datatype: a
      placeholder `""^^xsd:int` or `""^^xsd:dateTime` comes back as the
      untyped `Literal("")`, the only object left on its pair. */
  lemma PlaceholderComesBackUntyped(before: set<Triple>, mid: set<Triple>, q: Triple)
    requires Preprocessed(before, before, mid)
    requires q in before && IsPlaceholder(q.o)
    ensures Objects(Postprocessed(mid), q.s, q.p) == {EMPTY_LITERAL}
  {
    var objs := Objects(mid, q.s, q.p);
    assert SentinelSet(objs, PlaceholderTypes(before, q.s, q.p));
    if objs == {INT_SENTINEL} {
      PostprocessBlanksPair(mid, q.s, q.p, INT_SENTINEL);
    } else {
      assert "1970-01-01T" <= DATETIME_SENTINEL.lexical;
      PostprocessBlanksPair(mid, q.s, q.p, DATETIME_SENTINEL);
    }
  }

  /** An RDG value that really is the integer 0 cannot be told from a
      sentinel: postprocessing blanks it too. */
  lemma GenuineZeroBlanked(g: set<Triple>, s: Node, p: Node)
    requires Triple(s, p, INT_SENTINEL) in g
    ensures Triple(s, p, INT_SENTINEL) !in Postprocessed(g)
    ensures Triple(s, p, EMPTY_LITERAL) in Postprocessed(g)
  {
    assert Blanked(Triple(s, p, INT_SENTINEL)) == Triple(s, p, EMPTY_LITERAL);
  }

  // ---------------------------------------------------------------------
  // update_graph_with_form_data
  // ---------------------------------------------------------------------

  /** The subjects typed `cot:BookingRequest`. */
  function BookingRequests(g: set<Triple>): set<Node> {
    Subjects(g, Iri(RDF_TYPE), Iri(BOOKING_REQUEST))
  }

  /** The `COT` properties written for the non-empty values among `keys`. */
  function Written(form: map<string, string>, keys: set<string>): set<Node> {
    set k | k in keys && k in form && form[k] != "" :: InCot(k)
  }

  /** The triples written for `subjects` and the non-empty values among `keys`. */
  function Writes(subjects: set<Node>, form: map<string, string>, keys: set<string>): set<Triple> {
    set s, k | s in subjects && k in keys && k in form && form[k] != "" :: Triple(s, InCot(k), Literal(form[k], Plain))
  }

  /** `g` after `set` has written every pair of `subjects` and `keys`. */
  function Overwritten(g: set<Triple>, subjects: set<Node>, form: map<string, string>, keys: set<string>): set<Triple> {
    (set t | t in g && !(t.s in subjects && t.p in Written(form, keys))) + Writes(subjects, form, keys)
  }

  /** The graph `update_graph_with_form_data` leaves. */
  function FormUpdated(g: set<Triple>, form: map<string, string>): set<Triple> {
    Overwritten(g, BookingRequests(g), form, form.Keys)
  }

  lemma OverwrittenNothing(g: set<Triple>, subjects: set<Node>, form: map<string, string>)
    ensures Overwritten(g, subjects, form, {}) == g
  {
    assert Written(form, {}) == {};
    assert Writes(subjects, form, {}) == {};
  }

  lemma OverwrittenNoSubjects(g: set<Triple>, form: map<string, string>, keys: set<string>)
    ensures Overwritten(g, {}, form, keys) == g
  {
    assert Writes({}, form, keys) == {};
  }

  /** The inner loop's step: one more key written for subject `s`. */
  lemma OverwriteKey(g: set<Triple>, s: Node, form: map<string, string>, keys: set<string>, k: string)
    requires k in form && k !in keys
    ensures Overwritten(g, {s}, form, keys + {k}) ==
      if form[k] != "" then SetTriple(Overwritten(g, {s}, form, keys), s, InCot(k), Literal(form[k], Plain))
      else Overwritten(g, {s}, form, keys)
  {
    var before, after := Overwritten(g, {s}, form, keys), Overwritten(g, {s}, form, keys + {k});
    if form[k] == "" {
      assert Written(form, keys + {k}) == Written(form, keys);
      assert Writes({s}, form, keys + {k}) == Writes({s}, form, keys);
    } else {
      var v := Literal(form[k], Plain);
      var set' := SetTriple(before, s, InCot(k), v);
      assert Written(form, keys + {k}) == Written(form, keys) + {InCot(k)};
      assert Writes({s}, form, keys + {k}) == Writes({s}, form, keys) + {Triple(s, InCot(k), v)};
      forall t | t in set'
        ensures t in after
      {
        if t.s == s && t.p == InCot(k) {
          assert t.o == v;
        }
      }
      forall t | t in after
        ensures t in set'
      {
        if t.s == s && t.p == InCot(k) {
          if t in Writes({s}, form, keys) {
            var s', k' :| s' in {s} && k' in keys && k' in form && form[k'] != "" && t == Triple(s', InCot(k'), Literal(form[k'], Plain));
            CotInjective(k, k');
          }
          assert t.o == v;
        } else if t !in Writes({s}, form, keys + {k}) {
          assert t in before;
        }
      }
    }
  }

  /** The outer loop's step: one more subject written for every key. */
  lemma OverwriteSubject(g: set<Triple>, done: set<Node>, s: Node, form: map<string, string>)
    requires s !in done
    ensures Overwritten(Overwritten(g, done, form, form.Keys), {s}, form, form.Keys) ==
      Overwritten(g, done + {s}, form, form.Keys)
  {
    var mid := Overwritten(g, done, form, form.Keys);
    assert Writes(done + {s}, form, form.Keys) == Writes(done, form, form.Keys) + Writes({s}, form, form.Keys);
    forall t | t in Writes(done, form, form.Keys)
      ensures t.s != s
    {
    }
  }

  /** `update_graph_with_form_data`.  The subjects are collected before the
      loops; `FormUpdateKeepsRequests` shows that the writes do not change
      them. */
  method UpdateGraphWithFormData(g: Graph, form: map<string, string>)
    modifies g
    ensures g.triples == FormUpdated(old(g.triples), form)
  {
    var requests := Subjects(g.triples, Iri(RDF_TYPE), Iri(BOOKING_REQUEST));
    WriteRequests(g, requests, form);
  }

  /** The outer loop of `update_graph_with_form_data`, over the subjects
      `requests`. */
  method WriteRequests(g: Graph, requests: set<Node>, form: map<string, string>)
    modifies g
    ensures g.triples == Overwritten(old(g.triples), requests, form, form.Keys)
  {
    ghost var before := g.triples;
    var pending := requests;
    ghost var done: set<Node> := {};
    OverwrittenNoSubjects(before, form, form.Keys);
    while pending != {}
      invariant pending + done == requests && pending !! done
      invariant g.triples == Overwritten(before, done, form, form.Keys)
      decreases |pending|
    {
      var s :| s in pending;
      WriteForm(g, s, form);
      OverwriteSubject(before, done, s, form);
      pending := pending - {s};
      done := done + {s};
    }
  }

  /** The inner loop of `update_graph_with_form_data`: `set` for every
      non-empty form value on the booking request `s`. */
  method WriteForm(g: Graph, s: Node, form: map<string, string>)
    modifies g
    ensures g.triples == Overwritten(old(g.triples), {s}, form, form.Keys)
  {
    ghost var start := g.triples;
    var keys := form.Keys;
    ghost var doneKeys: set<string> := {};
    OverwrittenNothing(start, {s}, form);
    while keys != {}
      invariant keys + doneKeys == form.Keys && keys !! doneKeys
      invariant g.triples == Overwritten(start, {s}, form, doneKeys)
      decreases |keys|
    {
      var k :| k in keys;
      OverwriteKey(start, s, form, doneKeys, k);
      var value := form[k];
      if value != "" {
        g.Set(s, InCot(k), Literal(value, Plain));
      }
      keys := keys - {k};
      doneKeys := doneKeys + {k};
    }
  }

  /** Every booking request ends with exactly one object for each property
      with a non-empty form value: that value as a plain literal. */
  lemma FormValueWritten(g: set<Triple>, form: map<string, string>, s: Node, k: string)
    requires s in BookingRequests(g) && k in form && form[k] != ""
    ensures Objects(FormUpdated(g, form), s, InCot(k)) == {Literal(form[k], Plain)}
  {
    var r := FormUpdated(g, form);
    assert InCot(k) in Written(form, form.Keys);
    assert Triple(s, InCot(k), Literal(form[k], Plain)) in r;
    forall o | o in Objects(r, s, InCot(k))
      ensures o == Literal(form[k], Plain)
    {
      var t :| t in r && t.s == s && t.p == InCot(k) && t.o == o;
      var s', k' :| s' in BookingRequests(g) && k' in form.Keys && k' in form && form[k'] != ""
        && t == Triple(s', InCot(k'), Literal(form[k'], Plain));
      CotInjective(k, k');
    }
  }

  /** A triple whose subject is no booking request, or whose predicate is
      not a property with a non-empty form value, is present afterwards
      exactly when it was before. */
  lemma FormUpdateFrame(g: set<Triple>, form: map<string, string>, t: Triple)
    requires t.s !in BookingRequests(g) || t.p !in Written(form, form.Keys)
    ensures t in FormUpdated(g, form) <==> t in g
  {
    assert t !in Writes(BookingRequests(g), form, form.Keys);
  }

  /** A form whose values are all empty leaves the graph as it is. */
  lemma EmptyFormNoChange(g: set<Triple>, form: map<string, string>)
    requires forall k :: k in form ==> form[k] == ""
    ensures FormUpdated(g, form) == g
  {
    assert Written(form, form.Keys) == {};
    assert Writes(BookingRequests(g), form, form.Keys) == {};
  }

  /** The writes never touch an `rdf:type` triple, so the booking requests
      after the update are those before it. */
  lemma FormUpdateKeepsRequests(g: set<Triple>, subjects: set<Node>, form: map<string, string>, keys: set<string>)
    ensures BookingRequests(Overwritten(g, subjects, form, keys)) == BookingRequests(g)
  {
    var r := Overwritten(g, subjects, form, keys);
    forall t: Triple | t.p == Iri(RDF_TYPE)
      ensures t in r <==> t in g
    {
      assert t !in Writes(subjects, form, keys);
      assert t.p !in Written(form, keys);
    }
    assert forall x :: x in BookingRequests(r) <==> x in BookingRequests(g) by {
      forall x
        ensures x in BookingRequests(r) <==> x in BookingRequests(g)
      {
        var t := Triple(x, Iri(RDF_TYPE), Iri(BOOKING_REQUEST));
        assert x in BookingRequests(r) <==> t in r;
        assert x in BookingRequests(g) <==> t in g;
      }
    }
  }

  // ---------------------------------------------------------------------
  // submit_request: the form and the whole preparation
  // ---------------------------------------------------------------------

  /** The fields of the booking form. */
  datatype BookingForm = BookingForm(
    bookerName: string,
    numberOfPlaces: int,
    numberOfBedrooms: int,
    cityName: string,
    distanceFromCity: int,
    distanceFromLake: int,
    startDate: string,
    duration: int,
    maxShiftDays: int)

  /** The `form_data` dictionary built from the form, numbers as `str(n)`. */
  function FormData(f: BookingForm): (m: map<string, string>)
    ensures m.Keys == {"booker_name", "numberOfPlaces", "numberOfBedrooms", "cityName",
                       "distanceFromCity", "distanceFromLake", "startDate", "duration", "maxShiftDays"}
    ensures m["booker_name"] == f.bookerName && m["cityName"] == f.cityName && m["startDate"] == f.startDate
  {
    map[
      "booker_name" := f.bookerName,
      "numberOfPlaces" := IntToString(f.numberOfPlaces),
      "numberOfBedrooms" := IntToString(f.numberOfBedrooms),
      "cityName" := f.cityName,
      "distanceFromCity" := IntToString(f.distanceFromCity),
      "distanceFromLake" := IntToString(f.distanceFromLake),
      "startDate" := f.startDate,
      "duration" := IntToString(f.duration),
      "maxShiftDays" := IntToString(f.maxShiftDays)]
  }

  /** Each numeric field holds `str(n)` of the form's number, so `int()`
      reads the number back. */
  lemma FormDataNumbers(f: BookingForm)
    ensures ParseInt(FormData(f)["numberOfPlaces"]) == Ok(f.numberOfPlaces)
    ensures ParseInt(FormData(f)["numberOfBedrooms"]) == Ok(f.numberOfBedrooms)
    ensures ParseInt(FormData(f)["distanceFromCity"]) == Ok(f.distanceFromCity)
    ensures ParseInt(FormData(f)["distanceFromLake"]) == Ok(f.distanceFromLake)
    ensures ParseInt(FormData(f)["duration"]) == Ok(f.duration)
    ensures ParseInt(FormData(f)["maxShiftDays"]) == Ok(f.maxShiftDays)
  {
    var m := FormData(f);
    assert m["numberOfPlaces"] == IntToString(f.numberOfPlaces);
    assert m["numberOfBedrooms"] == IntToString(f.numberOfBedrooms);
    assert m["distanceFromCity"] == IntToString(f.distanceFromCity);
    assert m["distanceFromLake"] == IntToString(f.distanceFromLake);
    assert m["duration"] == IntToString(f.duration);
    assert m["maxShiftDays"] == IntToString(f.maxShiftDays);
    ParseIntOfIntToString(f.numberOfPlaces);
    ParseIntOfIntToString(f.numberOfBedrooms);
    ParseIntOfIntToString(f.distanceFromCity);
    ParseIntOfIntToString(f.distanceFromLake);
    ParseIntOfIntToString(f.duration);
    ParseIntOfIntToString(f.maxShiftDays);
  }

  /** `str(n)` is never empty, so every numeric field is always written,
      even a zero; only the three text fields can be skipped. */
  lemma NumericFieldsWritten(f: BookingForm, k: string)
    requires k in FormData(f) && k !in {"booker_name", "cityName", "startDate"}
    ensures FormData(f)[k] != ""
  {
  }

  /** The RIG `submit_request` posts, built from the parsed RDG `rdg`;
      `mid` is the RDG after preprocessing. */
  method PrepareRig(rdg: set<Triple>, form: map<string, string>) returns (rig: set<Triple>, mid: set<Triple>)
    ensures Preprocessed(rdg, rdg, mid)
    ensures rig == Postprocessed(FormUpdated(mid, form))
  {
    var rdgGraph := new Graph(rdg);
    PreprocessRdg(rdgGraph);
    mid := rdgGraph.triples;
    var rigGraph := new Graph({});
    rigGraph.AddAll(rdgGraph.triples);
    assert rigGraph.triples == mid;
    UpdateGraphWithFormData(rigGraph, form);
    PostprocessRig(rigGraph);
    rig := rigGraph.triples;
  }

  /** The form values reach the posted RIG: postprocessing never blanks a
      plain literal, so each booking request keeps exactly its form value
      for every property with a non-empty one. */
  lemma FormValuesSurvive(mid: set<Triple>, form: map<string, string>, s: Node, k: string)
    requires s in BookingRequests(mid) && k in form && form[k] != ""
    ensures Objects(Postprocessed(FormUpdated(mid, form)), s, InCot(k)) == {Literal(form[k], Plain)}
  {
    FormValueWritten(mid, form, s, k);
    PostprocessKeepsSetObjects(FormUpdated(mid, form), s, InCot(k));
  }
}
