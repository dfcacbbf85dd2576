/** The part of the RDF data model the mediator relies on: terms, triples,
    and a graph holding a set of triples that rdflib's `add`, `remove` and
    `set` update in place.  A literal carries its lexical form; the typed
    Python value rdflib derives from it is not modelled. */
module RdfGraph {
  const RDF_TYPE: string := "http://www.w3.org/1999/02/22-rdf-syntax-ns#type"
  /** The cottage ontology namespace `COT`. */
  const COT: string := "http://users.jyu.fi/~kumapmxw/cottage-ontology.owl#"
  /** The SSWAP namespace. */
  const SSWAP: string := "http://sswapmeet.sswap.info/sswap/"
  const BOOKING_REQUEST: string := COT + "BookingRequest"
  const MAPS_TO: string := SSWAP + "mapsTo"
  const HAS_MAPPING: string := SSWAP + "hasMapping"

  /** `XSD.int`, `XSD.dateTime`, no datatype at all, or any other IRI. */
  datatype Datatype = XsdInt | XsdDateTime | Plain | OtherType(iri: string)

  datatype Node =
    | Iri(iri: string)
    | Blank(id: string)
    | Literal(lexical: string, dtype: Datatype)

  datatype Triple = Triple(s: Node, p: Node, o: Node)

  /** `str(n)`: the IRI, the blank node identifier or the lexical form. */
  function Text(n: Node): string {
    match n
    case Iri(i) => i
    case Blank(b) => b
    case Literal(l, _) => l
  }

  /** A namespace member such as `COT[name]`. */
  function InCot(name: string): Node {
    Iri(COT + name)
  }

  /** The objects of the triples `(s, p, *)`. */
  function Objects(g: set<Triple>, s: Node, p: Node): set<Node> {
    set t | t in g && t.s == s && t.p == p :: t.o
  }

  /** The subjects of the triples `(*, p, o)`. */
  function Subjects(g: set<Triple>, p: Node, o: Node): set<Node> {
    set t | t in g && t.p == p && t.o == o :: t.s
  }

  /** rdflib's `set((s, p, o))`: every `(s, p, *)` is removed, then
      `(s, p, o)` is added. */
  function SetTriple(g: set<Triple>, s: Node, p: Node, o: Node): (r: set<Triple>)
    ensures Objects(r, s, p) == {o}
    ensures forall t: Triple :: t.s != s || t.p != p ==> (t in r <==> t in g)
  {
    var r := (set t | t in g && (t.s != s || t.p != p)) + {Triple(s, p, o)};
    assert Triple(s, p, o) in r;
    r
  }

  /** The cottage namespace never produces the `rdf:type` IRI, so writing a
      `COT[name]` property never touches a type triple. */
  lemma CotIsNotType(name: string)
    ensures InCot(name) != Iri(RDF_TYPE)
  {
    assert COT[7] == 'u' && RDF_TYPE[7] == 'w';
    assert (COT + name)[7] == COT[7];
  }

  /** Distinct property names give distinct `COT` IRIs. */
  lemma CotInjective(a: string, b: string)
    requires InCot(a) == InCot(b)
    ensures a == b
  {
    assert a == (COT + a)[|COT|..];
    assert b == (COT + b)[|COT|..];
  }

  /** An rdflib graph over the default in-memory store. */
  class Graph {
    var triples: set<Triple>

    constructor (initial: set<Triple>)
      ensures triples == initial
    {
      triples := initial;
    }

    method Add(t: Triple)
      modifies this
      ensures triples == old(triples) + {t}
    {
      triples := triples + {t};
    }

    method Remove(t: Triple)
      modifies this
      ensures triples == old(triples) - {t}
    {
      triples := triples - {t};
    }

    method Set(s: Node, p: Node, o: Node)
      modifies this
      ensures triples == SetTriple(old(triples), s, p, o)
    {
      triples := SetTriple(triples, s, p, o);
    }

    /** `graph += other`: adds every triple of `other`. */
    method AddAll(other: set<Triple>)
      modifies this
      ensures triples == old(triples) + other
    {
      triples := triples + other;
    }
  }
}
