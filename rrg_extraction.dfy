/** `extract_data_from_rrg`: the booking service's answer (RRG) flattened
    into a dictionary from property local names to values.  The parsed graph
    is given as the sequence of its triples in the store's enumeration
    order, which decides both which `mapsTo` triple is the first and which
    of two properties with the same local name is written last. */
module RrgExtraction {
  import opened Wrappers
  import opened RdfGraph

  /** `iri.split('#')[-1]`: the text after the last `#`, or all of `iri`
      when it has none. */
  function LocalName(iri: string): string {
    if iri == [] then []
    else if iri[|iri| - 1] == '#' then []
    else LocalName(iri[..|iri| - 1]) + [iri[|iri| - 1]]
  }

  /** The local name is the longest suffix without `#`: it has no `#`, and
      either it is all of `iri` or a `#` comes right before it. */
  lemma {:induction false} LocalNameSuffix(iri: string)
    ensures var r := LocalName(iri);
      && |r| <= |iri| && r == iri[|iri| - |r|..]
      && (forall i :: 0 <= i < |r| ==> r[i] != '#')
      && (|r| < |iri| ==> iri[|iri| - |r| - 1] == '#')
  {
    if iri != [] && iri[|iri| - 1] != '#' {
      var init, c := iri[..|iri| - 1], iri[|iri| - 1];
      LocalNameSuffix(init);
      var r := LocalName(init);
      assert iri == init + [c];
      assert iri[|iri| - |r| - 1..] == init[|init| - |r|..] + [c];
      assert |r| < |init| ==> iri[|iri| - |r| - 2] == init[|init| - |r| - 1];
    }
  }

  /** The local name of `prefix + "#" + name` is `name` when `name` has no `#`. */
  lemma LocalNameAfterHash(prefix: string, name: string)
    requires forall i :: 0 <= i < |name| ==> name[i] != '#'
    ensures LocalName(prefix + "#" + name) == name
  {
    var iri := prefix + "#" + name;
    LocalNameSuffix(iri);
    assert iri[|iri| - |name| - 1] == '#';
    assert iri[|iri| - |name|..] == name;
  }

  predicate IsMapsTo(t: Triple) {
    t.p == Iri(MAPS_TO)
  }

  /** The object of the first `mapsTo` triple of the store, if any. */
  function FirstMapsTo(store: seq<Triple>): (r: Option<Node>)
    ensures r.None? <==> forall i :: 0 <= i < |store| ==> !IsMapsTo(store[i])
    ensures r.Some? ==> exists i :: (0 <= i < |store| && IsMapsTo(store[i]) && store[i].o == r.value &&
      forall j :: 0 <= j < i ==> !IsMapsTo(store[j]))
  {
    if store == [] then None
    else if IsMapsTo(store[0]) then Some(store[0].o)
    else
      var r := FirstMapsTo(store[1..]);
      assert forall i :: 1 <= i < |store| ==> store[i] == store[1..][i - 1];
      if r.Some? then
        var i :| 0 <= i < |store[1..]| && IsMapsTo(store[1..][i]) && store[1..][i].o == r.value &&
          forall j :: 0 <= j < i ==> !IsMapsTo(store[1..][j]);
        assert IsMapsTo(store[i + 1]) && forall j :: 0 <= j < i + 1 ==> !IsMapsTo(store[j]);
        r
      else r
  }

  /** The dictionary key a triple writes. */
  function Key(t: Triple): string {
    LocalName(Text(t.p))
  }

  /** The dictionary after the loop over `predicate_objects(node)` has seen
      the triples `store`, in order: each triple about `node` writes its
      object's text under its predicate's local name. */
  function Flatten(store: seq<Triple>, node: Node): map<string, string> {
    if store == [] then map[]
    else
      var last := store[|store| - 1];
      var m := Flatten(store[..|store| - 1], node);
      if last.s == node then m[Key(last) := Text(last.o)] else m
  }

  /** The dictionary `extract_data_from_rrg` returns.  A `mapsTo` object
      whose text is empty is false in Python and counts as none. */
  function ExtractSpec(store: seq<Triple>): map<string, string> {
    match FirstMapsTo(store)
    case None => map[]
    case Some(node) => if Text(node) != "" then Flatten(store, node) else map[]
  }

  /** The keys are exactly the local names of the predicates on `node`. */
  lemma {:induction false} FlattenKeys(store: seq<Triple>, node: Node)
    ensures forall k :: k in Flatten(store, node) <==>
      exists i :: 0 <= i < |store| && store[i].s == node && Key(store[i]) == k
  {
    if store != [] {
      var init := store[..|store| - 1];
      FlattenKeys(init, node);
      assert forall i :: 0 <= i < |init| ==> init[i] == store[i];
    }
  }

  /** The position of the last triple on `node` that writes the key `k`,
      or -1 when there is none. */
  function LastWrite(store: seq<Triple>, node: Node, k: string): (r: int)
    ensures -1 <= r < |store|
    ensures r >= 0 ==> store[r].s == node && Key(store[r]) == k
    ensures forall j :: r < j < |store| ==> !(store[j].s == node && Key(store[j]) == k)
  {
    if store == [] then -1
    else
      var n := |store|;
      if store[n - 1].s == node && Key(store[n - 1]) == k then n - 1
      else
        var init := store[..n - 1];
        assert forall j :: 0 <= j < |init| ==> init[j] == store[j];
        LastWrite(init, node, k)
  }

  /** A key is present exactly when some triple on `node` writes it, and its
      value is the object's text of the last such triple: the last write
      wins. */
  lemma {:induction false} FlattenLastWins(store: seq<Triple>, node: Node, k: string)
    ensures k in Flatten(store, node) <==> LastWrite(store, node, k) >= 0
    ensures k in Flatten(store, node) ==> Flatten(store, node)[k] == Text(store[LastWrite(store, node, k)].o)
  {
    if store != [] {
      var n := |store|;
      var init := store[..n - 1];
      FlattenLastWins(init, node, k);
      if !(store[n - 1].s == node && Key(store[n - 1]) == k) && LastWrite(init, node, k) >= 0 {
        assert init[LastWrite(init, node, k)] == store[LastWrite(init, node, k)];
      }
    }
  }

  /** Without a `mapsTo` triple nothing is extracted. */
  lemma NoMapsToNothing(store: seq<Triple>)
    requires forall i :: 0 <= i < |store| ==> !IsMapsTo(store[i])
    ensures ExtractSpec(store) == map[]
  {
  }

  /** `extract_data_from_rrg` on an already parsed store. */
  method ExtractDataFromRrg(store: seq<Triple>) returns (extracted: map<string, string>)
    ensures extracted == ExtractSpec(store)
  {
    extracted := map[];
    var mapsToNode: Option<Node> := None;
    var i := 0;
    while i < |store|
      invariant 0 <= i <= |store|
      invariant mapsToNode.None? ==> forall j :: 0 <= j < i ==> !IsMapsTo(store[j])
      invariant mapsToNode.Some? ==> mapsToNode == FirstMapsTo(store)
    {
      if IsMapsTo(store[i]) {
        FirstAt(store, i);
        mapsToNode := Some(store[i].o);
        break;
      }
      i := i + 1;
    }
    if mapsToNode.Some? && Text(mapsToNode.value) != "" {
      var node := mapsToNode.value;
      var k := 0;
      while k < |store|
        invariant 0 <= k <= |store|
        invariant extracted == Flatten(store[..k], node)
      {
        var t := store[k];
        assert store[..k + 1][..k] == store[..k];
        if t.s == node {
          extracted := extracted[Key(t) := Text(t.o)];
        }
        k := k + 1;
      }
      assert store[..|store|] == store;
    }
  }

  /** A `mapsTo` triple with none before it is the first one. */
  lemma {:induction false} FirstAt(store: seq<Triple>, i: int)
    requires 0 <= i < |store| && IsMapsTo(store[i])
    requires forall j :: 0 <= j < i ==> !IsMapsTo(store[j])
    ensures FirstMapsTo(store) == Some(store[i].o)
  {
    if i > 0 {
      FirstAt(store[1..], i - 1);
    }
  }
}
