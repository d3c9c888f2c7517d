/**
 The star expansion of nets into pairwise connections.

 Parts are told apart by object identity, components by their reference.
 */
module Star {
  type Ref = string
  type PartId = nat

  datatype Part = Part(id: PartId, ref: Ref, footprint: string)

  /** The parts of the pins, in pin order. */
  type Net = seq<PartId>

  datatype Size = Size(width: int, height: int)

  datatype Component = Component(ref: Ref, size: Size)

  datatype Connection = Connection(source: Ref, target: Ref, weight: real)

  datatype Result = Problem(components: seq<Component>, connections: seq<Connection>) | MissingFootprint | UnknownPart

  // ----- the expansion --------------------------------------------------------------------

  /** Every later pin is connected to the first. */
  function StarOf(refs: seq<Ref>): seq<Connection> {
    seq(if refs == [] then 0 else |refs| - 1, i requires 0 <= i < |refs| - 1 => Connection(refs[0], refs[i + 1], 1.0))
  }

  function StarOfAll(nets: seq<seq<Ref>>): seq<Connection> {
    if nets == [] then [] else StarOfAll(nets[..|nets| - 1]) + StarOf(nets[|nets| - 1])
  }

  /** Pins minus one, over the nets with at least two. */
  function Wires(nets: seq<seq<Ref>>): nat {
    if nets == [] then 0
    else Wires(nets[..|nets| - 1]) + (if |nets[|nets| - 1]| >= 2 then |nets[|nets| - 1]| - 1 else 0)
  }

  lemma {:induction false} ConnectionCount(nets: seq<seq<Ref>>)
    ensures |StarOfAll(nets)| == Wires(nets)
  {
    if nets != [] {
      ConnectionCount(nets[..|nets| - 1]);
    }
  }

  // ----- connectivity ---------------------------------------------------------------------

  predicate Linked(connections: seq<Connection>, a: Ref, b: Ref) {
    exists i :: 0 <= i < |connections| &&
      ((connections[i].source == a && connections[i].target == b) || (connections[i].source == b && connections[i].target == a))
  }

  predicate ShareNet(nets: seq<seq<Ref>>, a: Ref, b: Ref) {
    exists i :: 0 <= i < |nets| && a in nets[i] && b in nets[i]
  }

  ghost predicate IsPath(path: seq<Ref>, rel: (Ref, Ref) -> bool, a: Ref, b: Ref) {
    path != [] && path[0] == a && path[|path| - 1] == b && forall i :: 0 < i < |path| ==> rel(path[i - 1], path[i])
  }

  ghost predicate Joined(rel: (Ref, Ref) -> bool, a: Ref, b: Ref) { exists path :: IsPath(path, rel, a, b) }

  lemma JoinedRefl(rel: (Ref, Ref) -> bool, a: Ref)
    ensures Joined(rel, a, a)
  {
    assert IsPath([a], rel, a, a);
  }

  lemma JoinedStep(rel: (Ref, Ref) -> bool, a: Ref, b: Ref)
    requires rel(a, b)
    ensures Joined(rel, a, b)
  {
    assert IsPath([a, b], rel, a, b);
  }

  lemma JoinedTrans(rel: (Ref, Ref) -> bool, a: Ref, b: Ref, c: Ref)
    requires Joined(rel, a, b) && Joined(rel, b, c)
    ensures Joined(rel, a, c)
  {
    var p :| IsPath(p, rel, a, b);
    var q :| IsPath(q, rel, b, c);
    var path := p + q[1..];
    forall i | 0 < i < |path|
      ensures rel(path[i - 1], path[i])
    {
      if i < |p| {
        assert path[i - 1] == p[i - 1] && path[i] == p[i];
      } else {
        assert path[i] == q[i - |p| + 1] && path[i - 1] == q[i - |p|];
      }
    }
    assert IsPath(path, rel, a, c);
  }

  /** A path survives when each of its steps can be taken in the other relation. */
  lemma {:induction false} PathCarriesOver(path: seq<Ref>, rel: (Ref, Ref) -> bool, other: (Ref, Ref) -> bool, a: Ref, b: Ref)
    requires IsPath(path, rel, a, b)
    requires forall x, y :: rel(x, y) ==> Joined(other, x, y)
    ensures Joined(other, a, b)
  {
    if |path| == 1 {
      JoinedRefl(other, a);
    } else {
      var front, last := path[..|path| - 1], path[|path| - 2];
      assert IsPath(front, rel, a, last);
      PathCarriesOver(front, rel, other, a, last);
      assert rel(last, path[|path| - 1]);
      JoinedTrans(other, a, last, b);
    }
  }

  /** Where a connection comes from, and what a net becomes. */
  lemma {:induction false} StarContents(nets: seq<seq<Ref>>, c: Connection)
    ensures c in StarOfAll(nets) <==> exists n :: 0 <= n < |nets| && c in StarOf(nets[n])
  {
    hide StarOf;
    if nets != [] {
      var front, last := nets[..|nets| - 1], |nets| - 1;
      StarContents(front, c);
      assert forall n :: 0 <= n < last ==> front[n] == nets[n];
      hide StarOfAll;
      assert c in StarOfAll(nets) <==> c in StarOfAll(front) || c in StarOf(nets[last]) by {
        StarUnfolds(nets, c);
      }
    }
  }

  lemma StarUnfolds(nets: seq<seq<Ref>>, c: Connection)
    requires nets != []
    ensures c in StarOfAll(nets) <==> c in StarOfAll(nets[..|nets| - 1]) || c in StarOf(nets[|nets| - 1])
  {
    hide StarOf;
  }

  lemma LinkedShares(nets: seq<seq<Ref>>, a: Ref, b: Ref)
    requires Linked(StarOfAll(nets), a, b)
    ensures ShareNet(nets, a, b)
  {
    var all := StarOfAll(nets);
    var i :| 0 <= i < |all| &&
      ((all[i].source == a && all[i].target == b) || (all[i].source == b && all[i].target == a));
    StarContents(nets, all[i]);
    var n :| 0 <= n < |nets| && all[i] in StarOf(nets[n]);
  }

  /** Any pin of a net is joined with its first pin. */
  lemma PinJoinsAnchor(nets: seq<seq<Ref>>, n: nat, k: nat)
    requires n < |nets| && k < |nets[n]|
    ensures var rel := (x, y) => Linked(StarOfAll(nets), x, y);
      Joined(rel, nets[n][0], nets[n][k]) && Joined(rel, nets[n][k], nets[n][0])
  {
    var net, all := nets[n], StarOfAll(nets);
    var rel := (x, y) => Linked(all, x, y);
    if k == 0 {
      JoinedRefl(rel, net[0]);
    } else {
      var c := Connection(net[0], net[k], 1.0);
      assert StarOf(net)[k - 1] == c;
      StarContents(nets, c);
      var i :| 0 <= i < |all| && all[i] == c;
      assert Linked(all, net[0], net[k]) && Linked(all, net[k], net[0]);
      JoinedStep(rel, net[0], net[k]);
      JoinedStep(rel, net[k], net[0]);
    }
  }

  lemma SharesJoined(nets: seq<seq<Ref>>, a: Ref, b: Ref)
    requires ShareNet(nets, a, b)
    ensures Joined((x, y) => Linked(StarOfAll(nets), x, y), a, b)
  {
    var n :| 0 <= n < |nets| && a in nets[n] && b in nets[n];
    var i :| 0 <= i < |nets[n]| && nets[n][i] == a;
    var j :| 0 <= j < |nets[n]| && nets[n][j] == b;
    PinJoinsAnchor(nets, n, i);
    PinJoinsAnchor(nets, n, j);
    JoinedTrans((x, y) => Linked(StarOfAll(nets), x, y), a, nets[n][0], b);
  }

  /** Two components are joined by a path of connections exactly when they are joined by a chain of nets. */
  lemma ConnectivityKept(nets: seq<seq<Ref>>, a: Ref, b: Ref)
    ensures Joined((x, y) => Linked(StarOfAll(nets), x, y), a, b) <==> Joined((x, y) => ShareNet(nets, x, y), a, b)
  {
    var linked := (x, y) => Linked(StarOfAll(nets), x, y);
    var shares := (x, y) => ShareNet(nets, x, y);
    if Joined(linked, a, b) {
      var path :| IsPath(path, linked, a, b);
      forall x, y | linked(x, y) ensures Joined(shares, x, y) {
        LinkedShares(nets, x, y);
        JoinedStep(shares, x, y);
      }
      PathCarriesOver(path, linked, shares, a, b);
    }
    if Joined(shares, a, b) {
      var path :| IsPath(path, shares, a, b);
      forall x, y | shares(x, y) ensures Joined(linked, x, y) {
        SharesJoined(nets, x, y);
      }
      PathCarriesOver(path, shares, linked, a, b);
    }
  }

  // ----- the conversion -------------------------------------------------------------------

  /** The reference recorded last for a part. */
  function RefOf(parts: seq<Part>, id: PartId): Ref {
    if parts == [] then ""
    else if parts[|parts| - 1].id == id then parts[|parts| - 1].ref
    else RefOf(parts[..|parts| - 1], id)
  }

  predicate Known(parts: seq<Part>, id: PartId) { exists i :: 0 <= i < |parts| && parts[i].id == id }

  function NetRefs(parts: seq<Part>, net: Net): seq<Ref> { seq(|net|, i requires 0 <= i < |net| => RefOf(parts, net[i])) }

  function AllNetRefs(parts: seq<Part>, nets: seq<Net>): seq<seq<Ref>> {
    seq(|nets|, i requires 0 <= i < |nets| => NetRefs(parts, nets[i]))
  }

  /** The dictionary from identities to references. */
  ghost predicate Indexes(index: map<PartId, Ref>, parts: seq<Part>) {
    forall id :: (id in index <==> Known(parts, id)) && (id in index ==> index[id] == RefOf(parts, id))
  }

  predicate Placeable(parts: seq<Part>, sizes: map<string, Size>) {
    forall i :: 0 <= i < |parts| ==> parts[i].footprint in sizes
  }

  predicate NetKnown(parts: seq<Part>, net: Net) {
    |net| >= 2 ==> forall i :: 0 <= i < |net| ==> Known(parts, net[i])
  }

  lemma IndexStep(index: map<PartId, Ref>, parts: seq<Part>, n: nat)
    requires n < |parts| && Indexes(index, parts[..n])
    ensures Indexes(index[parts[n].id := parts[n].ref], parts[..n + 1])
  {
    var before, after := parts[..n], parts[..n + 1];
    assert after[..n] == before && after[n] == parts[n];
    forall id
      ensures Known(after, id) <==> Known(before, id) || id == parts[n].id
    {
      assert forall i :: 0 <= i < n ==> after[i] == before[i];
    }
  }

  /** The first loop: one component for each part, and the index. */
  method Components(parts: seq<Part>, sizes: map<string, Size>)
      returns (ok: bool, components: seq<Component>, index: map<PartId, Ref>)
    ensures ok <==> Placeable(parts, sizes)
    ensures ok ==> Indexes(index, parts) && |components| == |parts|
    ensures ok ==> forall i :: 0 <= i < |parts| ==> components[i] == Component(parts[i].ref, sizes[parts[i].footprint])
  {
    components, index := [], map[];
    assert parts[..0] == [];
    for n := 0 to |parts|
      invariant Placeable(parts[..n], sizes) && Indexes(index, parts[..n]) && |components| == n
      invariant forall i :: 0 <= i < n ==> components[i] == Component(parts[i].ref, sizes[parts[i].footprint])
    {
      var part := parts[n];
      assert parts[..n + 1][n] == part;
      if part.footprint !in sizes { return false, components, index; }
      IndexStep(index, parts, n);
      components := components + [Component(part.ref, sizes[part.footprint])];
      index := index[part.id := part.ref];
    }
    assert parts[..|parts|] == parts;
    ok := true;
  }

  /** The inner loop over the pins after the anchor. */
  method Connections(net: Net, index: map<PartId, Ref>, ghost parts: seq<Part>)
      returns (ok: bool, connections: seq<Connection>)
    requires Indexes(index, parts)
    ensures ok <==> NetKnown(parts, net)
    ensures ok ==> connections == StarOf(NetRefs(parts, net))
  {
    connections := [];
    if |net| < 2 { return true, connections; }
    ghost var refs := NetRefs(parts, net);
    var anchor := net[0];
    var i := 1;
    while i < |net|
      invariant 1 <= i <= |net| && connections == StarOf(refs[..i])
      invariant forall k :: (0 < k < i || (k == 0 && i > 1)) ==> Known(parts, net[k])
    {
      if anchor !in index || net[i] !in index { return false, connections; }
      connections := connections + [Connection(index[anchor], index[net[i]], 1.0)];
      assert StarOf(refs[..i + 1]) == StarOf(refs[..i]) + [Connection(refs[0], refs[i], 1.0)];
      i := i + 1;
    }
    assert refs[..i] == refs;
    ok := true;
  }

  /** `skidl_to_placement_problem`: one component for each part in order, and the stars of all nets; a
      missing footprint is reported before an unknown part. */
  method Convert(parts: seq<Part>, nets: seq<Net>, sizes: map<string, Size>) returns (r: Result)
    ensures r.MissingFootprint? <==> !Placeable(parts, sizes)
    ensures r.UnknownPart? <==> Placeable(parts, sizes) && !forall n :: 0 <= n < |nets| ==> NetKnown(parts, nets[n])
    ensures r.Problem? ==> |r.components| == |parts|
    ensures r.Problem? ==>
              forall i :: 0 <= i < |parts| ==> r.components[i] == Component(parts[i].ref, sizes[parts[i].footprint])
    ensures r.Problem? ==> r.connections == StarOfAll(AllNetRefs(parts, nets))
  {
    var ok, components, index := Components(parts, sizes);
    if !ok { return MissingFootprint; }
    hide Indexes, NetKnown, StarOf, NetRefs;
    var connections := [];
    ghost var refs := AllNetRefs(parts, nets);
    assert refs[..0] == [];
    for n := 0 to |nets|
      invariant connections == StarOfAll(refs[..n])
      invariant forall i :: 0 <= i < n ==> NetKnown(parts, nets[i])
    {
      var star;
      ok, star := Connections(nets[n], index, parts);
      if !ok { return UnknownPart; }
      assert refs[..n + 1][..n] == refs[..n];
      connections := connections + star;
    }
    assert refs[..|nets|] == refs;
    return Problem(components, connections);
  }
}
