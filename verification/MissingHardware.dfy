/** The explanation of missing hardware sensors (internal/powerscale/collector.go, internal/models/onefs.go). */
module MissingHardware {
  import opened Wrappers
  import opened TextAsWritten
  import opened Inventory
  import opened NodeHardware

  // The message to the operator; identity is that of the first virtual node.
  datatype Explanation =
    | NothingMissing
    | Silent(lnns: seq<int>, total: nat)
    | Virtual(count: nat, total: nat, series: string, hwgen: string, product: string)

  function SilentNodes(nodes: seq<Node>): seq<Node> {
    if nodes == [] then []
    else
      var n := nodes[|nodes| - 1];
      SilentNodes(nodes[..|nodes| - 1]) + if n.ReportsHardwareSensors() then [] else [n]
  }

  function Lnns(nodes: seq<Node>): seq<int> {
    seq(|nodes|, i requires 0 <= i < |nodes| => nodes[i].lnn)
  }

  predicate AllVirtual(nodes: seq<Node>) {
    forall i :: 0 <= i < |nodes| ==> nodes[i].VirtualHardware()
  }

  // What there is to explain: the silent nodes, by number or, if all are virtual, by their count and the first's identity.
  function ExplanationOf(nodes: seq<Node>): Explanation {
    var silent := SilentNodes(nodes);
    if silent == [] then NothingMissing
    else if !AllVirtual(silent) then Silent(Lnns(silent), |nodes|)
    else Virtual(|silent|, |nodes|, silent[0].series, silent[0].hwgen, silent[0].product)
  }

  // No reading: no power supply, temperature or fan.
  predicate ReadsNothing(n: Node) {
    n.powerSupplies <= 0 && |n.temperatures| == 0 && |n.fans| == 0
  }

  // The series is virtual_series in whatever case, or vmware stands in the hardware generation in whatever case.
  ghost predicate SaysVirtual(n: Node) {
    FoldsToWord(n.series, "virtual_series") || exists i: nat :: WordAt(n.hwgen, i, "vmware")
  }

  lemma VirtualAsWritten(n: Node)
    ensures n.VirtualHardware() <==> SaysVirtual(n)
  {
    FoldAsWritten(n.series, "virtual_series");
    HasInfixAsWritten(n.hwgen, "vmware");
  }

  // `at` lists the positions of the nodes without a reading, in order.
  ghost predicate ReadNothingAt(nodes: seq<Node>, at: seq<nat>) {
    && (forall a, b :: 0 <= a < b < |at| ==> at[a] < at[b])
    && (forall a :: 0 <= a < |at| ==> at[a] < |nodes| && ReadsNothing(nodes[at[a]]))
    && forall i :: 0 <= i < |nodes| && ReadsNothing(nodes[i]) ==> i in at
  }

  /** What the operator is told: nothing where every node has a reading; that the hardware is virtual where every node
  without one says so, with their number and the first one's identity; and else their logical numbers, in order. */
  ghost predicate Tells(nodes: seq<Node>, at: seq<nat>, r: Explanation) {
    && ReadNothingAt(nodes, at)
    && (r.NothingMissing? <==> at == [])
    && (r.Virtual? <==> at != [] && forall a :: 0 <= a < |at| ==> SaysVirtual(nodes[at[a]]))
    && (r.Silent? ==> |r.lnns| == |at| && r.total == |nodes| && forall a :: 0 <= a < |at| ==> r.lnns[a] == nodes[at[a]].lnn)
    && (r.Virtual? ==>
          r == Virtual(|at|, |nodes|, nodes[at[0]].series, nodes[at[0]].hwgen, nodes[at[0]].product))
  }

  // The nodes picked are those at the positions.
  ghost predicate PicksAt(picked: seq<Node>, nodes: seq<Node>, at: seq<nat>) {
    |picked| == |at| && forall a :: 0 <= a < |at| ==> at[a] < |nodes| && picked[a] == nodes[at[a]]
  }

  lemma OneMorePosition(nodes: seq<Node>, n: Node, at: seq<nat>)
    requires ReadNothingAt(nodes, at)
    ensures ReadNothingAt(nodes + [n], if ReadsNothing(n) then at + [|nodes|] else at)
  {
    var all, more := nodes + [n], if ReadsNothing(n) then at + [|nodes|] else at;
    assert forall i :: 0 <= i < |nodes| ==> all[i] == nodes[i];
    forall i | 0 <= i < |all| && ReadsNothing(all[i]) ensures i in more {
      if i == |nodes| {
        assert more[|at|] == i;
      }
    }
  }

  lemma OneMorePick(picked: seq<Node>, nodes: seq<Node>, n: Node, at: seq<nat>, pick: bool)
    requires PicksAt(picked, nodes, at)
    ensures PicksAt(if pick then picked + [n] else picked, nodes + [n], if pick then at + [|nodes|] else at)
  {
  }

  lemma SilentSnoc(nodes: seq<Node>, n: Node)
    ensures SilentNodes(nodes + [n]) == if ReadsNothing(n) then SilentNodes(nodes) + [n] else SilentNodes(nodes)
  {
    assert (nodes + [n])[..|nodes|] == nodes;
  }

  ghost predicate SilentAt(nodes: seq<Node>, at: seq<nat>) {
    ReadNothingAt(nodes, at) && PicksAt(SilentNodes(nodes), nodes, at)
  }

  lemma OneMoreSilent(nodes: seq<Node>, n: Node, before: seq<nat>) returns (at: seq<nat>)
    requires SilentAt(nodes, before)
    ensures SilentAt(nodes + [n], at)
  {
    at := if ReadsNothing(n) then before + [|nodes|] else before;
    SilentSnoc(nodes, n);
    OneMorePosition(nodes, n, before);
    OneMorePick(SilentNodes(nodes), nodes, n, before, ReadsNothing(n));
  }

  lemma {:induction false} SilentPositions(nodes: seq<Node>) returns (at: seq<nat>)
    ensures SilentAt(nodes, at)
  {
    at := [];
    if nodes != [] {
      var rest, n := nodes[..|nodes| - 1], nodes[|nodes| - 1];
      var before := SilentPositions(rest);
      at := OneMoreSilent(rest, n, before);
      assert rest + [n] == nodes;
    }
  }

  lemma ExplanationAsWritten(nodes: seq<Node>) returns (at: seq<nat>)
    ensures Tells(nodes, at, ExplanationOf(nodes))
  {
    at := SilentPositions(nodes);
    var silent := SilentNodes(nodes);
    forall a | 0 <= a < |at| ensures silent[a].VirtualHardware() <==> SaysVirtual(nodes[at[a]]) {
      VirtualAsWritten(nodes[at[a]]);
    }
  }

  // Some node is without a reading, and every such node says that it is virtual.
  ghost predicate AllSilentSayVirtual(nodes: seq<Node>) {
    && (exists i :: 0 <= i < |nodes| && ReadsNothing(nodes[i]))
    && forall i :: 0 <= i < |nodes| && ReadsNothing(nodes[i]) ==> SaysVirtual(nodes[i])
  }

  lemma VirtualExactly(nodes: seq<Node>, at: seq<nat>, r: Explanation)
    requires Tells(nodes, at, r)
    ensures r.Virtual? <==> AllSilentSayVirtual(nodes)
  {
    if at != [] {
      assert ReadsNothing(nodes[at[0]]);
    }
  }

  ghost predicate ToldInOrder(nodes: seq<Node>, r: Explanation) {
    exists at :: Tells(nodes, at, r)
  }

  lemma ExplanationTells(nodes: seq<Node>, r: Explanation)
    requires r == ExplanationOf(nodes)
    ensures r.Virtual? <==> AllSilentSayVirtual(nodes)
    ensures ToldInOrder(nodes, r)
  {
    var at := ExplanationAsWritten(nodes);
    VirtualExactly(nodes, at, r);
  }

  // The nodes without a reading, how many of them are virtual, and the first one's identity.
  method FindSilent(nodes: seq<Node>) returns (silent: seq<int>, virtual: nat, identity: Option<(string, string, string)>)
    ensures silent == Lnns(SilentNodes(nodes))
    ensures virtual <= |silent| && (virtual == |silent| <==> AllVirtual(SilentNodes(nodes)))
    ensures virtual == |silent| > 0 ==>
              var first := SilentNodes(nodes)[0];
              identity == Some((first.series, first.hwgen, first.product))
  {
    silent, virtual, identity := [], 0, None;
    for i := 0 to |nodes|
      invariant silent == Lnns(SilentNodes(nodes[..i]))
      invariant virtual <= |silent| && (virtual == |silent| <==> AllVirtual(SilentNodes(nodes[..i])))
      invariant identity.None? <==> virtual == 0
      invariant virtual == |silent| > 0 ==>
                  var first := SilentNodes(nodes[..i])[0];
                  identity == Some((first.series, first.hwgen, first.product))
    {
      assert nodes[..i + 1][..i] == nodes[..i];
      var n := nodes[i];
      ghost var before := SilentNodes(nodes[..i]);
      if n.ReportsHardwareSensors() {
        assert SilentNodes(nodes[..i + 1]) == before;
        continue;
      }
      assert SilentNodes(nodes[..i + 1]) == before + [n];
      assert AllVirtual(before + [n]) <==> AllVirtual(before) && n.VirtualHardware() by {
        assert (before + [n])[|before|] == n;
        assert forall k :: 0 <= k < |before| ==> (before + [n])[k] == before[k];
      }
      silent := silent + [n.lnn];
      if n.VirtualHardware() {
        virtual := virtual + 1;
        if identity.None? {
          identity := Some((n.series, n.hwgen, n.product));
        }
      }
    }
    assert nodes[..|nodes|] == nodes;
  }

  method ExplainMissingHardware(nodes: seq<Node>) returns (r: Explanation)
    ensures r.Virtual? <==> AllSilentSayVirtual(nodes)
    ensures ToldInOrder(nodes, r)
    ensures r == ExplanationOf(nodes)
    ensures r.NothingMissing? <==> SilentNodes(nodes) == []
    ensures r.Silent? <==> !AllVirtual(SilentNodes(nodes))
    ensures r.Silent? ==> r.lnns == Lnns(SilentNodes(nodes)) && r.total == |nodes|
    ensures r.Virtual? ==>
              var first := SilentNodes(nodes)[0];
              r == Virtual(|SilentNodes(nodes)|, |nodes|, first.series, first.hwgen, first.product)
  {
    var silent, virtual, identity := FindSilent(nodes);
    ExplanationTells(nodes, ExplanationOf(nodes));
    if |silent| == 0 {
      return NothingMissing;
    }
    if virtual == |silent| {
      var (series, hwgen, product) := identity.value;
      return Virtual(virtual, |nodes|, series, hwgen, product);
    }
    return Silent(silent, |nodes|);
  }

  lemma {:induction false} SilentExactly(nodes: seq<Node>, n: Node)
    ensures n in SilentNodes(nodes) <==> n in nodes && !n.ReportsHardwareSensors()
  {
    if nodes != [] {
      SilentExactly(nodes[..|nodes| - 1], n);
      assert nodes == nodes[..|nodes| - 1] + [nodes[|nodes| - 1]];
    }
  }

  /** The nodes the explanation counts are exactly those whose samples include no reading, so it is
  empty exactly when every node yields one. */
  lemma ExplanationTellsTheTruth(c: string, id: string, nodes: seq<Node>)
    ensures forall n :: n in SilentNodes(nodes) <==> n in nodes && !EmitsReading(c, id, n)
    ensures SilentNodes(nodes) == [] <==> forall n :: n in nodes ==> EmitsReading(c, id, n)
  {
    forall n ensures n in SilentNodes(nodes) <==> n in nodes && !EmitsReading(c, id, n) {
      SilentExactly(nodes, n);
      ReportsExactlyWhenEmitting(c, id, n);
    }
    if SilentNodes(nodes) != [] {
      assert SilentNodes(nodes)[0] in SilentNodes(nodes);
    }
  }
}
