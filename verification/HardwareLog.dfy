/** The memory of what was explained about missing hardware (internal/powerscale/collector.go). */
module HardwareLog {
  import opened Wrappers
  import opened Paths
  import opened Inventory
  import opened MissingHardware

  // The program joins cluster and message by NUL.
  type Entry = (string, Explanation)

  function EntryOf(cluster: string, nodes: seq<Node>): Entry {
    (cluster, ExplanationOf(nodes))
  }

  // There is something to say, and it has not been said of this cluster.
  predicate IsNews(explained: set<Entry>, e: Entry) {
    !e.1.NothingMissing? && e !in explained
  }

  lemma NoNodesNothingMissing(nodes: seq<Node>)
    requires |nodes| == 0
    ensures ExplanationOf(nodes) == NothingMissing
  {
  }

  class Explainer {
    var explained: set<Entry>

    constructor ()
      ensures explained == {}
    {
      explained := {};
    }

    /** Logs the explanation of the nodes' missing hardware unless this very message was logged for the cluster before. */
    method ExplainOnce(cluster: string, nodes: seq<Node>) returns (logged: Option<Explanation>)
      modifies this
      ensures var e := EntryOf(cluster, nodes);
              && logged == (if IsNews(old(explained), e) then Some(e.1) else None)
              && explained == old(explained) + (if IsNews(old(explained), e) then {e} else {})
    {
      if |nodes| == 0 {
        NoNodesNothingMissing(nodes);
        return None;
      }
      var message := ExplainMissingHardware(nodes);
      if message.NothingMissing? {
        return None;
      }
      var e := (cluster, message);
      if e in explained {
        return None;
      }
      explained := explained + {e};
      return Some(message);
    }
  }

  // What is logged over the reports of a run, of whatever clusters, in whatever order they come.
  function Logged(entries: seq<Entry>): seq<Entry> {
    if entries == [] then []
    else
      var before, e := Logged(entries[..|entries| - 1]), entries[|entries| - 1];
      if IsNews(Explained(entries[..|entries| - 1]), e) then before + [e] else before
  }

  function Explained(entries: seq<Entry>): set<Entry> {
    if entries == [] then {}
    else
      var before, e := Explained(entries[..|entries| - 1]), entries[|entries| - 1];
      if IsNews(before, e) then before + {e} else before
  }

  lemma {:induction false} ExplainedIsLogged(entries: seq<Entry>)
    ensures forall e :: e in Explained(entries) <==> e in Logged(entries)
    ensures forall e :: e in Logged(entries) <==> e in entries && !e.1.NothingMissing?
  {
    if entries != [] {
      var rest, last := entries[..|entries| - 1], entries[|entries| - 1];
      ExplainedIsLogged(rest);
      assert entries == rest + [last];
    }
  }

  /** Over any run of reports each message is logged once for its cluster: everything there is to explain is, a cluster
  whose hardware changes is explained anew, and a state that comes back is not explained again. */
  lemma {:induction false} EachMessageOnce(entries: seq<Entry>)
    ensures NoDuplicates(Logged(entries))
    ensures forall e :: e in Logged(entries) <==> e in entries && !e.1.NothingMissing?
  {
    ExplainedIsLogged(entries);
    if entries != [] {
      EachMessageOnce(entries[..|entries| - 1]);
      ExplainedIsLogged(entries[..|entries| - 1]);
    }
  }

  /** A call adds to the log what the reports up to it say should be added. */
  lemma CallFollowsTheLog(entries: seq<Entry>, e: Entry)
    ensures Explained(entries + [e]) == Explained(entries) + (if IsNews(Explained(entries), e) then {e} else {})
    ensures Logged(entries + [e]) == Logged(entries) + if IsNews(Explained(entries), e) then [e] else []
  {
    assert (entries + [e])[..|entries|] == entries;
  }
}
