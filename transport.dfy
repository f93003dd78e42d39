/**
 * The two loops both sides share: getNodes, which collects the ids of the
 * connected nodes into a HashSet, and the for loop that sends one message to
 * each of them. The platform calls (getConnectedNodes, sendMessage().await())
 * are replaced by the node list given as a parameter and by the returned list
 * of sends.
 */
module Transport {
  import opened Wrappers
  import opened Protocol

  /** One MessageApi.sendMessage(apiClient, node, path, payload). */
  datatype Send = Send(node: string, path: string, payload: seq<byte>)

  /** The distinct ids of a getConnectedNodes result; a null result has none. */
  function NodeIds(connected: Option<seq<string>>): set<string> {
    if connected.None? then {} else set n | n in connected.value
  }

  /** getNodes: the HashSet of node ids, or the empty set for a null result. */
  method ConnectedNodeIds(connected: Option<seq<string>>) returns (ids: set<string>)
    ensures ids == NodeIds(connected)
  {
    ids := {};
    if connected.None? {
      return;
    }
    var nodes := connected.value;
    for i := 0 to |nodes|
      invariant ids == set n | n in nodes[..i]
    {
      assert nodes[..i + 1] == nodes[..i] + [nodes[i]];
      ids := ids + {nodes[i]};
    }
    assert nodes[..|nodes|] == nodes;
  }

  /** The nodes a list of sends goes to. */
  function Recipients(sent: seq<Send>): set<string> {
    set i | 0 <= i < |sent| :: sent[i].node
  }

  lemma RecipientsAppend(sent: seq<Send>, s: Send)
    ensures Recipients(sent + [s]) == Recipients(sent) + {s.node}
  {
    var all := sent + [s];
    forall n ensures n in Recipients(all) <==> n in Recipients(sent) + {s.node} {
      if n in Recipients(all) {
        var i :| 0 <= i < |all| && all[i].node == n;
        if i < |sent| { assert sent[i].node == n; }
      }
      if n in Recipients(sent) {
        var i :| 0 <= i < |sent| && sent[i].node == n;
        assert all[i].node == n;
      }
      if n == s.node {
        assert all[|sent|].node == n;
      }
    }
  }

  /**
   * `sent` holds exactly one message per id in `nodes` (no node twice, every
   * node once), each under this path with this payload.
   */
  ghost predicate IsBroadcast(sent: seq<Send>, nodes: set<string>, path: string, payload: seq<byte>) {
    (forall i :: 0 <= i < |sent| ==> sent[i].path == path && sent[i].payload == payload)
    && (forall i, j :: 0 <= i < j < |sent| ==> sent[i].node != sent[j].node)
    && Recipients(sent) == nodes
  }

  /** The send loop: one message per node, in the set's (unspecified) iteration order. */
  method Broadcast(nodes: set<string>, path: string, payload: seq<byte>) returns (sent: seq<Send>)
    ensures IsBroadcast(sent, nodes, path, payload)
  {
    sent := [];
    var pending := nodes;
    while pending != {}
      invariant pending <= nodes
      invariant forall i :: 0 <= i < |sent| ==> sent[i].path == path && sent[i].payload == payload
      invariant forall i, j :: 0 <= i < j < |sent| ==> sent[i].node != sent[j].node
      invariant Recipients(sent) == nodes - pending
      decreases pending
    {
      var n :| n in pending;
      RecipientsAppend(sent, Send(n, path, payload));
      sent := sent + [Send(n, path, payload)];
      pending := pending - {n};
    }
  }

  lemma {:induction false} DistinctRecipients(sent: seq<Send>)
    requires forall i, j :: 0 <= i < j < |sent| ==> sent[i].node != sent[j].node
    ensures |Recipients(sent)| == |sent|
  {
    if sent != [] {
      var init := sent[..|sent| - 1];
      var last := sent[|sent| - 1];
      DistinctRecipients(init);
      assert sent == init + [last];
      RecipientsAppend(init, last);
      assert forall i :: 0 <= i < |init| ==> init[i].node != last.node;
    }
  }

  /** A broadcast sends exactly as many messages as there are distinct nodes. */
  lemma BroadcastCount(sent: seq<Send>, nodes: set<string>, path: string, payload: seq<byte>)
    requires IsBroadcast(sent, nodes, path, payload)
    ensures |sent| == |nodes|
  {
    DistinctRecipients(sent);
  }

  /** No connected nodes (a null or empty result): nothing is sent. */
  lemma NoNodesNoSends(sent: seq<Send>, connected: Option<seq<string>>, path: string, payload: seq<byte>)
    requires IsBroadcast(sent, NodeIds(connected), path, payload)
    requires connected.None? || connected.value == []
    ensures sent == []
  {
    assert NodeIds(connected) == {};
    assert sent != [] ==> sent[0].node in Recipients(sent);
  }
}
