/**
 * Layer depth of a node (`get_dependency_count`): the length of its longest path of included
 * connections, where a path stops at the first output it meets; an edge into any other node,
 * even one that reaches no output, counts as one step more than that node's depth. Also the loop that assigns a depth to every hidden entry and
 * accumulates `maxLayers`.
 */
module Layers {
  import opened Genome

  /**
   * `rank` strictly decreases along every included connection whose target is not an output.
   * The depth recursion follows exactly those connections and has no cycle guard, so this
   * acyclicity witness is what makes it end; `rank` plays no part in the value computed.
   */
  predicate RankedBy(conns: seq<Connection>, outputs: seq<string>, showDisabled: bool, rank: string -> nat) {
    forall c :: c in conns && Included(c, showDisabled) && c.dst !in outputs ==> rank(c.dst) < rank(c.src)
  }

  function Max(a: nat, b: nat): nat {
    if a < b then b else a
  }

  /** What one included outgoing connection offers its source: 1 for an output target, else one more than the target's depth. */
  function Contribution(c: Connection, conns: seq<Connection>, outputs: seq<string>, showDisabled: bool, ghost rank: string -> nat): nat
    requires RankedBy(conns, outputs, showDisabled, rank)
    requires c in conns && Included(c, showDisabled)
    decreases rank(c.src), 0, 0
  {
    if c.dst in outputs then 1 else Depth(c.dst, conns, outputs, showDisabled, rank) + 1
  }

  /** `get_dependency_count`: the `maxOut` accumulated over all the genome's connections. */
  function Depth(key: string, conns: seq<Connection>, outputs: seq<string>, showDisabled: bool, ghost rank: string -> nat): nat
    requires RankedBy(conns, outputs, showDisabled, rank)
    decreases rank(key), 1, 0
  {
    MaxOut(key, conns, conns, outputs, showDisabled, rank)
  }

  /** The value of `maxOut` once the loop of `get_dependency_count` has visited the connections `cs`. */
  function MaxOut(key: string, cs: seq<Connection>, conns: seq<Connection>, outputs: seq<string>, showDisabled: bool,
                  ghost rank: string -> nat): nat
    requires RankedBy(conns, outputs, showDisabled, rank)
    requires forall c :: c in cs ==> c in conns
    decreases rank(key), 0, |cs|
  {
    if cs == [] then 0
    else
      var c := cs[|cs| - 1];
      var acc := MaxOut(key, cs[..|cs| - 1], conns, outputs, showDisabled, rank);
      if Included(c, showDisabled) && c.src == key then Max(Contribution(c, conns, outputs, showDisabled, rank), acc)
      else acc
  }

  /** `maxOut` is the largest contribution among the visited outgoing connections, or 0 when there is none. */
  lemma {:induction false} MaxOutIsMax(key: string, cs: seq<Connection>, conns: seq<Connection>, outputs: seq<string>,
                                       showDisabled: bool, rank: string -> nat)
    requires RankedBy(conns, outputs, showDisabled, rank)
    requires forall c :: c in cs ==> c in conns
    ensures forall c :: c in cs && Included(c, showDisabled) && c.src == key ==>
              Contribution(c, conns, outputs, showDisabled, rank) <= MaxOut(key, cs, conns, outputs, showDisabled, rank)
    ensures MaxOut(key, cs, conns, outputs, showDisabled, rank) == 0 <==>
              !exists c :: c in cs && Included(c, showDisabled) && c.src == key
    ensures MaxOut(key, cs, conns, outputs, showDisabled, rank) > 0 ==>
              exists c :: c in cs && Included(c, showDisabled) && c.src == key &&
                MaxOut(key, cs, conns, outputs, showDisabled, rank) == Contribution(c, conns, outputs, showDisabled, rank)
    decreases |cs|
  {
    if cs != [] {
      var p := cs[..|cs| - 1];
      assert cs == p + [cs[|cs| - 1]];
      MaxOutIsMax(key, p, conns, outputs, showDisabled, rank);
    }
  }

  /**
   * The depth of a node is 0 exactly when it has no included outgoing connection; otherwise it is
   * the largest contribution of its included outgoing connections (1 for an edge to an output,
   * one more than the target's depth for any other target, inputs included).
   */
  lemma DepthIsMax(key: string, conns: seq<Connection>, outputs: seq<string>, showDisabled: bool, rank: string -> nat)
    requires RankedBy(conns, outputs, showDisabled, rank)
    ensures Depth(key, conns, outputs, showDisabled, rank) == 0 <==> !IsSource(key, conns, showDisabled)
    ensures forall c :: c in conns && Included(c, showDisabled) && c.src == key ==>
              Contribution(c, conns, outputs, showDisabled, rank) <= Depth(key, conns, outputs, showDisabled, rank)
    ensures IsSource(key, conns, showDisabled) ==>
              exists c :: c in conns && Included(c, showDisabled) && c.src == key &&
                Depth(key, conns, outputs, showDisabled, rank) == Contribution(c, conns, outputs, showDisabled, rank)
  {
    MaxOutIsMax(key, conns, conns, outputs, showDisabled, rank);
  }

  /** Connections that are not included never affect a depth: the included ones alone give the same value. */
  lemma {:induction false} DepthIgnoresExcluded(key: string, conns: seq<Connection>, outputs: seq<string>,
                                                showDisabled: bool, rank: string -> nat)
    requires RankedBy(conns, outputs, showDisabled, rank)
    ensures RankedBy(IncludedConnections(conns, showDisabled), outputs, showDisabled, rank)
    ensures Depth(key, conns, outputs, showDisabled, rank) ==
            Depth(key, IncludedConnections(conns, showDisabled), outputs, showDisabled, rank)
    decreases rank(key), 1, 0
  {
    MaxOutIgnoresExcluded(key, conns, conns, outputs, showDisabled, rank);
  }

  lemma {:induction false} MaxOutIgnoresExcluded(key: string, cs: seq<Connection>, conns: seq<Connection>,
                                                 outputs: seq<string>, showDisabled: bool, rank: string -> nat)
    requires RankedBy(conns, outputs, showDisabled, rank)
    requires forall c :: c in cs ==> c in conns
    ensures RankedBy(IncludedConnections(conns, showDisabled), outputs, showDisabled, rank)
    ensures forall c :: c in IncludedConnections(cs, showDisabled) ==> c in IncludedConnections(conns, showDisabled)
    ensures MaxOut(key, cs, conns, outputs, showDisabled, rank) ==
            MaxOut(key, IncludedConnections(cs, showDisabled), IncludedConnections(conns, showDisabled), outputs, showDisabled, rank)
    decreases rank(key), 0, |cs|
  {
    var all := IncludedConnections(conns, showDisabled);
    if cs != [] {
      var c := cs[|cs| - 1];
      var p := cs[..|cs| - 1];
      MaxOutIgnoresExcluded(key, p, conns, outputs, showDisabled, rank);
      if Included(c, showDisabled) {
        var ic := IncludedConnections(cs, showDisabled);
        assert ic == IncludedConnections(p, showDisabled) + [c];
        assert ic[..|ic| - 1] == IncludedConnections(p, showDisabled);
        if c.src == key && c.dst !in outputs {
          DepthIgnoresExcluded(c.dst, conns, outputs, showDisabled, rank);
        }
      }
    }
  }

  /** Two genomes whose included connections agree give every node the same depth. */
  lemma DepthDependsOnlyOnIncluded(key: string, conns1: seq<Connection>, conns2: seq<Connection>, outputs: seq<string>,
                                   showDisabled: bool, rank: string -> nat)
    requires RankedBy(conns1, outputs, showDisabled, rank) && RankedBy(conns2, outputs, showDisabled, rank)
    requires IncludedConnections(conns1, showDisabled) == IncludedConnections(conns2, showDisabled)
    ensures Depth(key, conns1, outputs, showDisabled, rank) == Depth(key, conns2, outputs, showDisabled, rank)
  {
    DepthIgnoresExcluded(key, conns1, outputs, showDisabled, rank);
    DepthIgnoresExcluded(key, conns2, outputs, showDisabled, rank);
  }

  /** `maxLayers` is the largest depth among the hidden entries, and 0 when there are none. */
  predicate IsMaxDepth(maxLayers: nat, hidden: seq<HiddenEntry>) {
    (forall i :: 0 <= i < |hidden| ==> hidden[i].depth <= maxLayers) &&
    (if hidden == [] then maxLayers == 0 else exists i :: 0 <= i < |hidden| && hidden[i].depth == maxLayers)
  }

  /**
   * The `maxLayers` loop of `draw_network`: overwrite each entry's depth with its
   * `get_dependency_count` and keep the running maximum.
   */
  method AssignDepths(hidden: seq<HiddenEntry>, conns: seq<Connection>, outputs: seq<string>, showDisabled: bool,
                      ghost rank: string -> nat)
    returns (entries: seq<HiddenEntry>, maxLayers: nat)
    requires RankedBy(conns, outputs, showDisabled, rank)
    ensures |entries| == |hidden|
    ensures forall i :: 0 <= i < |hidden| ==>
              entries[i] == HiddenEntry(hidden[i].key, Depth(hidden[i].key, conns, outputs, showDisabled, rank))
    ensures IsMaxDepth(maxLayers, entries)
  {
    entries := hidden;
    maxLayers := 0;
    if |entries| > 0 {
      for x := 0 to |entries|
        invariant |entries| == |hidden|
        invariant forall i :: 0 <= i < x ==>
                    entries[i] == HiddenEntry(hidden[i].key, Depth(hidden[i].key, conns, outputs, showDisabled, rank))
        invariant forall i :: x <= i < |hidden| ==> entries[i] == hidden[i]
        invariant forall i :: 0 <= i < x ==> entries[i].depth <= maxLayers
        invariant x == 0 ==> maxLayers == 0
        invariant x > 0 ==> exists i :: 0 <= i < x && entries[i].depth == maxLayers
      {
        var d := Depth(entries[x].key, conns, outputs, showDisabled, rank);
        entries := entries[x := HiddenEntry(entries[x].key, d)];
        maxLayers := Max(maxLayers, d);
      }
    }
  }
}
