/**
 * `draw_network`: partition the nodes, size the circles, assign layer depths, drop inactive
 * inputs, then emit one line per included connection followed by one circle per node.
 * The pygame surface is replaced by the list of draw commands it would receive.
 */
module Drawing {
  import opened Wrappers
  import opened Genome
  import opened Layers
  import opened Positions
  import opened Colours

  /** The draw calls: `pygame.draw.aaline(screen, colour, from, to)` and `pygame.draw.circle(screen, colour, centre, radius)`. */
  datatype Command = Line(from: Point, to: Point, colour: Colour) | Circle(centre: Point, radius: int, colour: Colour)

  /**
   * How `draw_network` fails: an integer division by an empty list's length, or a draw call
   * given the `None` that `get_position` returns for a key in no list (pygame raises a TypeError).
   */
  datatype DrawError = ZeroDivisionError | MissingPosition

  /**
   * The three append loops: the configured input and output keys, then every genome node key
   * that is in neither list, in genome order, each with depth 0.
   */
  method Partition(inputKeys: seq<string>, outputKeys: seq<string>, nodeKeys: seq<string>)
    returns (inputs: seq<string>, outputs: seq<string>, hidden: seq<HiddenEntry>)
    ensures inputs == inputKeys && outputs == outputKeys
    ensures HiddenKeys(hidden) == Without(nodeKeys, inputKeys + outputKeys)
    ensures forall i :: 0 <= i < |hidden| ==> hidden[i].depth == 0
  {
    inputs := [];
    for x := 0 to |inputKeys|
      invariant inputs == inputKeys[..x]
    {
      inputs := inputs + [inputKeys[x]];
    }
    outputs := [];
    for x := 0 to |outputKeys|
      invariant outputs == outputKeys[..x]
    {
      outputs := outputs + [outputKeys[x]];
    }
    assert inputs == inputKeys && outputs == outputKeys;
    hidden := [];
    for j := 0 to |nodeKeys|
      invariant HiddenKeys(hidden) == Without(nodeKeys[..j], inputs + outputs)
      invariant forall i :: 0 <= i < |hidden| ==> hidden[i].depth == 0
    {
      var n := nodeKeys[j];
      assert nodeKeys[..j + 1][..j] == nodeKeys[..j];
      if n in inputs || n in outputs {
        continue;
      }
      assert HiddenKeys(hidden + [HiddenEntry(n, 0)]) == HiddenKeys(hidden) + [n];
      hidden := hidden + [HiddenEntry(n, 0)];
    }
    assert nodeKeys[..|nodeKeys|] == nodeKeys;
  }

  /**
   * The input filter used when disabled connections are hidden: collect the source of every
   * included connection, then intersect the inputs with them through a set. The set's
   * iteration order is not modelled; the list built here has no duplicates and holds exactly
   * the inputs that are sources.
   */
  method ActiveInputs(inputs: seq<string>, conns: seq<Connection>, showDisabled: bool) returns (active: seq<string>)
    ensures NoDup(active)
    ensures forall k :: k in active <==> k in inputs && IsSource(k, conns, showDisabled)
  {
    var sources := [];
    for j := 0 to |conns|
      invariant forall k :: k in sources <==> exists c :: c in conns[..j] && Included(c, showDisabled) && c.src == k
    {
      assert conns[..j + 1] == conns[..j] + [conns[j]];
      if Included(conns[j], showDisabled) {
        sources := sources + [conns[j].src];
      }
    }
    assert conns[..|conns|] == conns;
    active := [];
    for i := 0 to |inputs|
      invariant NoDup(active)
      invariant forall k :: k in active <==> k in inputs[..i] && k in sources
    {
      assert inputs[..i + 1] == inputs[..i] + [inputs[i]];
      if inputs[i] in sources && inputs[i] !in active {
        active := active + [inputs[i]];
      }
    }
    assert inputs[..|inputs|] == inputs;
  }

  /** The edge loop: one line per included connection, or `None` once an endpoint has no position. */
  function EdgeLines(cs: seq<Connection>, showDisabled: bool, L: Layout, colors: Palette): Option<seq<Command>> {
    if cs == [] then Some([])
    else
      var c := cs[|cs| - 1];
      match EdgeLines(cs[..|cs| - 1], showDisabled, L, colors)
      case None => None
      case Some(lines) =>
        if !Included(c, showDisabled) then Some(lines)
        else
          match (Position(c.src, L), Position(c.dst, L))
          case (Some(a), Some(b)) => Some(lines + [Line(a, b, EdgeColour(c.enabled, c.weight, colors))])
          case _ => None
  }

  lemma {:induction false} EdgeLinesFailureSticks(cs: seq<Connection>, i: nat, showDisabled: bool, L: Layout, colors: Palette)
    requires i <= |cs| && EdgeLines(cs[..i], showDisabled, L, colors).None?
    ensures EdgeLines(cs, showDisabled, L, colors).None?
  {
    if i < |cs| {
      assert cs[..|cs| - 1][..i] == cs[..i];
      EdgeLinesFailureSticks(cs[..|cs| - 1], i, showDisabled, L, colors);
    } else {
      assert cs[..i] == cs;
    }
  }

  /**
   * The edge loop succeeds exactly when both endpoints of every included connection have a
   * position; it then draws one line per included connection, in order, from the position of
   * its source to the position of its target, coloured by its weight (gray when disabled).
   */
  lemma {:induction false} EdgeLinesMeaning(cs: seq<Connection>, showDisabled: bool, L: Layout, colors: Palette)
    ensures EdgeLines(cs, showDisabled, L, colors).Some? <==>
              forall c :: c in cs && Included(c, showDisabled) ==> Position(c.src, L).Some? && Position(c.dst, L).Some?
    ensures EdgeLines(cs, showDisabled, L, colors).Some? ==>
              var ic := IncludedConnections(cs, showDisabled);
              var lines := EdgeLines(cs, showDisabled, L, colors).value;
              |lines| == |ic| &&
              forall i :: 0 <= i < |ic| ==>
                lines[i] == Line(Position(ic[i].src, L).value, Position(ic[i].dst, L).value,
                                 EdgeColour(ic[i].enabled, ic[i].weight, colors))
  {
    if cs != [] {
      var p := cs[..|cs| - 1];
      var c := cs[|cs| - 1];
      assert cs == p + [c];
      EdgeLinesMeaning(p, showDisabled, L, colors);
    }
  }

  function InputCircles(L: Layout): seq<Command>
    requires |L.inputs| > 0
  {
    seq(|L.inputs|, i requires 0 <= i < |L.inputs| => Circle(InputCentre(L, i), L.radius, White))
  }

  function OutputCircles(L: Layout): seq<Command>
    requires |L.outputs| > 0
  {
    seq(|L.outputs|, i requires 0 <= i < |L.outputs| => Circle(OutputCentre(L, i), L.radius, White))
  }

  function HiddenCircles(L: Layout): seq<Command>
  {
    seq(|L.hidden|, i requires 0 <= i < |L.hidden| => Circle(HiddenCentre(L, i), L.radius, White))
  }

  /** The node circles: inputs, then outputs, then hidden nodes, each list in order. */
  function NodeCircles(L: Layout): seq<Command>
    requires |L.inputs| > 0 && |L.outputs| > 0
  {
    InputCircles(L) + OutputCircles(L) + HiddenCircles(L)
  }

  /** The keys the node circles are drawn for, in drawing order. */
  function NodeOrder(L: Layout): seq<string> {
    L.inputs + L.outputs + HiddenKeys(L.hidden)
  }

  /** What the drawing phase produces from a layout: edges first, then nodes. */
  function Rendered(L: Layout, conns: seq<Connection>, showDisabled: bool, colors: Palette): Result<seq<Command>, DrawError>
    requires |L.outputs| > 0
  {
    match EdgeLines(conns, showDisabled, L, colors)
    case None => Err(MissingPosition)
    case Some(lines) => if |L.inputs| == 0 then Err(ZeroDivisionError) else Ok(lines + NodeCircles(L))
  }

  /** The layout `draw_network` has built by the time it starts drawing. */
  ghost predicate LaidOut(L: Layout, inputKeys: seq<string>, outputKeys: seq<string>, nodeKeys: seq<string>,
                          conns: seq<Connection>, width: nat, height: nat, showDisabled: bool, rank: string -> nat)
    requires RankedBy(conns, outputKeys, showDisabled, rank)
  {
    |inputKeys| > 0 && |outputKeys| > 0 &&
    L.width == width && L.height == height &&
    L.outputs == outputKeys &&
    // the radius is computed from the configured inputs, before any are dropped
    L.radius == Radius(width, height, |inputKeys|, |outputKeys|) &&
    (showDisabled ==> L.inputs == inputKeys) &&
    (!showDisabled ==> NoDup(L.inputs) && forall k :: k in L.inputs <==> k in inputKeys && IsSource(k, conns, false)) &&
    HiddenKeys(L.hidden) == Without(nodeKeys, inputKeys + outputKeys) &&
    (forall i :: 0 <= i < |L.hidden| ==>
       L.hidden[i].depth == Depth(L.hidden[i].key, conns, outputKeys, showDisabled, rank)) &&
    IsMaxDepth(L.maxLayers, L.hidden)
  }

  /** The edge loop of `draw_network`: the lines it draws, or `None` when a draw call would get no position. */
  method DrawEdges(conns: seq<Connection>, showDisabled: bool, L: Layout, colors: Palette) returns (lines: Option<seq<Command>>)
    ensures lines == EdgeLines(conns, showDisabled, L, colors)
  {
    var cmds := [];
    for j := 0 to |conns|
      invariant EdgeLines(conns[..j], showDisabled, L, colors) == Some(cmds)
    {
      var cg := conns[j];
      assert conns[..j + 1][..j] == conns[..j];
      if Included(cg, showDisabled) {
        var colour := if cg.enabled then Channels(ColorMix(colors, cg.weight)) else Gray;
        var aPos := Position(cg.src, L);
        var bPos := Position(cg.dst, L);
        if aPos.None? || bPos.None? {
          EdgeLinesFailureSticks(conns, j + 1, showDisabled, L, colors);
          return None;
        }
        cmds := cmds + [Line(aPos.value, bPos.value, colour)];
      }
    }
    assert conns[..|conns|] == conns;
    lines := Some(cmds);
  }

  /** The three circle loops of `draw_network`; the hidden loop runs only when there are hidden nodes. */
  method DrawNodes(L: Layout, outputCount: nat) returns (cmds: seq<Command>)
    requires |L.inputs| > 0 && |L.outputs| > 0 && outputCount == |L.outputs|
    ensures cmds == NodeCircles(L)
  {
    var r := L.radius;
    cmds := [];
    var offset := L.height / |L.inputs|;
    for x := 0 to |L.inputs|
      invariant cmds == InputCircles(L)[..x]
    {
      assert InputCircles(L)[..x + 1] == InputCircles(L)[..x] + [InputCircles(L)[x]];
      cmds := cmds + [Circle(Point(r, offset * x + offset / 2), r, White)];
    }
    assert InputCircles(L)[..|L.inputs|] == InputCircles(L);
    offset := L.height / outputCount;
    for x := 0 to |L.outputs|
      invariant cmds == InputCircles(L) + OutputCircles(L)[..x]
    {
      assert OutputCircles(L)[..x + 1] == OutputCircles(L)[..x] + [OutputCircles(L)[x]];
      cmds := cmds + [Circle(Point(L.width - r, offset * x + offset / 2), r, White)];
    }
    assert OutputCircles(L)[..|L.outputs|] == OutputCircles(L);
    ghost var drawn := cmds;
    if |L.hidden| > 0 {
      var offsetY := L.height / |L.hidden|;
      var offsetX := L.width / (L.maxLayers + 1);
      for x := 0 to |L.hidden|
        invariant cmds == drawn + HiddenCircles(L)[..x]
      {
        assert HiddenCircles(L)[..x + 1] == HiddenCircles(L)[..x] + [HiddenCircles(L)[x]];
        var k := L.hidden[x];
        cmds := cmds + [Circle(Point((L.maxLayers + 1 - k.depth) * offsetX, offsetY * x + offsetY / 2), r, White)];
      }
      assert HiddenCircles(L)[..|L.hidden|] == HiddenCircles(L);
    }
  }

  /**
   * `draw_network` on the configured input and output keys, the genome's node keys and its
   * connections. It fails with a division by zero when there are no inputs or no outputs;
   * otherwise it lays the network out as `LaidOut` describes and draws `Rendered` of that layout.
   */
  method DrawNetwork(inputKeys: seq<string>, outputKeys: seq<string>, nodeKeys: seq<string>, conns: seq<Connection>,
                     width: nat, height: nat, showDisabled: bool, colors: Option<Palette>, ghost rank: string -> nat)
    returns (res: Result<seq<Command>, DrawError>, ghost layout: Layout)
    requires RankedBy(conns, outputKeys, showDisabled, rank)
    ensures |inputKeys| == 0 || |outputKeys| == 0 ==> res == Err(ZeroDivisionError)
    ensures |inputKeys| > 0 && |outputKeys| > 0 ==>
              LaidOut(layout, inputKeys, outputKeys, nodeKeys, conns, width, height, showDisabled, rank) &&
              res == Rendered(layout, conns, showDisabled, PaletteOrDefault(colors))
  {
    var palette := PaletteOrDefault(colors);
    var inputs, outputs, hidden := Partition(inputKeys, outputKeys, nodeKeys);
    layout := Layout(inputs, outputs, hidden, width, height, 0, 0);
    if |inputs| == 0 || |outputs| == 0 {
      res := Err(ZeroDivisionError);
      return;
    }
    var r := Radius(width, height, |inputs|, |outputs|);
    var maxLayers;
    hidden, maxLayers := AssignDepths(hidden, conns, outputs, showDisabled, rank);
    if !showDisabled {
      inputs := ActiveInputs(inputs, conns, showDisabled);
    }
    var L := Layout(inputs, outputs, hidden, width, height, r, maxLayers);
    layout := L;

    var lines := DrawEdges(conns, showDisabled, L, palette);
    if lines.None? {
      res := Err(MissingPosition);
      return;
    }
    if |inputs| == 0 {
      res := Err(ZeroDivisionError);
      return;
    }
    var nodes := DrawNodes(L, |outputKeys|);
    res := Ok(lines.value + nodes);
  }

  /**
   * What the layout guarantees: hidden keys are neither inputs nor outputs (also after inputs are
   * dropped), the inputs used are configured inputs, duplicate-free lists stay duplicate-free, and
   * on a canvas of positive height the layout is well formed.
   */
  lemma LaidOutProperties(L: Layout, inputKeys: seq<string>, outputKeys: seq<string>, nodeKeys: seq<string>,
                          conns: seq<Connection>, width: nat, height: nat, showDisabled: bool, rank: string -> nat)
    requires RankedBy(conns, outputKeys, showDisabled, rank)
    requires LaidOut(L, inputKeys, outputKeys, nodeKeys, conns, width, height, showDisabled, rank)
    ensures forall k :: k in L.inputs ==> k in inputKeys
    ensures forall k :: k in HiddenKeys(L.hidden) ==> k !in L.inputs && k !in L.outputs && k in nodeKeys
    ensures NoDup(inputKeys) ==> NoDup(L.inputs)
    ensures NoDup(nodeKeys) ==> NoDup(HiddenKeys(L.hidden))
    ensures height > 0 ==> WellFormed(L)
  {
    if NoDup(nodeKeys) {
      WithoutNoDup(nodeKeys, inputKeys + outputKeys);
    }
  }

  predicate CommandInCanvas(cmd: Command, width: nat, height: nat) {
    match cmd
    case Line(a, b, _) => InCanvas(a, width, height) && InCanvas(b, width, height)
    case Circle(centre, radius, _) => InCanvas(centre, width, height) && 0 <= radius
  }

  /** On a well-formed layout every line endpoint and every circle centre lies in the canvas. */
  lemma RenderedInCanvas(L: Layout, conns: seq<Connection>, showDisabled: bool, colors: Palette)
    requires WellFormed(L) && |L.outputs| > 0
    ensures Rendered(L, conns, showDisabled, colors).Ok? ==>
              forall cmd :: cmd in Rendered(L, conns, showDisabled, colors).value ==> CommandInCanvas(cmd, L.width, L.height)
  {
    var edges := EdgeLines(conns, showDisabled, L, colors);
    if edges.Some? && |L.inputs| > 0 {
      EdgeLinesMeaning(conns, showDisabled, L, colors);
      var ic := IncludedConnections(conns, showDisabled);
      forall i | 0 <= i < |edges.value| ensures CommandInCanvas(edges.value[i], L.width, L.height) {
        assert ic[i] in conns;
        PositionInCanvas(ic[i].src, L);
        PositionInCanvas(ic[i].dst, L);
      }
      forall i | 0 <= i < |L.inputs| ensures CommandInCanvas(InputCircles(L)[i], L.width, L.height) {
        SlotInRange(i, |L.inputs|, L.height);
      }
      forall i | 0 <= i < |L.outputs| ensures CommandInCanvas(OutputCircles(L)[i], L.width, L.height) {
        SlotInRange(i, |L.outputs|, L.height);
      }
      forall i | 0 <= i < |L.hidden| ensures CommandInCanvas(HiddenCircles(L)[i], L.width, L.height) {
        SlotInRange(i, |L.hidden|, L.height);
        HiddenXInRange(L.hidden[i].depth, L.maxLayers, L.width);
      }
      var all := edges.value + NodeCircles(L);
      forall cmd | cmd in all ensures CommandInCanvas(cmd, L.width, L.height) {
        var i :| 0 <= i < |all| && all[i] == cmd;
        if i >= |edges.value| {
          var j := i - |edges.value|;
          assert cmd == NodeCircles(L)[j];
        }
      }
    }
  }

  /** Circle `i` sits where `get_position` puts key `i` of the drawing order, for lists without clashes. */
  lemma NodeCirclesAgree(L: Layout)
    requires |L.inputs| > 0 && |L.outputs| > 0
    requires NoDup(L.inputs) && NoDup(L.outputs) && NoDup(HiddenKeys(L.hidden))
    requires forall k :: k in L.outputs ==> k !in L.inputs
    requires forall k :: k in HiddenKeys(L.hidden) ==> k !in L.inputs && k !in L.outputs
    ensures |NodeCircles(L)| == |NodeOrder(L)|
    ensures forall i :: 0 <= i < |NodeOrder(L)| ==>
              NodeCircles(L)[i].Circle? && Position(NodeOrder(L)[i], L) == Some(NodeCircles(L)[i].centre)
  {
    CentresAgreeWithPositions(L);
    var keys := NodeOrder(L);
    var circles := NodeCircles(L);
    var ni, no := |L.inputs|, |L.outputs|;
    forall i | 0 <= i < ni ensures circles[i].Circle? && Position(keys[i], L) == Some(circles[i].centre) {
      assert keys[i] == L.inputs[i] && circles[i] == InputCircles(L)[i];
    }
    forall i | ni <= i < ni + no ensures circles[i].Circle? && Position(keys[i], L) == Some(circles[i].centre) {
      assert keys[i] == L.outputs[i - ni] && circles[i] == OutputCircles(L)[i - ni];
      assert L.outputs[i - ni] in L.outputs;
    }
    forall i | ni + no <= i < |keys| ensures circles[i].Circle? && Position(keys[i], L) == Some(circles[i].centre) {
      var j := i - ni - no;
      assert keys[i] == HiddenKeys(L.hidden)[j] && circles[i] == HiddenCircles(L)[j];
      assert HiddenKeys(L.hidden)[j] in HiddenKeys(L.hidden);
    }
  }

  /**
   * Node circles and edge endpoints agree: when the configured lists have no duplicates and no
   * key is both an input and an output, the circle drawn for each node sits exactly where
   * `get_position` places that node, which is where its edges start and end.
   */
  lemma CirclesAtPositions(L: Layout, inputKeys: seq<string>, outputKeys: seq<string>, nodeKeys: seq<string>,
                           conns: seq<Connection>, width: nat, height: nat, showDisabled: bool, rank: string -> nat)
    requires RankedBy(conns, outputKeys, showDisabled, rank)
    requires LaidOut(L, inputKeys, outputKeys, nodeKeys, conns, width, height, showDisabled, rank)
    requires NoDup(inputKeys) && NoDup(outputKeys) && NoDup(nodeKeys)
    requires forall k :: k in inputKeys ==> k !in outputKeys
    requires |L.inputs| > 0
    ensures |NodeCircles(L)| == |NodeOrder(L)|
    ensures forall i :: 0 <= i < |NodeOrder(L)| ==>
              NodeCircles(L)[i].Circle? && Position(NodeOrder(L)[i], L) == Some(NodeCircles(L)[i].centre)
  {
    LaidOutProperties(L, inputKeys, outputKeys, nodeKeys, conns, width, height, showDisabled, rank);
    NodeCirclesAgree(L);
  }
}
