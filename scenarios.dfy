/** Small networks worked through the whole pipeline. */
module Scenarios {
  import opened Wrappers
  import opened Genome
  import opened Layers
  import opened Positions
  import opened Colours
  import opened Drawing

  function ZeroRank(k: string): nat {
    0
  }

  /**
   * Inputs A and B, output C, one enabled connection A -> C of weight 2: one line from A's position
   * to C's, in the halfway blend of the two colours, then circles for A, B and C.
   */
  lemma OneEdgeNoHidden(L: Layout, width: nat, height: nat, colors: Palette)
    requires RankedBy([Connection("A", "C", 2.0, true)], ["C"], true, ZeroRank)
    requires LaidOut(L, ["A", "B"], ["C"], ["C"], [Connection("A", "C", 2.0, true)], width, height, true, ZeroRank)
    ensures L.hidden == [] && L.maxLayers == 0
    ensures Rendered(L, [Connection("A", "C", 2.0, true)], true, colors).Ok?
    ensures var cmds := Rendered(L, [Connection("A", "C", 2.0, true)], true, colors).value;
            |cmds| == 4 &&
            cmds[0] == Line(Point(L.radius, height / 2 / 2), Point(width - L.radius, height / 2),
                            Channels(Rgb((colors.positive.red + colors.negative.red) / 2.0,
                                         (colors.positive.green + colors.negative.green) / 2.0,
                                         (colors.positive.blue + colors.negative.blue) / 2.0)))
  {
    var conns := [Connection("A", "C", 2.0, true)];
    assert ["C"][..0] == [];
    assert Without(["C"], ["A", "B"] + ["C"]) == [];
    assert |HiddenKeys(L.hidden)| == 0;
    assert L.inputs == ["A", "B"] && L.outputs == ["C"];
    assert IncludedConnections(conns, true) == conns by {
      assert conns[..0] == [];
    }
    EdgeLinesMeaning(conns, true, L, colors);
    ColorMixHalfway(colors);
    assert IndexOf(L.inputs, "A") == 0;
    assert IndexOf(L.outputs, "C") == 0;
    assert conns[..0] == [];
  }

  function ChainRank(k: string): nat {
    if k == "A" then 2 else if k == "H" then 1 else 0
  }

  /**
   * Input A, output B, hidden H with enabled connections A -> H and H -> B: H has depth 1,
   * `maxLayers` is 1, and H is drawn halfway across and halfway down the canvas.
   */
  lemma ChainThroughHidden(L: Layout, width: nat, height: nat)
    requires RankedBy([Connection("A", "H", 1.0, true), Connection("H", "B", 1.0, true)], ["B"], true, ChainRank)
    requires LaidOut(L, ["A"], ["B"], ["B", "H"], [Connection("A", "H", 1.0, true), Connection("H", "B", 1.0, true)],
                     width, height, true, ChainRank)
    ensures L.hidden == [HiddenEntry("H", 1)] && L.maxLayers == 1
    ensures Position("H", L) == Some(Point(width / 2, height / 2))
  {
    var conns := [Connection("A", "H", 1.0, true), Connection("H", "B", 1.0, true)];
    assert Without(["B", "H"], ["A"] + ["B"]) == ["H"] by {
      assert ["B", "H"][..1] == ["B"];
      assert ["B"][..0] == [];
      assert Without(["B"], ["A"] + ["B"]) == [];
    }
    assert HiddenKeys(L.hidden) == ["H"];
    HiddenKeysAt(L.hidden);
    assert |L.hidden| == 1 && L.hidden[0].key == "H";
    assert conns[..1] == [conns[0]] && conns[..1][..0] == [];
    assert MaxOut("H", conns[..1][..0], conns, ["B"], true, ChainRank) == 0;
    assert MaxOut("H", conns[..1], conns, ["B"], true, ChainRank) == 0;
    assert Contribution(conns[1], conns, ["B"], true, ChainRank) == 1;
    assert MaxOut("H", conns, conns, ["B"], true, ChainRank) == 1;
    assert Depth("H", conns, ["B"], true, ChainRank) == 1;
    assert L.hidden == [HiddenEntry("H", 1)];
    assert "H" !in L.inputs && "H" !in L.outputs;
    assert HiddenKeys(L.hidden) == ["H"];
  }

  /**
   * With disabled connections hidden, an input whose only connection is disabled is dropped:
   * of inputs A and C, only C is laid out, and when A is the only input the drawer divides by zero.
   */
  lemma InactiveInputDropped(L: Layout, M: Layout, width: nat, height: nat, colors: Palette)
    requires RankedBy([Connection("A", "B", 1.0, false), Connection("C", "B", 1.0, true)], ["B"], false, ZeroRank)
    requires LaidOut(L, ["A", "C"], ["B"], ["B"], [Connection("A", "B", 1.0, false), Connection("C", "B", 1.0, true)],
                     width, height, false, ZeroRank)
    requires RankedBy([Connection("A", "B", 1.0, false)], ["B"], false, ZeroRank)
    requires LaidOut(M, ["A"], ["B"], ["B"], [Connection("A", "B", 1.0, false)], width, height, false, ZeroRank)
    ensures L.inputs == ["C"]
    ensures Rendered(M, [Connection("A", "B", 1.0, false)], false, colors) == Err(ZeroDivisionError)
  {
    var conns := [Connection("A", "B", 1.0, false), Connection("C", "B", 1.0, true)];
    assert IsSource("C", conns, false) by {
      assert conns[1] in conns;
    }
    assert !IsSource("A", conns, false);
    assert "C" in L.inputs;
    assert forall k :: k in L.inputs ==> k == "C";
    SoleElement(L.inputs, "C");
    var single := [Connection("A", "B", 1.0, false)];
    assert !IsSource("A", single, false);
    NoElement(M.inputs);
    assert single[..0] == [];
    assert EdgeLines(single, false, M, colors) == Some([]);
  }
}
