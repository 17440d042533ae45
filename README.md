# NEAT network drawer: layout and colouring

This project models the layout and colouring logic of `draw_network`, the function that draws a
NEAT-Python genome as a layered network picture. The model covers these steps:

- **Partitioning.** The configured input keys and output keys are copied in order. Every other
  genome node key becomes a hidden entry `[key, 0]`, in genome order.
- **Radius.** The circle radius is an integer floor-division minimum.
- **Layer depth.** Each hidden node gets a depth from `get_dependency_count`: the length of its
  longest path of included connections, where a path stops at the first output it meets. An
  edge into a node that is not an output counts one step more than that node's depth, even when
  that node reaches no output. `maxLayers` is the largest depth.
- **Inactive inputs.** When disabled connections are hidden, inputs that are not the source of
  an enabled connection are dropped.
- **Coordinates.** `get_position` gives each node its point. The circle loops use the same
  formulas.
- **Edge colour.** An enabled edge gets a blend of two colours driven by its weight. A disabled
  edge is gray.

The pygame surface is replaced by the list of draw commands it would receive (`Line`, `Circle`).
The drawer's crashes become error results:
- an integer division by zero when there are no inputs or no outputs (line 49);
- the same division by zero when every input has been dropped (line 83);
- a draw call given the `None` that `get_position` returns for an unknown key, where pygame
  raises a TypeError (line 80).

Files, one module each:
- `wrappers.dfy` holds `Option` and `Result`.
- `genome.dfy` holds connection records, hidden entries and the list helpers (filter, index).
- `layers.dfy` holds `get_dependency_count` and the `maxLayers` loop.
- `positions.dfy` holds the radius, `get_position` and the coordinate lemmas.
- `colours.dfy` holds `clamp`, `color_mix` and the edge colour.
- `drawing.dfy` holds `draw_network` and the lemmas about what it draws.
- `scenarios.dfy` works small networks through the whole pipeline.

Node keys are strings. The drawer compares only `str(...)` values, so stringification is the
identity in the model. Connection weights and colour channels are exact reals.

Behaviour of the drawer worth knowing:
- **No cycle guard.** `get_dependency_count` does not detect cycles, so depth is defined only on
  graphs whose included connections are acyclic. `Layers.RankedBy` states this: a rank strictly
  decreases along every included connection into a non-output node.
- **No lower clamp on the radius.** The radius can be 0.
- **No guard on empty lists.** Empty inputs or outputs divide by zero. This includes an input
  list that filtering has emptied.
- **Filtering comes late.** Inactive inputs are filtered after the radius and depths are
  computed. The radius still counts every configured input.
- **Hidden order is genome order.** Hidden keys are not sorted.
- **Unknown keys get no position.** A connection to a key in no list makes the draw call fail. It
  is not rejected up front.
- **The right edge is reachable.** Positions satisfy `0 <= x <= w` and `0 <= y < h`, and
  `x == w` does occur. A hidden node of depth 0 sits at `x == w` whenever `maxLayers + 1`
  divides the width (`Positions.DepthZeroOnRightEdge`), and outputs sit there when the radius
  is 0. Such a circle is centred one column past the last pixel, so pygame clips its right half.

## Model

| member | source | states |
|---|---|---|
| `Genome.IncludedConnections` | NEATvisualize.py:112-113 | holds exactly the connections that are enabled, or all of them when disabled ones are shown |
| `Genome.Without` | NEATvisualize.py:41-46 | holds exactly the keys of the list that are not excluded |
| `Genome.WithoutConcat` | NEATvisualize.py:41-46 | the hidden-key filter keeps genome order: it distributes over concatenation |
| `Genome.WithoutNoDup` | NEATvisualize.py:41-46 | a duplicate-free genome key list gives a duplicate-free hidden list |
| `Genome.IncludedConnectionsConcat` | NEATvisualize.py:112-113 | the included-connection filter keeps connection order: it distributes over concatenation |
| `Genome.IndexOf` | NEATvisualize.py:127 | `list.index`: returns a position that holds the key, with no earlier position holding it |
| `Layers.Contribution` | NEATvisualize.py:116-120 | one outgoing edge's candidate for `maxOut`: 1 for an edge into an output, and 1 + the target's depth otherwise; its meaning is stated by `Layers.MaxOutIsMax` and `Layers.DepthIsMax` |
| `Layers.MaxOut` | NEATvisualize.py:111-121 | the `maxOut` accumulator after a prefix of the connections: the largest contribution of the included edges leaving the key, 0 when there are none; characterised by `Layers.MaxOutIsMax` |
| `Layers.Depth` | NEATvisualize.py:110-121 | `get_dependency_count` over all connections; characterised by `Layers.DepthIsMax`, `Layers.DepthIgnoresExcluded` and `Layers.DepthDependsOnlyOnIncluded` |
| `Layers.MaxOutIsMax` | NEATvisualize.py:111-121 | `maxOut` over the visited connections is at least every included outgoing edge's contribution; it is 0 exactly when there is no such edge, and otherwise equals one of the contributions |
| `Layers.DepthIsMax` | NEATvisualize.py:110-121 | a depth is 0 exactly when the node has no included outgoing connection; otherwise it is the largest contribution, where an edge to an output gives 1 and an edge to any other target (inputs included) gives 1 + the target's depth |
| `Layers.MaxOutIgnoresExcluded` | NEATvisualize.py:112-120 | dropping the connections that are not included leaves `maxOut` unchanged at every step |
| `Layers.DepthIgnoresExcluded` | NEATvisualize.py:112-113 | the depth over the included connections alone is the same, so with `show_disabled` false, disabled connections never affect a depth |
| `Layers.DepthDependsOnlyOnIncluded` | NEATvisualize.py:112-113 | two connection lists with the same included connections give every node the same depth |
| `Layers.AssignDepths` | NEATvisualize.py:52-56 | each hidden entry keeps its key and gets its `get_dependency_count` as depth; `maxLayers` is at least every depth and equals one of them, and it is 0 with no hidden nodes |
| `Positions.Radius` | NEATvisualize.py:49 | the radius is the largest integer for which 30 radii fit across and down the canvas, 5 per input fit across and 5 per output fit down; it may be 0 |
| `Positions.Position` | NEATvisualize.py:124-138 | a position exists exactly for keys found in the inputs, the outputs or the hidden entries, and an unknown key gets none; an input key gets x = r, a key that is only an output gets x = w - r, and a key in neither list gets the hidden x of its first matching entry |
| `Positions.Slot` | NEATvisualize.py:126-127 | `offset * index + offset // 2` with `offset = extent // count`; bounded by `Positions.SlotInRange` and spaced by `Positions.SlotSpacing` |
| `Positions.HiddenX` | NEATvisualize.py:136-138 | `(maxLayers + 1 - depth) * (w // (maxLayers + 1))`; bounded by `Positions.HiddenXInRange` and spaced by `Positions.HiddenXSpacing` |
| `Positions.InputCentre` | NEATvisualize.py:125-127 | the point `(r, slot i of the inputs)`; equal to the returned position by `Positions.CentresAgreeWithPositions` |
| `Positions.OutputCentre` | NEATvisualize.py:129-131 | the point `(w - r, slot i of the outputs)`; equal to the returned position by `Positions.CentresAgreeWithPositions` |
| `Positions.HiddenCentre` | NEATvisualize.py:133-138 | the point `(hidden x of entry i's depth, slot i of the hidden entries)`; equal to the returned position by `Positions.CentresAgreeWithPositions` |
| `Positions.SlotInRange` | NEATvisualize.py:126-127 | `offset * index + offset // 2` with `offset = h // count` lies in `[0, h)` for every index below the count |
| `Positions.SlotSpacing` | NEATvisualize.py:126-127 | slots are exactly `offset` apart, so y strictly increases with the index when `offset > 0` |
| `Positions.HiddenXInRange` | NEATvisualize.py:136-138 | for `0 <= d <= maxLayers`, hidden x lies in `[w // (maxLayers + 1), w]` |
| `Positions.HiddenXSpacing` | NEATvisualize.py:136-138 | hidden layers are `w // (maxLayers + 1)` apart, and deeper nodes are further left |
| `Positions.DepthZeroOnRightEdge` | NEATvisualize.py:136-138 | when `maxLayers + 1` divides the width, a hidden node of depth 0 gets `x == w`, so the upper bound of `Positions.HiddenXInRange` is reached |
| `Positions.PositionInCanvas` | NEATvisualize.py:124-138 | on a layout with positive height, a non-negative radius of at most `w // 30` and depths in `[0, maxLayers]`, every returned position lies within `0 <= x <= w`, `0 <= y < h` |
| `Positions.CentresAgreeWithPositions` | NEATvisualize.py:83-100 | with duplicate-free lists, each circle loop's centre for entry `i` is the position returned for that entry's key, as long as inputs take precedence over outputs and hidden keys are in neither list |
| `Colours.PaletteOrDefault` | NEATvisualize.py:26-27 | the given colours, or `(255, 25, 25)` for positive and `(25, 255, 25)` for negative weights when none are given |
| `Colours.Clamp` | NEATvisualize.py:159-160 | the result lies in `[0, 1]`; it is the value itself inside that range and the nearer bound outside it |
| `Colours.ColorMix` | NEATvisualize.py:163-168 | each channel is `colors[0] * clamp(weight / 4) + colors[1] * (1 - clamp(weight / 4))`; characterised by `Colours.ColorMixRange` and `Colours.ColorMixHalfway` |
| `Colours.EdgeColour` | NEATvisualize.py:75 | the blend for an enabled edge and gray for a disabled one; characterised by `Colours.DisabledEdgeIsGray` and `Colours.ColorMixRange` |
| `Colours.BlendBetween` | NEATvisualize.py:165-167 | one blended channel lies between the two colours' channels |
| `Colours.ColorMixRange` | NEATvisualize.py:163-168 | a weight of at most 0 gives exactly `colors[1]`, a weight of at least 4 gives exactly `colors[0]`, and every channel lies between the two colours' channels |
| `Colours.ColorMixHalfway` | NEATvisualize.py:163-168 | a weight of 2 gives the mean of the two colours |
| `Colours.DisabledEdgeIsGray` | NEATvisualize.py:75 | a disabled edge is gray whatever its weight and palette |
| `Drawing.Partition` | NEATvisualize.py:33-46 | inputs and outputs are the configured keys in order, and the hidden entries are the genome keys in neither list, in genome order, each with depth 0 |
| `Drawing.ActiveInputs` | NEATvisualize.py:59-66 | the rebuilt input list has no duplicates and holds exactly the inputs that are the source of an included connection |
| `Drawing.EdgeLines` | NEATvisualize.py:69-80 | the edge loop: one line per included connection, or failure at the first missing position; characterised by `Drawing.EdgeLinesMeaning` and `Drawing.EdgeLinesFailureSticks` |
| `Drawing.NodeCircles` | NEATvisualize.py:83-100 | the three circle loops in order, the hidden loop only when there are hidden nodes; characterised by `Drawing.NodeCirclesAgree` |
| `Drawing.Rendered` | NEATvisualize.py:68-100 | the commands drawn from a finished layout, or the missing-position error, or the division by zero at line 83; realised by `Drawing.DrawNetwork` and bounded by `Drawing.RenderedInCanvas` |
| `Drawing.LaidOut` | NEATvisualize.py:25-66 | the layout the setup code builds from the configured keys, the genome and the size; its consequences are stated by `Drawing.LaidOutProperties` |
| `Drawing.EdgeLinesFailureSticks` | NEATvisualize.py:69-80 | once a draw call has failed on a prefix of the connections, the whole edge loop fails |
| `Drawing.EdgeLinesMeaning` | NEATvisualize.py:69-80 | the edge loop succeeds exactly when both endpoints of every included connection have a position; it then draws one line per included connection, in order, from its source's position to its target's position in that connection's edge colour |
| `Drawing.DrawEdges` | NEATvisualize.py:69-80 | the loop's lines, or its failure, are those of the edge specification |
| `Drawing.DrawNodes` | NEATvisualize.py:83-100 | draws the input circles, then the output circles, then the hidden circles (only when there are hidden nodes), each at the loop's formula, all in white with the radius |
| `Drawing.DrawNetwork` | NEATvisualize.py:5-107 | fails with a division by zero without inputs or outputs; otherwise it builds a layout with the configured outputs, the radius from the configured counts, inputs unchanged or filtered to the active ones, the hidden keys in genome order with their depths, and `maxLayers` their maximum; it then returns a missing-position error, a division by zero when no input is left, or the edge lines followed by the node circles |
| `Drawing.LaidOutProperties` | NEATvisualize.py:33-66 | hidden keys are neither inputs nor outputs, even after filtering; the inputs used are configured inputs; duplicate-free lists stay duplicate-free; with positive height the layout meets the canvas-bounds conditions |
| `Drawing.RenderedInCanvas` | NEATvisualize.py:69-100 | every line endpoint and every circle centre that is drawn has `0 <= x <= w` and `0 <= y < h`; `x == w` is reachable (see `Positions.DepthZeroOnRightEdge`) |
| `Drawing.NodeCirclesAgree` | NEATvisualize.py:83-100 | circle `i` is centred at the position of key `i` in drawing order (inputs, outputs, hidden) when the lists have no clashes |
| `Drawing.CirclesAtPositions` | NEATvisualize.py:77-100 | for duplicate-free configured lists and genome keys, with no key both an input and an output, every node's circle sits where its edges end |
| `Scenarios.OneEdgeNoHidden` | NEATvisualize.py:33-100 | inputs A and B, output C and one edge A to C of weight 2 give no hidden nodes and four commands; the first is a line from A's position to C's position in the halfway blend |
| `Scenarios.ChainThroughHidden` | NEATvisualize.py:52-56 | with A to H and H to B, H gets depth 1, `maxLayers` is 1, and H sits at `(w // 2, h // 2)` |
| `Scenarios.InactiveInputDropped` | NEATvisualize.py:59-66 | with disabled edges hidden, an input whose only edge is disabled is dropped; if it was the only input, drawing divides by zero |

## Left out

- Surface creation, `convert_alpha`, and pixel output from `pygame.draw.aaline` and
  `pygame.draw.circle` are not modelled. The draw commands stand in for them.
- `writeText` and the `node_names` labels it draws are not modelled. They depend on font
  loading and blitting in a library outside this model. The model also misses the IndexError
  that a name list shorter than the inputs would raise.
- `pygame.image.save` and `save_file_name` are not modelled, because they are file I/O.
- Floating-point rounding in `color_mix` is not modelled. Weights and channels are exact reals,
  and pygame's later conversion of channels to integers is not modelled either.
- A `colors` list with fewer than two entries is not modelled. The model types the palette as a
  pair, so the IndexError of `colors[1]` cannot occur.
- The `neat.Config` and genome objects are not modelled. The model takes only the input keys,
  the output keys, the node keys and the connection records.
- A width or height below zero is not modelled. Sizes are natural numbers, since pygame refuses
  negative sizes when it creates the surface.
- The unused `hidden` parameter of `get_dependency_count` is left out.
- Cyclic graphs are left out. On a cycle that a hidden key reaches, `get_dependency_count`
  recurses until CPython raises RecursionError, at a default depth of about 1000. The model has
  no such error: `Layers.RankedBy` excludes cycles through a rank that decreases along included
  edges. The rank is a ghost parameter and plays no part in any value.
- The RecursionError on deep acyclic graphs is not modelled. A chain of included connections
  longer than the interpreter's recursion limit raises it in the source, while `Layers.Depth`
  still returns the chain's length.
- Drawing.DrawNetwork: its `RankedBy` requirement over-asks. It excludes every included cycle,
  even one no hidden key reaches and so one the source never recurses on, such as an enabled
  self-loop on an input when there are no hidden nodes. The source draws such a genome; the model
  does not cover it.
- Drawing.ActiveInputs: the contract states membership and absence of duplicates only. The
  source builds this list from a `set`, whose iteration order is not modelled. The method
  returns the inputs in first-occurrence order, but no contract relies on that order.
- Drawing.DrawNetwork: for the same reason, when disabled connections are hidden, the contract
  pins the filtered inputs down only by membership. The coordinates of those inputs, which
  depend on their order, are therefore stated for whichever order the layout holds.
