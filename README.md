# pde-stuff mesh and FTCS rules in Dafny

This project models the finite-difference core of pde-stuff. It has two parts:

- the `Mesh` class of `meshstuff.py`: the constructor defaults, `neighbors`, `explicit_sim` and `implicit_sim`;
- the explicit heat-equation update rules of `algos.py`: `central_acc2_deriv2`, `ftcs1d`, `ftcs2d` and `ftcs3d`.

It proves what these operations compute and what a run of either driver leaves in the mesh.

Layout, one module per file:

- `ndarrays.dfy` (`NdArrays`) models the dense numpy array the mesh state is:
  - a shape, and the elements in row-major (C) order;
  - `Offset` and `MultiIndex`, between an index tuple and a position in the element buffer;
  - numpy's lookup by a tuple of integers (`Lookup`). A component `k` with `-n <= k < n` is accepted, and a negative one reads position `n + k`. Anything else raises `IndexError`, written `None`.
- `stepping.dfy` (`Stepping`) holds the value-level meaning of `meshstuff.py`:
  - `NeighborsOf`, what `neighbors` returns;
  - `Capture`, the fixed values a driver captures before its first step;
  - `Step`, one time step: the rule's values, then the fixed values written back;
  - `States`, the states `s0, s1, ..., sn` of a run.

  An update rule is a `Rule`:
  - `Pointwise(update)` is what `explicit_sim` takes: a node's next value from the mesh, the node index and the step size.
  - `Global(solve)` is what `implicit_sim` takes: a whole next state.

  Rules see a `MeshView`, the mesh's state plus its stencil, diffusivity and spacing.
- `meshes.dfy` (`Meshes`) holds the `Mesh` class:
  - its fields `state`, `stencil`, `fixed`, `history`, `diffusivity` and `ndSpacing`;
  - `Neighbors`, whose loops build both lists;
  - `ExplicitSim`, which fills a fresh `array<real>` buffer in nditer order, pins it and appends it to `history`;
  - `ImplicitSim`, which appends the old state, takes the rule's state and pins it in place.

  Each method is proved against the `Stepping` functions. The drivers' results are:
  - `FixedIndexError`: numpy's `IndexError` while capturing a fixed value;
  - `EmptyIterationError`: numpy's `ValueError` from `nditer` on an array with no elements;
  - `Completed`.
- `algos.dfy` (`Algos`) holds the three FTCS rules, each written as an update of the neighbour values it reads. Its lemmas cover:
  - their algebra over exact reals;
  - the neighbours the three-point stencil sees on a line, including both boundaries;
  - the fact that each rule can be passed to `explicit_sim`.

A negative neighbour component is not out of range: the code hands the index to numpy inside `try/except` (`meshstuff.py:32-35`), and numpy reads a component in `[-n, 0)` as `n + k`. So on a line, `ftcs1d` at node 0 reads the last node as its left neighbour (`Algos.ThreePointNeighbours`), while the last node reads 0 on its right.

## Model

| member | source | states |
|---|---|---|
| NdArrays.Normalize | meshstuff.py:33 | numpy reads a negative component k of an accepted index as n + k: the result is in range and agrees with every non-negative component |
| NdArrays.Lookup | meshstuff.py:33 | `s[tuple(idx)]` succeeds exactly when numpy accepts the index, and then reads an element of the state |
| NdArrays.MultiIndex | meshstuff.py:75-77 | the index nditer reports at buffer position p is in range for the shape |
| NdArrays.OffsetOfMultiIndex | meshstuff.py:75-77 | the index nditer reports at buffer position p is stored at position p |
| NdArrays.MultiIndexOfOffset | meshstuff.py:75-77 | the nditer walk visits each in-range index exactly once: MultiIndex recovers every index from its buffer position |
| NdArrays.OffsetInjective | meshstuff.py:79-80 | two in-range indices address the same element if and only if they are equal |
| NdArrays.LookupInRange | meshstuff.py:33 | `s[tuple(idx)]` with every component in [0, n) reads the element stored at idx |
| NdArrays.LookupWraps | meshstuff.py:32-35 | a component k in [-n, 0) does not raise: the lookup equals the lookup with k replaced by n + k |
| NdArrays.LookupOutOfBounds | meshstuff.py:32-35 | a component at or above n, or below -n, makes the lookup raise |
| Stepping.NeighborsOf | meshstuff.py:25-36 | `neighbors` returns one index and one value per stencil offset |
| Stepping.Shift | meshstuff.py:27 | the neighbour index has one component per axis of the node, each the node component plus the offset component |
| Stepping.NeighborValue | meshstuff.py:32-35 | the recorded value is an element of the state or the fallback 0, and exactly 0 when numpy raises |
| Stepping.NeighborValueInRange | meshstuff.py:31-35 | a neighbour inside the state gets the value stored there |
| Stepping.NeighborValueWraps | meshstuff.py:31-35 | a neighbour with a component in [-n, 0) gets the value at n + k, not 0 |
| Stepping.NeighborValueOutside | meshstuff.py:31-35 | a neighbour with a component at or above n, or below -n, gets exactly 0 and raises nothing |
| Stepping.Capture | meshstuff.py:63-68 | one captured value per fixed entry, in order: pin k sits at fixed[k] read the numpy way and holds what `self.state[fixed[k]]` reads |
| Stepping.PinsOf | meshstuff.py:63-68 | no pins when `fixed` is None; otherwise one pin per fixed index, whose value is what `self.state[i]` reads |
| Stepping.PinAll | meshstuff.py:78-80 | writing the fixed values keeps the buffer's length |
| Stepping.PinAllHolds | meshstuff.py:78-80 | after the pinning loop every fixed node holds its captured value, duplicates included |
| Stepping.PinAllElsewhere | meshstuff.py:78-80 | the pinning loop leaves every node that is not fixed unchanged |
| Stepping.Fresh | meshstuff.py:74-77 | the rule's values form a full buffer with one value per node |
| Stepping.Step | meshstuff.py:74-82 | a step keeps the state's shape and yields a well-formed array |
| Stepping.States | meshstuff.py:69-82 | a run of n steps has n + 1 states, starts at s0, and every state has s0's shape |
| Stepping.StepUpdatesFreeNodes | meshstuff.py:74-77 | in an explicit step every node that is not fixed gets `update_fn` applied to the pre-step state at that node |
| Stepping.StepKeepsPins | meshstuff.py:103-105 | after any step, explicit or implicit, every fixed node holds the value captured from s0 |
| Stepping.StatesPrefix | meshstuff.py:69-82 | a shorter run is a prefix of a longer run from the same state |
| Stepping.StatesStep | meshstuff.py:69-82 | each state of a run is one step from the state before it |
| Stepping.StatesKeepFixed | meshstuff.py:63-68 | in every state of a run each fixed index reads the value it read before the first step |
| Stepping.StatesResume | meshstuff.py:69-82 | after its first m steps, a run of m + n steps goes on exactly as a run of n steps from the state reached |
| Stepping.StatesRecapture | meshstuff.py:63-68 | capturing the fixed values again from any state of a run gives the same pins |
| Stepping.RunsCompose | meshstuff.py:63-82 | a second driver run of n steps after a first one of m captures the same fixed values and goes through the same states as steps m..m+n of one run of m + n steps |
| Meshes.Mesh.constructor | meshstuff.py:12-18 | a new mesh holds the given state and stencil, no fixed nodes, an empty history, and diffusivity and spacing 1 |
| Meshes.StepCount | meshstuff.py:69 | `range(num_steps)` runs num_steps iterations, or none when num_steps is negative |
| Meshes.Mesh.Neighbors | meshstuff.py:22-36 | the result has len(stencil) entries in stencil order; index j is the elementwise sum of the node and offset j, and value j is the numpy lookup there or 0; the mesh is not modified |
| Meshes.Mesh.CaptureFixed | meshstuff.py:63-68 | the capture succeeds exactly when numpy accepts every fixed index; it then yields the captured values, and nothing when `fixed` is None |
| Meshes.Mesh.FillBuffer | meshstuff.py:74-77 | a fresh buffer receives, at every position, the rule's value for the node nditer visits there, computed from the unchanged state |
| Meshes.Mesh.PinBuffer | meshstuff.py:78-80 | the buffer after the pinning loop is the buffer with the captured values written over the fixed nodes |
| Meshes.Mesh.PinState | meshstuff.py:103-105 | the state after pinning in place is the state with the captured values written over the fixed nodes |
| Meshes.Mesh.ExplicitStep | meshstuff.py:74-82 | the new state is one explicit step of the old one and is appended to the history; nothing else changes |
| Meshes.Mesh.ImplicitStep | meshstuff.py:101-105 | the old state is appended to the history and the new state is one implicit step of it; nothing else changes |
| Meshes.Mesh.RunExplicit | meshstuff.py:69-82 | after N steps the state is sN and the history has grown by exactly s1..sN in order, earlier entries untouched |
| Meshes.Mesh.RunImplicit | meshstuff.py:97-105 | after N steps the state is sN and the history has grown by exactly s0..s(N-1) in order, earlier entries untouched |
| Meshes.Mesh.ExplicitSim | meshstuff.py:60-87 | IndexError while capturing exactly when a fixed index is rejected; ValueError exactly when steps run on an empty state; neither changes the mesh; otherwise the state and history are those of the run from the captured pins, a negative step count running none |
| Meshes.Mesh.ImplicitSim | meshstuff.py:89-110 | IndexError while capturing exactly when a fixed index is rejected, without changing the mesh; otherwise the state is sN and the history has grown by s0..s(N-1) |
| Algos.Ftcs1dUpdate | algos.py:15-18 | the coefficient-table body of ftcs1d is vals[1] + diffusivity * stepsize * (vals[0] - 2 vals[1] + vals[2]) / nd_spacing**2, the three-point forward-Euler heat step |
| Algos.Ftcs1dOnMesh | algos.py:13-19 | ftcs1d at a node is that heat step over the values `neighbors` returns there |
| Algos.Ftcs1dConstantFixedPoint | algos.py:15-18 | equal left, centre and right values are left unchanged, since the coefficients [1, -2, 1] sum to 0 |
| Algos.Ftcs1dNoDiffusion | algos.py:18 | with diffusivity 0 or step size 0 ftcs1d returns the centre value |
| Algos.Ftcs1dSymmetric | algos.py:15-16 | swapping the left and right neighbour values does not change the result |
| Algos.Ftcs2dUpdate | algos.py:23-27 | the body of ftcs2d is vals[0] + diffusivity * stepsize * (vals[1] + vals[3] + vals[2] + vals[4] - 4 vals[0]) / nd_spacing**2, the five-point Laplacian around vals[0] |
| Algos.Ftcs2dOnMesh | algos.py:21-28 | ftcs2d at a node is that step over the values `neighbors` returns there |
| Algos.Ftcs2dConstantFixedPoint | algos.py:21-28 | a constant five-point neighbourhood is left unchanged |
| Algos.Ftcs2dNoDiffusion | algos.py:27 | with diffusivity 0 or step size 0 ftcs2d returns vals[0] |
| Algos.Ftcs2dSymmetric | algos.py:24-26 | reflecting either axis, or exchanging the two axes, does not change the result |
| Algos.Ftcs3dUpdate | algos.py:32-36 | the body of ftcs3d is vals[0] + diffusivity * stepsize * (vals[1] + vals[4] + vals[2] + vals[5] + vals[3] + vals[6] - 6 vals[0]) / nd_spacing**2, pairing (1, 4), (2, 5), (3, 6) |
| Algos.Ftcs3dOnMesh | algos.py:30-37 | ftcs3d at a node is that step over the values `neighbors` returns there |
| Algos.Ftcs3dConstantFixedPoint | algos.py:30-37 | a constant seven-point neighbourhood is left unchanged |
| Algos.Ftcs3dNoDiffusion | algos.py:36 | with diffusivity 0 or step size 0 ftcs3d returns vals[0] |
| Algos.Ftcs3dSymmetric | algos.py:32-35 | exchanging the two neighbours of any one axis does not change the result |
| Algos.LineValue | meshstuff.py:31-35 | on a line of n nodes, the value at offset k is node k for 0 <= k < n, node n + k for -n <= k < 0, and 0 otherwise |
| Algos.ThreePointNeighbours | algos.py:14 | on a line of n nodes with stencil [[-1], [0], [1]], node i sees its left neighbour (node n - 1 for node 0), itself, and its right neighbour (0 for node n - 1) |
| Algos.FivePointIndices | heat2d.py:18 | with the five-point stencil node [i, j] reads itself, [i + 1, j], [i, j + 1], [i - 1, j], [i, j - 1], so ftcs2d pairs vals[1]/vals[3] on the first axis and vals[2]/vals[4] on the second |
| Algos.SevenPointIndices | heat.py:28 | with the seven-point stencil node [i, j, l] reads itself, the +1 neighbours of axes 0, 1, 2, then the -1 neighbours, so ftcs3d pairs (1, 4), (2, 5), (3, 6) axis by axis |
| Algos.Ftcs1dOnLine | algos.py:13-19 | on a line, ftcs1d at node i is the heat step from those three values, with the wrap-around on the left and 0 on the right |
| Algos.Ftcs1dAdmitted | algos.py:13-19 | ftcs1d can be applied at every node of any mesh whose stencil has at least three full-rank offsets and whose spacing squared is not 0 |
| Algos.Ftcs2dAdmitted | algos.py:21-28 | the same for ftcs2d with at least five offsets |
| Algos.Ftcs3dAdmitted | algos.py:30-37 | the same for ftcs3d with at least seven offsets |
| Algos.Ftcs1dStepOnLine | algos.py:13-19 | in one explicit_sim step with ftcs1d on a line, every node that is not fixed takes the heat step from its old neighbours |

## Left out

- `Mesh.niceprint`, the progress messages driven by `msginterval`, and the `debug` pause with `input("")` are console I/O and are not modelled. The keyword arguments are not modelled either, including the `KeyError` that any keyword other than `debug` would raise after the first step.
- Values are exact reals. Floating-point rounding, stability and convergence are not modelled. So `Square(nd_spacing) != 0` is the only division condition: an `nd_spacing` whose float square underflows to 0 is not distinguished.
- numpy dtypes are not modelled. `np.zeros` makes a float buffer whatever the state's dtype, and the model has one value type.
- `central_acc4_deriv2` (`algos.py:6`) is defined but never used, and is not modelled.
- The driver scripts `heat.py`, `heat1d.py`, `heat2d.py` and `burgers.py` are parameter settings and matplotlib animation. They are not part of this model. The functions they call that the repository does not define (`Mesh.simulate`, `ctcs1d`, `burgers1d`) are not part of this model either.
- Meshes.Mesh.ExplicitSim: requires every fixed entry to have at least one component per axis, because a shorter tuple makes numpy pin a whole sub-array. Entries given as lists, which numpy reads as fancy indices, are not modelled. It also requires the rule to be defined at every node of every state of the mesh's shape (`Admits`): an `update_fn` that raises at some node, which in the source escapes after the earlier steps are already in `state` and `history`, is not modelled.
- Meshes.Mesh.ImplicitSim: requires the rule to return a well-formed state of the mesh's shape for every state of that shape (`Admits`). The returned array is taken to be fresh, so aliasing between the rule's result, the old state and the history is not modelled.
- Meshes.Mesh.Neighbors: requires every stencil offset to have at least one component per axis. With a shorter offset, `zip` yields a shorter index and numpy would return a sub-array.
- Update rules see a `MeshView` (state, stencil, diffusivity, spacing), not the whole mesh object. A rule that reads or changes `history` or `fixed` is not modelled.
- Algos.Ftcs1d, Algos.Ftcs2d and Algos.Ftcs3d require a stencil with at least 3, 5 or 7 offsets, and a spacing whose square is not 0. With fewer offsets the source raises `IndexError`, which is not modelled as a result. With a zero square the source divides a numpy scalar by 0 as soon as one neighbour lookup succeeds (the centre offset always does), giving inf or nan with a warning rather than an error; inf and nan are not reals, so the model excludes that case. Only when every neighbour value is the integer fallback 0 does Python raise `ZeroDivisionError`.
