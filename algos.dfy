/** The explicit update rules of algos.py: forward difference in time,
    central difference in space (FTCS) for the heat equation in one, two and
    three dimensions. Each reads the mesh only through its neighbour values,
    its spacing and its diffusivity, and returns a node's next value. */
module Algos {
  import opened NdArrays
  import opened Stepping

  /** Central-difference coefficients of the second derivative, accuracy 2. */
  const CentralAcc2Deriv2: seq<real> := [1.0, -2.0, 1.0]

  /** The stencils the rules expect: left, self, right in 1-D; self, then the
      +1 neighbour of each axis, then the -1 neighbour of each axis, in 2-D
      and 3-D (FivePointIndices, SevenPointIndices). */
  const ThreePoint: seq<seq<int>> := [[-1], [0], [1]]
  const FivePoint: seq<seq<int>> := [[0, 0], [1, 0], [0, 1], [-1, 0], [0, -1]]
  const SevenPoint: seq<seq<int>> :=
    [[0, 0, 0], [1, 0, 0], [0, 1, 0], [0, 0, 1], [-1, 0, 0], [0, -1, 0], [0, 0, -1]]

  /** `h**2` */
  function Square(h: real): real {
    h * h
  }

  /** A rule reading `points` neighbour values can be applied at this node:
      fewer offsets make numpy raise IndexError, and a spacing whose square is
      0 gives inf or nan, which are not reals. */
  predicate RuleFits(m: MeshView, node: seq<int>, points: nat) {
    Fits(m, node) && |m.params.stencil| >= points && Square(m.params.ndSpacing) != 0.0
  }

  /** The neighbour values a rule sees at a node. */
  function Vals(m: MeshView, node: seq<int>): (vals: seq<real>)
    requires Fits(m, node)
    ensures |vals| == |m.params.stencil|
  {
    NeighborsOf(m, node).1
  }

  lemma DivAdd(a: real, b: real, q: real)
    requires q != 0.0
    ensures a / q + b / q == (a + b) / q
  {
  }

  /** The body of ftcs1d on the neighbour values it reads; h2 is the square
      of the node spacing. It is the forward-Euler step of u_t = a u_xx with
      the three-point second difference. */
  function Ftcs1dUpdate(vals: seq<real>, diffusivity: real, stepsize: real, h2: real): (r: real)
    requires |vals| >= 3 && h2 != 0.0
    ensures r == vals[1] + diffusivity * stepsize * ((vals[0] - 2.0 * vals[1] + vals[2]) / h2)
  {
    var coefs := CentralAcc2Deriv2;
    assert coefs[0] * vals[0] + coefs[1] * vals[1] + coefs[2] * vals[2] == vals[0] - 2.0 * vals[1] + vals[2];
    var laplacian := (coefs[0] * vals[0] + coefs[1] * vals[1] + coefs[2] * vals[2]) / h2;
    diffusivity * stepsize * laplacian + vals[1]
  }

  /** The body of ftcs2d on the neighbour values it reads: the forward-Euler
      step with the five-point Laplacian, pairing vals[1] with vals[3] and
      vals[2] with vals[4] around the centre vals[0]. */
  function Ftcs2dUpdate(vals: seq<real>, diffusivity: real, stepsize: real, h2: real): (r: real)
    requires |vals| >= 5 && h2 != 0.0
    ensures r == vals[0] + diffusivity * stepsize * ((vals[1] + vals[3] + vals[2] + vals[4] - 4.0 * vals[0]) / h2)
  {
    var coefs := CentralAcc2Deriv2;
    var d2x := (coefs[0] * vals[1] + coefs[1] * vals[0] + coefs[2] * vals[3]) / h2;
    var d2y := (coefs[0] * vals[2] + coefs[1] * vals[0] + coefs[2] * vals[4]) / h2;
    assert coefs[0] * vals[1] + coefs[1] * vals[0] + coefs[2] * vals[3] == vals[1] + vals[3] - 2.0 * vals[0];
    assert coefs[0] * vals[2] + coefs[1] * vals[0] + coefs[2] * vals[4] == vals[2] + vals[4] - 2.0 * vals[0];
    DivAdd(vals[1] + vals[3] - 2.0 * vals[0], vals[2] + vals[4] - 2.0 * vals[0], h2);
    diffusivity * stepsize * (d2x + d2y) + vals[0]
  }

  /** The body of ftcs3d on the neighbour values it reads: the seven-point
      Laplacian, pairing (1, 4), (2, 5), (3, 6) around the centre vals[0]. */
  function Ftcs3dUpdate(vals: seq<real>, diffusivity: real, stepsize: real, h2: real): (r: real)
    requires |vals| >= 7 && h2 != 0.0
    ensures r == vals[0] + diffusivity * stepsize *
                   ((vals[1] + vals[4] + vals[2] + vals[5] + vals[3] + vals[6] - 6.0 * vals[0]) / h2)
  {
    var d2x := (vals[1] + vals[4] - 2.0 * vals[0]) / h2;
    var d2y := (vals[2] + vals[5] - 2.0 * vals[0]) / h2;
    var d2z := (vals[3] + vals[6] - 2.0 * vals[0]) / h2;
    DivAdd(vals[1] + vals[4] - 2.0 * vals[0], vals[2] + vals[5] - 2.0 * vals[0], h2);
    DivAdd(vals[1] + vals[4] - 2.0 * vals[0] + (vals[2] + vals[5] - 2.0 * vals[0]), vals[3] + vals[6] - 2.0 * vals[0], h2);
    diffusivity * stepsize * (d2x + d2y + d2z) + vals[0]
  }

  /** The rules as explicit_sim calls them: neighbour values first, then the
      update. */
  function Ftcs1d(m: MeshView, node: seq<int>, stepsize: real): real
    requires RuleFits(m, node, 3)
  {
    Ftcs1dUpdate(Vals(m, node), m.params.diffusivity, stepsize, Square(m.params.ndSpacing))
  }


  function Ftcs2d(m: MeshView, node: seq<int>, stepsize: real): real
    requires RuleFits(m, node, 5)
  {
    Ftcs2dUpdate(Vals(m, node), m.params.diffusivity, stepsize, Square(m.params.ndSpacing))
  }


  function Ftcs3d(m: MeshView, node: seq<int>, stepsize: real): real
    requires RuleFits(m, node, 7)
  {
    Ftcs3dUpdate(Vals(m, node), m.params.diffusivity, stepsize, Square(m.params.ndSpacing))
  }


  /** At a mesh node each rule is its heat step over the values `neighbors`
      returns there. */
  lemma Ftcs1dOnMesh(m: MeshView, node: seq<int>, stepsize: real)
    requires RuleFits(m, node, 3)
    ensures var v := Vals(m, node);
            Ftcs1d(m, node, stepsize) == v[1] + m.params.diffusivity * stepsize * ((v[0] - 2.0 * v[1] + v[2]) / Square(m.params.ndSpacing))
  {
    var v, h2 := Vals(m, node), Square(m.params.ndSpacing);
    assert Ftcs1d(m, node, stepsize) == Ftcs1dUpdate(v, m.params.diffusivity, stepsize, h2);
  }

  lemma Ftcs2dOnMesh(m: MeshView, node: seq<int>, stepsize: real)
    requires RuleFits(m, node, 5)
    ensures var v := Vals(m, node);
            Ftcs2d(m, node, stepsize) == v[0] + m.params.diffusivity * stepsize *
                ((v[1] + v[3] + v[2] + v[4] - 4.0 * v[0]) / Square(m.params.ndSpacing))
  {
    var v, h2 := Vals(m, node), Square(m.params.ndSpacing);
    assert Ftcs2d(m, node, stepsize) == Ftcs2dUpdate(v, m.params.diffusivity, stepsize, h2);
  }

  lemma Ftcs3dOnMesh(m: MeshView, node: seq<int>, stepsize: real)
    requires RuleFits(m, node, 7)
    ensures var v := Vals(m, node);
            Ftcs3d(m, node, stepsize) == v[0] + m.params.diffusivity * stepsize *
                ((v[1] + v[4] + v[2] + v[5] + v[3] + v[6] - 6.0 * v[0]) / Square(m.params.ndSpacing))
  {
    var v, h2 := Vals(m, node), Square(m.params.ndSpacing);
    assert Ftcs3d(m, node, stepsize) == Ftcs3dUpdate(v, m.params.diffusivity, stepsize, h2);
  }

  // ---------------------------------------------------------------------
  // Algebraic properties over exact reals

  /** Equal neighbour values are a fixed point: the coefficients sum to 0. */
  lemma Ftcs1dConstantFixedPoint(v: seq<real>, a: real, dt: real, h2: real)
    requires |v| >= 3 && h2 != 0.0
    requires v[0] == v[1] == v[2]
    ensures Ftcs1dUpdate(v, a, dt, h2) == v[1]
  {
    assert v[0] - 2.0 * v[1] + v[2] == 0.0;
  }

  /** With no diffusivity or no time step a node keeps its centre value. */
  lemma Ftcs1dNoDiffusion(v: seq<real>, a: real, dt: real, h2: real)
    requires |v| >= 3 && h2 != 0.0
    requires a == 0.0 || dt == 0.0
    ensures Ftcs1dUpdate(v, a, dt, h2) == v[1]
  {
  }

  /** Swapping the left and right neighbour values changes nothing. */
  lemma Ftcs1dSymmetric(v: seq<real>, a: real, dt: real, h2: real)
    requires |v| >= 3 && h2 != 0.0
    ensures Ftcs1dUpdate([v[2], v[1], v[0]], a, dt, h2) == Ftcs1dUpdate(v, a, dt, h2)
  {
  }

  lemma Ftcs2dConstantFixedPoint(v: seq<real>, a: real, dt: real, h2: real)
    requires |v| >= 5 && h2 != 0.0
    requires forall j :: 1 <= j < 5 ==> v[j] == v[0]
    ensures Ftcs2dUpdate(v, a, dt, h2) == v[0]
  {
    assert v[1] + v[3] + v[2] + v[4] - 4.0 * v[0] == 0.0;
  }

  lemma Ftcs2dNoDiffusion(v: seq<real>, a: real, dt: real, h2: real)
    requires |v| >= 5 && h2 != 0.0
    requires a == 0.0 || dt == 0.0
    ensures Ftcs2dUpdate(v, a, dt, h2) == v[0]
  {
  }

  /** Reflecting either axis ([0, 3, 2, 1, 4] and [0, 1, 4, 3, 2]), or
      exchanging the two axes ([0, 2, 1, 4, 3]), changes nothing. */
  lemma Ftcs2dSymmetric(v: seq<real>, w: seq<real>, a: real, dt: real, h2: real, perm: seq<nat>)
    requires |v| >= 5 && |w| >= 5 && h2 != 0.0
    requires perm in {[0, 3, 2, 1, 4], [0, 1, 4, 3, 2], [0, 2, 1, 4, 3]}
    requires forall j :: 0 <= j < 5 ==> w[j] == v[perm[j]]
    ensures Ftcs2dUpdate(w, a, dt, h2) == Ftcs2dUpdate(v, a, dt, h2)
  {
    assert w[0] == v[perm[0]] && w[1] == v[perm[1]] && w[2] == v[perm[2]];
    assert w[3] == v[perm[3]] && w[4] == v[perm[4]];
  }

  lemma Ftcs3dConstantFixedPoint(v: seq<real>, a: real, dt: real, h2: real)
    requires |v| >= 7 && h2 != 0.0
    requires forall j :: 1 <= j < 7 ==> v[j] == v[0]
    ensures Ftcs3dUpdate(v, a, dt, h2) == v[0]
  {
    assert v[1] + v[4] + v[2] + v[5] + v[3] + v[6] - 6.0 * v[0] == 0.0;
  }

  lemma Ftcs3dNoDiffusion(v: seq<real>, a: real, dt: real, h2: real)
    requires |v| >= 7 && h2 != 0.0
    requires a == 0.0 || dt == 0.0
    ensures Ftcs3dUpdate(v, a, dt, h2) == v[0]
  {
  }

  /** Exchanging the ends of any one axis changes nothing. */
  lemma Ftcs3dSymmetric(v: seq<real>, a: real, dt: real, h2: real, axis: nat)
    requires |v| >= 7 && h2 != 0.0 && 1 <= axis <= 3
    ensures Ftcs3dUpdate(v[axis := v[axis + 3]][axis + 3 := v[axis]], a, dt, h2) == Ftcs3dUpdate(v, a, dt, h2)
  {
    var w := v[axis := v[axis + 3]][axis + 3 := v[axis]];
    assert w[1] + w[4] + w[2] + w[5] + w[3] + w[6] == v[1] + v[4] + v[2] + v[5] + v[3] + v[6];
  }

  // ---------------------------------------------------------------------
  // The rules on concrete meshes

  lemma Offset1d(n: nat, k: int)
    requires 0 <= k < n
    ensures Offset([n], [k]) == k
  {
    assert [n][1..] == [] && [k][1..] == [];
  }

  /** A line of n nodes: a one-dimensional array. */
  function Line(values: seq<real>): (s: NdArray)
    ensures s.Valid() && s.shape == [|values|] && s.data == values
  {
    assert [|values|][1..] == [];
    assert Size([|values|]) == |values| * Size([]);
    NdArray([|values|], values)
  }

  /** What `neighbors` reads at index k of a line of n nodes: node k, node
      n + k for k in [-n, 0) (numpy's wrap-around), and 0 anywhere else. */
  lemma LineValue(values: seq<real>, k: int)
    ensures NeighborValue(Line(values), [k]) ==
              if 0 <= k < |values| then values[k]
              else if -|values| <= k < 0 then values[|values| + k]
              else 0.0
  {
    var n, s := |values|, Line(values);
    if 0 <= k < n {
      NeighborValueInRange(s, [k]);
      Offset1d(n, k);
    } else if -n <= k < 0 {
      NeighborValueWraps(s, [k], 0);
      assert [k][0 := k + n] == [n + k];
      NeighborValueInRange(s, [n + k]);
      Offset1d(n, n + k);
    } else {
      NeighborValueOutside(s, [k], 0);
    }
  }

  /** Entry j of the values a rule sees is the neighbour value at the node
      shifted by offset j. */
  lemma ValsAt(m: MeshView, node: seq<int>, j: nat)
    requires Fits(m, node) && j < |m.params.stencil|
    ensures Vals(m, node)[j] == NeighborValue(m.state, Shift(node, m.params.stencil[j]))
  {
  }

  /** With the five-point stencil node [i, j] of a two-dimensional state
      reads itself, then [i + 1, j], [i, j + 1], [i - 1, j], [i, j - 1]: ftcs2d
      pairs vals[1] with vals[3] on the first axis and vals[2] with vals[4]
      on the second. */
  lemma FivePointIndices(s: NdArray, p: Params, i: int, j: int)
    requires s.Valid() && |s.shape| == 2 && p.stencil == FivePoint
    ensures Fits(MeshView(s, p), [i, j])
    ensures Vals(MeshView(s, p), [i, j]) ==
              [NeighborValue(s, [i, j]), NeighborValue(s, [i + 1, j]), NeighborValue(s, [i, j + 1]),
               NeighborValue(s, [i - 1, j]), NeighborValue(s, [i, j - 1])]
  {
    assert Shift([i, j], FivePoint[0]) == [i, j];
    assert Shift([i, j], FivePoint[1]) == [i + 1, j];
    assert Shift([i, j], FivePoint[2]) == [i, j + 1];
    assert Shift([i, j], FivePoint[3]) == [i - 1, j];
    assert Shift([i, j], FivePoint[4]) == [i, j - 1];
  }

  /** With the seven-point stencil node [i, j, l] of a three-dimensional
      state reads itself, the +1 neighbours of axes 0, 1, 2, then their -1
      neighbours: ftcs3d pairs (1, 4), (2, 5), (3, 6) axis by axis. */
  lemma SevenPointIndices(s: NdArray, p: Params, i: int, j: int, l: int)
    requires s.Valid() && |s.shape| == 3 && p.stencil == SevenPoint
    ensures Fits(MeshView(s, p), [i, j, l])
    ensures Vals(MeshView(s, p), [i, j, l]) ==
              [NeighborValue(s, [i, j, l]),
               NeighborValue(s, [i + 1, j, l]), NeighborValue(s, [i, j + 1, l]), NeighborValue(s, [i, j, l + 1]),
               NeighborValue(s, [i - 1, j, l]), NeighborValue(s, [i, j - 1, l]), NeighborValue(s, [i, j, l - 1])]
  {
    var m, node := MeshView(s, p), [i, j, l];
    var idx := [[i, j, l], [i + 1, j, l], [i, j + 1, l], [i, j, l + 1], [i - 1, j, l], [i, j - 1, l], [i, j, l - 1]];
    forall k | 0 <= k < 7
      ensures Vals(m, node)[k] == NeighborValue(s, idx[k])
    {
      ValsAt(m, node, k);
      assert Shift(node, SevenPoint[k]) == idx[k];
    }
  }


  /** With the three-point stencil a node of a one-dimensional state reads
      indices i - 1, i and i + 1, in that order. */
  lemma ThreePointIndices(s: NdArray, p: Params, i: int)
    requires s.Valid() && |s.shape| == 1 && p.stencil == ThreePoint
    ensures Fits(MeshView(s, p), [i])
    ensures Vals(MeshView(s, p), [i]) == [NeighborValue(s, [i - 1]), NeighborValue(s, [i]), NeighborValue(s, [i + 1])]
  {
    assert Shift([i], ThreePoint[0]) == [i - 1];
    assert Shift([i], ThreePoint[1]) == [i];
    assert Shift([i], ThreePoint[2]) == [i + 1];
  }

  /** On a line of n nodes with the three-point stencil, node i sees its
      left neighbour (node n - 1 when i is 0, through numpy's wrap-around),
      itself, and its right neighbour (0 past the last node). */
  lemma ThreePointNeighbours(values: seq<real>, p: Params, i: nat)
    requires i < |values| && p.stencil == ThreePoint
    ensures Fits(MeshView(Line(values), p), [i])
    ensures Vals(MeshView(Line(values), p), [i]) ==
              [if i == 0 then values[|values| - 1] else values[i - 1],
               values[i],
               if i == |values| - 1 then 0.0 else values[i + 1]]
  {
    ThreePointIndices(Line(values), p, i);
    LineValue(values, i - 1);
    LineValue(values, i);
    LineValue(values, i + 1);
  }

  /** ftcs1d on a line: node i takes the heat step from its left neighbour,
      itself and its right neighbour; the first node's left neighbour is the
      last node (wrap-around), the last node's right neighbour is 0. */
  lemma Ftcs1dOnLine(values: seq<real>, p: Params, i: nat, dt: real)
    requires i < |values| && p.stencil == ThreePoint && Square(p.ndSpacing) != 0.0
    ensures RuleFits(MeshView(Line(values), p), [i], 3)
    ensures var left := if i == 0 then values[|values| - 1] else values[i - 1];
            var right := if i == |values| - 1 then 0.0 else values[i + 1];
            Ftcs1d(MeshView(Line(values), p), [i], dt) ==
              values[i] + p.diffusivity * dt * ((left - 2.0 * values[i] + right) / Square(p.ndSpacing))
  {
    ThreePointNeighbours(values, p, i);
    var v := Vals(MeshView(Line(values), p), [i]);
    assert v[0] == (if i == 0 then values[|values| - 1] else values[i - 1]);
    assert v[1] == values[i];
    assert v[2] == (if i == |values| - 1 then 0.0 else values[i + 1]);
  }

  // ---------------------------------------------------------------------
  // The rules as arguments of explicit_sim

  /** ftcs1d can be handed to explicit_sim on any mesh whose stencil has at
      least three offsets, none shorter than the rank, and whose spacing does
      not square to 0. */
  lemma Ftcs1dAdmitted(p: Params, shape: seq<nat>, dt: real)
    requires StencilFits(p.stencil, |shape|) && |p.stencil| >= 3 && Square(p.ndSpacing) != 0.0
    ensures Admits(Pointwise(Ftcs1d), p, shape, dt)
  {
    forall s: NdArray, node: seq<nat> | s.shape == shape && s.Valid() && InRange(shape, node)
      ensures RuleFits(MeshView(s, p), node, 3)
    {
    }
  }

  lemma Ftcs2dAdmitted(p: Params, shape: seq<nat>, dt: real)
    requires StencilFits(p.stencil, |shape|) && |p.stencil| >= 5 && Square(p.ndSpacing) != 0.0
    ensures Admits(Pointwise(Ftcs2d), p, shape, dt)
  {
    forall s: NdArray, node: seq<nat> | s.shape == shape && s.Valid() && InRange(shape, node)
      ensures RuleFits(MeshView(s, p), node, 5)
    {
    }
  }

  lemma Ftcs3dAdmitted(p: Params, shape: seq<nat>, dt: real)
    requires StencilFits(p.stencil, |shape|) && |p.stencil| >= 7 && Square(p.ndSpacing) != 0.0
    ensures Admits(Pointwise(Ftcs3d), p, shape, dt)
  {
    forall s: NdArray, node: seq<nat> | s.shape == shape && s.Valid() && InRange(shape, node)
      ensures RuleFits(MeshView(s, p), node, 7)
    {
    }
  }

  /** One explicit_sim step of ftcs1d on a line: every node that is not
      pinned takes the heat step from the values of the old state, with the
      first node's left neighbour the last node and the last node's right
      neighbour 0. */
  lemma Ftcs1dStepOnLine(values: seq<real>, p: Params, dt: real, pins: seq<Pin>, i: nat)
    requires p.stencil == ThreePoint && Square(p.ndSpacing) != 0.0
    requires PinsFit(pins, [|values|]) && i < |values|
    requires forall k :: 0 <= k < |pins| ==> pins[k].pos != [i]
    ensures Admits(Pointwise(Ftcs1d), p, [|values|], dt)
    ensures var next := Step(p, Pointwise(Ftcs1d), dt, pins, Line(values));
            var left := if i == 0 then values[|values| - 1] else values[i - 1];
            var right := if i == |values| - 1 then 0.0 else values[i + 1];
            next.data[i] == values[i] + p.diffusivity * dt * ((left - 2.0 * values[i] + right) / Square(p.ndSpacing))
  {
    Ftcs1dAdmitted(p, [|values|], dt);
    var s := Line(values);
    StepUpdatesFreeNodes(p, Ftcs1d, dt, pins, s, [i]);
    Ftcs1dOnLine(values, p, i, dt);
    Offset1d(|values|, i);
  }
}
