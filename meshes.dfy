/** The `Mesh` class of meshstuff.py: a state that the drivers replace step
    by step, the stencil and parameters the update rules read, the optional
    list of pinned indices and the history of states. */
module Meshes {
  import opened NdArrays
  import opened Stepping

  /** How a driver call ends. FixedIndexError is the IndexError raised while
      capturing `self.state[i]` for a fixed index numpy rejects;
      EmptyIterationError is the ValueError numpy's nditer raises on an
      array with no elements. Neither changes the mesh. */
  datatype SimResult = Completed | FixedIndexError | EmptyIterationError

  /** The number of iterations of `range(n)`: none when n is negative. */
  function StepCount(n: int): (r: nat)
    ensures r >= n && (r == 0 || r == n)
  {
    if n < 0 then 0 else n
  }

  /** Fixed entries have a component per axis at least (a shorter tuple
      would pin a whole sub-array). */
  predicate FixedRanked(fixed: Option<seq<seq<int>>>, rank: nat) {
    fixed.Some? ==> forall k :: 0 <= k < |fixed.value| ==> |fixed.value[k]| >= rank
  }

  /** Appending the next state of a run to a history that ends with the
      run's states from `from` to `upto` - 1. */
  lemma AppendNext(history: seq<NdArray>, run: seq<NdArray>, from: nat, upto: nat)
    requires from <= upto < |run|
    ensures history + run[from..upto] + [run[upto]] == history + run[from..upto + 1]
  {
    assert run[from..upto + 1] == run[from..upto] + [run[upto]];
  }

  predicate CanCaptureFixed(s: NdArray, fixed: Option<seq<seq<int>>>) {
    fixed.Some? ==> CanCapture(s, fixed.value)
  }

  class Mesh {
    var state: NdArray
    var stencil: seq<seq<int>>
    var fixed: Option<seq<seq<int>>>
    var history: seq<NdArray>
    var diffusivity: real
    var ndSpacing: real

    ghost predicate Valid()
      reads this
    {
      state.Valid()
    }

    function Parameters(): Params
      reads this
    {
      Params(stencil, diffusivity, ndSpacing)
    }

    /** What an update rule is handed when called with this mesh. */
    function View(): MeshView
      reads this
    {
      MeshView(state, Parameters())
    }

    /** A fresh mesh: no pinned nodes, empty history, diffusivity and
        spacing 1. */
    constructor (initialState: NdArray, stencil: seq<seq<int>>)
      requires initialState.Valid()
      ensures Valid()
      ensures state == initialState && this.stencil == stencil
      ensures fixed == None && history == []
      ensures diffusivity == 1.0 && ndSpacing == 1.0
    {
      state := initialState;
      this.stencil := stencil;
      fixed := None;
      history := [];
      diffusivity := 1.0;
      ndSpacing := 1.0;
    }

    /** The neighbours of a node: for each stencil offset, in order, the
        node shifted by the offset and the value numpy finds there, 0 when
        the lookup raises. */
    method Neighbors(node: seq<int>) returns (indices: seq<seq<int>>, values: seq<real>)
      requires Fits(View(), node)
      ensures |indices| == |stencil| && |values| == |stencil|
      ensures forall j :: 0 <= j < |stencil| ==>
                |indices[j]| == |node| &&
                forall i :: 0 <= i < |node| ==> indices[j][i] == node[i] + stencil[j][i]
      ensures forall j :: 0 <= j < |stencil| ==> values[j] == NeighborValue(state, indices[j])
      ensures (indices, values) == NeighborsOf(View(), node)
    {
      indices := [];
      for j := 0 to |stencil|
        invariant |indices| == j
        invariant forall t :: 0 <= t < j ==> indices[t] == Shift(node, stencil[t])
      {
        var shifted := [];
        for i := 0 to |node|
          invariant |shifted| == i
          invariant forall t :: 0 <= t < i ==> shifted[t] == node[t] + stencil[j][t]
        {
          shifted := shifted + [node[i] + stencil[j][i]];
        }
        assert shifted == Shift(node, stencil[j]);
        indices := indices + [shifted];
      }
      values := [];
      for j := 0 to |indices|
        invariant |values| == j
        invariant forall t :: 0 <= t < j ==> values[t] == NeighborValue(state, indices[t])
      {
        var found := Lookup(state, indices[j]);
        if found.Some? {
          values := values + [found.value];
        } else {
          values := values + [0.0];
        }
      }
      assert indices == NeighborsOf(View(), node).0;
      assert values == NeighborsOf(View(), node).1;
    }

    /** Captures `self.state[i]` for every fixed index, in order; None when
        numpy rejects one of them. */
    method CaptureFixed() returns (pins: Option<seq<Pin>>)
      requires Valid()
      ensures pins.Some? <==> CanCaptureFixed(state, fixed)
      ensures pins.Some? ==> pins.value == PinsOf(state, fixed)
    {
      if fixed.None? {
        return Some([]);
      }
      var fx := fixed.value;
      var captured: seq<Pin> := [];
      for k := 0 to |fx|
        invariant CanCapture(state, fx[..k])
        invariant captured == Capture(state, fx[..k])
      {
        if !IsIndex(state.shape, fx[k]) {
          return None;
        }
        var pos := Normalize(state.shape, fx[k]);
        captured := captured + [Pin(pos, At(state, pos))];
      }
      assert fx[..|fx|] == fx;
      pins := Some(captured);
    }

    /** One sweep of nditer: a fresh buffer holding the rule's value at every
        node, all computed from the current state. */
    method FillBuffer(update: (MeshView, seq<int>, real) --> real, stepsize: real) returns (next: array<real>)
      requires Valid() && Admits(Pointwise(update), Parameters(), state.shape, stepsize)
      ensures fresh(next)
      ensures next[..] == Fresh(Parameters(), Pointwise(update), stepsize, state)
    {
      var shape := state.shape;
      next := new real[Size(shape)];
      for q := 0 to next.Length
        invariant forall r :: 0 <= r < q ==> next[r] == update(View(), MultiIndex(shape, r), stepsize)
      {
        next[q] := update(View(), MultiIndex(shape, q), stepsize);
      }
    }

    /** `nextstate[self.fixed[i]] = fixedvals[i]` for every i, in order. */
    static method PinBuffer(next: array<real>, shape: seq<nat>, pins: seq<Pin>)
      requires next.Length == Size(shape) && PinsFit(pins, shape)
      modifies next
      ensures next[..] == PinAll(old(next[..]), shape, pins)
    {
      for k := 0 to |pins|
        invariant next[..] == PinAll(old(next[..]), shape, pins[..k])
      {
        next[Offset(shape, pins[k].pos)] := pins[k].value;
        assert pins[..k + 1][..k] == pins[..k];
      }
      assert pins[..|pins|] == pins;
    }

    /** `self.state[self.fixed[i]] = fixedvals[i]` for every i, in order. */
    method PinState(pins: seq<Pin>)
      requires Valid() && PinsFit(pins, state.shape)
      modifies this`state
      ensures state == NdArray(old(state).shape, PinAll(old(state).data, old(state).shape, pins))
    {
      ghost var start := state;
      for k := 0 to |pins|
        invariant state == NdArray(start.shape, PinAll(start.data, start.shape, pins[..k]))
      {
        state := state.(data := state.data[Offset(state.shape, pins[k].pos) := pins[k].value]);
        assert pins[..k + 1][..k] == pins[..k];
      }
      assert pins[..|pins|] == pins;
    }

    /** One step of `explicit_sim`'s loop. */
    method ExplicitStep(update: (MeshView, seq<int>, real) --> real, stepsize: real, pins: seq<Pin>)
      requires Valid() && Admits(Pointwise(update), Parameters(), state.shape, stepsize)
      requires PinsFit(pins, state.shape)
      modifies this
      ensures Valid() && Parameters() == old(Parameters()) && fixed == old(fixed)
      ensures state == Step(Parameters(), Pointwise(update), stepsize, pins, old(state))
      ensures history == old(history) + [state]
    {
      var next := FillBuffer(update, stepsize);
      PinBuffer(next, state.shape, pins);
      state := NdArray(state.shape, next[..]);
      history := history + [state];
    }

    /** One step of `implicit_sim`'s loop. */
    method ImplicitStep(solve: (MeshView, real) --> NdArray, stepsize: real, pins: seq<Pin>)
      requires Valid() && Admits(Global(solve), Parameters(), state.shape, stepsize)
      requires PinsFit(pins, state.shape)
      modifies this
      ensures Valid() && Parameters() == old(Parameters()) && fixed == old(fixed)
      ensures state == Step(Parameters(), Global(solve), stepsize, pins, old(state))
      ensures history == old(history) + [old(state)]
    {
      ghost var before := state;
      var solved := solve(View(), stepsize);
      assert solved.shape == before.shape && solved.Valid();
      history := history + [state];
      state := solved;
      PinState(pins);
      assert state.data == PinAll(Fresh(Parameters(), Global(solve), stepsize, before), before.shape, pins);
    }

    /** The step loop of `explicit_sim`, once the fixed values are captured. */
    method RunExplicit(update: (MeshView, seq<int>, real) --> real, steps: nat, stepsize: real, pins: seq<Pin>)
      requires Valid() && Admits(Pointwise(update), Parameters(), state.shape, stepsize)
      requires PinsFit(pins, state.shape)
      modifies this
      ensures Valid() && Parameters() == old(Parameters()) && fixed == old(fixed)
      ensures var run := States(Parameters(), Pointwise(update), stepsize, pins, old(state), steps);
              state == run[steps] && history == old(history) + run[1..]
    {
      ghost var p := Parameters();
      ghost var run := States(p, Pointwise(update), stepsize, pins, state, steps);
      for t := 0 to steps
        invariant Valid() && Parameters() == p && fixed == old(fixed)
        invariant state == run[t] && history == old(history) + run[1..t + 1]
      {
        ExplicitStep(update, stepsize, pins);
        StatesStep(p, Pointwise(update), stepsize, pins, run[0], steps, t + 1);
        AppendNext(old(history), run, 1, t + 1);
      }
    }

    /** The step loop of `implicit_sim`, once the fixed values are captured. */
    method RunImplicit(solve: (MeshView, real) --> NdArray, steps: nat, stepsize: real, pins: seq<Pin>)
      requires Valid() && Admits(Global(solve), Parameters(), state.shape, stepsize)
      requires PinsFit(pins, state.shape)
      modifies this
      ensures Valid() && Parameters() == old(Parameters()) && fixed == old(fixed)
      ensures var run := States(Parameters(), Global(solve), stepsize, pins, old(state), steps);
              state == run[steps] && history == old(history) + run[..steps]
    {
      ghost var p := Parameters();
      ghost var run := States(p, Global(solve), stepsize, pins, state, steps);
      for t := 0 to steps
        invariant Valid() && Parameters() == p && fixed == old(fixed)
        invariant state == run[t] && history == old(history) + run[..t]
      {
        ImplicitStep(solve, stepsize, pins);
        StatesStep(p, Global(solve), stepsize, pins, run[0], steps, t + 1);
        AppendNext(old(history), run, 0, t);
      }
    }

    /** `explicit_sim`: each step fills a fresh buffer with the rule's value
        at every node (the rule reading the unchanged old state), writes the
        captured values over the fixed nodes, makes the buffer the state and
        appends it to the history. */
    method ExplicitSim(update: (MeshView, seq<int>, real) --> real, numSteps: int, stepsize: real)
      returns (result: SimResult)
      requires Valid() && FixedRanked(fixed, |state.shape|)
      requires Admits(Pointwise(update), Parameters(), state.shape, stepsize)
      modifies this
      ensures Valid()
      ensures stencil == old(stencil) && fixed == old(fixed)
      ensures diffusivity == old(diffusivity) && ndSpacing == old(ndSpacing)
      ensures result == FixedIndexError <==> !CanCaptureFixed(old(state), fixed)
      ensures result == EmptyIterationError <==>
                CanCaptureFixed(old(state), fixed) && numSteps > 0 && Size(old(state).shape) == 0
      ensures result != Completed ==> state == old(state) && history == old(history)
      ensures result == Completed ==>
                var run := States(Parameters(), Pointwise(update), stepsize,
                                  PinsOf(old(state), fixed), old(state), StepCount(numSteps));
                state == run[StepCount(numSteps)] && history == old(history) + run[1..]
    {
      var captured := CaptureFixed();
      if captured.None? {
        return FixedIndexError;
      }
      var pins := captured.value;
      var shape := state.shape;
      var steps := StepCount(numSteps);
      if steps > 0 && Size(shape) == 0 {
        return EmptyIterationError;
      }
      RunExplicit(update, steps, stepsize, pins);
      return Completed;
    }

    /** `implicit_sim`: each step appends the current state to the history,
        takes the rule's new state and writes the captured values over its
        fixed nodes. */
    method ImplicitSim(solve: (MeshView, real) --> NdArray, numSteps: int, stepsize: real)
      returns (result: SimResult)
      requires Valid() && FixedRanked(fixed, |state.shape|)
      requires Admits(Global(solve), Parameters(), state.shape, stepsize)
      modifies this
      ensures Valid()
      ensures stencil == old(stencil) && fixed == old(fixed)
      ensures diffusivity == old(diffusivity) && ndSpacing == old(ndSpacing)
      ensures result != EmptyIterationError
      ensures result == FixedIndexError <==> !CanCaptureFixed(old(state), fixed)
      ensures result != Completed ==> state == old(state) && history == old(history)
      ensures result == Completed ==>
                var run := States(Parameters(), Global(solve), stepsize,
                                  PinsOf(old(state), fixed), old(state), StepCount(numSteps));
                state == run[StepCount(numSteps)] && history == old(history) + run[..StepCount(numSteps)]
    {
      var captured := CaptureFixed();
      if captured.None? {
        return FixedIndexError;
      }
      var pins := captured.value;
      var steps := StepCount(numSteps);
      RunImplicit(solve, steps, stepsize, pins);
      return Completed;
    }
  }
}
