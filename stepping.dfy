/** The value-level half of meshstuff.py: what `Mesh.neighbors` computes,
    what one step of `explicit_sim` or `implicit_sim` makes of a state, and
    the sequence of states a run of either produces. The class in meshes.dfy
    is proved against these functions. */
module Stepping {
  import opened NdArrays

  /** The mesh fields an update rule reads besides the state. */
  datatype Params = Params(stencil: seq<seq<int>>, diffusivity: real, ndSpacing: real)

  /** What an update rule is handed: the mesh's current state and parameters. */
  datatype MeshView = MeshView(state: NdArray, params: Params)

  /** Every offset has at least one component per axis; `zip` drops the rest. */
  predicate StencilFits(stencil: seq<seq<int>>, rank: nat) {
    forall j :: 0 <= j < |stencil| ==> |stencil[j]| >= rank
  }

  /** A node `neighbors` can be asked about: one component per axis. */
  predicate Fits(m: MeshView, node: seq<int>) {
    m.state.Valid() && |node| == |m.state.shape| && StencilFits(m.params.stencil, |node|)
  }

  /** `[this_i + diff for this_i, diff in zip(node, offset)]` */
  function Shift(node: seq<int>, offset: seq<int>): (r: seq<int>)
    requires |offset| >= |node|
    ensures |r| == |node| && forall i :: 0 <= i < |r| ==> r[i] - node[i] == offset[i]
  {
    seq(|node|, i requires 0 <= i < |node| => node[i] + offset[i])
  }

  /** The value `neighbors` records for one neighbour index: what numpy finds
      there, or 0 when the lookup raises. */
  function NeighborValue(a: NdArray, idx: seq<int>): (v: real)
    requires a.Valid()
    ensures v in a.data || v == 0.0
    ensures !IsIndex(a.shape, idx) ==> v == 0.0
  {
    match Lookup(a, idx)
    case Some(v) => v
    case None => 0.0
  }

  /** The pair of lists `neighbors` returns: one index and one value per
      stencil offset, in stencil order. */
  function NeighborsOf(m: MeshView, node: seq<int>): (r: (seq<seq<int>>, seq<real>))
    requires Fits(m, node)
    ensures |r.0| == |m.params.stencil| && |r.1| == |m.params.stencil|
  {
    var stencil := m.params.stencil;
    var indices := seq(|stencil|, j requires 0 <= j < |stencil| => Shift(node, stencil[j]));
    (indices, seq(|indices|, j requires 0 <= j < |indices| => NeighborValue(m.state, indices[j])))
  }

  /** A neighbour inside the array has the value stored there. */
  lemma NeighborValueInRange(a: NdArray, idx: seq<int>)
    requires a.Valid() && InRange(a.shape, idx)
    ensures NeighborValue(a, idx) == At(a, idx)
  {
    LookupInRange(a, idx);
  }

  /** A component k in [-n, 0) is not out of range: numpy reads index n + k. */
  lemma NeighborValueWraps(a: NdArray, idx: seq<int>, i: nat)
    requires a.Valid() && |idx| == |a.shape| && i < |idx|
    requires -a.shape[i] <= idx[i] < 0
    ensures NeighborValue(a, idx) == NeighborValue(a, idx[i := idx[i] + a.shape[i]])
  {
    LookupWraps(a, idx, i);
  }

  /** A component at or beyond n, or below -n, gives exactly 0. */
  lemma NeighborValueOutside(a: NdArray, idx: seq<int>, i: nat)
    requires a.Valid() && |idx| == |a.shape| && i < |idx|
    requires idx[i] >= a.shape[i] || idx[i] < -(a.shape[i] as int)
    ensures NeighborValue(a, idx) == 0.0
  {
  }

  /** The two kinds of update rule the drivers accept: `explicit_sim` asks
      for a node's next value, `implicit_sim` for a whole next state. */
  datatype Rule =
    | Pointwise(update: (MeshView, seq<int>, real) --> real)
    | Global(solve: (MeshView, real) --> NdArray)

  /** The rule can be applied to every state of the given shape (and, for a
      pointwise rule, at every node of it), and a global rule returns a
      state of the same shape. */
  ghost predicate Admits(rule: Rule, p: Params, shape: seq<nat>, dt: real) {
    match rule
    case Pointwise(update) =>
      forall s: NdArray, node: seq<nat> | s.shape == shape && s.Valid() && InRange(shape, node) ::
        update.requires(MeshView(s, p), node, dt)
    case Global(solve) =>
      forall s: NdArray {:trigger solve.requires(MeshView(s, p), dt)} | s.shape == shape && s.Valid() ::
        solve.requires(MeshView(s, p), dt) &&
        solve(MeshView(s, p), dt).shape == shape && solve(MeshView(s, p), dt).Valid()
  }

  /** A pinned node: where it is (normalised) and the value captured there. */
  datatype Pin = Pin(pos: seq<nat>, value: real)

  predicate PinsFit(pins: seq<Pin>, shape: seq<nat>) {
    forall k :: 0 <= k < |pins| ==> InRange(shape, pins[k].pos)
  }

  /** Each pin holds the value its node had in state s. */
  predicate PinnedFrom(pins: seq<Pin>, s: NdArray)
    requires s.Valid()
  {
    PinsFit(pins, s.shape) && forall k :: 0 <= k < |pins| ==> pins[k].value == At(s, pins[k].pos)
  }

  /** Every fixed index is one numpy accepts for this state. */
  predicate CanCapture(s: NdArray, fixed: seq<seq<int>>) {
    forall k :: 0 <= k < |fixed| ==> IsIndex(s.shape, fixed[k])
  }

  /** The pins captured from `fixedvals.append(self.state[i])`. */
  function Capture(s: NdArray, fixed: seq<seq<int>>): (pins: seq<Pin>)
    requires s.Valid() && CanCapture(s, fixed)
    ensures PinnedFrom(pins, s)
    ensures |pins| == |fixed|
    ensures forall k :: 0 <= k < |fixed| ==>
              pins[k].pos == Normalize(s.shape, fixed[k]) && Lookup(s, fixed[k]) == Some(pins[k].value)
  {
    seq(|fixed|, k requires 0 <= k < |fixed| =>
      var pos := Normalize(s.shape, fixed[k]); Pin(pos, At(s, pos)))
  }

  /** The pins a driver captures: none when `fixed` is None. */
  function PinsOf(s: NdArray, fixed: Option<seq<seq<int>>>): (pins: seq<Pin>)
    requires s.Valid() && (fixed.Some? ==> CanCapture(s, fixed.value))
    ensures PinnedFrom(pins, s)
    ensures fixed.None? ==> pins == []
    ensures fixed.Some? ==> |pins| == |fixed.value|
    ensures fixed.Some? ==> forall k :: 0 <= k < |pins| ==> Lookup(s, fixed.value[k]) == Some(pins[k].value)
  {
    match fixed
    case None => []
    case Some(f) => Capture(s, f)
  }

  /** The pinning loop: pins written into the buffer one after another. */
  function PinAll(data: seq<real>, shape: seq<nat>, pins: seq<Pin>): (r: seq<real>)
    requires |data| == Size(shape) && PinsFit(pins, shape)
    ensures |r| == |data|
    decreases |pins|
  {
    if |pins| == 0 then data
    else
      var last := pins[|pins| - 1];
      PinAll(data, shape, pins[..|pins| - 1])[Offset(shape, last.pos) := last.value]
  }

  /** Pinning leaves every pinned node with its captured value, whatever the
      order of the pins. */
  lemma {:induction false} PinAllHolds(data: seq<real>, pins: seq<Pin>, s: NdArray, k: nat)
    requires s.Valid() && |data| == Size(s.shape) && PinnedFrom(pins, s) && k < |pins|
    ensures PinAll(data, s.shape, pins)[Offset(s.shape, pins[k].pos)] == At(s, pins[k].pos)
    decreases |pins|
  {
    var n := |pins| - 1;
    var last := pins[n];
    if k < n {
      assert PinnedFrom(pins[..n], s);
      PinAllHolds(data, pins[..n], s, k);
      OffsetInjective(s.shape, pins[k].pos, last.pos);
    }
  }

  /** Pinning leaves every other buffer position alone. */
  lemma {:induction false} PinAllElsewhere(data: seq<real>, shape: seq<nat>, pins: seq<Pin>, q: nat)
    requires |data| == Size(shape) && PinsFit(pins, shape) && q < |data|
    requires forall k :: 0 <= k < |pins| ==> Offset(shape, pins[k].pos) != q
    ensures PinAll(data, shape, pins)[q] == data[q]
    decreases |pins|
  {
    if |pins| > 0 {
      PinAllElsewhere(data, shape, pins[..|pins| - 1], q);
    }
  }

  /** The values the rule gives before pinning: for a pointwise rule the
      buffer filled in nditer order from the unchanged old state, for a
      global rule the state it returns. */
  function Fresh(p: Params, rule: Rule, dt: real, s: NdArray): (r: seq<real>)
    requires s.Valid() && Admits(rule, p, s.shape, dt)
    ensures |r| == Size(s.shape)
  {
    match rule
    case Pointwise(update) =>
      seq(Size(s.shape), q requires 0 <= q < Size(s.shape) =>
        update(MeshView(s, p), MultiIndex(s.shape, q), dt))
    case Global(solve) =>
      assert solve.requires(MeshView(s, p), dt);
      var next := solve(MeshView(s, p), dt);
      assert next.shape == s.shape && next.Valid();
      next.data
  }

  /** One time step: the rule's values with the pins written over them. */
  function Step(p: Params, rule: Rule, dt: real, pins: seq<Pin>, s: NdArray): (r: NdArray)
    requires s.Valid() && Admits(rule, p, s.shape, dt) && PinsFit(pins, s.shape)
    ensures r.shape == s.shape && r.Valid()
  {
    NdArray(s.shape, PinAll(Fresh(p, rule, dt, s), s.shape, pins))
  }

  /** The states s0, s1, ..., sn of an n-step run from s0. */
  function States(p: Params, rule: Rule, dt: real, pins: seq<Pin>, s0: NdArray, n: nat): (r: seq<NdArray>)
    requires s0.Valid() && Admits(rule, p, s0.shape, dt) && PinsFit(pins, s0.shape)
    ensures |r| == n + 1 && r[0] == s0
    ensures forall k :: 0 <= k < |r| ==> r[k].shape == s0.shape && r[k].Valid()
    decreases n
  {
    if n == 0 then [s0]
    else
      var prev := States(p, rule, dt, pins, s0, n - 1);
      prev + [Step(p, rule, dt, pins, prev[n - 1])]
  }

  /** In an explicit step every node that is not pinned gets the rule's value
      for that node, computed from the state before the step. */
  lemma StepUpdatesFreeNodes(p: Params, update: (MeshView, seq<int>, real) --> real, dt: real,
                             pins: seq<Pin>, s: NdArray, node: seq<nat>)
    requires s.Valid() && Admits(Pointwise(update), p, s.shape, dt) && PinsFit(pins, s.shape)
    requires InRange(s.shape, node)
    requires forall k :: 0 <= k < |pins| ==> pins[k].pos != node
    ensures update.requires(MeshView(s, p), node, dt)
    ensures At(Step(p, Pointwise(update), dt, pins, s), node) == update(MeshView(s, p), node, dt)
  {
    var q := Offset(s.shape, node);
    forall k | 0 <= k < |pins|
      ensures Offset(s.shape, pins[k].pos) != q
    {
      OffsetInjective(s.shape, pins[k].pos, node);
    }
    PinAllElsewhere(Fresh(p, Pointwise(update), dt, s), s.shape, pins, q);
    MultiIndexOfOffset(s.shape, node);
  }

  /** After a step every pinned node holds the value captured from s0. */
  lemma StepKeepsPins(p: Params, rule: Rule, dt: real, pins: seq<Pin>, s0: NdArray, s: NdArray, k: nat)
    requires s0.Valid() && s.Valid() && s.shape == s0.shape
    requires Admits(rule, p, s.shape, dt) && PinnedFrom(pins, s0) && k < |pins|
    ensures At(Step(p, rule, dt, pins, s), pins[k].pos) == At(s0, pins[k].pos)
  {
    PinAllHolds(Fresh(p, rule, dt, s), pins, s0, k);
  }

  lemma StatesUnfold(p: Params, rule: Rule, dt: real, pins: seq<Pin>, s0: NdArray, n: nat)
    requires s0.Valid() && Admits(rule, p, s0.shape, dt) && PinsFit(pins, s0.shape) && n > 0
    ensures var prev := States(p, rule, dt, pins, s0, n - 1);
            States(p, rule, dt, pins, s0, n) == prev + [Step(p, rule, dt, pins, prev[n - 1])]
  {
  }

  lemma ExtendedPrefix(a: seq<NdArray>, x: NdArray, k: nat)
    requires k <= |a|
    ensures (a + [x])[..k] == a[..k]
  {
  }

  /** A shorter run is a prefix of a longer one. */
  lemma {:induction false} StatesPrefix(p: Params, rule: Rule, dt: real, pins: seq<Pin>, s0: NdArray, m: nat, n: nat)
    requires s0.Valid() && Admits(rule, p, s0.shape, dt) && PinsFit(pins, s0.shape) && m <= n
    ensures States(p, rule, dt, pins, s0, n)[..m + 1] == States(p, rule, dt, pins, s0, m)
    decreases n
  {
    if m < n {
      StatesPrefix(p, rule, dt, pins, s0, m, n - 1);
      var prev := States(p, rule, dt, pins, s0, n - 1);
      StatesUnfold(p, rule, dt, pins, s0, n);
      ExtendedPrefix(prev, Step(p, rule, dt, pins, prev[n - 1]), m + 1);
    }
  }

  /** Each state of a run is one step from the one before it. */
  lemma StatesStep(p: Params, rule: Rule, dt: real, pins: seq<Pin>, s0: NdArray, n: nat, j: nat)
    requires s0.Valid() && Admits(rule, p, s0.shape, dt) && PinsFit(pins, s0.shape)
    requires 1 <= j <= n
    ensures var run := States(p, rule, dt, pins, s0, n);
            run[j] == Step(p, rule, dt, pins, run[j - 1])
  {
    StatesPrefix(p, rule, dt, pins, s0, j, n);
    var run := States(p, rule, dt, pins, s0, n);
    assert run[j] == run[..j + 1][j] && run[j - 1] == run[..j + 1][j - 1];
  }

  /** Every fixed index reads, in every state of a run, the value it had
      when the pins were captured. */
  lemma StatesKeepFixed(p: Params, rule: Rule, dt: real, fixed: seq<seq<int>>, s0: NdArray, n: nat, j: nat, k: nat)
    requires s0.Valid() && Admits(rule, p, s0.shape, dt) && CanCapture(s0, fixed)
    requires j <= n && k < |fixed|
    ensures var run := States(p, rule, dt, Capture(s0, fixed), s0, n);
            Lookup(run[j], fixed[k]) == Lookup(s0, fixed[k])
  {
    var pins := Capture(s0, fixed);
    var run := States(p, rule, dt, pins, s0, n);
    if j > 0 {
      StatesStep(p, rule, dt, pins, s0, n, j);
      StepKeepsPins(p, rule, dt, pins, s0, run[j - 1], k);
    }
  }

  /** A run of m + n steps continues, after its first m steps, as a run of
      n steps from the state reached. */
  lemma {:induction false} StatesResume(p: Params, rule: Rule, dt: real, pins: seq<Pin>, s0: NdArray, m: nat, n: nat, j: nat)
    requires s0.Valid() && Admits(rule, p, s0.shape, dt) && PinsFit(pins, s0.shape) && j <= n
    ensures var whole := States(p, rule, dt, pins, s0, m + n);
            whole[m + j] == States(p, rule, dt, pins, whole[m], n)[j]
    decreases j
  {
    if j > 0 {
      StatesResume(p, rule, dt, pins, s0, m, n, j - 1);
      var whole := States(p, rule, dt, pins, s0, m + n);
      StatesStep(p, rule, dt, pins, s0, m + n, m + j);
      StatesStep(p, rule, dt, pins, whole[m], n, j);
    }
  }

  /** Capturing the fixed values again from any state of a run gives back
      the pins it was run with. */
  lemma StatesRecapture(p: Params, rule: Rule, dt: real, fixed: seq<seq<int>>, s0: NdArray, n: nat, j: nat)
    requires s0.Valid() && Admits(rule, p, s0.shape, dt) && CanCapture(s0, fixed) && j <= n
    ensures var run := States(p, rule, dt, Capture(s0, fixed), s0, n);
            CanCapture(run[j], fixed) && Capture(run[j], fixed) == Capture(s0, fixed)
  {
    var pins := Capture(s0, fixed);
    var run := States(p, rule, dt, pins, s0, n);
    if j > 0 {
      StatesStep(p, rule, dt, pins, s0, n, j);
      forall k | 0 <= k < |fixed|
        ensures Capture(run[j], fixed)[k] == pins[k]
      {
        StepKeepsPins(p, rule, dt, pins, s0, run[j - 1], k);
      }
    }
  }

  /** Two consecutive driver runs of m and n steps, each capturing the fixed
      values when it starts, go through the same states as one run of m + n
      steps: the second run captures the same pins as the first, and its
      state j is state m + j of the long run (the first run is the long
      run's prefix, StatesPrefix). */
  lemma RunsCompose(p: Params, rule: Rule, dt: real, fixed: Option<seq<seq<int>>>, s0: NdArray, m: nat, n: nat, j: nat)
    requires s0.Valid() && Admits(rule, p, s0.shape, dt) && j <= n
    requires fixed.Some? ==> CanCapture(s0, fixed.value)
    ensures var whole := States(p, rule, dt, PinsOf(s0, fixed), s0, m + n);
            (fixed.Some? ==> CanCapture(whole[m], fixed.value)) &&
            PinsOf(whole[m], fixed) == PinsOf(s0, fixed) &&
            whole[m + j] == States(p, rule, dt, PinsOf(whole[m], fixed), whole[m], n)[j]
  {
    var pins := PinsOf(s0, fixed);
    var whole := States(p, rule, dt, pins, s0, m + n);
    if fixed.Some? {
      StatesRecapture(p, rule, dt, fixed.value, s0, m + n, m);
      assert PinsOf(whole[m], fixed) == pins;
    }
    StatesResume(p, rule, dt, pins, s0, m, n, j);
  }
}
