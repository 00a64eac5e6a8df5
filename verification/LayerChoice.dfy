/** The simulcast layer a video tile asks for, with hysteresis
    (load_tests/src/browser_profile.rs). Widths are in device pixels, as reals. */
module LayerChoice {

  import opened Wrappers

  const TOP: nat := 2
  const UP_MARGIN: real := 1.15
  const DOWN_MARGIN: real := 0.85

  function LayerWidth(layer: nat): real
    requires layer <= TOP
  {
    if layer == 0 then 320.0 else if layer == 1 then 640.0 else 1280.0
  }

  function Needed(renderedWidth: real, pixelRatio: real): real {
    var ratio := if pixelRatio > 1.0 then pixelRatio else 1.0;
    (if renderedWidth > 0.0 then renderedWidth else 0.0) * ratio
  }

  /** The lowest layer that covers the tile, or the top one. */
  function Target(needed: real): (layer: nat)
    ensures layer <= TOP
    ensures needed <= LayerWidth(layer) || layer == TOP
    ensures forall l | 0 <= l < layer :: needed > LayerWidth(l)
  {
    if needed <= LayerWidth(0) then 0 else if needed <= LayerWidth(1) then 1 else 2
  }

  /** `layer_for_width` once the needed width is known; an unknown layer counts as none. */
  function LayerFor(needed: real, current: Option<nat>): (layer: nat)
    ensures layer <= TOP
  {
    var target := Target(needed);
    if current.None? || current.value > TOP then target
    else if target > current.value then
      (if needed > LayerWidth(current.value) * UP_MARGIN then target else current.value)
    else if target < current.value then
      (if needed < LayerWidth(target) * DOWN_MARGIN then target else current.value)
    else current.value
  }

  /** The needed width is the tile's, scaled up on a dense display and never below zero. */
  lemma NeededScales(renderedWidth: real, pixelRatio: real)
    ensures renderedWidth <= 0.0 ==> Needed(renderedWidth, pixelRatio) == 0.0
    ensures renderedWidth > 0.0 && pixelRatio <= 1.0 ==> Needed(renderedWidth, pixelRatio) == renderedWidth
    ensures renderedWidth > 0.0 && pixelRatio >= 1.0 ==> Needed(renderedWidth, pixelRatio) == renderedWidth * pixelRatio
  {}

  /** Exactly when a tile changes its layer: up, to the layer it needs, once it outgrows the
      current one by 15 %, and down, to the layer it needs, once it is 15 % below that one. */
  lemma HysteresisIsExact(needed: real, l: nat)
    requires l <= 2
    ensures var widths, target, layer := [320.0, 640.0, 1280.0], Target(needed), LayerFor(needed, Some(l));
            && target == (if needed <= 320.0 then 0 else if needed <= 640.0 then 1 else 2)
            && (layer > l <==> l < 2 && needed > 1.15 * widths[l])
            && (layer < l <==> target < l && needed < 0.85 * widths[target])
            && (layer != l ==> layer == target)
  {}

  /** A tile without a layer, or with one that does not exist, gets the one it needs. */
  lemma FirstLayer(needed: real, current: Option<nat>)
    requires current.None? || current.value > 2
    ensures LayerFor(needed, current) == Target(needed)
  {}

  // ------------------------------------------------------------------------ one tile

  /** The layers of one tile: `layers[k]` before and `layers[k + 1]` after step `k`, which
      lays the tile out at the needed width or, with no width, leaves it alone. */
  predicate IsTile(needed: seq<Option<real>>, layers: seq<nat>) {
    && |layers| == |needed| + 1
    && layers[0] <= TOP
    && forall k {:trigger needed[k]} | 0 <= k < |needed| ::
         layers[k + 1] == if needed[k].Some? then LayerFor(needed[k].value, Some(layers[k])) else layers[k]
  }

  lemma {:induction false} LayersExist(needed: seq<Option<real>>, layers: seq<nat>, k: nat)
    requires IsTile(needed, layers) && k < |layers|
    ensures layers[k] <= TOP
  {
    if k > 0 {
      LayersExist(needed, layers, k - 1);
      var _ := needed[k - 1];
    }
  }

  /** After every layout the layer covers the tile up to the upper margin, or is the top
      one; and it is higher than needed only while the tile is not clearly smaller. */
  lemma LayerSuffices(needed: real, current: Option<nat>)
    ensures var layer := LayerFor(needed, current);
            && (layer == TOP || needed <= UP_MARGIN * LayerWidth(layer))
            && (layer > Target(needed) ==> needed >= DOWN_MARGIN * LayerWidth(Target(needed)))
            && (layer < Target(needed) ==> current == Some(layer))
  {}

  predicate Up(layers: seq<nat>, k: nat)
    requires k + 1 < |layers|
  {
    layers[k] < layers[k + 1]
  }

  predicate Down(layers: seq<nat>, k: nat)
    requires k + 1 < |layers|
  {
    layers[k] > layers[k + 1]
  }

  /** The widths it is laid out at differ pairwise by no more than a factor of 20/17. */
  predicate Steady(needed: seq<Option<real>>) {
    forall a, b | 0 <= a < |needed| && 0 <= b < |needed| && needed[a].Some? && needed[b].Some? ::
      17.0 * needed[a].value <= 20.0 * needed[b].value
  }

  predicate Wider(needed: Option<real>, width: real) {
    needed.Some? && needed.value > width
  }

  predicate Narrower(needed: Option<real>, width: real) {
    needed.Some? && needed.value < width
  }

  /** Some layout before `j` showed the tile too wide for the layer below. */
  predicate Outgrown(needed: seq<Option<real>>, layers: seq<nat>, j: nat)
    requires j < |layers| && j <= |needed|
  {
    1 <= layers[j] <= TOP && exists p :: 0 <= p < j && Wider(needed[p], LayerWidth(layers[j] - 1))
  }

  /** Some layout before `j` showed the tile well within its layer. */
  predicate Shrunk(needed: seq<Option<real>>, layers: seq<nat>, j: nat)
    requires j < |layers| && j <= |needed|
  {
    layers[j] <= TOP && exists p :: 0 <= p < j && Narrower(needed[p], DOWN_MARGIN * LayerWidth(layers[j]))
  }

  lemma StaysOutgrown(needed: seq<Option<real>>, layers: seq<nat>, j: nat)
    requires IsTile(needed, layers) && Steady(needed) && j < |needed|
    requires Up(layers, j) || Outgrown(needed, layers, j)
    ensures !Down(layers, j) && Outgrown(needed, layers, j + 1)
  {
    LayersExist(needed, layers, j);
    var n := needed[j];
    if Up(layers, j) {
      assert Wider(n, LayerWidth(layers[j + 1] - 1));
    } else {
      var p :| 0 <= p < j && Wider(needed[p], LayerWidth(layers[j] - 1));
      assert n.Some? ==> 17.0 * needed[p].value <= 20.0 * n.value;
    }
  }

  lemma StaysShrunk(needed: seq<Option<real>>, layers: seq<nat>, j: nat)
    requires IsTile(needed, layers) && Steady(needed) && j < |needed|
    requires Down(layers, j) || Shrunk(needed, layers, j)
    ensures !Up(layers, j) && Shrunk(needed, layers, j + 1)
  {
    LayersExist(needed, layers, j);
    var n := needed[j];
    if Down(layers, j) {
      assert Narrower(n, DOWN_MARGIN * LayerWidth(layers[j + 1]));
    } else {
      var p :| 0 <= p < j && Narrower(needed[p], DOWN_MARGIN * LayerWidth(layers[j]));
      assert n.Some? ==> 17.0 * n.value <= 20.0 * needed[p].value;
    }
  }

  lemma {:induction false} OutgrownUntil(needed: seq<Option<real>>, layers: seq<nat>, k: nat, m: nat)
    requires IsTile(needed, layers) && Steady(needed) && k < m <= |needed| && Up(layers, k)
    ensures Outgrown(needed, layers, m)
  {
    if m > k + 1 {
      OutgrownUntil(needed, layers, k, m - 1);
    }
    StaysOutgrown(needed, layers, m - 1);
  }

  lemma {:induction false} ShrunkUntil(needed: seq<Option<real>>, layers: seq<nat>, k: nat, m: nat)
    requires IsTile(needed, layers) && Steady(needed) && k < m <= |needed| && Down(layers, k)
    ensures Shrunk(needed, layers, m)
  {
    if m > k + 1 {
      ShrunkUntil(needed, layers, k, m - 1);
    }
    StaysShrunk(needed, layers, m - 1);
  }

  /** Layouts that stay within a factor of 20/17 never make a tile reverse direction. */
  lemma NoReversal(needed: seq<Option<real>>, layers: seq<nat>, k: nat, m: nat)
    requires IsTile(needed, layers) && Steady(needed) && k < |needed| && m < |needed|
    ensures !(Up(layers, k) && Down(layers, m))
  {
    if Up(layers, k) && k < m {
      OutgrownUntil(needed, layers, k, m);
      StaysOutgrown(needed, layers, m);
    } else if Down(layers, m) && m < k {
      ShrunkUntil(needed, layers, m, k);
      StaysShrunk(needed, layers, k);
    }
  }

  function Changes(layers: seq<nat>, n: nat): nat
    requires n < |layers|
  {
    if n == 0 then 0 else Changes(layers, n - 1) + if layers[n - 1] != layers[n] then 1 else 0
  }

  lemma {:induction false} ChangesClimb(layers: seq<nat>, n: nat)
    requires n < |layers|
    ensures (forall k | 0 <= k < n :: !Down(layers, k)) ==> Changes(layers, n) + layers[0] <= layers[n]
    ensures (forall k | 0 <= k < n :: !Up(layers, k)) ==> Changes(layers, n) + layers[n] <= layers[0]
  {
    if n > 0 {
      ChangesClimb(layers, n - 1);
      assert (forall k | 0 <= k < n :: !Down(layers, k)) ==> !Down(layers, n - 1);
      assert (forall k | 0 <= k < n :: !Up(layers, k)) ==> !Up(layers, n - 1);
    }
  }

  /** So such a tile changes its layer at most twice. */
  lemma AtMostTwoChanges(needed: seq<Option<real>>, layers: seq<nat>)
    requires IsTile(needed, layers) && Steady(needed)
    ensures Changes(layers, |needed|) <= 2
  {
    var n := |needed|;
    LayersExist(needed, layers, n);
    ChangesClimb(layers, n);
    if k :| 0 <= k < n && Up(layers, k) {
      forall m | 0 <= m < n
        ensures !Down(layers, m)
      {
        NoReversal(needed, layers, k, m);
      }
    }
  }

  /** The factor is the best possible: any larger one allows a reversal. */
  lemma FactorIsTight(factor: real) returns (needed: seq<Option<real>>, layers: seq<nat>)
    requires factor > 20.0 / 17.0
    ensures IsTile(needed, layers) && |needed| == 2
    ensures needed[0].Some? && needed[1].Some?
    ensures 0.0 < needed[1].value <= factor * needed[0].value && 0.0 < needed[0].value <= factor * needed[1].value
    ensures Up(layers, 0) && Down(layers, 1)
  {
    var low, high := CloseWidths(factor);
    needed, layers := [Some(high), Some(low)], [0, 2, 1];
    Reverses(low, high);
    assert needed[0] == Some(high) && needed[1] == Some(low);
  }

  lemma Reverses(low: real, high: real)
    requires 640.0 < high <= 1280.0 && 320.0 < low < 544.0
    ensures LayerFor(high, Some(0)) == 2 && LayerFor(low, Some(2)) == 1
  {}

  lemma CloseWidths(factor: real) returns (low: real, high: real)
    requires factor > 20.0 / 17.0
    ensures 640.0 < high <= 1280.0 && 320.0 < low < 544.0
    ensures high <= factor * low && low <= factor * high
  {
    var d := if factor > 1.2 then 0.01 else factor - 20.0 / 17.0;
    low, high := 544.0 - d, 640.0 + d;
    ScaledBy(factor, 20.0 / 17.0, d, low);
    ScaledBy(factor, 1.0, 0.0, high);
  }

  lemma ScaledBy(factor: real, base: real, d: real, x: real)
    requires factor >= base + d && d >= 0.0 && x >= 320.0
    ensures factor * x >= base * x + 320.0 * d
  {
    ProductOrder(x, base + d, factor);
    Distributes(x, base, d);
    ProductOrder(d, 320.0, x);
  }

  lemma Distributes(x: real, a: real, b: real)
    ensures x * (a + b) == x * a + x * b
  {}

  lemma ProductOrder(a: real, x: real, y: real)
    requires a >= 0.0 && x <= y
    ensures a * x <= a * y
  {}

  /** A wider tile gets no lower layer, with one exact exception: from the top layer a tile
      that the lowest layer just covers keeps the top one, while a wider tile that the middle
      layer covers with room to spare moves down to it. */
  lemma MonotoneExactly(a: real, b: real, current: Option<nat>)
    requires a <= b
    ensures LayerFor(a, current) <= LayerFor(b, current) <==>
            !(&& current == Some(TOP)
              && DOWN_MARGIN * LayerWidth(0) <= a <= LayerWidth(0) < b < DOWN_MARGIN * LayerWidth(1))
  {}

  /** At 300 pixels the tile keeps the top layer, at 400 it moves down to the middle one. */
  lemma NotMonotone()
    ensures LayerFor(300.0, Some(TOP)) > LayerFor(400.0, Some(TOP))
  {
    MonotoneExactly(300.0, 400.0, Some(TOP));
  }
}
