/** A synthetic viewer's video grid (load_tests/src/browser_profile.rs): which
    participants have a tile, how wide the tiles are and which layer each video asks
    for. */
module BrowserGrid {

  import opened LayerChoice
  import opened Wrappers

  datatype Layout = Classic | Modern

  datatype ReceiveMode = Balanced | DataSaver | AudioOnly

  datatype Viewer = Viewer(viewportWidth: nat, pixelRatio: real, layout: Layout)

  datatype Settings = Settings(viewer: Viewer, mode: ReceiveMode, ownTile: bool)

  // ------------------------------------------------------------------- tile widths

  function SidePanels(layout: Layout): int {
    match layout
    case Classic => 220 + 320
    case Modern => 320
  }

  /** The grid's width in CSS pixels, less the padding. */
  function GridWidth(v: Viewer): nat {
    var w := v.viewportWidth - SidePanels(v.layout) - 2 * 8;
    if w < 0 then 0 else w
  }

  function Columns(v: Viewer, tiles: nat): (columns: nat)
    ensures columns >= 1
  {
    if tiles <= 1 then 1 else if tiles <= 4 then 2 else if tiles <= 6 then 3
    else
      var fit := (GridWidth(v) + 8) / (280 + 8);
      if fit < 1 then 1 else if fit > tiles then tiles else fit
  }

  function TileWidth(v: Viewer, tiles: nat): real {
    var columns := Columns(v, tiles);
    var space := GridWidth(v) - 8 * (columns - 1);
    if space < 0 then 0.0 else space as real / columns as real
  }

  /** From seven tiles on the grid has as many columns as fit, each at least 280 pixels
      wide with gaps of 8, but at least one and no more than there are tiles. */
  lemma AutoFit(v: Viewer, tiles: nat, n: nat)
    requires tiles >= 7 && 2 <= n <= tiles
    ensures n <= Columns(v, tiles) <==> 280 * n + 8 * (n - 1) <= GridWidth(v)
    ensures Columns(v, tiles) <= tiles
  {}

  lemma FewTiles(v: Viewer, tiles: nat)
    requires tiles <= 6
    ensures Columns(v, tiles) == [1, 1, 2, 2, 2, 3, 3][tiles]
  {}

  /** The tiles of a row fill the screen: with the gaps between them, the padding and the
      panels beside the grid they add up to the viewport, unless that leaves no room. */
  lemma TilesFill(v: Viewer, tiles: nat)
    ensures var n, panels := Columns(v, tiles), if v.layout == Classic then 220 + 320 else 320;
            var room := v.viewportWidth - panels - 2 * 8 - 8 * (n - 1);
            if room < 0 then TileWidth(v, tiles) == 0.0 else n as real * TileWidth(v, tiles) == room as real
  {
    var n := Columns(v, tiles);
    Share(GridWidth(v) - 8 * (n - 1), n);
  }

  lemma Share(space: int, n: nat)
    requires n >= 1
    ensures n as real * (space as real / n as real) == space as real
  {}

  function NeededAt(s: Settings, remote: nat): real {
    Needed(TileWidth(s.viewer, remote + if s.ownTile then 1 else 0), s.viewer.pixelRatio)
  }

  /** `ReceiveMode::video_layer`. */
  function VideoLayer(mode: ReceiveMode, needed: real, current: Option<nat>): nat {
    if mode == DataSaver then 0 else LayerFor(needed, current)
  }

  // -------------------------------------------------------------------- operations

  datatype Grid = Grid(owners: map<string, string>, participants: set<string>, layers: map<string, nat>,
                       consumed: map<string, string>)

  datatype Arrival = Arrival(consumer: string, producer: string, video: bool)

  datatype Request = Request(consumer: string, layer: nat)

  const EMPTY_GRID: Grid := Grid(map[], {}, map[], map[])

  function OwnerOf(owners: map<string, string>, producer: string): string {
    if producer in owners then owners[producer] else producer
  }

  function Announced(g: Grid, producer: string, participant: string): Grid {
    g.(owners := g.owners[producer := participant])
  }

  function ArrivingOwners(owners: map<string, string>, batch: seq<Arrival>): set<string> {
    set a | a in batch :: OwnerOf(owners, a.producer)
  }

  function ConsumedAfter(consumed: map<string, string>, batch: seq<Arrival>): map<string, string> {
    if batch == [] then consumed else
      var last := batch[|batch| - 1];
      ConsumedAfter(consumed, batch[..|batch| - 1])[last.consumer := last.producer]
  }

  function Videos(batch: seq<Arrival>): set<string> {
    set a | a in batch && a.video :: a.consumer
  }

  function LayersAfter(mode: ReceiveMode, needed: real, layers: map<string, nat>, videos: set<string>)
    : map<string, nat>
  {
    map c | c in layers.Keys + videos ::
      VideoLayer(mode, needed, if c in layers then Some(layers[c]) else None)
  }

  function Consumed(s: Settings, g: Grid, batch: seq<Arrival>): Grid {
    var participants := g.participants + ArrivingOwners(g.owners, batch);
    Grid(g.owners, participants,
         LayersAfter(s.mode, NeededAt(s, |participants|), g.layers, Videos(batch)),
         ConsumedAfter(g.consumed, batch))
  }

  /** The consumers of a producer. */
  function ConsumersOf(consumed: map<string, string>, producer: string): set<string> {
    set c | c in consumed && consumed[c] == producer
  }

  function OwnersOf(owners: map<string, string>, consumed: map<string, string>): set<string> {
    set c | c in consumed :: OwnerOf(owners, consumed[c])
  }

  function Departed(g: Grid, producer: string): Grid {
    var owner := OwnerOf(g.owners, producer);
    var owners := g.owners - {producer};
    var consumed := g.consumed - ConsumersOf(g.consumed, producer);
    Grid(owners,
         if owner in OwnersOf(owners, consumed) then g.participants else g.participants - {owner},
         g.layers - ConsumersOf(g.consumed, producer),
         consumed)
  }

  /** The width a grid is laid out for: that of a tile per remote participant and the viewer's
      own, in device pixels. */
  lemma NeededByTiles(s: Settings, remote: nat)
    ensures var width := TileWidth(s.viewer, remote + if s.ownTile then 1 else 0);
            NeededAt(s, remote) == if s.viewer.pixelRatio > 1.0 then width * s.viewer.pixelRatio else width
  {
    var width := TileWidth(s.viewer, remote + if s.ownTile then 1 else 0);
    assert width >= 0.0 by {
      NotNegative(s.viewer, remote + if s.ownTile then 1 else 0);
    }
    NeededScales(width, s.viewer.pixelRatio);
  }

  lemma NotNegative(v: Viewer, tiles: nat)
    ensures TileWidth(v, tiles) >= 0.0
  {
    var n := Columns(v, tiles);
    Share(GridWidth(v) - 8 * (n - 1), n);
  }

  /** What a layout at that width asks for: a layer for every video that has one or arrives,
      and for nothing else. */
  lemma LaysOut(mode: ReceiveMode, needed: real, layers: map<string, nat>, batch: seq<Arrival>, c: string)
    ensures var after := LayersAfter(mode, needed, layers, Videos(batch));
            && (c in after <==> c in layers || exists a :: a in batch && a.video && a.consumer == c)
            && (c in after ==>
                  after[c] == if mode == DataSaver then 0
                              else if c in layers then LayerFor(needed, Some(layers[c])) else Target(needed))
  {}

  /** What a departure removes: the producer, its consumers and their layers, and its owner's
      tile if no other medium of the owner is consumed; nothing else changes. */
  lemma DepartRemoves(g: Grid, producer: string)
    ensures var after, owner := Departed(g, producer), OwnerOf(g.owners, producer);
            && (forall p :: p in after.owners <==> p in g.owners && p != producer)
            && (forall p | p in after.owners :: after.owners[p] == g.owners[p])
            && (forall c :: c in after.consumed <==> c in g.consumed && g.consumed[c] != producer)
            && (forall c | c in after.consumed :: after.consumed[c] == g.consumed[c])
            && (forall c :: c in after.layers <==> c in g.layers && !(c in g.consumed && g.consumed[c] == producer))
            && (forall c | c in after.layers :: after.layers[c] == g.layers[c])
            && after.participants - {owner} == g.participants - {owner}
            && (owner in after.participants <==>
                  && owner in g.participants
                  && exists c :: c in g.consumed && g.consumed[c] != producer
                                 && OwnerOf(g.owners, g.consumed[c]) == owner)
  {
    var after, owner := Departed(g, producer), OwnerOf(g.owners, producer);
    forall c | c in g.consumed && g.consumed[c] != producer
      ensures c in after.consumed && OwnerOf(after.owners, after.consumed[c]) == OwnerOf(g.owners, g.consumed[c])
    {}
    if owner in OwnersOf(after.owners, after.consumed) {
      var c :| c in after.consumed && owner == OwnerOf(after.owners, after.consumed[c]);
      assert OwnerOf(g.owners, g.consumed[c]) == owner;
    }
    if c :| c in g.consumed && g.consumed[c] != producer && OwnerOf(g.owners, g.consumed[c]) == owner {
      assert OwnerOf(after.owners, after.consumed[c]) in OwnersOf(after.owners, after.consumed);
    }
  }

  // --------------------------------------------------- the grid and its definition

  /** The grid draws a tile for exactly the participants whose media it consumes. */
  predicate Agrees(g: Grid) {
    g.participants == OwnersOf(g.owners, g.consumed)
  }

  predicate Tidy(mode: ReceiveMode, g: Grid) {
    && g.layers.Keys <= g.consumed.Keys
    && forall c | c in g.layers :: g.layers[c] <= if mode == DataSaver then 0 else TOP
  }

  lemma {:induction false} ConsumedAt(consumed: map<string, string>, batch: seq<Arrival>)
    ensures ConsumedAfter(consumed, batch).Keys == consumed.Keys + set a | a in batch :: a.consumer
    ensures forall c | c in ConsumedAfter(consumed, batch) ::
              || (c in consumed && ConsumedAfter(consumed, batch)[c] == consumed[c])
              || Arrives(batch, c, ConsumedAfter(consumed, batch)[c])
    ensures forall c | c in consumed && (forall a | a in batch :: a.consumer != c) ::
              ConsumedAfter(consumed, batch)[c] == consumed[c]
  {
    if batch != [] {
      var n := |batch| - 1;
      ConsumedAt(consumed, batch[..n]);
      assert batch == batch[..n] + [batch[n]];
      forall c | c in ConsumedAfter(consumed, batch)
        ensures (c in consumed && ConsumedAfter(consumed, batch)[c] == consumed[c])
                || Arrives(batch, c, ConsumedAfter(consumed, batch)[c])
      {
        if c == batch[n].consumer {
          assert batch[n] in batch;
        }
      }
    }
  }

  predicate Arrives(batch: seq<Arrival>, consumer: string, producer: string) {
    exists a :: a in batch && a.consumer == consumer && a.producer == producer
  }

  /** Every participant drawn after a layout is one the batch or the grid already had. */
  lemma OwnersArrive(owners: map<string, string>, consumed: map<string, string>, batch: seq<Arrival>)
    ensures OwnersOf(owners, ConsumedAfter(consumed, batch)) <=
            OwnersOf(owners, consumed) + ArrivingOwners(owners, batch)
  {
    ConsumedAt(consumed, batch);
    var after := ConsumedAfter(consumed, batch);
    forall c | c in after
      ensures OwnerOf(owners, after[c]) in OwnersOf(owners, consumed) + ArrivingOwners(owners, batch)
    {
      if !(c in consumed && after[c] == consumed[c]) {
        var a :| a in batch && a.consumer == c && a.producer == after[c];
        assert OwnerOf(owners, a.producer) in ArrivingOwners(owners, batch);
      }
    }
  }

  /** No later arrival of the batch takes over the consumer id of arrival `i`. */
  predicate IsLast(batch: seq<Arrival>, i: nat)
    requires i < |batch|
  {
    forall j | i < j < |batch| :: batch[j].consumer != batch[i].consumer
  }

  predicate Reused(batch: seq<Arrival>, c: string) {
    exists a :: a in batch && a.consumer == c
  }

  /** The producers that keep a consumer through a batch. */
  function Surviving(consumed: map<string, string>, batch: seq<Arrival>): set<string> {
    (set c | c in consumed && !Reused(batch, c) :: consumed[c]) +
    (set i | 0 <= i < |batch| && IsLast(batch, i) :: batch[i].producer)
  }

  /** The producers that lose one because its id is used again. */
  function Overwritten(consumed: map<string, string>, batch: seq<Arrival>): set<string> {
    (set c | c in consumed && Reused(batch, c) :: consumed[c]) +
    (set i | 0 <= i < |batch| && !IsLast(batch, i) :: batch[i].producer)
  }

  predicate Keeps(owners: map<string, string>, surviving: set<string>, p: string) {
    exists q :: q in surviving && OwnerOf(owners, q) == OwnerOf(owners, p)
  }

  lemma {:induction false} SurvivorsRemain(consumed: map<string, string>, batch: seq<Arrival>, c: string)
    requires c in ConsumedAfter(consumed, batch)
    ensures (c in consumed && !Reused(batch, c) && ConsumedAfter(consumed, batch)[c] == consumed[c])
            || exists i :: 0 <= i < |batch| && IsLast(batch, i) && batch[i].consumer == c
                           && batch[i].producer == ConsumedAfter(consumed, batch)[c]
  {
    if |batch| > 0 {
      var n := |batch| - 1;
      var init := batch[..n];
      assert batch == init + [batch[n]];
      if c == batch[n].consumer {
        assert IsLast(batch, n);
      } else {
        SurvivorsRemain(consumed, init, c);
        if i :| 0 <= i < |init| && IsLast(init, i) && init[i].consumer == c
                && init[i].producer == ConsumedAfter(consumed, init)[c]
        {
          assert batch[i] == init[i] && IsLast(batch, i);
        } else {
          assert !Reused(batch, c);
        }
      }
    }
  }

  lemma {:induction false} LastRemains(consumed: map<string, string>, batch: seq<Arrival>, i: nat)
    requires i < |batch| && IsLast(batch, i)
    ensures batch[i].consumer in ConsumedAfter(consumed, batch)
    ensures ConsumedAfter(consumed, batch)[batch[i].consumer] == batch[i].producer
  {
    var n := |batch| - 1;
    if i < n {
      assert batch[..n][i] == batch[i] && IsLast(batch[..n], i);
      LastRemains(consumed, batch[..n], i);
      assert batch[n].consumer != batch[i].consumer;
    }
  }

  /** What the grid consumes after a batch is what survives it. */
  lemma SurvivorsAre(owners: map<string, string>, consumed: map<string, string>, batch: seq<Arrival>, o: string)
    ensures o in OwnersOf(owners, ConsumedAfter(consumed, batch)) <==>
            exists q :: q in Surviving(consumed, batch) && OwnerOf(owners, q) == o
  {
    var after := ConsumedAfter(consumed, batch);
    if c :| c in after && o == OwnerOf(owners, after[c]) {
      SurvivorsRemain(consumed, batch, c);
      assert after[c] in Surviving(consumed, batch);
    }
    if q :| q in Surviving(consumed, batch) && OwnerOf(owners, q) == o {
      if c :| c in consumed && !Reused(batch, c) && consumed[c] == q {
        ConsumedAt(consumed, batch);
        assert c in after && after[c] == q;
      } else {
        var i :| 0 <= i < |batch| && IsLast(batch, i) && batch[i].producer == q;
        LastRemains(consumed, batch, i);
      }
    }
  }

  /** A layout keeps the grid in agreement exactly when every participant that loses a
      medium to a reused consumer id keeps another one. */
  lemma ConsumeAgrees(s: Settings, g: Grid, batch: seq<Arrival>)
    requires Agrees(g)
    ensures Agrees(Consumed(s, g, batch)) <==>
            forall p | p in Overwritten(g.consumed, batch) :: Keeps(g.owners, Surviving(g.consumed, batch), p)
  {
    OwnersArrive(g.owners, g.consumed, batch);
    var after := Consumed(s, g, batch);
    var drawn := OwnersOf(g.owners, after.consumed);
    forall o ensures o in drawn <==> exists q :: q in Surviving(g.consumed, batch) && OwnerOf(g.owners, q) == o {
      SurvivorsAre(g.owners, g.consumed, batch, o);
    }
    assert Agrees(after) <==> after.participants <= drawn;
    forall p | p in Overwritten(g.consumed, batch) ensures OwnerOf(g.owners, p) in after.participants {
      OverwrittenWereDrawn(g, batch, p);
    }
    forall o | o in after.participants && o !in drawn
      ensures exists p :: p in Overwritten(g.consumed, batch) && OwnerOf(g.owners, p) == o
    {
      LostWasOverwritten(s, g, batch, o);
    }
  }

  lemma OverwrittenWereDrawn(g: Grid, batch: seq<Arrival>, p: string)
    requires Agrees(g) && p in Overwritten(g.consumed, batch)
    ensures OwnerOf(g.owners, p) in g.participants + ArrivingOwners(g.owners, batch)
  {
    if c :| c in g.consumed && g.consumed[c] == p {
      assert OwnerOf(g.owners, g.consumed[c]) in OwnersOf(g.owners, g.consumed);
    } else {
      var i :| 0 <= i < |batch| && batch[i].producer == p;
      assert batch[i] in batch;
    }
  }

  lemma LostWasOverwritten(s: Settings, g: Grid, batch: seq<Arrival>, o: string)
    requires Agrees(g) && o in Consumed(s, g, batch).participants
    requires o !in OwnersOf(g.owners, ConsumedAfter(g.consumed, batch))
    ensures exists p :: p in Overwritten(g.consumed, batch) && OwnerOf(g.owners, p) == o
  {
    SurvivorsAre(g.owners, g.consumed, batch, o);
    if o in g.participants {
      var c :| c in g.consumed && o == OwnerOf(g.owners, g.consumed[c]);
      var p := g.consumed[c];
      assert p in Surviving(g.consumed, batch) + Overwritten(g.consumed, batch);
    } else {
      var a :| a in batch && o == OwnerOf(g.owners, a.producer);
      var i :| 0 <= i < |batch| && batch[i] == a;
      assert a.producer in Surviving(g.consumed, batch) + Overwritten(g.consumed, batch);
    }
  }

  predicate FreshBatch(g: Grid, batch: seq<Arrival>) {
    && (forall a | a in batch :: a.consumer !in g.consumed)
    && (forall i, j | 0 <= i < j < |batch| :: batch[i].consumer != batch[j].consumer)
  }

  /** Fresh consumer ids are enough. */
  lemma FreshBatchAgrees(s: Settings, g: Grid, batch: seq<Arrival>)
    requires Agrees(g) && FreshBatch(g, batch)
    ensures Agrees(Consumed(s, g, batch))
  {
    forall i | 0 <= i < |batch| ensures IsLast(batch, i) {}
    assert Overwritten(g.consumed, batch) == {};
    ConsumeAgrees(s, g, batch);
  }

  /** An announcement keeps the agreement exactly when the producer is not consumed, keeps
      its owner, or moves between two participants drawn anyway. */
  lemma AnnounceAgrees(g: Grid, producer: string, participant: string)
    requires Agrees(g)
    ensures Agrees(Announced(g, producer, participant)) <==>
            || ConsumersOf(g.consumed, producer) == {}
            || OwnerOf(g.owners, producer) == participant
            || (participant in g.participants
                && OwnerOf(g.owners, producer) in OwnersOf(g.owners, g.consumed - ConsumersOf(g.consumed, producer)))
  {
    var g' := Announced(g, producer, participant);
    var others := g.consumed - ConsumersOf(g.consumed, producer);
    forall c | c in others
      ensures OwnerOf(g.owners, others[c]) == OwnerOf(g'.owners, others[c])
    {}
    assert OwnersOf(g.owners, others) == OwnersOf(g'.owners, others);
    if c :| c in ConsumersOf(g.consumed, producer) {
      SplitOwners(g.owners, g.consumed, producer, c);
      SplitOwners(g'.owners, g.consumed, producer, c);
    } else {
      assert others == g.consumed;
    }
  }

  lemma SplitOwners(owners: map<string, string>, consumed: map<string, string>, producer: string, c: string)
    requires c in ConsumersOf(consumed, producer)
    ensures OwnersOf(owners, consumed) ==
            OwnersOf(owners, consumed - ConsumersOf(consumed, producer)) + {OwnerOf(owners, producer)}
  {
    var others := consumed - ConsumersOf(consumed, producer);
    assert OwnerOf(owners, consumed[c]) in OwnersOf(owners, consumed);
    forall o | o in OwnersOf(owners, consumed)
      ensures o in OwnersOf(owners, others) + {OwnerOf(owners, producer)}
    {
      var d :| d in consumed && o == OwnerOf(owners, consumed[d]);
      assert consumed[d] != producer ==> d in others;
    }
    forall o | o in OwnersOf(owners, others)
      ensures o in OwnersOf(owners, consumed)
    {
      var d :| d in others && o == OwnerOf(owners, others[d]);
      assert d in consumed && consumed[d] == others[d];
    }
  }

  /** A departure always keeps the agreement. */
  lemma DepartAgrees(g: Grid, producer: string)
    requires Agrees(g)
    ensures Agrees(Departed(g, producer))
  {
    var owners, others := g.owners - {producer}, g.consumed - ConsumersOf(g.consumed, producer);
    forall c | c in others
      ensures OwnerOf(g.owners, others[c]) == OwnerOf(owners, others[c])
    {}
    assert OwnersOf(g.owners, others) == OwnersOf(owners, others);
    if c :| c in ConsumersOf(g.consumed, producer) {
      SplitOwners(g.owners, g.consumed, producer, c);
    } else {
      assert others == g.consumed;
    }
  }

  // ------------------------------------------------------------------------- runs

  datatype Event =
    | Announce(producer: string, participant: string)
    | Consume(batch: seq<Arrival>)
    | Depart(producer: string)

  function Step(s: Settings, g: Grid, e: Event): Grid {
    match e
    case Announce(producer, participant) => Announced(g, producer, participant)
    case Consume(batch) => Consumed(s, g, batch)
    case Depart(producer) => Departed(g, producer)
  }

  /** What the signaling server promises: consumer ids are fresh, and a producer being
      consumed does not change hands. */
  predicate Orderly(g: Grid, e: Event) {
    match e
    case Announce(producer, participant) =>
      ConsumersOf(g.consumed, producer) == {} || OwnerOf(g.owners, producer) == participant
    case Consume(batch) => FreshBatch(g, batch)
    case Depart(_) => true
  }

  predicate IsRun(s: Settings, trace: seq<Grid>, events: seq<Event>) {
    && |trace| == |events| + 1
    && trace[0] == EMPTY_GRID
    && forall n {:trigger events[n]} | 0 <= n < |events| :: trace[n + 1] == Step(s, trace[n], events[n])
  }

  lemma StepAgrees(s: Settings, g: Grid, e: Event)
    requires Agrees(g) && Orderly(g, e)
    ensures Agrees(Step(s, g, e))
  {
    match e
    case Announce(producer, participant) => AnnounceAgrees(g, producer, participant);
    case Consume(batch) => FreshBatchAgrees(s, g, batch);
    case Depart(producer) => DepartAgrees(g, producer);
  }

  /** After any orderly run the incrementally kept participants are exactly the owners of
      the consumed producers. */
  lemma {:induction false} GridAgrees(s: Settings, trace: seq<Grid>, events: seq<Event>, n: nat)
    requires IsRun(s, trace, events) && n < |trace|
    requires forall k | 0 <= k < n :: Orderly(trace[k], events[k])
    ensures Agrees(trace[n])
  {
    if n > 0 {
      GridAgrees(s, trace, events, n - 1);
      StepAgrees(s, trace[n - 1], events[n - 1]);
    }
  }

  /** Whose producer `p` is after the first `n` events: whoever it was last announced for, or
      its own if it was not announced since it departed. */
  function LastOwner(events: seq<Event>, n: nat, p: string): string
    requires n <= |events|
  {
    if n == 0 then p else
      match events[n - 1]
      case Announce(producer, participant) => if producer == p then participant else LastOwner(events, n - 1, p)
      case Depart(producer) => if producer == p then p else LastOwner(events, n - 1, p)
      case Consume(_) => LastOwner(events, n - 1, p)
  }

  lemma {:induction false} OwnersFollow(s: Settings, trace: seq<Grid>, events: seq<Event>, n: nat, p: string)
    requires IsRun(s, trace, events) && n < |trace|
    ensures OwnerOf(trace[n].owners, p) == LastOwner(events, n, p)
  {
    if n > 0 {
      OwnersFollow(s, trace, events, n - 1, p);
      var e := events[n - 1];
      assert trace[n] == Step(s, trace[n - 1], e);
    }
  }

  lemma StepTidy(s: Settings, g: Grid, e: Event)
    requires Tidy(s.mode, g)
    ensures Tidy(s.mode, Step(s, g, e))
  {
    match e
    case Announce(producer, participant) =>
    case Consume(batch) => ConsumedAt(g.consumed, batch);
    case Depart(producer) =>
  }

  /** In every run, orderly or not, only consumed videos have a layer, and it is one that
      exists; in data-saver mode the lowest. */
  lemma {:induction false} GridTidy(s: Settings, trace: seq<Grid>, events: seq<Event>, n: nat)
    requires IsRun(s, trace, events) && n < |trace|
    ensures Tidy(s.mode, trace[n])
  {
    if n > 0 {
      GridTidy(s, trace, events, n - 1);
      var e := events[n - 1];
      StepTidy(s, trace[n - 1], e);
    }
  }

  /** Without those promises the grid drifts: a producer that changes hands while it is
      consumed leaves its old owner's tile behind. */
  lemma ReannouncedDrifts(s: Settings)
    ensures var g := Consumed(s, EMPTY_GRID, [Arrival("c", "p", true)]);
            Agrees(g) && !Agrees(Announced(g, "p", "q"))
  {
    var batch := [Arrival("c", "p", true)];
    assert batch[..0] == [];
    assert FreshBatch(EMPTY_GRID, batch);
    FreshBatchAgrees(s, EMPTY_GRID, batch);
    var g := Consumed(s, EMPTY_GRID, batch);
    assert g.consumed == map["c" := "p"];
    assert "c" in ConsumersOf(g.consumed, "p");
    AnnounceAgrees(g, "p", "q");
    assert g.consumed - ConsumersOf(g.consumed, "p") == map[];
  }

  // -------------------------------------------------------------- tiles over runs

  /** The layers of consumer `c` over a window of a run, and the widths its tile is laid
      out at. */
  function LayersOf(trace: seq<Grid>, c: string, m: nat, n: nat): seq<nat>
    requires m <= n < |trace| && forall k | m <= k <= n :: c in trace[k].layers
  {
    seq(n - m + 1, k requires 0 <= k < n - m + 1 => trace[m + k].layers[c])
  }

  function WidthsOf(s: Settings, trace: seq<Grid>, events: seq<Event>, m: nat, n: nat): seq<Option<real>>
    requires m <= n < |trace| == |events| + 1
  {
    seq(n - m, k requires 0 <= k < n - m => WidthAt(s, trace[m + k + 1], events[m + k]))
  }

  /** Only a batch of consumers lays the grid out. */
  function WidthAt(s: Settings, after: Grid, e: Event): Option<real> {
    if e.Consume? then Some(NeededAt(s, |after.participants|)) else None
  }

  lemma StepLayer(s: Settings, g: Grid, e: Event, c: string)
    requires s.mode != DataSaver && c in g.layers && c in Step(s, g, e).layers
    ensures var g' := Step(s, g, e);
            var width := WidthAt(s, g', e);
            g'.layers[c] == if width.Some? then LayerFor(width.value, Some(g.layers[c])) else g.layers[c]
  {}

  lemma WindowIsTile(s: Settings, trace: seq<Grid>, events: seq<Event>, c: string, m: nat, n: nat)
    requires IsRun(s, trace, events) && s.mode != DataSaver
    requires m <= n < |trace| && forall k | m <= k <= n :: c in trace[k].layers
    ensures IsTile(WidthsOf(s, trace, events, m, n), LayersOf(trace, c, m, n))
  {
    var needed, layers := WidthsOf(s, trace, events, m, n), LayersOf(trace, c, m, n);
    GridTidy(s, trace, events, m);
    forall k | 0 <= k < n - m
      ensures layers[k + 1] == if needed[k].Some? then LayerFor(needed[k].value, Some(layers[k])) else layers[k]
    {
      var e := events[m + k];
      StepLayer(s, trace[m + k], e, c);
    }
  }

  /** As long as the layouts stay within a factor of 20/17 of each other, no tile of the grid
      flaps, whatever is announced or departs in between: its layer moves in one direction
      only and at most twice. */
  lemma TilesDoNotFlap(s: Settings, trace: seq<Grid>, events: seq<Event>, c: string, m: nat, n: nat)
    requires IsRun(s, trace, events) && s.mode != DataSaver
    requires m <= n < |trace| && forall k | m <= k <= n :: c in trace[k].layers
    requires Steady(WidthsOf(s, trace, events, m, n))
    ensures var layers := LayersOf(trace, c, m, n);
            && Changes(layers, n - m) <= 2
            && forall a, b | 0 <= a < n - m && 0 <= b < n - m :: !(Up(layers, a) && Down(layers, b))
  {
    var needed, layers := WidthsOf(s, trace, events, m, n), LayersOf(trace, c, m, n);
    WindowIsTile(s, trace, events, c, m, n);
    AtMostTwoChanges(needed, layers);
    forall a, b | 0 <= a < n - m && 0 <= b < n - m
      ensures !(Up(layers, a) && Down(layers, b))
    {
      NoReversal(needed, layers, a, b);
    }
  }

  // ---------------------------------------------------------------------- requests

  function Changed(before: map<string, nat>, after: map<string, nat>): set<string> {
    set c | c in after && (c !in before || before[c] != after[c])
  }

  function Asked(requests: seq<Request>): set<string> {
    set r | r in requests :: r.consumer
  }

  /** The requests are the difference between two layer maps: one per changed or new
      consumer, with its new layer, and none besides. */
  predicate IsDiff(before: map<string, nat>, after: map<string, nat>, requests: seq<Request>) {
    && before.Keys <= after.Keys
    && Asked(requests) == Changed(before, after)
    && |requests| == |Asked(requests)|
    && forall r | r in requests :: r.consumer in after && after[r.consumer] == r.layer
  }

  function Applied(layers: map<string, nat>, requests: seq<Request>): map<string, nat> {
    if requests == [] then layers else
      var last := requests[|requests| - 1];
      Applied(layers, requests[..|requests| - 1])[last.consumer := last.layer]
  }

  /** So applying them to the old map gives the new one. */
  lemma DiffApplies(before: map<string, nat>, after: map<string, nat>, requests: seq<Request>)
    requires IsDiff(before, after, requests)
    ensures Applied(before, requests) == after
  {
    AppliedAt(before, after, requests);
    forall c | c in after
      ensures c in Applied(before, requests)
    {
      assert c in before || c in Asked(requests);
    }
  }

  lemma {:induction false} AppliedAt(before: map<string, nat>, after: map<string, nat>, requests: seq<Request>)
    requires before.Keys <= after.Keys
    requires forall r | r in requests :: r.consumer in after && after[r.consumer] == r.layer
    ensures Applied(before, requests).Keys == before.Keys + Asked(requests)
    ensures forall c | c in Applied(before, requests) ::
              Applied(before, requests)[c] == if c in Asked(requests) then after[c] else before[c]
  {
    if requests != [] {
      var n := |requests| - 1;
      assert requests == requests[..n] + [requests[n]];
      AppliedAt(before, after, requests[..n]);
      assert Asked(requests) == Asked(requests[..n]) + {requests[n].consumer};
    }
  }
}
