/** The grid as the object each synthetic viewer updates
    (load_tests/src/browser_profile.rs). */
module BrowserProgram {

  import opened BrowserGrid
  import opened Collections
  import opened LayerChoice
  import opened Wrappers

  lemma AskFor(before: map<string, nat>, after: map<string, nat>, requests: seq<Request>, c: string, layer: nat)
    requires IsDiff(before, after, requests) && c !in Changed(before, after) && (c !in before || before[c] != layer)
    ensures IsDiff(before, after[c := layer], requests + [Request(c, layer)])
  {
    var more := requests + [Request(c, layer)];
    assert Asked(more) == Asked(requests) + {c};
    assert Changed(before, after[c := layer]) == Changed(before, after) + {c};
  }

  lemma OneMoreTile(mode: ReceiveMode, needed: real, before: map<string, nat>, videos: set<string>, c: string)
    ensures var layers := LayersAfter(mode, needed, before, videos);
            LayersAfter(mode, needed, before, videos + {c}) ==
            if c in layers then layers else layers[c := VideoLayer(mode, needed, None)]
  {}

  lemma OneMoreArrival(batch: seq<Arrival>, i: nat)
    requires i < |batch|
    ensures Videos(batch[..i + 1]) ==
            if batch[i].video then Videos(batch[..i]) + {batch[i].consumer} else Videos(batch[..i])
  {
    assert batch[..i + 1] == batch[..i] + [batch[i]];
  }

  predicate Ascending(names: seq<string>) {
    forall i, j | 0 <= i < j < |names| :: Before(names[i], names[j])
  }

  lemma AscendingMore(names: seq<string>, c: string)
    requires Ascending(names) && forall x | x in names :: Before(x, c)
    ensures Ascending(names + [c])
  {}

  /** The consumers that a batch adds tiles for, in the order of their first arrival. */
  function NewTiles(layers: map<string, nat>, batch: seq<Arrival>): seq<string> {
    if |batch| == 0 then [] else
      var n := |batch| - 1;
      var rest := NewTiles(layers, batch[..n]);
      var c := batch[n].consumer;
      if batch[n].video && c !in layers && c !in rest then rest + [c] else rest
  }

  /** The consumers that requests are about, in their order. */
  function Order(requests: seq<Request>): seq<string> {
    seq(|requests|, i requires 0 <= i < |requests| => requests[i].consumer)
  }

  lemma OrderMore(requests: seq<Request>, r: Request)
    ensures Order(requests + [r]) == Order(requests) + [r.consumer]
  {}

  lemma {:induction false} NewTilesAre(layers: map<string, nat>, batch: seq<Arrival>, c: string)
    ensures c in NewTiles(layers, batch) <==> c in Videos(batch) && c !in layers
  {
    if |batch| > 0 {
      var n := |batch| - 1;
      NewTilesAre(layers, batch[..n], c);
      OneMoreArrival(batch, n);
      assert batch[..n + 1] == batch;
    }
  }

  lemma OneMoreNewTile(layers: map<string, nat>, batch: seq<Arrival>, i: nat)
    requires i < |batch|
    ensures var c := batch[i].consumer;
            NewTiles(layers, batch[..i + 1]) ==
            if batch[i].video && c !in layers && c !in Videos(batch[..i]) then NewTiles(layers, batch[..i]) + [c]
            else NewTiles(layers, batch[..i])
  {
    assert batch[..i + 1][..i] == batch[..i];
    NewTilesAre(layers, batch[..i], batch[i].consumer);
  }

  predicate Added(mode: ReceiveMode, needed: real, before: map<string, nat>, asked: seq<Request>, batch: seq<Arrival>,
                  layers: map<string, nat>, requests: seq<Request>)
  {
    && layers == LayersAfter(mode, needed, before, Videos(batch))
    && IsDiff(before, layers, requests)
    && Order(requests) == Order(asked) + NewTiles(before, batch)
  }

  lemma AddOne(mode: ReceiveMode, needed: real, before: map<string, nat>, asked: seq<Request>, batch: seq<Arrival>,
               i: nat, layers: map<string, nat>, requests: seq<Request>)
    requires i < |batch| && Added(mode, needed, before, asked, batch[..i], layers, requests)
    ensures var c, layer := batch[i].consumer, VideoLayer(mode, needed, None);
            if batch[i].video && c !in layers
            then Added(mode, needed, before, asked, batch[..i + 1], layers[c := layer], requests + [Request(c, layer)])
            else Added(mode, needed, before, asked, batch[..i + 1], layers, requests)
  {
    var c, layer := batch[i].consumer, VideoLayer(mode, needed, None);
    OneMoreNewTile(before, batch, i);
    OneMoreArrival(batch, i);
    OneMoreTile(mode, needed, before, Videos(batch[..i]), c);
    if batch[i].video && c !in layers {
      AskFor(before, layers, requests, c, layer);
      OrderMore(requests, Request(c, layer));
      assert Order(asked) + NewTiles(before, batch[..i]) + [c] == Order(asked) + (NewTiles(before, batch[..i]) + [c]);
    }
  }

  class VideoGrid {
    const s: Settings
    var owners: map<string, string>
    var participants: set<string>
    var layers: map<string, nat>
    var consumed: map<string, string>

    ghost function View(): Grid
      reads this
    {
      Grid(owners, participants, layers, consumed)
    }

    constructor (viewer: Viewer, ownTile: bool, mode: ReceiveMode)
      ensures s == Settings(viewer, mode, ownTile) && View() == EMPTY_GRID
    {
      s := Settings(viewer, mode, ownTile);
      owners, participants, layers, consumed := map[], {}, map[], map[];
    }

    method AnnounceProducer(producer: string, participant: string)
      modifies this`owners
      ensures View() == Announced(old(View()), producer, participant)
    {
      owners := owners[producer := participant];
    }

    /** Records the batch: every producer's owner gets a tile. */
    method Seat(batch: seq<Arrival>)
      modifies this`participants, this`consumed
      ensures participants == old(participants) + ArrivingOwners(owners, batch)
      ensures consumed == ConsumedAfter(old(consumed), batch)
    {
      for i := 0 to |batch|
        invariant participants == old(participants) + ArrivingOwners(owners, batch[..i])
        invariant consumed == ConsumedAfter(old(consumed), batch[..i])
      {
        assert batch[..i + 1] == batch[..i] + [batch[i]];
        assert ArrivingOwners(owners, batch[..i + 1]) ==
               ArrivingOwners(owners, batch[..i]) + {OwnerOf(owners, batch[i].producer)};
        participants := participants + {OwnerOf(owners, batch[i].producer)};
        consumed := consumed[batch[i].consumer := batch[i].producer];
      }
      assert batch[..|batch|] == batch;
    }

    /** Lays out the tiles already there and asks for the layers that change. */
    method Relayout(needed: real) returns (requests: seq<Request>)
      modifies this`layers
      ensures layers == LayersAfter(s.mode, needed, old(layers), {})
      ensures IsDiff(old(layers), layers, requests) && Ascending(Order(requests))
    {
      requests := [];
      ghost var before := layers;
      var todo := layers.Keys;
      while todo != {}
        invariant todo <= layers.Keys == before.Keys
        invariant forall c | c in layers ::
                    layers[c] == if c in todo then before[c] else VideoLayer(s.mode, needed, Some(before[c]))
        invariant IsDiff(before, layers, requests)
        invariant Ascending(Order(requests)) && forall x, c | x in Order(requests) && c in todo :: Before(x, c)
        decreases todo
      {
        var c := FirstOf(todo);
        var layer := VideoLayer(s.mode, needed, Some(layers[c]));
        if layer != layers[c] {
          AskFor(before, layers, requests, c, layer);
          AscendingMore(Order(requests), c);
          OrderMore(requests, Request(c, layer));
          requests := requests + [Request(c, layer)];
          layers := layers[c := layer];
        }
        todo := todo - {c};
      }
    }

    /** Adds the batch's new videos. */
    method AddTiles(batch: seq<Arrival>, needed: real, ghost before: map<string, nat>, asked: seq<Request>)
      returns (requests: seq<Request>)
      requires layers == LayersAfter(s.mode, needed, before, {}) && IsDiff(before, layers, asked)
      modifies this`layers
      ensures layers == LayersAfter(s.mode, needed, before, Videos(batch))
      ensures IsDiff(before, layers, requests)
      ensures Order(requests) == Order(asked) + NewTiles(before, batch)
    {
      requests := asked;
      assert Videos(batch[..0]) == {} && Order(asked) + [] == Order(asked);
      for i := 0 to |batch|
        invariant Added(s.mode, needed, before, asked, batch[..i], layers, requests)
      {
        var c, layer := batch[i].consumer, VideoLayer(s.mode, needed, None);
        AddOne(s.mode, needed, before, asked, batch, i, layers, requests);
        if batch[i].video && c !in layers {
          layers := layers[c := layer];
          requests := requests + [Request(c, layer)];
        }
      }
      assert batch[..|batch|] == batch;
    }

    /** `consume`: the requests are exactly what turns the old layers into the new ones, first
        the `relaid` tiles already there in ascending order, then the new ones as they
        arrived. */
    method ConsumeBatch(batch: seq<Arrival>) returns (requests: seq<Request>, ghost relaid: seq<string>)
      modifies this
      ensures View() == Consumed(s, old(View()), batch)
      ensures IsDiff(old(layers), layers, requests)
      ensures Order(requests) == relaid + NewTiles(old(layers), batch) && Ascending(relaid)
    {
      ghost var before := layers;
      Seat(batch);
      var needed := NeededAt(s, |participants|);
      requests := Relayout(needed);
      relaid := Order(requests);
      requests := AddTiles(batch, needed, before, requests);
    }

    /** `depart`: the producer's consumers go, and its owner's tile with the last of them. */
    method DepartProducer(producer: string)
      modifies this
      ensures View() == Departed(old(View()), producer)
    {
      var owner := OwnerOf(owners, producer);
      ghost var gone := ConsumersOf(consumed, producer);
      var todo := consumed.Keys;
      while todo != {}
        invariant todo <= old(consumed).Keys
        invariant consumed == old(consumed) - (gone - todo) && layers == old(layers) - (gone - todo)
        invariant owners == old(owners) && participants == old(participants)
        decreases todo
      {
        var c :| c in todo;
        if consumed[c] == producer {
          consumed := consumed - {c};
          layers := layers - {c};
        }
        todo := todo - {c};
      }
      assert gone - todo == gone;
      owners := owners - {producer};
      var still := AnyOwnedBy(owner);
      if !still {
        participants := participants - {owner};
      }
    }

    method AnyOwnedBy(owner: string) returns (any: bool)
      ensures any <==> owner in OwnersOf(owners, consumed)
    {
      any := false;
      var todo := consumed.Keys;
      while todo != {}
        invariant todo <= consumed.Keys
        invariant any <==> exists c :: c in consumed && c !in todo && OwnerOf(owners, consumed[c]) == owner
        decreases todo
      {
        var c :| c in todo;
        any := any || OwnerOf(owners, consumed[c]) == owner;
        todo := todo - {c};
      }
    }
  }
}
