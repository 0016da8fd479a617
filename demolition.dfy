/** What destroyBlock does to one cell, and what a run of destroyBlock calls does to the world. */
module Demolition {
  import opened Wrappers
  import opened Grid
  import opened Level
  import opened Batching

  /** destroyBlock on cell p, with u the uniform draw Math.random() gives for it: one of the mod's
      own TNT blocks has its wasExplodedByJET hook called and is left to it; any other block is
      destroyed through world.destroyBlock, dropping its item when u <= dropChance. */
  function DestroyCell(st: WorldState, p: Pos, source: Option<nat>, dropChance: real, u: real): WorldState
  {
    if BlockAt(st.cells, p).Tnt? then WorldState(st.cells, st.log + [Triggered(p, source)])
    else WorldState(st.cells[p := Air], st.log + [Destroyed(p, u <= dropChance)])
  }

  /** modifyWorld: destroyBlock on each cell of the list in turn; draw(p) is the draw for cell p. */
  function DestroyAll(st: WorldState, ps: seq<Pos>, source: Option<nat>, dropChance: real,
                      draw: Pos -> real): WorldState
  {
    if ps == [] then st
    else
      var last := ps[|ps| - 1];
      DestroyCell(DestroyAll(st, ps[..|ps| - 1], source, dropChance, draw), last, source, dropChance, draw(last))
  }

  /** The cell a destroyBlock call acted on, whichever branch it took. */
  function CellOf(e: Effect): Option<Pos>
  {
    match e
    case Destroyed(p, _) => Some(p)
    case Triggered(p, _) => Some(p)
    case _ => None
  }

  /** modifyWorld makes exactly one call per listed cell, in list order, and records nothing else. */
  lemma {:induction false} DestroyAllCalls(st: WorldState, ps: seq<Pos>, source: Option<nat>,
                                           dropChance: real, draw: Pos -> real)
    ensures var out := DestroyAll(st, ps, source, dropChance, draw);
      |out.log| == |st.log| + |ps| && out.log[..|st.log|] == st.log
      && forall i :: 0 <= i < |ps| ==> CellOf(out.log[|st.log| + i]) == Some(ps[i])
  {
    if ps != [] {
      var init := ps[..|ps| - 1];
      DestroyAllCalls(st, init, source, dropChance, draw);
      var mid := DestroyAll(st, init, source, dropChance, draw);
      var out := DestroyAll(st, ps, source, dropChance, draw);
      assert out.log[..|mid.log|] == mid.log;
      forall i | 0 <= i < |ps| ensures CellOf(out.log[|st.log| + i]) == Some(ps[i]) {
        if i < |init| {
          assert out.log[|st.log| + i] == mid.log[|st.log| + i];
        }
      }
    }
  }

  /** On a list without repeats (as getBlocks returns), each cell is dispatched on the block it held
      before the run: a TNT block gets its hook and no destroyBlock, any other block one destroyBlock
      whose drop flag is its draw test and is air afterwards; cells off the list keep their block. */
  lemma {:induction false} DestroyAllDispatch(st: WorldState, ps: seq<Pos>, source: Option<nat>,
                                              dropChance: real, draw: Pos -> real)
    requires NoDuplicates(ps)
    ensures var out := DestroyAll(st, ps, source, dropChance, draw);
      |out.log| == |st.log| + |ps| && out.log[..|st.log|] == st.log
      && (forall i :: 0 <= i < |ps| ==>
            out.log[|st.log| + i] == if BlockAt(st.cells, ps[i]).Tnt? then Triggered(ps[i], source)
                                     else Destroyed(ps[i], draw(ps[i]) <= dropChance))
      && (forall q :: q !in ps ==> BlockAt(out.cells, q) == BlockAt(st.cells, q))
      && (forall q :: q in ps ==> BlockAt(out.cells, q) == if BlockAt(st.cells, q).Tnt? then BlockAt(st.cells, q) else Air)
  {
    if ps != [] {
      var init, last := ps[..|ps| - 1], ps[|ps| - 1];
      assert NoDuplicates(init);
      DestroyAllDispatch(st, init, source, dropChance, draw);
      var mid := DestroyAll(st, init, source, dropChance, draw);
      var out := DestroyAll(st, ps, source, dropChance, draw);
      assert last !in init by {
        forall i | 0 <= i < |init| ensures init[i] != last {
          assert ps[i] == init[i];
        }
      }
      assert BlockAt(mid.cells, last) == BlockAt(st.cells, last);
      assert out.log[..|mid.log|] == mid.log;
      forall i | 0 <= i < |ps|
        ensures out.log[|st.log| + i] == if BlockAt(st.cells, ps[i]).Tnt? then Triggered(ps[i], source)
                                         else Destroyed(ps[i], draw(ps[i]) <= dropChance)
      {
        if i < |init| {
          assert out.log[|st.log| + i] == mid.log[|st.log| + i];
          assert ps[i] == init[i];
        }
      }
      forall q | q in ps
        ensures BlockAt(out.cells, q) == if BlockAt(st.cells, q).Tnt? then BlockAt(st.cells, q) else Air
      {
        if q != last {
          assert q in init by {
            var i :| 0 <= i < |ps| && ps[i] == q;
            assert i < |init| && init[i] == q;
          }
        }
      }
      forall q | q !in ps ensures BlockAt(out.cells, q) == BlockAt(st.cells, q) {
        assert q !in init && q != last;
      }
    }
  }

  /** A run over a + b is a run over a followed by a run over b. */
  lemma {:induction false} DestroyAllConcat(st: WorldState, a: seq<Pos>, b: seq<Pos>, source: Option<nat>,
                                            dropChance: real, draw: Pos -> real)
    ensures DestroyAll(st, a + b, source, dropChance, draw)
         == DestroyAll(DestroyAll(st, a, source, dropChance, draw), b, source, dropChance, draw)
  {
    if b == [] {
      assert a + b == a;
    } else {
      var init := b[..|b| - 1];
      DestroyAllConcat(st, a, init, source, dropChance, draw);
      assert (a + b)[..|a + b| - 1] == a + init;
    }
  }

  /** The world after tick has worked through the first |chunks| batches, one per tick. */
  function Drain(st: WorldState, chunks: seq<seq<Pos>>, source: Option<nat>, dropChance: real,
                 draw: Pos -> real): WorldState
  {
    if chunks == [] then st
    else DestroyAll(Drain(st, chunks[..|chunks| - 1], source, dropChance, draw), chunks[|chunks| - 1],
                    source, dropChance, draw)
  }

  lemma {:induction false} FlattenSnoc<T>(c: seq<seq<T>>, x: seq<T>)
    ensures Flatten(c + [x]) == Flatten(c) + x
  {
    if c != [] {
      FlattenSnoc(c[1..], x);
      assert (c + [x])[1..] == c[1..] + [x];
    }
  }

  /** Ticking through the batches one by one does what one run over the batches joined would. */
  lemma {:induction false} DrainIsDestroyAll(st: WorldState, chunks: seq<seq<Pos>>, source: Option<nat>,
                                             dropChance: real, draw: Pos -> real)
    ensures Drain(st, chunks, source, dropChance, draw) == DestroyAll(st, Flatten(chunks), source, dropChance, draw)
  {
    if chunks != [] {
      var init, last := chunks[..|chunks| - 1], chunks[|chunks| - 1];
      DrainIsDestroyAll(st, init, source, dropChance, draw);
      assert chunks == init + [last];
      FlattenSnoc(init, last);
      DestroyAllConcat(st, Flatten(init), last, source, dropChance, draw);
    }
  }

  /** Draining every batch of a budgeted explosion destroys its sampled cells exactly as an instant
      explosion would: each sampled cell once, in sample order. */
  lemma DrainBatches(st: WorldState, sample: seq<Pos>, perTick: nat, source: Option<nat>,
                     dropChance: real, draw: Pos -> real)
    requires perTick > 0
    ensures Drain(st, Batches(sample, perTick), source, dropChance, draw)
         == DestroyAll(st, sample, source, dropChance, draw)
  {
    DrainIsDestroyAll(st, Batches(sample, perTick), source, dropChance, draw);
    BatchesPartition(sample, perTick);
  }
}
