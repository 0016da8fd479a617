/** The thousand-fold TNT entity: it keeps one budgeted explosion per position and, each time it
    goes off, lets that explosion prepare its batches once and then destroy one batch. */
module TntX1k {
  import opened Wrappers
  import opened Grid
  import opened Level
  import opened Sampler
  import opened Batching
  import opened Actors
  import opened Demolition
  import opened Explosions

  /** The settings of the explosion the entity creates: radius 100, drop chance 0, jitter 2, and at
      most 1000 cells per tick. */
  const Radius: nat := 100
  const DropChance: real := 0.0
  const Randomness: real := 2.0
  const PerTick: int := 1000

  /** The batches a new explosion at pos prepares on the blocks as they stand. */
  function FreshBatches(cells: map<Pos, Block>, pos: Pos, jitter: Pos -> real, root: nat -> real): seq<seq<Pos>>
  {
    Batches(FreshSample(cells, pos, jitter, root), PerTick)
  }

  /** The world after a new explosion's entity pass at pos. */
  function AfterEntityPass(st: WorldState, pos: Pos, nearby: seq<Entity>, root: nat -> real,
                           owner: Option<nat>): WorldState
  {
    WorldState(st.cells, st.log + EntityLog(Affected(nearby, pos, Radius, root), pos, Radius, root, owner))
  }

  /** Where a stored explosion stands: its batches and its cursor. */
  datatype Progress = Progress(chunks: seq<seq<Pos>>, cursor: nat)

  /** What one call of explode does to the explosion for its position: where it stands afterwards,
      the world, and whether tick reported completion. */
  datatype Outcome = Outcome(progress: Progress, world: WorldState, finished: bool)

  /** Every stored explosion has destroyed at least one batch and has at least one more to go. */
  predicate InProgress(stored: map<Pos, Progress>)
  {
    forall k :: k in stored ==> 0 < stored[k].cursor < |stored[k].chunks|
  }

  /** explode then tick on the explosion for pos: a new one (entry None) samples, runs the entity
      pass and prepares its batches; either way tick then destroys the next batch, if any. */
  function Fired(entry: Option<Progress>, st: WorldState, pos: Pos, owner: Option<nat>, jitter: Pos -> real,
                 root: nat -> real, nearby: seq<Entity>, tickDraw: Pos -> real): Outcome
    requires entry.Some? ==> entry.value.cursor <= |entry.value.chunks|
  {
    var p := if entry.Some? then entry.value else Progress(FreshBatches(st.cells, pos, jitter, root), 0);
    var prepared := if entry.Some? then st else AfterEntityPass(st, pos, nearby, root, owner);
    if p.cursor == |p.chunks| then Outcome(p, prepared, true)
    else Outcome(Progress(p.chunks, p.cursor + 1),
                 DestroyAll(prepared, p.chunks[p.cursor], owner, DropChance, tickDraw),
                 p.cursor + 1 >= |p.chunks|)
  }

  /** One call of explode on the registry: the explosion for pos is fired, then dropped when it
      finished and stored with its new cursor otherwise. Every other entry stays as it was, and
      every stored explosion stays strictly between its first and its last batch. */
  function Step(stored: map<Pos, Progress>, st: WorldState, pos: Pos, owner: Option<nat>, jitter: Pos -> real,
                root: nat -> real, nearby: seq<Entity>, tickDraw: Pos -> real): (r: (map<Pos, Progress>, Outcome))
    requires InProgress(stored)
    ensures InProgress(r.0)
    ensures pos in r.0 <==> !r.1.finished
    ensures forall k :: k != pos ==> (k in r.0 <==> k in stored) && (k in r.0 ==> r.0[k] == stored[k])
  {
    var o := Fired(if pos in stored then Some(stored[pos]) else None, st, pos, owner, jitter, root, nearby, tickDraw);
    (if o.finished then stored - {pos} else stored[pos := o.progress], o)
  }

  /** The cells a new explosion at pos takes from the blocks as they stand. */
  function FreshSample(cells: map<Pos, Block>, pos: Pos, jitter: Pos -> real, root: nat -> real): seq<Pos>
  {
    Sample(Scan(pos, Radius, Test(cells, pos, Radius, Randomness, jitter, root)))
  }

  /** The first call at a position with no stored explosion hurts the nearby entities, then
      destroys the first (at most 1000) sampled cells, and is the last call exactly when the
      sample fits in one batch. */
  lemma FirstCall(st: WorldState, pos: Pos, owner: Option<nat>, jitter: Pos -> real, root: nat -> real,
                  nearby: seq<Entity>, tickDraw: Pos -> real)
    ensures var sample := FreshSample(st.cells, pos, jitter, root);
      var o := Fired(None, st, pos, owner, jitter, root, nearby, tickDraw);
      (o.finished <==> |sample| <= PerTick)
      && o.world == DestroyAll(AfterEntityPass(st, pos, nearby, root, owner), sample[..Min(PerTick, |sample|)],
                               owner, DropChance, tickDraw)
  {
    var sample := FreshSample(st.cells, pos, jitter, root);
    var b := Batches(sample, PerTick);
    BatchCount(sample, PerTick);
    if sample != [] {
      BatchAt(sample, PerTick, 0);
    } else {
      assert sample[..0] == [];
    }
  }

  /** A call at a position with no stored explosion: the explosion prepares its batches on the
      blocks as they stand, hurts the nearby entities and destroys its first batch; it stays stored,
      with its cursor at 1, unless it had at most one batch. */
  lemma StepFresh(stored: map<Pos, Progress>, st: WorldState, pos: Pos, owner: Option<nat>, jitter: Pos -> real,
                  root: nat -> real, nearby: seq<Entity>, tickDraw: Pos -> real)
    requires InProgress(stored) && pos !in stored
    ensures var b := FreshBatches(st.cells, pos, jitter, root);
      var passed := AfterEntityPass(st, pos, nearby, root, owner);
      var r := Step(stored, st, pos, owner, jitter, root, nearby, tickDraw);
      (r.1.finished <==> |b| <= 1)
      && r.0 == (if |b| <= 1 then stored else stored[pos := Progress(b, 1)])
      && r.1.world == (if b == [] then passed else DestroyAll(passed, b[0], owner, DropChance, tickDraw))
  {
    var b := FreshBatches(st.cells, pos, jitter, root);
    if |b| <= 1 {
      assert stored - {pos} == stored;
    }
  }

  /** A call at a position whose explosion is stored: nothing is sampled and no entity is hurt;
      tick destroys the batch under the cursor and moves it on by one, and the explosion is dropped
      when that was its last batch. */
  lemma StepStored(stored: map<Pos, Progress>, st: WorldState, pos: Pos, owner: Option<nat>, jitter: Pos -> real,
                   root: nat -> real, nearby: seq<Entity>, tickDraw: Pos -> real)
    requires InProgress(stored) && pos in stored
    ensures var p := stored[pos];
      var r := Step(stored, st, pos, owner, jitter, root, nearby, tickDraw);
      (r.1.finished <==> p.cursor + 1 == |p.chunks|)
      && r.0 == (if p.cursor + 1 == |p.chunks| then stored - {pos} else stored[pos := Progress(p.chunks, p.cursor + 1)])
      && r.1.world == DestroyAll(st, p.chunks[p.cursor], owner, DropChance, tickDraw)
  {
  }

  /** n calls of explode at pos, each on the world the previous one left, with the same draws;
      the answers tick gave, one per call. */
  function Replay(stored: map<Pos, Progress>, st: WorldState, pos: Pos, owner: Option<nat>, jitter: Pos -> real,
                  root: nat -> real, nearby: seq<Entity>, tickDraw: Pos -> real, n: nat)
    : (r: (map<Pos, Progress>, WorldState, seq<bool>))
    requires InProgress(stored)
    ensures InProgress(r.0) && |r.2| == n
  {
    if n == 0 then (stored, st, [])
    else
      var prev := Replay(stored, st, pos, owner, jitter, root, nearby, tickDraw, n - 1);
      var next := Step(prev.0, prev.1, pos, owner, jitter, root, nearby, tickDraw);
      (next.0, next.1.world, prev.2 + [next.1.finished])
  }

  /** What n calls at pos, from no stored explosion there, have done when n does not exceed
      max(1, number of batches b): call number i (from 1) answered completion exactly when
      i == max(1, |b|); the registry holds the batches with the cursor at n until then, and is back
      as it was after that call; the world has seen one entity pass and then the first n batches,
      in order. */
  ghost predicate Replayed(r: (map<Pos, Progress>, WorldState, seq<bool>), stored: map<Pos, Progress>, pos: Pos,
                           passed: WorldState, b: seq<seq<Pos>>, owner: Option<nat>, tickDraw: Pos -> real, n: nat)
  {
    |r.2| == n
    && (forall i :: 0 <= i < n ==> (r.2[i] <==> i + 1 == Max(1, |b|)))
    && r.0 == (if n < Max(1, |b|) then stored[pos := Progress(b, n)] else stored)
    && r.1 == Drain(passed, b[..Min(n, |b|)], owner, DropChance, tickDraw)
  }

  /** The first call. */
  lemma FirstReplay(stored: map<Pos, Progress>, st: WorldState, pos: Pos, owner: Option<nat>, jitter: Pos -> real,
                    root: nat -> real, nearby: seq<Entity>, tickDraw: Pos -> real)
    requires InProgress(stored) && pos !in stored
    ensures Replayed(Replay(stored, st, pos, owner, jitter, root, nearby, tickDraw, 1), stored, pos,
                     AfterEntityPass(st, pos, nearby, root, owner), FreshBatches(st.cells, pos, jitter, root),
                     owner, tickDraw, 1)
  {
    var b := FreshBatches(st.cells, pos, jitter, root);
    assert Replay(stored, st, pos, owner, jitter, root, nearby, tickDraw, 0) == (stored, st, []);
    StepFresh(stored, st, pos, owner, jitter, root, nearby, tickDraw);
    if b == [] {
      assert b[..0] == [];
    } else {
      assert b[..1] == [b[0]] && b[..1][..0] == [];
    }
  }

  /** One call more, in terms of what the call did: a call on the stored explosion with cursor
      n - 1 destroys batch n - 1, advances the cursor and answers whether that was the last batch. */
  lemma CallAfter(prev: (map<Pos, Progress>, WorldState, seq<bool>), next: (map<Pos, Progress>, Outcome),
                  stored: map<Pos, Progress>, pos: Pos, passed: WorldState, b: seq<seq<Pos>>, owner: Option<nat>,
                  tickDraw: Pos -> real, n: nat)
    requires pos !in stored && 2 <= n <= |b|
    requires Replayed(prev, stored, pos, passed, b, owner, tickDraw, n - 1)
    requires pos in prev.0
    requires var p := prev.0[pos];
      (next.1.finished <==> p.cursor + 1 == |p.chunks|)
      && next.0 == (if p.cursor + 1 == |p.chunks| then prev.0 - {pos} else prev.0[pos := Progress(p.chunks, p.cursor + 1)])
      && next.1.world == DestroyAll(prev.1, p.chunks[p.cursor], owner, DropChance, tickDraw)
    ensures Replayed((next.0, next.1.world, prev.2 + [next.1.finished]), stored, pos, passed, b, owner, tickDraw, n)
  {
    var answers := prev.2 + [next.1.finished];
    assert prev.0[pos] == Progress(b, n - 1);
    assert stored[pos := Progress(b, n - 1)] - {pos} == stored;
    assert stored[pos := Progress(b, n - 1)][pos := Progress(b, n)] == stored[pos := Progress(b, n)];
    assert b[..n][..n - 1] == b[..n - 1];
    forall i | 0 <= i < n ensures answers[i] <==> i + 1 == Max(1, |b|) {
      if i < n - 1 {
        assert answers[i] == prev.2[i];
      }
    }
  }

  /** A later call, while the explosion is stored. */
  lemma NextReplay(stored: map<Pos, Progress>, st: WorldState, pos: Pos, owner: Option<nat>, jitter: Pos -> real,
                   root: nat -> real, nearby: seq<Entity>, tickDraw: Pos -> real, n: nat)
    requires InProgress(stored) && pos !in stored
    requires 2 <= n <= |FreshBatches(st.cells, pos, jitter, root)|
    requires Replayed(Replay(stored, st, pos, owner, jitter, root, nearby, tickDraw, n - 1), stored, pos,
                      AfterEntityPass(st, pos, nearby, root, owner), FreshBatches(st.cells, pos, jitter, root),
                      owner, tickDraw, n - 1)
    ensures Replayed(Replay(stored, st, pos, owner, jitter, root, nearby, tickDraw, n), stored, pos,
                     AfterEntityPass(st, pos, nearby, root, owner), FreshBatches(st.cells, pos, jitter, root),
                     owner, tickDraw, n)
  {
    var prev := Replay(stored, st, pos, owner, jitter, root, nearby, tickDraw, n - 1);
    StepStored(prev.0, prev.1, pos, owner, jitter, root, nearby, tickDraw);
    CallAfter(prev, Step(prev.0, prev.1, pos, owner, jitter, root, nearby, tickDraw), stored, pos,
              AfterEntityPass(st, pos, nearby, root, owner), FreshBatches(st.cells, pos, jitter, root),
              owner, tickDraw, n);
  }

  /** From a position with no stored explosion, the batches are prepared once, on the first call,
      and the entity is discarded on call number max(1, number of batches): see Replayed. */
  lemma {:induction false} DiscardedAfter(stored: map<Pos, Progress>, st: WorldState, pos: Pos, owner: Option<nat>,
                                          jitter: Pos -> real, root: nat -> real, nearby: seq<Entity>,
                                          tickDraw: Pos -> real, n: nat)
    requires InProgress(stored) && pos !in stored
    requires 1 <= n <= Max(1, |FreshBatches(st.cells, pos, jitter, root)|)
    ensures Replayed(Replay(stored, st, pos, owner, jitter, root, nearby, tickDraw, n), stored, pos,
                     AfterEntityPass(st, pos, nearby, root, owner), FreshBatches(st.cells, pos, jitter, root),
                     owner, tickDraw, n)
  {
    if n == 1 {
      FirstReplay(stored, st, pos, owner, jitter, root, nearby, tickDraw);
    } else {
      DiscardedAfter(stored, st, pos, owner, jitter, root, nearby, tickDraw, n - 1);
      NextReplay(stored, st, pos, owner, jitter, root, nearby, tickDraw, n);
    }
  }

  /** Exploded until it is discarded, the entity destroys every sampled cell exactly as an instant
      explosion with the same settings would: one entity pass, then each cell once, in sample order. */
  lemma WholeRun(stored: map<Pos, Progress>, st: WorldState, pos: Pos, owner: Option<nat>, jitter: Pos -> real,
                 root: nat -> real, nearby: seq<Entity>, tickDraw: Pos -> real)
    requires InProgress(stored) && pos !in stored
    ensures var n := Max(1, |FreshBatches(st.cells, pos, jitter, root)|);
      var r := Replay(stored, st, pos, owner, jitter, root, nearby, tickDraw, n);
      r.0 == stored && r.2[n - 1]
      && r.1 == DestroyAll(AfterEntityPass(st, pos, nearby, root, owner), FreshSample(st.cells, pos, jitter, root),
                           owner, DropChance, tickDraw)
  {
    var b := FreshBatches(st.cells, pos, jitter, root);
    DiscardedAfter(stored, st, pos, owner, jitter, root, nearby, tickDraw, Max(1, |b|));
    assert b[..Min(Max(1, |b|), |b|)] == b;
    DrainBatches(AfterEntityPass(st, pos, nearby, root, owner), FreshSample(st.cells, pos, jitter, root),
                 PerTick, owner, DropChance, tickDraw);
  }

  class TntX1kEntity {
    /** The level the entity lives in (getLevel()). */
    const world: World
    /** The entity that lit it (getOwner()), if any. */
    const owner: Option<nat>
    /** The explosions in progress, one per position. */
    var explosions: map<Pos, Explosion>
    /** discard() has been called. */
    var discarded: bool
    /** The explosions this entity has made. */
    ghost var Repr: set<Explosion>

    /** An explosion for key made by this entity: its world, position, source and fixed settings. */
    ghost predicate MadeFor(key: Pos, e: Explosion)
      reads e
    {
      e.Valid() && e.world == world && e.pos == key && e.source == owner
      && e.radius == Radius && e.dropChance == DropChance && e.randomness == Randomness
      && e.perTick == PerTick
    }

    /** An explosion stored at key was made for it, has destroyed at least one batch and has at
        least one more to go. (Entries for different keys are different objects, since an
        explosion's position never changes.) */
    ghost predicate Entry(key: Pos, e: Explosion)
      reads e
    {
      MadeFor(key, e) && 0 < e.currentTick < |e.chunkBlocks|
    }

    ghost predicate Valid()
      reads this, Repr
    {
      forall k :: k in explosions ==> explosions[k] in Repr && Entry(k, explosions[k])
    }

    /** A new entity holds no explosions. */
    constructor (world: World, owner: Option<nat>)
      ensures Valid()
      ensures this.world == world && this.owner == owner && explosions == map[] && !discarded
    {
      this.world := world;
      this.owner := owner;
      explosions := map[];
      discarded := false;
      Repr := {};
    }

    /** Where the explosion stored at pos stands, or None when there is none. */
    ghost function EntryAt(pos: Pos): Option<Progress>
      reads this, Repr
      requires Valid()
    {
      if pos in explosions then Some(Progress(explosions[pos].chunkBlocks, explosions[pos].currentTick)) else None
    }

    /** explode at position pos: create the explosion for pos unless one is stored, call its
        explode and then its tick once; when tick reports completion, drop the explosion and
        discard the entity. jitter, root, nearby and draw feed the explosion's explode (only a new
        explosion samples, hurts and batches there), tickDraw the drops of the batch tick destroys. */
    method Explode(pos: Pos, jitter: Pos -> real, root: nat -> real, nearby: seq<Entity>,
                   draw: Pos -> real, tickDraw: Pos -> real)
      requires Valid()
      modifies this, world, Repr
      ensures Valid() && fresh(Repr - old(Repr))
      ensures var o := Fired(old(EntryAt(pos)), old(world.State()), pos, owner, jitter, root, nearby, tickDraw);
        EntryAt(pos) == (if o.finished then None else Some(o.progress))
        && world.State() == o.world && discarded == (old(discarded) || o.finished)
      ensures forall k :: k != pos ==>
                (k in explosions <==> k in old(explosions))
                && (k in explosions ==> explosions[k] == old(explosions[k]))
      ensures forall e :: e in old(Repr) && (pos in old(explosions) ==> e != old(explosions[pos])) ==> unchanged(e)
    {
      var explosion := Lookup(pos);
      Advance(pos, explosion, old(EntryAt(pos)), old(world.State()), jitter, root, nearby, draw, tickDraw);
    }

    /** The rest of explode once the explosion for pos is stored: fire it, then drop it and
        discard the entity when tick reports completion. */
    method Advance(pos: Pos, explosion: Explosion, ghost entry: Option<Progress>, ghost st: WorldState,
                   jitter: Pos -> real, root: nat -> real, nearby: seq<Entity>, draw: Pos -> real, tickDraw: Pos -> real)
      requires pos in explosions && explosions[pos] == explosion && explosion in Repr
      requires forall k :: k in explosions && k != pos ==> explosions[k] in Repr && Entry(k, explosions[k])
      requires MadeFor(pos, explosion)
      requires (explosion.currentTick == 0 && explosion.chunkBlocks == []) || 0 < explosion.currentTick < |explosion.chunkBlocks|
      requires entry == if explosion.currentTick == 0 then None
                        else Some(Progress(explosion.chunkBlocks, explosion.currentTick))
      requires st == world.State()
      modifies this, world, explosion
      ensures Valid() && Repr == old(Repr)
      ensures var o := Fired(entry, st, pos, owner, jitter, root, nearby, tickDraw);
        EntryAt(pos) == (if o.finished then None else Some(o.progress))
        && world.State() == o.world && discarded == (old(discarded) || o.finished)
      ensures forall k :: k != pos ==>
                (k in explosions <==> k in old(explosions))
                && (k in explosions ==> explosions[k] == old(explosions[k]))
    {
      var finished := Fire(explosion, entry, st, jitter, root, nearby, draw, tickDraw);
      if finished {
        explosions := explosions - {pos};
        discarded := true;
      }
    }

    /** explode then tick on one explosion of this entity; tick cannot raise here, since the budget
        is positive, and the answer is whether no batch is left. */
    method Fire(explosion: Explosion, ghost entry: Option<Progress>, ghost st: WorldState, jitter: Pos -> real,
                root: nat -> real, nearby: seq<Entity>, draw: Pos -> real, tickDraw: Pos -> real)
      returns (finished: bool)
      requires MadeFor(explosion.pos, explosion)
      requires (explosion.currentTick == 0 && explosion.chunkBlocks == [])
               || 0 < explosion.currentTick < |explosion.chunkBlocks|
      requires entry == if explosion.currentTick == 0 then None
                        else Some(Progress(explosion.chunkBlocks, explosion.currentTick))
      requires st == world.State()
      modifies explosion, world
      ensures MadeFor(explosion.pos, explosion)
      ensures !finished ==> 0 < explosion.currentTick < |explosion.chunkBlocks|
      ensures var o := Fired(entry, st, explosion.pos, owner, jitter, root, nearby, tickDraw);
        Progress(explosion.chunkBlocks, explosion.currentTick) == o.progress
        && world.State() == o.world && finished == o.finished
    {
      explosion.Explode(jitter, root, nearby, draw);
      var r := explosion.Tick(tickDraw);
      finished := r.value;
    }

    /** The look-up of explode: the stored explosion for pos, or a new one (radius 100, drop chance 0,
        jitter 2, 1000 cells per tick) stored for it. */
    method Lookup(pos: Pos) returns (explosion: Explosion)
      requires Valid()
      modifies this
      ensures explosions == old(explosions)[pos := explosion] && discarded == old(discarded)
      ensures Repr == old(Repr) + {explosion} && fresh(Repr - old(Repr))
      ensures forall k :: k != pos ==>
                (k in explosions <==> k in old(explosions))
                && (k in explosions ==> explosions[k] == old(explosions[k]))
      ensures pos in old(explosions) ==> explosion == old(explosions[pos])
      ensures pos !in old(explosions) ==> fresh(explosion)
      ensures MadeFor(pos, explosion)
      ensures (explosion.currentTick == 0 && explosion.chunkBlocks == []) || 0 < explosion.currentTick < |explosion.chunkBlocks|
      ensures old(EntryAt(pos)) == if explosion.currentTick == 0 then None
                                   else Some(Progress(explosion.chunkBlocks, explosion.currentTick))
      ensures forall k :: k in explosions && k != pos ==> explosions[k] in Repr && Entry(k, explosions[k])
    {
      if pos !in explosions {
        var created := new Explosion.Budgeted(world, pos, owner, Radius, DropChance, Randomness, PerTick);
        explosions := explosions[pos := created];
        Repr := Repr + {created};
      }
      explosion := explosions[pos];
    }
  }
}
