/** The explosion object: it samples its cells once, hurts and pushes nearby entities, and destroys
    the cells either at once (instant mode) or one batch per tick (budgeted mode). */
module Explosions {
  import opened Wrappers
  import opened Grid
  import opened Level
  import opened Sampler
  import opened Batching
  import opened Actors
  import opened Demolition

  /** The one error tick raises: IllegalStateException, for an explosion set to explode at once. */
  datatype TickError = IllegalState

  class Explosion {
    const world: World
    const pos: Pos
    const source: Option<nat>
    const radius: nat
    const dropChance: real
    const randomness: real
    /** Cells per tick; 0 for an instant explosion. */
    const perTick: int
    /** The number of batches tick has handed to modifyWorld. */
    var currentTick: nat
    /** The batches explode has prepared, in the order tick works through them. */
    var chunkBlocks: seq<seq<Pos>>

    /** The cursor never passes the batches, and every batch holds between 1 and perTick cells
        (so an explosion without a positive budget has no batches at all). */
    ghost predicate Valid()
      reads this
    {
      currentTick <= |chunkBlocks|
      && forall i :: 0 <= i < |chunkBlocks| ==> 0 < |chunkBlocks[i]| <= perTick
    }

    /** An explosion that destroys all its cells within explode. */
    constructor Instant(world: World, pos: Pos, source: Option<nat>, radius: nat, dropChance: real,
                        randomness: real)
      ensures Valid()
      ensures this.world == world && this.pos == pos && this.source == source && this.radius == radius
      ensures this.dropChance == dropChance && this.randomness == randomness
      ensures perTick == 0 && currentTick == 0 && chunkBlocks == []
    {
      this.world, this.pos, this.source, this.radius := world, pos, source, radius;
      this.dropChance, this.randomness := dropChance, randomness;
      currentTick := 0;
      perTick := 0;
      chunkBlocks := [];
    }

    /** An explosion that destroys at most perTick cells per call of tick. */
    constructor Budgeted(world: World, pos: Pos, source: Option<nat>, radius: nat, dropChance: real,
                         randomness: real, perTick: int)
      ensures Valid()
      ensures this.world == world && this.pos == pos && this.source == source && this.radius == radius
      ensures this.dropChance == dropChance && this.randomness == randomness
      ensures this.perTick == perTick && currentTick == 0 && chunkBlocks == []
    {
      this.world, this.pos, this.source, this.radius := world, pos, source, radius;
      this.dropChance, this.randomness := dropChance, randomness;
      this.perTick := perTick;
      currentTick := 0;
      chunkBlocks := [];
    }

    /** The sampling pass of this explosion over the given blocks, draws and square root. */
    function ScanOf(cells: map<Pos, Block>, jitter: Pos -> real, root: nat -> real): Scan
    {
      Scan(pos, radius, Test(cells, pos, radius, randomness, jitter, root))
    }

    /** getBlocks: the cube walk of ScanCube with this explosion's centre, radius and test. */
    method GetBlocks(jitter: Pos -> real, root: nat -> real) returns (blocks: seq<Pos>)
      ensures blocks == Sample(ScanOf(world.cells, jitter, root))
    {
      blocks := ScanCube(ScanOf(world.cells, jitter, root));
    }

    /** modifyWorld: destroyBlock on each cell of the list, in order; draw(p) is the uniform draw
        Math.random() gives for cell p. */
    method ModifyWorld(blocks: seq<Pos>, draw: Pos -> real)
      modifies world
      ensures world.State() == DestroyAll(old(world.State()), blocks, source, dropChance, draw)
    {
      for i := 0 to |blocks|
        invariant world.State() == DestroyAll(old(world.State()), blocks[..i], source, dropChance, draw)
      {
        assert blocks[..i + 1][..i] == blocks[..i];
        DestroyBlock(blocks[i], draw(blocks[i]));
      }
      assert blocks[..|blocks|] == blocks;
    }

    /** destroyBlock: one of the mod's TNT blocks has its wasExplodedByJET hook called (with this
        explosion's source) and no block is destroyed; any other block is destroyed through
        world.destroyBlock, dropping its item exactly when the draw u is at most dropChance. */
    method DestroyBlock(p: Pos, u: real)
      modifies world
      ensures BlockAt(old(world.cells), p).Tnt? ==>
        world.cells == old(world.cells) && world.log == old(world.log) + [Triggered(p, source)]
      ensures !BlockAt(old(world.cells), p).Tnt? ==>
        world.cells == old(world.cells)[p := Air] && world.log == old(world.log) + [Destroyed(p, u <= dropChance)]
      ensures world.State() == DestroyCell(old(world.State()), p, source, dropChance, u)
    {
      var block := BlockAt(world.cells, p);
      if block.Tnt? {
        world.Record(Triggered(p, source));
      } else {
        var drop := u <= dropChance;
        world.DestroyBlock(p, drop);
      }
    }

    /** The first loop of damageEntities: the living entities of the host's box query, in order. */
    method LivingOf(nearby: seq<Entity>) returns (entities: seq<Entity>)
      ensures entities == Filter(nearby, IsLiving)
    {
      entities := [];
      for i := 0 to |nearby|
        invariant entities == Filter(nearby[..i], IsLiving)
      {
        FilterStep(nearby, IsLiving, i);
        if nearby[i].living {
          entities := entities + [nearby[i]];
        }
      }
      assert nearby[..|nearby|] == nearby;
    }

    /** damageEntities: keep the living entities of the host's box query, then hurt, in order,
        those whose distance is within the radius, and return them. */
    method DamageEntities(nearby: seq<Entity>, root: nat -> real) returns (finalEntities: seq<Entity>)
      modifies world
      ensures finalEntities == Affected(nearby, pos, radius, root)
      ensures world.cells == old(world.cells)
      ensures world.log == old(world.log) + HurtLog(finalEntities, pos, radius, root, source)
    {
      var entities := LivingOf(nearby);
      finalEntities := [];
      ghost var within := WithinBlast(pos, radius, root);
      for i := 0 to |entities|
        invariant finalEntities == Filter(entities[..i], within)
        invariant world.cells == old(world.cells)
        invariant world.log == old(world.log) + HurtLog(finalEntities, pos, radius, root, source)
      {
        FilterStep(entities, within, i);
        HurtLogSnoc(finalEntities, entities[i], pos, radius, root, source);
        var hit := HurtOne(entities[i], root);
        if hit {
          finalEntities := finalEntities + [entities[i]];
        }
      }
      assert entities[..|entities|] == entities;
    }

    /** One round of the damage loop of damageEntities: an entity whose distance is within the
        radius is hurt by getEntityDamage, attributed to the source; any other is left alone. */
    method HurtOne(entity: Entity, root: nat -> real) returns (hit: bool)
      modifies world
      ensures hit == WithinBlast(pos, radius, root)(entity)
      ensures world.cells == old(world.cells)
      ensures hit ==> world.log == old(world.log) + [Hurt(entity.id, EntityDamage(radius, EntityDistance(pos, root, entity)), source)]
      ensures !hit ==> world.log == old(world.log)
    {
      var distance := EntityDistance(pos, root, entity);
      hit := distance <= radius as real;
      if hit {
        var damage := EntityDamage(radius, distance);
        world.Record(Hurt(entity.id, damage, source));
      }
    }

    /** modifyEntities: damageEntities, then one velocity update for each entity it hurt. */
    method ModifyEntities(nearby: seq<Entity>, root: nat -> real)
      modifies world
      ensures world.State() ==
        WorldState(old(world.cells), old(world.log) + EntityLog(Affected(nearby, pos, radius, root), pos, radius, root, source))
    {
      var entities := DamageEntities(nearby, root);
      ghost var hurt := world.log;
      for i := 0 to |entities|
        invariant world.cells == old(world.cells)
        invariant world.log == hurt + PushLog(entities[..i])
      {
        PushLogStep(entities, i);
        world.Record(Pushed(entities[i].id));
      }
      assert entities[..|entities|] == entities;
    }

    /** explode: only while no tick has advanced the cursor. A budgeted explosion samples its cells,
        appends their batches to chunkBlocks and runs the entity pass, destroying nothing; an
        instant one samples, runs the entity pass and destroys every sampled cell at once (its
        cursor never moves, so every call does all of this again). A negative budget does nothing. */
    method Explode(jitter: Pos -> real, root: nat -> real, nearby: seq<Entity>, draw: Pos -> real)
      requires Valid()
      modifies this, world
      ensures Valid() && currentTick == old(currentTick)
      ensures var sample := Sample(ScanOf(old(world.cells), jitter, root));
        var afterEntities := WorldState(old(world.cells),
          old(world.log) + EntityLog(Affected(nearby, pos, radius, root), pos, radius, root, source));
        if perTick > 0 && old(currentTick) == 0 then
          chunkBlocks == old(chunkBlocks) + Batches(sample, perTick) && world.State() == afterEntities
        else if perTick == 0 && old(currentTick) == 0 then
          chunkBlocks == old(chunkBlocks)
          && world.State() == DestroyAll(afterEntities, sample, source, dropChance, draw)
        else
          chunkBlocks == old(chunkBlocks) && world.State() == old(world.State())
    {
      if perTick > 0 && currentTick == 0 {
        var blocks := GetBlocks(jitter, root);
        chunkBlocks := AppendBatches(chunkBlocks, blocks, perTick);
        ModifyEntities(nearby, root);
      }
      if perTick == 0 && currentTick == 0 {
        var blocks := GetBlocks(jitter, root);
        ModifyEntities(nearby, root);
        ModifyWorld(blocks, draw);
      }
    }

    /** tick: an instant explosion raises IllegalState. Once the cursor has passed every batch it
        answers true and changes nothing. Otherwise it moves the cursor on by one, destroys exactly
        the batch it moved over, and answers whether that was the last batch. */
    method Tick(draw: Pos -> real) returns (r: Result<bool, TickError>)
      requires Valid()
      modifies this, world
      ensures Valid() && chunkBlocks == old(chunkBlocks)
      ensures perTick <= 0 ==>
        r == Failure(IllegalState) && currentTick == old(currentTick) && world.State() == old(world.State())
      ensures perTick > 0 && old(currentTick) == |chunkBlocks| ==>
        r == Success(true) && currentTick == old(currentTick) && world.State() == old(world.State())
      ensures perTick > 0 && old(currentTick) < |chunkBlocks| ==>
        currentTick == old(currentTick) + 1
        && world.State() == DestroyAll(old(world.State()), chunkBlocks[old(currentTick)], source, dropChance, draw)
        && r == Success(currentTick == |chunkBlocks|)
      ensures perTick > 0 ==>
        currentTick == NextCursor(old(currentTick), |chunkBlocks|)
        && r == Success(TickFinishes(old(currentTick), |chunkBlocks|))
    {
      if perTick <= 0 {
        return Failure(IllegalState);
      }
      if currentTick == |chunkBlocks| {
        return Success(true);
      }
      currentTick := currentTick + 1;
      var blocks := chunkBlocks[currentTick - 1];
      ModifyWorld(blocks, draw);
      r := Success(currentTick >= |chunkBlocks|);
    }
  }
}
