/** The world an explosion acts on: its blocks and a record of the calls made into the host game. */
module Level {
  import opened Wrappers
  import opened Grid

  /** One call the explosion makes into the host game.
      Destroyed: world.destroyBlock(pos, drop). Triggered: the TNT block's wasExplodedByJET hook.
      Hurt: LivingEntity.hurt with the given amount, attributed to the source. Pushed: one velocity update. */
  datatype Effect =
    | Destroyed(pos: Pos, drop: bool)
    | Triggered(pos: Pos, source: Option<nat>)
    | Hurt(entity: nat, amount: real, source: Option<nat>)
    | Pushed(entity: nat)

  /** A snapshot of the world: its blocks and every call made so far, oldest first. */
  datatype WorldState = WorldState(cells: map<Pos, Block>, log: seq<Effect>)

  /** The host world (Level), changed in place by the explosions that hold it. */
  class World {
    var cells: map<Pos, Block>
    var log: seq<Effect>

    function State(): WorldState
      reads this
    {
      WorldState(cells, log)
    }

    constructor (cells: map<Pos, Block>)
      ensures State() == WorldState(cells, [])
    {
      this.cells := cells;
      log := [];
    }

    /** world.destroyBlock(pos, drop): the cell becomes air and the call is recorded. */
    method DestroyBlock(p: Pos, drop: bool)
      modifies this
      ensures State() == WorldState(old(cells)[p := Air], old(log) + [Destroyed(p, drop)])
    {
      cells := cells[p := Air];
      log := log + [Destroyed(p, drop)];
    }

    /** A call into the host that leaves the blocks as they are (a hook, damage, a push). */
    method Record(e: Effect)
      requires !e.Destroyed?
      modifies this
      ensures State() == WorldState(old(cells), old(log) + [e])
    {
      log := log + [e];
    }
  }
}
