# JustEnoughTNT explosions, modelled in Dafny

This project models the explosion engine of the JustEnoughTNT Minecraft mod and the registry the
thousand-fold TNT entity (`TNTX1KEntity`) keeps of its explosions.

An `Explosion` does three things:
- It samples the cells of the cube `[-r, r]³` around its centre, visiting them x first, then y,
  then z (`getBlocks`). It keeps a cell when the square root of its squared offset is within the
  radius plus a random jitter and the block is neither bedrock nor air.
- It hurts and pushes the living entities within the radius (`modifyEntities`, `damageEntities`).
- It destroys the sampled cells. In instant mode (`perTick == 0`) it destroys them all inside
  `explode`. In budgeted mode it splits them into batches of at most `perTick` cells, and each call
  of `tick` destroys the next batch.

Destroying a cell (`destroyBlock`) takes one of two branches:
- one of the mod's own TNT blocks has its `wasExplodedByJET` hook called;
- any other block is removed through the host's `destroyBlock`, with an item drop decided by a
  random draw against `dropChance`.

`TNTX1KEntity.explode` keeps one budgeted explosion per position in a map. It creates the
explosion on the first call, with radius 100, drop chance 0, jitter 2 and 1000 cells per tick. Every
call then runs `explode` and one `tick`. When `tick` reports completion, it removes the entry and
discards the entity.

Modules, one per file:
- `Wrappers`: Option and Result.
- `Grid`: positions, block kinds, squared distances, the x-y-z order.
- `Level`: the host world as a class. It holds a block map and a log of the calls made into the
  host.
- `Sampler`: `getBlocks` as three nested loops, each proved against a recursive specification.
- `Batching`: the splitting loop and the batch cursor.
- `Actors`: entity selection and damage.
- `Demolition`: `destroyBlock` and `modifyWorld` as functions on world snapshots.
- `Explosions`: the `Explosion` class.
- `TntX1k`: the entity's registry as a class, plus a value-level replay of repeated calls.

The random draws and `Math.sqrt` are parameters:
- `jitter(p)` is the `Math.random()` value for cell `p` during sampling.
- `draw(p)` and `tickDraw(p)` are the drop draws for cell `p`.
- `root(s)` is the square root the host computes for `s`.

Lemmas that need the exact root take `ExactRoot` as a premise. The host's entity box query is a
parameter `nearby`: the entities it returns, in order.

Behaviour worth noting:
- The only progress state the guards of `explode` test is the cursor; `perTick` picks the branch
  (Explosion.java:59 and 79). An instant explosion never moves its cursor, because `tick` raises
  for it before touching it (Explosion.java:107-109).
  So every call of `explode` on an instant explosion samples, hurts and destroys again.
- A budgeted explosion whose `explode` runs twice before any `tick` appends a second copy of its
  batches to `chunkBlocks` (Explosion.java:72). The registry never does this. It always ticks right
  after `explode` (TNTX1KEntity.java:37-38), and a first tick over an empty sample answers true
  (Explosion.java:111-112), which removes the entry.
- Every batch is full except the last, which holds the remainder (Explosion.java:65-71).
- A negative budget makes `explode` do nothing, since neither guard at Explosion.java:59 and 79
  holds. It also makes `tick` raise (Explosion.java:107-108).

## Model

| member | source | states |
|---|---|---|
| Sampler.ScanLine | src/main/java/de/wroracer/justenoughtnt/util/Explosion.java:92-99 | the z loop returns exactly the cells of line (x, y) that the pass keeps, in increasing z |
| Sampler.ScanPlane | src/main/java/de/wroracer/justenoughtnt/util/Explosion.java:91-100 | the y loop returns the lines of plane x, in increasing y |
| Sampler.ScanCube | src/main/java/de/wroracer/justenoughtnt/util/Explosion.java:89-103 | the x loop returns the whole sample, plane after plane |
| Sampler.TestGrows | src/main/java/de/wroracer/justenoughtnt/util/Explosion.java:94-97 | with the same blocks and draws, a cell the test keeps at radius r is kept at every radius r' >= r |
| Sampler.SampleWider | src/main/java/de/wroracer/justenoughtnt/util/Explosion.java:90-101 | a scan with the same centre, a radius at least as large and a test that keeps at least as much samples every cell the smaller scan samples |
| Sampler.SampleGrows | src/main/java/de/wroracer/justenoughtnt/util/Explosion.java:86-104 | with the same blocks and draws, getBlocks at a larger radius returns every cell it returns at a smaller one |
| Sampler.SampleOrdered | src/main/java/de/wroracer/justenoughtnt/util/Explosion.java:90-101 | the sample is strictly increasing in x-y-z order, so it has no duplicates |
| Sampler.SampleMembers | src/main/java/de/wroracer/justenoughtnt/util/Explosion.java:90-101 | a cell is in the sample iff it lies in the cube [-r, r]³ and the test keeps it |
| Sampler.SampleContents | src/main/java/de/wroracer/justenoughtnt/util/Explosion.java:86-104 | both of the above together: exactly the kept cube cells, ordered, each once |
| Sampler.SampleAt | src/main/java/de/wroracer/justenoughtnt/util/Explosion.java:90-99 | membership of one cell: within the radius on every axis and kept by its line |
| Sampler.ExactTest | src/main/java/de/wroracer/justenoughtnt/util/Explosion.java:94-98 | with randomness 0 and an exact root, the test is x²+y²+z² <= r² and not bedrock or air |
| Sampler.ExactSample | src/main/java/de/wroracer/justenoughtnt/util/Explosion.java:86-104 | with randomness 0 and an exact root, a cell is sampled iff it is in the cube, within r² of the centre and not bedrock or air |
| Sampler.SampleDestructible | src/main/java/de/wroracer/justenoughtnt/util/Explosion.java:197-201 | for any draws and square root, every cell getBlocks returns passes shouldDestroy: it is neither bedrock nor air |
| Grid.RootWithin | src/main/java/de/wroracer/justenoughtnt/util/Explosion.java:94-95 | with an exact root, sqrt(s) <= r iff s <= r² |
| Grid.StrictlyOrderedHasNoDuplicates | src/main/java/de/wroracer/justenoughtnt/util/Explosion.java:90-92 | a list that is strictly increasing in x-y-z order repeats no cell |
| Batching.Batches | src/main/java/de/wroracer/justenoughtnt/util/Explosion.java:65-73 | every batch holds between 1 and perTick cells |
| Batching.BatchesPartition | src/main/java/de/wroracer/justenoughtnt/util/Explosion.java:65-73 | the batches, joined in order, give back the sampled list exactly |
| Batching.TakeBatch | src/main/java/de/wroracer/justenoughtnt/util/Explosion.java:66-71 | the inner loop collects s[i .. min(i+n, \|s\|)] |
| Batching.AppendBatches | src/main/java/de/wroracer/justenoughtnt/util/Explosion.java:65-73 | the splitting loop appends Batches(s, n) to the batches already held |
| Batching.BatchCount | src/main/java/de/wroracer/justenoughtnt/util/Explosion.java:65 | the number of batches is ⌈\|s\| / n⌉ |
| Batching.BatchSizes | src/main/java/de/wroracer/justenoughtnt/util/Explosion.java:66-72 | every batch but the last holds exactly n cells; the last holds 1 to n |
| Batching.BatchAt | src/main/java/de/wroracer/justenoughtnt/util/Explosion.java:65-72 | batch i is s[i·n .. min((i+1)·n, \|s\|)] |
| Batching.CursorAfterIsMin | src/main/java/de/wroracer/justenoughtnt/util/Explosion.java:111-115 | after k ticks from 0 the cursor is min(k, number of batches) |
| Batching.FinishesOnTick | src/main/java/de/wroracer/justenoughtnt/util/Explosion.java:111-121 | tick number k reports completion iff k >= max(1, number of batches) |
| Demolition.DestroyAllCalls | src/main/java/de/wroracer/justenoughtnt/util/Explosion.java:158-164 | modifyWorld makes exactly one destroyBlock call per listed cell, in list order, and records nothing else |
| Demolition.DestroyAllDispatch | src/main/java/de/wroracer/justenoughtnt/util/Explosion.java:203-215 | on a list without repeats: a TNT cell gets its hook and keeps its block; any other cell is destroyed, with a drop iff draw <= dropChance, and becomes air; cells off the list are untouched |
| Demolition.DestroyAllConcat | src/main/java/de/wroracer/justenoughtnt/util/Explosion.java:158-164 | a run over a + b is a run over a followed by a run over b |
| Demolition.DrainIsDestroyAll | src/main/java/de/wroracer/justenoughtnt/util/Explosion.java:115-118 | ticking through batches one by one equals one run over the batches joined |
| Demolition.DrainBatches | src/main/java/de/wroracer/justenoughtnt/util/Explosion.java:59-82 | draining every budgeted batch destroys exactly what an instant explosion destroys, in the same order |
| Actors.FilterMembers | src/main/java/de/wroracer/justenoughtnt/util/Explosion.java:137-141 | a filter keeps exactly the elements that pass, and is no longer than its input |
| Actors.EntityDamage | src/main/java/de/wroracer/justenoughtnt/util/Explosion.java:191-194 | damage is max(1, radius − distance): at least 1 and at least radius − distance |
| Actors.DamageFalls | src/main/java/de/wroracer/justenoughtnt/util/Explosion.java:191-194 | damage does not increase with distance |
| Actors.AffectedMembers | src/main/java/de/wroracer/justenoughtnt/util/Explosion.java:133-156 | an entity is hurt iff the query returned it, it is living and its distance is within the radius |
| Actors.AffectedExact | src/main/java/de/wroracer/justenoughtnt/util/Explosion.java:166-173 | with an exact root, the distance test is d² <= r² on block coordinates |
| Actors.EntityLogShape | src/main/java/de/wroracer/justenoughtnt/util/Explosion.java:124-153 | the entity pass hurts each affected entity once, in order, by at least 1, attributed to the source, then pushes each once |
| Actors.HurtLogShape | src/main/java/de/wroracer/justenoughtnt/util/Explosion.java:142-153 | one hurt call per affected entity, in order, each by at least 1 |
| Actors.PushLogShape | src/main/java/de/wroracer/justenoughtnt/util/Explosion.java:126-130 | one velocity update per affected entity, in order |
| Level.World.DestroyBlock | src/main/java/de/wroracer/justenoughtnt/util/Explosion.java:212 | the host's destroyBlock turns the cell to air and records the call with its drop flag |
| Level.World.Record | src/main/java/de/wroracer/justenoughtnt/util/Explosion.java:209 | a hook, hurt or push call is recorded and leaves the blocks alone |
| Explosions.Explosion.Instant | src/main/java/de/wroracer/justenoughtnt/util/Explosion.java:30-41 | an instant explosion has budget 0, cursor 0 and no batches |
| Explosions.Explosion.Budgeted | src/main/java/de/wroracer/justenoughtnt/util/Explosion.java:43-54 | a budgeted explosion keeps its settings and starts with cursor 0 and no batches |
| Explosions.Explosion.GetBlocks | src/main/java/de/wroracer/justenoughtnt/util/Explosion.java:86-104 | getBlocks returns the sample of this explosion's cube over the current blocks |
| Explosions.Explosion.ModifyWorld | src/main/java/de/wroracer/justenoughtnt/util/Explosion.java:158-164 | the new world is DestroyAll of the old one over the list, in order |
| Explosions.Explosion.DestroyBlock | src/main/java/de/wroracer/justenoughtnt/util/Explosion.java:203-215 | both branches: a TNT block gets its hook and nothing is destroyed; any other block becomes air, with a drop iff u <= dropChance |
| Explosions.Explosion.LivingOf | src/main/java/de/wroracer/justenoughtnt/util/Explosion.java:136-141 | the living entities of the query, in order |
| Explosions.Explosion.HurtOne | src/main/java/de/wroracer/justenoughtnt/util/Explosion.java:143-153 | an entity within the radius is hurt by getEntityDamage and kept; any other is left alone |
| Explosions.Explosion.DamageEntities | src/main/java/de/wroracer/justenoughtnt/util/Explosion.java:133-156 | returns exactly the affected entities, records one hurt per entity and leaves the blocks alone |
| Explosions.Explosion.ModifyEntities | src/main/java/de/wroracer/justenoughtnt/util/Explosion.java:124-131 | the hurt calls, then one push per hurt entity; no block changes |
| Explosions.Explosion.Explode | src/main/java/de/wroracer/justenoughtnt/util/Explosion.java:56-84 | acts only while the cursor is 0. Budgeted: appends Batches(sample) and runs the entity pass, destroying nothing; a second call appends a second copy. Instant: entity pass, then every sampled cell destroyed, again on every call. Otherwise nothing changes |
| Explosions.Explosion.Tick | src/main/java/de/wroracer/justenoughtnt/util/Explosion.java:106-122 | raises IllegalState for perTick <= 0; at the end answers true and changes nothing; otherwise advances the cursor by 1, destroys exactly batch cursor−1 and answers whether it was the last; the cursor bound is kept |
| TntX1k.Step | src/main/java/de/wroracer/justenoughtnt/entity/TNTX1KEntity.java:28-42 | one call on the registry: pos is stored afterwards iff the call did not finish; every other key and its entry are unchanged; every entry stays strictly between its first and last batch |
| TntX1k.FirstCall | src/main/java/de/wroracer/justenoughtnt/entity/TNTX1KEntity.java:31-41 | the first call at a position runs the entity pass, then destroys the first min(1000, N) sampled cells, and finishes iff N <= 1000 |
| TntX1k.StepFresh | src/main/java/de/wroracer/justenoughtnt/entity/TNTX1KEntity.java:31-41 | a call at a position with no entry creates (radius 100, drop chance 0, jitter 2, 1000 per tick) and fires; the entry is kept with cursor 1 iff there is more than one batch |
| TntX1k.StepStored | src/main/java/de/wroracer/justenoughtnt/entity/TNTX1KEntity.java:35-41 | a call at a stored position reuses the entry: destroys batch cursor, advances it, and removes the entry iff that was the last batch |
| TntX1k.Replay | src/main/java/de/wroracer/justenoughtnt/entity/TNTX1KEntity.java:28-42 | n successive calls keep the registry invariant and give one answer per call |
| TntX1k.CallAfter | src/main/java/de/wroracer/justenoughtnt/entity/TNTX1KEntity.java:37-41 | a call on a stored explosion advances the replay state by one batch |
| TntX1k.DiscardedAfter | src/main/java/de/wroracer/justenoughtnt/entity/TNTX1KEntity.java:28-42 | calls from an empty position: call i reports completion iff i = max(1, batches); until then pos holds (batches, i), after it the map is as before; the world has seen one entity pass and then the first i batches |
| TntX1k.WholeRun | src/main/java/de/wroracer/justenoughtnt/entity/TNTX1KEntity.java:28-42 | after max(1, batches) calls the entity is discarded, the map is back as before, and the world equals one instant explosion with the same settings |
| TntX1k.TntX1kEntity.constructor | src/main/java/de/wroracer/justenoughtnt/entity/TNTX1KEntity.java:18-21 | a new entity holds no explosions and is not discarded |
| TntX1k.TntX1kEntity.Lookup | src/main/java/de/wroracer/justenoughtnt/entity/TNTX1KEntity.java:29-35 | reuses the stored explosion for pos, or stores a fresh one with radius 100, drop 0, jitter 2 and 1000 per tick; no other key changes |
| TntX1k.TntX1kEntity.Fire | src/main/java/de/wroracer/justenoughtnt/entity/TNTX1KEntity.java:37-38 | explode then tick on one explosion; tick cannot raise here; the result matches Fired |
| TntX1k.TntX1kEntity.Advance | src/main/java/de/wroracer/justenoughtnt/entity/TNTX1KEntity.java:37-41 | fires, then removes the entry and discards the entity iff tick reported completion; other keys are unchanged |
| TntX1k.TntX1kEntity.Explode | src/main/java/de/wroracer/justenoughtnt/entity/TNTX1KEntity.java:27-42 | the entry at pos and the world become what Fired says; discarded becomes true iff this call finished; other keys keep their explosions, and those explosions are unchanged |

## Left out

- Velocity (`getEntityVelocity`, Explosion.java:175-189) is not modelled. Each hurt entity gets one
  push record; the vector, and the division by zero for an entity at the centre, are floating
  point.
- Floating point is not modelled: `Math.sqrt`, `Math.pow` and the float-to-double widening of the
  radius are the parameter `root`. The hurt amount is the exact real max(1, radius − distance); the
  narrowing `(float) damage` cast passed to `hurt` (Explosion.java:152) is not modelled. The radius is a natural number, so `-(int) radius == -r`.
- Java `int` overflow in `x * x + y * y + z * z` and in the batch index `i += perTick` is not
  modelled. For radius 100 and 1000 cells per tick neither overflows.
- `Math.random()` is modelled as per-cell draw functions. Every cell draws once per pass, but the
  global random state is not modelled.
- The entity box query `world.getEntities(source, AABB)` is the parameter `nearby`. The host
  computes it.
- Level.World.DestroyBlock: the host's `destroyBlock` is not part of this model. The world
  sets the cell to air and records the call; fluids left behind (a waterlogged block) and
  neighbour updates are not modelled.
- The body of `BaseTNTBlock.wasExplodedByJET` is not part of this model. The call is recorded and
  the block is left as it is.
- `(LivingEntity) source` throws ClassCastException for a non-living source. Not modelled: the
  source is an optional id.
- Logging, the getters and setters (Explosion.java:217-255), `getLevel`, `getPos` and `discard`'s
  effect on the host beyond the `discarded` flag are not modelled.
- The second `TNTX1KEntity` constructor (TNTX1KEntity.java:23-25) leaves the map null, so the first
  `explode` would throw NullPointerException. Only the first constructor is modelled.
- `ModBlockStateProvider` and `TNTX20` are not part of this model; they are data generation and a
  block definition.
- TntX1k.WholeRun: the replay uses the same draw functions on every call. Calls after the first
  use only `tickDraw`, so a run whose drop draws differ from call to call is not covered.
- TntX1k.TntX1kEntity.Explode: the unchanged-others promise is stated per explosion object (every
  other explosion the entity made is `unchanged`). It is not stated over the whole host world.
