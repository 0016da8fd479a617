/** The entity pass of an explosion (damageEntities): which entities it hurts and by how much. */
module Actors {
  import opened Wrappers
  import opened Grid
  import opened Level

  /** An entity returned by the host's box query around the centre (the source itself is never
      among them): its id, the block it stands in (getBlockX/Y/Z) and whether it is a LivingEntity. */
  datatype Entity = Entity(id: nat, cell: Pos, living: bool)

  /** The elements of s that satisfy f, in their original order. */
  function Filter<T>(s: seq<T>, f: T -> bool): seq<T>
  {
    if s == [] then [] else Filter(s[..|s| - 1], f) + (if f(s[|s| - 1]) then [s[|s| - 1]] else [])
  }

  /** Filtering one element more of a prefix. */
  lemma FilterStep<T>(s: seq<T>, f: T -> bool, i: nat)
    requires i < |s|
    ensures f(s[i]) ==> Filter(s[..i + 1], f) == Filter(s[..i], f) + [s[i]]
    ensures !f(s[i]) ==> Filter(s[..i + 1], f) == Filter(s[..i], f)
  {
    assert s[..i + 1][..i] == s[..i];
  }

  /** Filter keeps exactly the elements that satisfy f, and no more of them than s has. */
  lemma {:induction false} FilterMembers<T>(s: seq<T>, f: T -> bool)
    ensures |Filter(s, f)| <= |s|
    ensures forall e :: e in Filter(s, f) <==> e in s && f(e)
  {
    if s != [] {
      var init := s[..|s| - 1];
      FilterMembers(init, f);
      assert s == init + [s[|s| - 1]];
    }
  }

  predicate IsLiving(e: Entity)
  {
    e.living
  }

  /** getEntityDistance: the host's square root of the squared distance from the centre to the
      block the entity stands in. */
  function EntityDistance(center: Pos, root: nat -> real, e: Entity): real
  {
    root(SquaredDistance(e.cell, center))
  }

  /** The test damageEntities applies to a living entity: distance <= radius. */
  function WithinBlast(center: Pos, radius: nat, root: nat -> real): Entity -> bool
  {
    (e: Entity) => EntityDistance(center, root, e) <= radius as real
  }

  /** The entities damageEntities hurts and returns, in the order the host listed them. */
  function Affected(nearby: seq<Entity>, center: Pos, radius: nat, root: nat -> real): seq<Entity>
  {
    Filter(Filter(nearby, IsLiving), WithinBlast(center, radius, root))
  }

  /** getEntityDamage: max(1, radius - distance), never below 1 and otherwise radius - distance. */
  function EntityDamage(radius: nat, distance: real): (d: real)
    ensures 1.0 <= d && radius as real - distance <= d
    ensures d == 1.0 || d == radius as real - distance
  {
    if 1.0 >= radius as real - distance then 1.0 else radius as real - distance
  }

  /** The damage falls as the distance grows. */
  lemma DamageFalls(radius: nat, near: real, far: real)
    requires near <= far
    ensures EntityDamage(radius, far) <= EntityDamage(radius, near)
  {
  }

  /** The hurt calls for a list of entities, one each, in order. */
  function HurtLog(s: seq<Entity>, center: Pos, radius: nat, root: nat -> real, source: Option<nat>): seq<Effect>
  {
    if s == [] then []
    else
      var e := s[|s| - 1];
      HurtLog(s[..|s| - 1], center, radius, root, source)
        + [Hurt(e.id, EntityDamage(radius, EntityDistance(center, root, e)), source)]
  }

  /** One hurt call more. */
  lemma HurtLogSnoc(s: seq<Entity>, e: Entity, center: Pos, radius: nat, root: nat -> real, source: Option<nat>)
    ensures HurtLog(s + [e], center, radius, root, source)
         == HurtLog(s, center, radius, root, source) + [Hurt(e.id, EntityDamage(radius, EntityDistance(center, root, e)), source)]
  {
    assert (s + [e])[..|s|] == s;
  }

  /** The velocity updates modifyEntities makes, one per entity, in order. */
  function PushLog(s: seq<Entity>): seq<Effect>
  {
    if s == [] then [] else PushLog(s[..|s| - 1]) + [Pushed(s[|s| - 1].id)]
  }

  /** One velocity update more. */
  lemma PushLogStep(s: seq<Entity>, i: nat)
    requires i < |s|
    ensures PushLog(s[..i + 1]) == PushLog(s[..i]) + [Pushed(s[i].id)]
  {
    assert s[..i + 1][..i] == s[..i];
  }

  /** Everything the entity pass records: all the hurt calls, then all the velocity updates. */
  function EntityLog(s: seq<Entity>, center: Pos, radius: nat, root: nat -> real, source: Option<nat>): seq<Effect>
  {
    HurtLog(s, center, radius, root, source) + PushLog(s)
  }

  /** Only living entities within the radius are hurt, and all of those are. */
  lemma AffectedMembers(nearby: seq<Entity>, center: Pos, radius: nat, root: nat -> real, e: Entity)
    ensures e in Affected(nearby, center, radius, root) <==>
      e in nearby && e.living && EntityDistance(center, root, e) <= radius as real
  {
    FilterMembers(nearby, IsLiving);
    FilterMembers(Filter(nearby, IsLiving), WithinBlast(center, radius, root));
  }

  /** With an exact square root the radius test on entities is the integer test d² <= r². */
  lemma AffectedExact(nearby: seq<Entity>, center: Pos, radius: nat, root: nat -> real, e: Entity)
    requires ExactRoot(root, SquaredDistance(e.cell, center))
    ensures e in Affected(nearby, center, radius, root) <==>
      e in nearby && e.living && SquaredDistance(e.cell, center) <= radius * radius
  {
    AffectedMembers(nearby, center, radius, root, e);
    RootWithin(root, SquaredDistance(e.cell, center), radius);
  }

  /** The entity pass hurts each affected entity exactly once, in order, by at least 1, attributed
      to the source, and then pushes each of them once, in the same order. */
  lemma {:induction false} EntityLogShape(s: seq<Entity>, center: Pos, radius: nat, root: nat -> real, source: Option<nat>)
    ensures var log := EntityLog(s, center, radius, root, source);
      |log| == 2 * |s|
      && (forall i :: 0 <= i < |s| ==>
            log[i].Hurt? && log[i].entity == s[i].id && log[i].amount >= 1.0 && log[i].source == source)
      && (forall i :: 0 <= i < |s| ==> log[|s| + i] == Pushed(s[i].id))
  {
    HurtLogShape(s, center, radius, root, source);
    PushLogShape(s);
  }

  lemma {:induction false} HurtLogShape(s: seq<Entity>, center: Pos, radius: nat, root: nat -> real, source: Option<nat>)
    ensures var log := HurtLog(s, center, radius, root, source);
      |log| == |s|
      && forall i :: 0 <= i < |s| ==>
           log[i].Hurt? && log[i].entity == s[i].id && log[i].amount >= 1.0 && log[i].source == source
  {
    if s != [] {
      HurtLogShape(s[..|s| - 1], center, radius, root, source);
    }
  }

  lemma {:induction false} PushLogShape(s: seq<Entity>)
    ensures |PushLog(s)| == |s| && forall i :: 0 <= i < |s| ==> PushLog(s)[i] == Pushed(s[i].id)
  {
    if s != [] {
      PushLogShape(s[..|s| - 1]);
    }
  }
}
