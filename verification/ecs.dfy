/** The entity-component state the hand-tracking update reads and writes: one record of optional
    components per entity, the two queries that select entities, and the all-or-nothing multi-entity
    lookup `Query::get_many_mut` performs on a hand's bone entities. */
module Ecs {
  import opened Wrappers
  import opened Geometry
  import opened OpenXr

  type Entity = nat

  /** The fused per-bone velocity component. */
  datatype XrVelocity = XrVelocity(linear: Vec3, angular: Vec3)

  /** The components an entity may carry that the update touches: its hand bone, bone radius,
      transform, fused velocity, and the physics engine's linear and angular velocity. */
  datatype Components = Components(
    handBone: Option<HandBone>,
    radius: Option<real>,
    transform: Option<Transform>,
    velocity: Option<XrVelocity>,
    linearVelocity: Option<Vec3>,
    angularVelocity: Option<Vec3>)

  type World = map<Entity, Components>

  /** The bone query: HandBone, HandBoneRadius, Transform and XrVelocity are all present. */
  predicate InBoneQuery(c: Components) {
    c.handBone.Some? && c.radius.Some? && c.transform.Some? && c.velocity.Some?
  }

  /** The transfer query: XrVelocity, LinearVelocity and AngularVelocity are all present. */
  predicate InTransferQuery(c: Components) {
    c.velocity.Some? && c.linearVelocity.Some? && c.angularVelocity.Some?
  }

  predicate Distinct(es: seq<Entity>) {
    forall i, j | 0 <= i < |es| && 0 <= j < |es| && i != j :: es[i] != es[j]
  }

  /** Every entity of `es` exists and matches the bone query. */
  predicate AllInBoneQuery(w: World, es: seq<Entity>) {
    forall e | e in es :: e in w && InBoneQuery(w[e])
  }

  /** Why a multi-entity lookup fails. */
  datatype QueryEntityError =
    | AliasedMutability(entity: Entity)
    | NoSuchEntity(entity: Entity)
    | QueryDoesNotMatch(entity: Entity)

  /** The first entity (scanning from `from`) that already occurs earlier in `es`: everything before
      the position where it is reported is still duplicate-free. */
  function FirstRepeat(es: seq<Entity>, from: nat): (r: Option<Entity>)
    requires from <= |es|
    requires Distinct(es[..from])
    ensures r.None? <==> Distinct(es)
    ensures r.Some? ==> exists k | from <= k < |es| :: es[k] == r.value && es[k] in es[..k] && Distinct(es[..k])
    decreases |es| - from
  {
    if from == |es| then
      assert es[..from] == es;
      None
    else if es[from] in es[..from] then
      var k :| 0 <= k < from && es[k] == es[from];
      assert !Distinct(es) by { assert es[k] == es[from]; }
      Some(es[from])
    else
      assert Distinct(es[..from + 1]) by {
        var p := es[..from + 1];
        forall i, j | 0 <= i < |p| && 0 <= j < |p| && i != j ensures p[i] != p[j] {
          if i < from && j < from {
            assert p[i] == es[..from][i] && p[j] == es[..from][j];
          } else if i == from {
            assert p[j] == es[..from][j];
          } else {
            assert p[i] == es[..from][i];
          }
        }
      }
      FirstRepeat(es, from + 1)
  }

  /** The first entity (scanning from `from`) that is missing or does not match the bone query:
      every entity before it exists and matches. */
  function FirstUnmatched(w: World, es: seq<Entity>, from: nat): (r: Option<QueryEntityError>)
    requires from <= |es|
    ensures r.None? <==> forall i | from <= i < |es| :: es[i] in w && InBoneQuery(w[es[i]])
    ensures r.Some? && r.value.NoSuchEntity? ==> r.value.entity in es[from..] && r.value.entity !in w
    ensures r.Some? && r.value.QueryDoesNotMatch? ==>
              r.value.entity in es[from..] && r.value.entity in w && !InBoneQuery(w[r.value.entity])
    ensures r.Some? ==> !r.value.AliasedMutability?
    ensures r.Some? ==> exists k | from <= k < |es| ::
              && es[k] == r.value.entity
              && (es[k] !in w || !InBoneQuery(w[es[k]]))
              && forall i | from <= i < k :: es[i] in w && InBoneQuery(w[es[i]])
    decreases |es| - from
  {
    if from == |es| then None
    else if es[from] !in w then Some(NoSuchEntity(es[from]))
    else if !InBoneQuery(w[es[from]]) then Some(QueryDoesNotMatch(es[from]))
    else
      var r := FirstUnmatched(w, es, from + 1);
      assert r.Some? ==> exists k | from <= k < |es| ::
               && es[k] == r.value.entity
               && (es[k] !in w || !InBoneQuery(w[es[k]]))
               && forall i | from <= i < k :: es[i] in w && InBoneQuery(w[es[i]]) by {
        if r.Some? {
          var k :| from + 1 <= k < |es| && es[k] == r.value.entity && (es[k] !in w || !InBoneQuery(w[es[k]]))
                   && forall i | from + 1 <= i < k :: es[i] in w && InBoneQuery(w[es[i]]);
          assert forall i | from <= i < k :: es[i] in w && InBoneQuery(w[es[i]]);
        }
      }
      r
  }

  /** `Query::get_many_mut` over the bone query: aliasing is rejected before any entity is fetched,
      then each entity is fetched in order. `None` means every entity was obtained. */
  function GetManyMut(w: World, es: seq<Entity>): (r: Option<QueryEntityError>)
    ensures r.None? <==> Distinct(es) && AllInBoneQuery(w, es)
    ensures r.Some? ==> r.value.entity in es
  {
    match FirstRepeat(es, 0)
    case Some(e) => Some(AliasedMutability(e))
    case None =>
      var r := FirstUnmatched(w, es, 0);
      assert r.None? ==> AllInBoneQuery(w, es) by {
        if r.None? {
          forall e | e in es ensures e in w && InBoneQuery(w[e]) {
            var i :| 0 <= i < |es| && es[i] == e;
          }
        }
      }
      assert es[0..] == es;
      r
  }

  /** Two worlds agree on what the bone query sees. */
  predicate SameBoneQuery(w1: World, w2: World) {
    w1.Keys == w2.Keys && forall e | e in w1 :: InBoneQuery(w1[e]) == InBoneQuery(w2[e])
  }

  lemma {:induction false} FirstUnmatchedStable(w1: World, w2: World, es: seq<Entity>, from: nat)
    requires from <= |es|
    requires SameBoneQuery(w1, w2)
    ensures FirstUnmatched(w1, es, from) == FirstUnmatched(w2, es, from)
    decreases |es| - from
  {
    if from < |es| {
      FirstUnmatchedStable(w1, w2, es, from + 1);
    }
  }

  /** The lookup outcome depends only on which entities exist and match the bone query, so
      writes that keep every entity's query membership cannot change it. */
  lemma GetManyMutStable(w1: World, w2: World, es: seq<Entity>)
    requires SameBoneQuery(w1, w2)
    ensures GetManyMut(w1, es) == GetManyMut(w2, es)
  {
    FirstUnmatchedStable(w1, w2, es, 0);
  }
}
