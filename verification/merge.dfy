/** The flag-gated merge of one hand's joint samples into its bone entities. */
module Merge {
  import opened Wrappers
  import opened Geometry
  import opened OpenXr
  import opened Ecs

  /** The sample value when its validity flag is set, the zero vector otherwise. */
  function ValidOrZero(valid: bool, sample: Vec3): Vec3 {
    if valid then sample else Zero
  }

  /** The sample value when its validity flag is set, the prior value otherwise. */
  function ValidOrKeep<T>(valid: bool, sample: T, prior: T): T {
    if valid then sample else prior
  }

  /** What the merge promises of one bone entity, field by field, for the samples at the index of
      the entity's own hand bone: radius always taken; each velocity taken when its flag is set and
      zeroed otherwise; position and orientation taken when their flag is set and kept otherwise;
      scale, bone identity and the physics velocities never written. */
  ghost predicate BoneMerged(before: Components, after: Components, joints: HandJoints)
    requires InBoneQuery(before)
  {
    var i := Index(before.handBone.value);
    var loc := joints.locations[i];
    var vel := joints.velocities[i];
    var prior := before.transform.value;
    && after.handBone == before.handBone
    && after.radius == Some(loc.radius)
    && after.velocity.Some?
    && (Contains(vel.velocityFlags, SPACE_VELOCITY_LINEAR_VALID) ==> after.velocity.value.linear == vel.linearVelocity)
    && (!Contains(vel.velocityFlags, SPACE_VELOCITY_LINEAR_VALID) ==> after.velocity.value.linear == Zero)
    && (Contains(vel.velocityFlags, SPACE_VELOCITY_ANGULAR_VALID) ==> after.velocity.value.angular == vel.angularVelocity)
    && (!Contains(vel.velocityFlags, SPACE_VELOCITY_ANGULAR_VALID) ==> after.velocity.value.angular == Zero)
    && after.transform.Some?
    && (Contains(loc.locationFlags, SPACE_LOCATION_POSITION_VALID) ==> after.transform.value.translation == loc.pose.position)
    && (!Contains(loc.locationFlags, SPACE_LOCATION_POSITION_VALID) ==> after.transform.value.translation == prior.translation)
    && (Contains(loc.locationFlags, SPACE_LOCATION_ORIENTATION_VALID) ==> after.transform.value.rotation == loc.pose.orientation)
    && (!Contains(loc.locationFlags, SPACE_LOCATION_ORIENTATION_VALID) ==> after.transform.value.rotation == prior.rotation)
    && after.transform.value.scale == prior.scale
    && after.linearVelocity == before.linearVelocity
    && after.angularVelocity == before.angularVelocity
  }

  /** The body of the per-bone loop: the merge of one bone entity's components. */
  function MergeBone(c: Components, joints: HandJoints): (r: Components)
    requires InBoneQuery(c)
    ensures InBoneQuery(r)
    ensures BoneMerged(c, r, joints)
  {
    var i := Index(c.handBone.value);
    var loc := joints.locations[i];
    var vel := joints.velocities[i];
    var prior := c.transform.value;
    c.(radius := Some(loc.radius),
       velocity := Some(XrVelocity(
         ValidOrZero(Contains(vel.velocityFlags, SPACE_VELOCITY_LINEAR_VALID), vel.linearVelocity),
         ValidOrZero(Contains(vel.velocityFlags, SPACE_VELOCITY_ANGULAR_VALID), vel.angularVelocity))),
       transform := Some(prior.(
         translation := ValidOrKeep(Contains(loc.locationFlags, SPACE_LOCATION_POSITION_VALID),
                                    loc.pose.position, prior.translation),
         rotation := ValidOrKeep(Contains(loc.locationFlags, SPACE_LOCATION_ORIENTATION_VALID),
                                 loc.pose.orientation, prior.rotation))))
  }

  /** `BoneMerged` leaves nothing open: it determines the merged components completely. */
  lemma BoneMergedDeterministic(before: Components, a1: Components, a2: Components, joints: HandJoints)
    requires InBoneQuery(before)
    requires BoneMerged(before, a1, joints) && BoneMerged(before, a2, joints)
    ensures a1 == a2
  {
    assert a1.velocity.value == a2.velocity.value;
    assert a1.transform.value == a2.transform.value;
  }

  /** Merging the same samples again changes nothing. */
  lemma MergeBoneIdempotent(c: Components, joints: HandJoints)
    requires InBoneQuery(c)
    ensures MergeBone(MergeBone(c, joints), joints) == MergeBone(c, joints)
  {
    var once := MergeBone(c, joints);
    BoneMergedDeterministic(once, MergeBone(once, joints), once, joints);
  }

  /** The prior radius and the prior fused velocity never survive a merge: two bone entities for the
      same hand bone end with the same radius and velocity whatever they held before. */
  lemma MergeBoneForgetsPriorVelocity(c1: Components, c2: Components, joints: HandJoints)
    requires InBoneQuery(c1) && InBoneQuery(c2)
    requires c1.handBone == c2.handBone
    ensures MergeBone(c1, joints).radius == MergeBone(c2, joints).radius
    ensures MergeBone(c1, joints).velocity == MergeBone(c2, joints).velocity
  {
    var r1 := MergeBone(c1, joints);
    var r2 := MergeBone(c2, joints);
    assert r1.velocity.value == r2.velocity.value;
  }

  /** The radius does not depend on any validity flag: samples that differ only in their location
      and velocity flags give the same radius. */
  lemma RadiusIgnoresFlags(c: Components, j1: HandJoints, j2: HandJoints)
    requires InBoneQuery(c)
    requires forall i | 0 <= i < HAND_JOINT_COUNT ::
               j1.locations[i].pose == j2.locations[i].pose && j1.locations[i].radius == j2.locations[i].radius
    ensures MergeBone(c, j1).radius == MergeBone(c, j2).radius
  {
    var i := Index(c.handBone.value);
    assert j1.locations[i].radius == j2.locations[i].radius;
  }

  /** The sample a bone entity takes is chosen by its own hand bone, not by where the entity sits in
      the hand's entity array: a change to any other joint's sample leaves its merge unchanged. */
  lemma MergeBoneReadsOwnJoint(c: Components, j1: HandJoints, j2: HandJoints)
    requires InBoneQuery(c)
    requires j1.locations[Index(c.handBone.value)] == j2.locations[Index(c.handBone.value)]
    requires j1.velocities[Index(c.handBone.value)] == j2.velocities[Index(c.handBone.value)]
    ensures MergeBone(c, j1) == MergeBone(c, j2)
  {
    BoneMergedDeterministic(c, MergeBone(c, j1), MergeBone(c, j2), j1);
  }

  /** The per-bone loop over the entities obtained by the lookup, in array order. */
  function MergeHand(w: World, es: seq<Entity>, joints: HandJoints): (r: World)
    requires Distinct(es)
    requires AllInBoneQuery(w, es)
    ensures r.Keys == w.Keys
    ensures forall e | e in w && e !in es :: r[e] == w[e]
    ensures forall e | e in es :: r[e] == MergeBone(w[e], joints)
    decreases |es|
  {
    if es == [] then w
    else
      var e := es[0];
      assert forall i | 0 <= i < |es[1..]| :: es[1..][i] == es[i + 1];
      MergeHand(w[e := MergeBone(w[e], joints)], es[1..], joints)
  }
}
