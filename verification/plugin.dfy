/** The per-tick schedule of the custom hand-tracking plugin: while the session is running, locate
    and merge every hand, then transfer the fused velocities to the physics velocities. */
module Plugin {
  import opened Wrappers
  import opened Geometry
  import opened OpenXr
  import opened Ecs
  import opened Merge
  import opened Transfer
  import opened Locate

  /** One tick: the merge pass chained before the transfer, both gated on the session running. */
  function Tick(sessionRunning: bool, ctx: LocateContext, locate: Locator, ts: seq<Tracker>, w: World): (r: Step)
    requires sessionRunning && |ts| > 0 ==> TimeFits(ctx)
    ensures !sessionRunning ==> r.world == w && r.log == []
    ensures r.world.Keys == w.Keys
    ensures sessionRunning ==> Synced(r.world)
    ensures sessionRunning ==> forall e | e in w && Untracked(e, ts) :: r.world[e] == TransferBone(w[e])
  {
    if !sessionRunning then Step(w, [])
    else
      var located := LocateHandsWithVel(ctx, locate, ts, w);
      Step(TransferVels(located.world), located.log)
  }

  /** The fused velocity of a sample: the sample's velocity where its flag is set, zero elsewhere. */
  function SampledVelocity(v: JointVelocity): XrVelocity {
    XrVelocity(
      if Contains(v.velocityFlags, SPACE_VELOCITY_LINEAR_VALID) then v.linearVelocity else Zero,
      if Contains(v.velocityFlags, SPACE_VELOCITY_ANGULAR_VALID) then v.angularVelocity else Zero)
  }

  /** What a tick promises of one bone entity of a merged hand: its own joint's sample taken (radius
      always, pose where valid, otherwise kept; scale kept; fused velocity taken where valid and
      zeroed elsewhere), and the physics velocities equal to that same fused velocity. */
  ghost predicate BoneTicked(before: Components, after: Components, joints: HandJoints)
    requires InBoneQuery(before)
  {
    var loc := joints.locations[Index(before.handBone.value)];
    var vel := joints.velocities[Index(before.handBone.value)];
    var prior := before.transform.value;
    && after.handBone == before.handBone
    && after.radius == Some(loc.radius)
    && after.transform == Some(Transform(
         if Contains(loc.locationFlags, SPACE_LOCATION_POSITION_VALID) then loc.pose.position else prior.translation,
         if Contains(loc.locationFlags, SPACE_LOCATION_ORIENTATION_VALID) then loc.pose.orientation else prior.rotation,
         prior.scale))
    && after.velocity == Some(SampledVelocity(vel))
    && (InTransferQuery(before) ==>
          after.linearVelocity == Some(SampledVelocity(vel).linear) &&
          after.angularVelocity == Some(SampledVelocity(vel).angular))
    && (!InTransferQuery(before) ==>
          after.linearVelocity == before.linearVelocity && after.angularVelocity == before.angularVelocity)
  }

  /** What a tick promises of one bone entity of a skipped hand: bone state kept, and the physics
      velocities re-synced to the kept fused velocity. */
  ghost predicate BoneKept(before: Components, after: Components) {
    && after.handBone == before.handBone
    && after.radius == before.radius
    && after.transform == before.transform
    && after.velocity == before.velocity
    && (InTransferQuery(before) ==>
          after.linearVelocity == Some(before.velocity.value.linear) &&
          after.angularVelocity == Some(before.velocity.value.angular))
    && (!InTransferQuery(before) ==> after == before)
  }

  /** Merge followed by transfer on one bone entity. */
  lemma MergeThenTransferBone(c: Components, joints: HandJoints)
    requires InBoneQuery(c)
    ensures BoneTicked(c, TransferBone(MergeBone(c, joints)), joints)
  {
    var merged := MergeBone(c, joints);
    assert merged.velocity.value == SampledVelocity(joints.velocities[Index(c.handBone.value)]);
    assert InTransferQuery(merged) == InTransferQuery(c);
  }

  /** Transfer alone on one bone entity keeps its bone state. */
  lemma TransferKeepsBone(c: Components)
    ensures BoneKept(c, TransferBone(c))
  {
  }

  /** A hand whose query (at the selected time, in the selected space) locates its joints, and all of whose bone entities are obtained, ends the tick with every bone
      carrying its own joint's sample, and the physics velocities equal to that tick's fused
      velocity. */
  lemma TickAppliesSample(ctx: LocateContext, locate: Locator, ts: seq<Tracker>, w: World, k: nat)
    requires TimeFits(ctx)
    requires k < |ts|
    requires BonesDisjoint(ts)
    requires Query(ctx, locate, ts[k]).Located?
    requires GetManyMut(w, ts[k].bones).None?
    ensures forall e | e in ts[k].bones ::
              BoneTicked(w[e], Tick(true, ctx, locate, ts, w).world[e], Query(ctx, locate, ts[k]).joints)
  {
    var q := Query(ctx, locate, ts[k]);
    AppliedHandTicked(ctx, locate, ts, w, k, q.joints);
  }

  /** A hand whose plan merges `joints` ends the tick with each bone ticked with them. */
  lemma {:induction false} AppliedHandTicked(ctx: LocateContext, locate: Locator, ts: seq<Tracker>, w: World, k: nat,
                                             joints: HandJoints)
    requires TimeFits(ctx)
    requires k < |ts|
    requires BonesDisjoint(ts)
    requires PlanHand(ctx, locate, ts[k], w) == Apply(joints)
    ensures forall e | e in ts[k].bones :: BoneTicked(w[e], Tick(true, ctx, locate, ts, w).world[e], joints)
  {
    var mid := LocateHandsWithVel(ctx, locate, ts, w).world;
    var r := Tick(true, ctx, locate, ts, w).world;
    LocatePassHandOutcome(ctx, locate, ts, w, k);
    forall e | e in ts[k].bones ensures BoneTicked(w[e], r[e], joints) {
      assert mid[e] == MergeBone(w[e], joints);
      assert r[e] == TransferBone(mid[e]);
      MergeThenTransferBone(w[e], joints);
    }
  }

  /** A hand whose plan is a skip keeps each of its bones' state through the tick. */
  lemma {:induction false} SkippedHandKept(ctx: LocateContext, locate: Locator, ts: seq<Tracker>, w: World, k: nat)
    requires TimeFits(ctx)
    requires k < |ts|
    requires BonesDisjoint(ts)
    requires PlanHand(ctx, locate, ts[k], w).Skip?
    ensures forall e | e in ts[k].bones && e in w :: BoneKept(w[e], Tick(true, ctx, locate, ts, w).world[e])
  {
    var mid := LocateHandsWithVel(ctx, locate, ts, w).world;
    var r := Tick(true, ctx, locate, ts, w).world;
    LocatePassHandOutcome(ctx, locate, ts, w, k);
    forall e | e in ts[k].bones && e in w ensures BoneKept(w[e], r[e]) {
      assert mid[e] == w[e];
      assert r[e] == TransferBone(w[e]);
      TransferKeepsBone(w[e]);
    }
  }

  /** A hand that is skipped (no data yet, extension missing, any other query error, or a failed
      bone lookup) keeps the radius, transform and fused velocity of each of its bones through the
      tick; only the physics velocities are re-synced to that stale fused velocity. */
  lemma TickSkipsHand(ctx: LocateContext, locate: Locator, ts: seq<Tracker>, w: World, k: nat)
    requires TimeFits(ctx)
    requires k < |ts|
    requires BonesDisjoint(ts)
    requires !Query(ctx, locate, ts[k]).Located? || GetManyMut(w, ts[k].bones).Some?
    ensures forall e | e in ts[k].bones && e in w :: BoneKept(w[e], Tick(true, ctx, locate, ts, w).world[e])
  {
    SkippedHandKept(ctx, locate, ts, w, k);
  }

  /** Hands are independent: two runtimes that answer one hand's query alike leave that hand's bones
      in the same state, whatever they answer for every other hand. */
  lemma TickHandIndependent(ctx: LocateContext, locate1: Locator, locate2: Locator, ts: seq<Tracker>, w: World, k: nat)
    requires TimeFits(ctx)
    requires k < |ts|
    requires BonesDisjoint(ts)
    requires Query(ctx, locate1, ts[k]) == Query(ctx, locate2, ts[k])
    ensures forall e | e in ts[k].bones && e in w ::
              Tick(true, ctx, locate1, ts, w).world[e] == Tick(true, ctx, locate2, ts, w).world[e]
  {
    LocatePassHandOutcome(ctx, locate1, ts, w, k);
    LocatePassHandOutcome(ctx, locate2, ts, w, k);
    assert PlanHand(ctx, locate1, ts[k], w) == PlanHand(ctx, locate2, ts[k], w);
  }

  /** With the session not running a tick is a no-op, and with it running a second transfer after
      the tick would change nothing: the physics velocities hold exactly this tick's fused ones. */
  lemma TickGateAndOrder(ctx: LocateContext, locate: Locator, ts: seq<Tracker>, w: World)
    requires |ts| > 0 ==> TimeFits(ctx)
    ensures Tick(false, ctx, locate, ts, w) == Step(w, [])
    ensures TransferVels(Tick(true, ctx, locate, ts, w).world) == Tick(true, ctx, locate, ts, w).world
  {
    TransferFixesExactlySynced(Tick(true, ctx, locate, ts, w).world);
  }

  /** The wrist scenario, on the wrist's bone entity alone: position and linear velocity valid,
      orientation and angular velocity invalid, radius 0.02, prior orientation the identity and
      prior angular velocity (1, 1, 1); the bone is merged and then transferred. */
  lemma WristScenario(c: Components, position: Vec3, orientation: Quat, linear: Vec3, angular: Vec3, joints: HandJoints)
    requires InBoneQuery(c) && InTransferQuery(c)
    requires c.handBone == Some(Wrist)
    requires c.transform.value.rotation == IdentityRotation
    requires c.velocity.value.angular == Vec3(1.0, 1.0, 1.0)
    requires joints.locations[1] == JointLocation(SPACE_LOCATION_POSITION_VALID, Posef(orientation, position), 0.02)
    requires joints.velocities[1] == JointVelocity(SPACE_VELOCITY_LINEAR_VALID, linear, angular)
    ensures var merged := MergeBone(c, joints);
            && merged.transform.value.translation == position
            && merged.transform.value.rotation == IdentityRotation
            && merged.velocity == Some(XrVelocity(linear, Zero))
            && merged.radius == Some(0.02)
            && TransferBone(merged).linearVelocity == Some(linear)
            && TransferBone(merged).angularVelocity == Some(Zero)
  {
    var merged := MergeBone(c, joints);
    assert Contains(SPACE_LOCATION_POSITION_VALID, SPACE_LOCATION_POSITION_VALID);
    assert !Contains(SPACE_LOCATION_POSITION_VALID, SPACE_LOCATION_ORIENTATION_VALID);
    assert Contains(SPACE_VELOCITY_LINEAR_VALID, SPACE_VELOCITY_LINEAR_VALID);
    assert !Contains(SPACE_VELOCITY_LINEAR_VALID, SPACE_VELOCITY_ANGULAR_VALID);
    assert merged.velocity.value == XrVelocity(linear, Zero);
  }
}
