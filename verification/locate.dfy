/** Locating each tracked hand's joints and merging them into its bone entities: the query time
    and reference space, the dispatch on the query outcome, the all-or-nothing entity lookup, and
    the pass over every hand tracker in query order. */
module Locate {
  import opened Wrappers
  import opened Geometry
  import opened OpenXr
  import opened Ecs
  import opened Merge

  /** The resources the pass reads: the primary reference space, the frame state, and whether the
      `Pipelined` resource exists. */
  datatype LocateContext = LocateContext(primarySpace: Space, frame: FrameState, pipelined: bool)

  /** A hand-tracker entity: its tracker handle, its own reference space if it has one, and its
      fixed array of 26 bone entities. */
  type BoneEntities = s: seq<Entity> | |s| == HAND_JOINT_COUNT witness seq(HAND_JOINT_COUNT, _ => 0)
  datatype Tracker = Tracker(handle: TrackerHandle, referenceSpace: Option<Space>, bones: BoneEntities)

  /** The runtime's joint query, left uninterpreted: tracker, reference space, time. */
  type Locator = (TrackerHandle, Space, Nanos) -> LocateResult

  /** In pipelined mode the query time, the predicted display time plus the predicted display
      period, is still a signed 64-bit nanosecond count. */
  predicate TimeFits(ctx: LocateContext) {
    ctx.pipelined ==>
      ctx.frame.predictedDisplayTime + ctx.frame.predictedDisplayPeriod <= I64_MAX &&
      ctx.frame.predictedDisplayTime + ctx.frame.predictedDisplayPeriod >= I64_MIN
  }

  /** The time the joints are queried for: the predicted display time, one predicted display
      period later when pipelined, as an exact nanosecond sum. */
  function QueryTime(ctx: LocateContext): (t: Nanos)
    requires TimeFits(ctx)
    ensures !ctx.pipelined ==> t == ctx.frame.predictedDisplayTime
    ensures ctx.pipelined ==> t == ctx.frame.predictedDisplayTime + ctx.frame.predictedDisplayPeriod
  {
    if ctx.pipelined then ctx.frame.predictedDisplayTime + ctx.frame.predictedDisplayPeriod
    else ctx.frame.predictedDisplayTime
  }

  /** The reference space the joints are located in: the tracker's own, else the primary one. */
  function QuerySpace(ctx: LocateContext, t: Tracker): (s: Space)
    ensures t.referenceSpace.Some? ==> s == t.referenceSpace.value
    ensures t.referenceSpace.None? ==> s == ctx.primarySpace
  {
    match t.referenceSpace
    case Some(s) => s
    case None => ctx.primarySpace
  }

  /** The outcome of the joint query a tracker is located with, for its handle, space and time. */
  function Query(ctx: LocateContext, locate: Locator, t: Tracker): (q: LocateResult)
    requires TimeFits(ctx)
    ensures q == locate(t.handle, if t.referenceSpace.Some? then t.referenceSpace.value else ctx.primarySpace,
                        if ctx.pipelined then ctx.frame.predictedDisplayTime + ctx.frame.predictedDisplayPeriod
                        else ctx.frame.predictedDisplayTime)
  {
    locate(t.handle, QuerySpace(ctx, t), QueryTime(ctx))
  }

  /** What is logged for a hand that is skipped. */
  datatype Diagnostic =
    | ExtensionNotLoaded                        // error level
    | LocateFailed(code: int)                   // warning carrying the runtime's error
    | BonesUnavailable(cause: QueryEntityError) // warning carrying the lookup error

  /** A hand is either merged with located joints or skipped, possibly with a diagnostic. */
  datatype HandPlan = Apply(joints: HandJoints) | Skip(diagnostic: Option<Diagnostic>)

  /** The dispatch on the query outcome followed by the bone-entity lookup. The query is made at
      the predicted display time, one predicted display period later when pipelined, in the
      tracker's own reference space or else the primary one. A hand is merged exactly when its
      joints were located and all of its bone entities were obtained; every other outcome skips
      it, with the diagnostic of its kind. */
  function PlanHand(ctx: LocateContext, locate: Locator, t: Tracker, w: World): (p: HandPlan)
    requires TimeFits(ctx)
    ensures var q := locate(t.handle, if t.referenceSpace.Some? then t.referenceSpace.value else ctx.primarySpace,
                            if ctx.pipelined then ctx.frame.predictedDisplayTime + ctx.frame.predictedDisplayPeriod
                            else ctx.frame.predictedDisplayTime);
            && (p.Apply? <==> q.Located? && GetManyMut(w, t.bones).None?)
            && (p.Apply? ==> p.joints == q.joints)
            && (q.NotLocated? ==> p == Skip(None))
            && (q.Failed? && q.code == ERROR_EXTENSION_NOT_PRESENT ==> p == Skip(Some(ExtensionNotLoaded)))
            && (q.Failed? && q.code != ERROR_EXTENSION_NOT_PRESENT ==> p == Skip(Some(LocateFailed(q.code))))
            && (q.Located? && GetManyMut(w, t.bones).Some? ==>
                  p == Skip(Some(BonesUnavailable(GetManyMut(w, t.bones).value))))
    ensures p.Apply? ==> Distinct(t.bones) && AllInBoneQuery(w, t.bones)
  {
    match Query(ctx, locate, t)
    case NotLocated => Skip(None)
    case Failed(code) =>
      if code == ERROR_EXTENSION_NOT_PRESENT then Skip(Some(ExtensionNotLoaded))
      else Skip(Some(LocateFailed(code)))
    case Located(joints) =>
      match GetManyMut(w, t.bones)
      case Some(err) => Skip(Some(BonesUnavailable(err)))
      case None => Apply(joints)
  }

  datatype Step = Step(world: World, log: seq<Diagnostic>)

  /** The body of the tracker loop for one hand. */
  function LocateHand(ctx: LocateContext, locate: Locator, t: Tracker, w: World): (r: Step)
    requires TimeFits(ctx)
    ensures SameBoneQuery(w, r.world)
    ensures forall e | e in w && e !in t.bones :: r.world[e] == w[e]
    ensures PlanHand(ctx, locate, t, w).Skip? ==> r.world == w
    ensures PlanHand(ctx, locate, t, w).Apply? ==>
              forall e | e in t.bones :: r.world[e] == MergeBone(w[e], PlanHand(ctx, locate, t, w).joints)
    ensures r.log == match PlanHand(ctx, locate, t, w)
                     case Skip(Some(d)) => [d]
                     case _ => []
  {
    match PlanHand(ctx, locate, t, w)
    case Apply(joints) => Step(MergeHand(w, t.bones, joints), [])
    case Skip(None) => Step(w, [])
    case Skip(Some(d)) => Step(w, [d])
  }

  /** Entity `e` belongs to none of the trackers' bone arrays. */
  predicate Untracked(e: Entity, ts: seq<Tracker>) {
    forall i | 0 <= i < |ts| :: e !in ts[i].bones
  }

  /** No bone entity belongs to two trackers. */
  predicate BonesDisjoint(ts: seq<Tracker>) {
    forall i, j | 0 <= i < |ts| && 0 <= j < |ts| && i != j :: forall e | e in ts[i].bones :: e !in ts[j].bones
  }

  /** The tracker loop: each tracker in query order, every skip moving on to the next tracker. */
  function LocateHandsWithVel(ctx: LocateContext, locate: Locator, ts: seq<Tracker>, w: World): (r: Step)
    requires |ts| > 0 ==> TimeFits(ctx)
    ensures SameBoneQuery(w, r.world)
    ensures forall e | e in w && Untracked(e, ts) :: r.world[e] == w[e]
    ensures |r.log| <= |ts|
    decreases |ts|
  {
    if ts == [] then Step(w, [])
    else
      var first := LocateHand(ctx, locate, ts[0], w);
      var rest := LocateHandsWithVel(ctx, locate, ts[1..], first.world);
      assert forall e | Untracked(e, ts) :: e !in ts[0].bones && Untracked(e, ts[1..]) by {
        forall e | Untracked(e, ts) ensures e !in ts[0].bones && Untracked(e, ts[1..]) {
          assert forall i | 0 <= i < |ts[1..]| :: ts[1..][i] == ts[i + 1];
        }
      }
      Step(rest.world, first.log + rest.log)
  }

  lemma BonesDisjointTail(ts: seq<Tracker>)
    requires |ts| > 0 && BonesDisjoint(ts)
    ensures BonesDisjoint(ts[1..])
    ensures forall e | e in ts[0].bones :: Untracked(e, ts[1..])
  {
    forall e | e in ts[0].bones ensures Untracked(e, ts[1..]) {
      forall i | 0 <= i < |ts[1..]| ensures e !in ts[1..][i].bones {
        assert ts[1..][i] == ts[i + 1];
      }
    }
    forall i, j | 0 <= i < |ts[1..]| && 0 <= j < |ts[1..]| && i != j
      ensures forall e | e in ts[1..][i].bones :: e !in ts[1..][j].bones
    {
      assert ts[1..][i] == ts[i + 1] && ts[1..][j] == ts[j + 1];
    }
  }

  /** Over the whole pass, with disjoint bone arrays, each hand's bones end exactly as that hand's
      own plan against the initial world says: merged with its located joints, or untouched. No
      other hand's query outcome or lookup failure reaches them. */
  lemma {:induction false} LocatePassHandOutcome(ctx: LocateContext, locate: Locator, ts: seq<Tracker>, w: World, k: nat)
    requires TimeFits(ctx)
    requires k < |ts|
    requires BonesDisjoint(ts)
    ensures var r := LocateHandsWithVel(ctx, locate, ts, w).world;
            match PlanHand(ctx, locate, ts[k], w)
            case Apply(joints) => forall e | e in ts[k].bones :: r[e] == MergeBone(w[e], joints)
            case Skip(_) => forall e | e in ts[k].bones && e in w :: r[e] == w[e]
    decreases |ts|
  {
    var first := LocateHand(ctx, locate, ts[0], w);
    BonesDisjointTail(ts);
    if k == 0 {
    } else {
      LocatePassHandOutcome(ctx, locate, ts[1..], first.world, k - 1);
      assert ts[1..][k - 1] == ts[k];
      GetManyMutStable(w, first.world, ts[k].bones);
      assert PlanHand(ctx, locate, ts[k], first.world) == PlanHand(ctx, locate, ts[k], w);
      forall e | e in ts[k].bones && e in w ensures first.world[e] == w[e] {
        assert e !in ts[0].bones;
      }
    }
  }

  /** The pass logs every hand's diagnostic in tracker order: a hand whose query failed leaves its
      entry in the log. */
  lemma {:induction false} LocatePassLogsQueryFailure(ctx: LocateContext, locate: Locator, ts: seq<Tracker>, w: World, k: nat)
    requires TimeFits(ctx)
    requires k < |ts|
    requires Query(ctx, locate, ts[k]).Failed?
    ensures var code := Query(ctx, locate, ts[k]).code;
            (if code == ERROR_EXTENSION_NOT_PRESENT then ExtensionNotLoaded else LocateFailed(code))
              in LocateHandsWithVel(ctx, locate, ts, w).log
    decreases |ts|
  {
    var first := LocateHand(ctx, locate, ts[0], w);
    if k > 0 {
      assert ts[1..][k - 1] == ts[k];
      LocatePassLogsQueryFailure(ctx, locate, ts[1..], first.world, k - 1);
    }
  }
}
