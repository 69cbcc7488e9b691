# Hand-joint velocity tracking, modelled in Dafny

This project models the per-tick hand-tracking update of `src/hand_velocities.rs`
(a Bevy plugin for OpenXR hand tracking with Avian physics). Once per tick, while the XR session
is running, the update does two things in order:

1. **Locate and merge.** For each hand tracker, in query order, it chooses the query time. That is
   the predicted display time, plus the predicted display period when the `Pipelined` resource
   exists. The reference space is the tracker's own, or else the primary one. It then asks the
   runtime for the 26 hand-joint locations and velocities at that time.
   - "No data yet", a missing hand-tracking extension and any other error each skip the hand.
   - If the joints are located, all 26 bone entities are fetched at once. If any entity is
     missing, mismatched or duplicated, the hand is skipped.
   - Otherwise every bone entity takes the sample at the index of its own `HandBone`. The radius
     is always taken. Linear and angular velocity are each taken when their valid flag is set, and
     zeroed otherwise. Position and orientation are each copied when their valid flag is set, and
     kept otherwise. Scale is never written.
2. **Transfer.** Every entity that has the fused `XrVelocity` and both physics velocity components
   gets its physics velocities overwritten with the fused ones.

The model is functional. The ECS state is a `map<Entity, Components>`, where each record holds the
optional components the update touches. The runtime's joint query is an uninterpreted function
argument (`Locator`). The hand trackers are a sequence in query order. A tick returns the new world
and the diagnostics it logged.

Files, one module each:

- `wrappers.dfy`: `Option`.
- `geometry.dfy`: `Vec3`, `Quat`, `Transform`.
- `openxr.dfy`: flag words and their bit values, `HandBone` and its index, joint samples, the query
  outcome, and `i64` nanosecond times.
- `ecs.dfy`: entities, components, the bone and transfer queries, and `GetManyMut`, Bevy's
  all-or-nothing multi-entity lookup.
- `merge.dfy`: the flag-gated merge of one bone (`MergeBone`) and of one hand (`MergeHand`).
- `transfer.dfy`: the velocity transfer.
- `locate.dfy`: query time and space, the dispatch on the query outcome, and the tracker loop.
- `plugin.dfy`: the session-gated, merge-then-transfer tick and its end-to-end properties.

Modelling decisions:

- The orientation is copied as four raw components and never normalised.
- Samples are indexed by each entity's own `HandBone`, not by its position in the hand's entity
  array (`Merge.MergeBoneReadsOwnJoint`).
- `HandBone` (bevy_mod_xr) and `Query::get_many_mut` (Bevy) live in other crates. The model
  assumes `HandBone` follows the `XrHandJointEXT` order of XR_EXT_hand_tracking (palm 0, wrist 1,
  ..., little tip 25). `GetManyMut` models the lookup's documented failures: a duplicated entity
  (checked first), then a missing entity or one that does not match the query, each reported at
  its first occurrence in array order.
- Flag bits are the OpenXR values: orientation valid 0x1, position valid 0x2, orientation tracked
  0x4, position tracked 0x8; linear valid 0x1, angular valid 0x2. `XR_ERROR_EXTENSION_NOT_PRESENT`
  is -9.

## Model

| member | source | states |
|---|---|---|
| OpenXr.Index | src/hand_velocities.rs:97-98 | a bone's index always selects one of the 26 joint samples |
| OpenXr.IndexInjective | src/hand_velocities.rs:97-98 | two different bones never read the same joint sample |
| Ecs.FirstRepeat | src/hand_velocities.rs:89 | the duplicate scan finds nothing exactly when the bone entity array is free of duplicates, and otherwise reports the first entity that repeats an earlier one |
| Ecs.FirstUnmatched | src/hand_velocities.rs:89 | the fetch scan finds nothing exactly when every entity exists and has all four bone components; otherwise it reports the first missing or mismatched entity, every earlier one having matched |
| Ecs.GetManyMut | src/hand_velocities.rs:89-95 | the hand's lookup succeeds exactly when its entities are distinct, exist and carry HandBone, HandBoneRadius, Transform and XrVelocity; a failure names an entity of the array |
| Ecs.GetManyMutStable | src/hand_velocities.rs:89-95 | the lookup outcome depends only on which entities exist and match the bone query, so other hands' merges cannot change it |
| Merge.MergeBone | src/hand_velocities.rs:96-133 | radius always set from the sample; each velocity is the sample's when its flag is set and zero otherwise; translation and rotation are the sample's when their flag is set and unchanged otherwise; scale, bone and physics velocities are untouched |
| Merge.BoneMergedDeterministic | src/hand_velocities.rs:96-133 | the per-field merge rules fix every component of the merged bone; nothing is left unspecified |
| Merge.MergeBoneIdempotent | src/hand_velocities.rs:96-133 | merging the same sample a second time changes nothing |
| Merge.MergeBoneForgetsPriorVelocity | src/hand_velocities.rs:99-115 | radius and fused velocity after a merge do not depend on their prior values |
| Merge.RadiusIgnoresFlags | src/hand_velocities.rs:99 | the radius written does not depend on any location or velocity flag |
| Merge.MergeBoneReadsOwnJoint | src/hand_velocities.rs:96-98 | a bone's merge depends only on the sample at its own bone index |
| Merge.MergeHand | src/hand_velocities.rs:96-134 | each bone entity of the hand is merged with the located joints, and every other entity is unchanged |
| Transfer.TransferBone | src/hand_velocities.rs:40-43 | an entity of the transfer query gets physics linear and angular velocity equal to its fused ones; any other entity is unchanged; no other component is written |
| Transfer.TransferVels | src/hand_velocities.rs:39-44 | after the transfer every entity with XrVelocity and both physics velocities is in sync; entities lacking one are untouched; only the physics velocities change |
| Transfer.TransferFixesExactlySynced | src/hand_velocities.rs:39-44 | the transfer leaves a world unchanged exactly when every matching entity is already in sync |
| Transfer.TransferIdempotent | src/hand_velocities.rs:39-44 | applying the transfer twice gives the same world as applying it once |
| Locate.QueryTime | src/hand_velocities.rs:69-76 | the query time is the predicted display time, or that time plus the predicted display period in exact nanoseconds when pipelined |
| Locate.QuerySpace | src/hand_velocities.rs:64 | the reference space is the tracker's own when it has one, and the primary reference space otherwise |
| Locate.Query | src/hand_velocities.rs:66-77 | a tracker's joints are queried with its handle, in the selected reference space, at the selected time |
| Locate.PlanHand | src/hand_velocities.rs:64-95 | the query uses the tracker's reference space or else the primary one, at the display time (plus the period when pipelined); a hand is merged exactly when its joints are located and its lookup succeeds; no data skips silently, -9 logs a missing extension, other errors log a warning, and a lookup failure logs its cause |
| Locate.LocateHand | src/hand_velocities.rs:63-135 | a skipped hand changes nothing; a merged hand's bones are merged with the located joints; entities outside the hand are never changed; what the bone query sees is preserved |
| Locate.LocateHandsWithVel | src/hand_velocities.rs:63-135 | the tracker loop changes no entity that belongs to no tracker, keeps what the bone query sees, and logs at most one diagnostic per tracker |
| Locate.LocatePassHandOutcome | src/hand_velocities.rs:63-135 | with disjoint bone arrays, each hand's bones end the pass merged with its own located joints if its own plan against the initial world applies them, and untouched otherwise, whatever the other trackers before or after it did |
| Locate.LocatePassLogsQueryFailure | src/hand_velocities.rs:78-87 | a hand whose query failed leaves its diagnostic in the log, and the loop goes on with the other trackers |
| Plugin.Tick | src/hand_velocities.rs:31-35 | with the session not running nothing changes; with it running every matching entity ends in sync, and untracked entities only get the transfer |
| Plugin.MergeThenTransferBone | src/hand_velocities.rs:96-115 | merge followed by transfer leaves the physics velocities equal to the sample's velocity where valid and zero elsewhere |
| Plugin.AppliedHandTicked | src/hand_velocities.rs:89-133 | a hand whose plan merges some joints ends the tick with each bone holding its own joint's sample under the flag rules and physics velocities equal to that fused velocity |
| Plugin.SkippedHandKept | src/hand_velocities.rs:78-95 | a hand whose plan is a skip keeps its bones' radius, transform and fused velocity through the tick |
| Plugin.TickAppliesSample | src/hand_velocities.rs:64-133 | a hand whose query at the selected time and space locates its joints, whose lookup succeeds, ends the tick with each bone holding its own joint's sample under the flag rules, and with physics velocities equal to this tick's fused velocity |
| Plugin.TickSkipsHand | src/hand_velocities.rs:78-95 | no data, a missing extension, any other error or a failed lookup leaves that hand's bone state unchanged; only the stale velocity is re-applied to physics |
| Plugin.TickHandIndependent | src/hand_velocities.rs:63-95 | a hand's bones after a tick depend only on that hand's own query outcome, not on other hands' errors |
| Plugin.TickGateAndOrder | src/hand_velocities.rs:31-35 | an inactive session makes the tick a no-op; an active tick ends with the transfer already applied to the merged state |
| Plugin.WristScenario | src/hand_velocities.rs:96-133 | the wrist example: position and linear velocity taken, identity orientation kept, angular velocity zeroed, radius 0.02, physics velocities equal to the sample's linear velocity and zero |

## Left out

- Tracker lifecycle (`spawn_custom_hands`, `clean_up_custom_hands`): creating hand trackers and bone entities at session start and despawning them at session end is done by external collaborators.
- The OpenXR runtime call `locate_hand_joints_with_velocities` is an uninterpreted `Locator` argument, not behaviour.
- Bevy's scheduling, its change detection and the Avian physics integration step are not modelled. The tick is an explicit function that runs the merge pass and then the transfer.
- Log text is not modelled. Only the kind of diagnostic is recorded: an error for a missing extension, and a warning carrying the error code or the lookup error.
- `f32` semantics are not modelled: components are exact reals that are only copied. Rounding, NaN and signed zero are not represented.
- Locate.QueryTime: the pipelined sum is required to fit in an `i64` (`TimeFits`) rather than modelling Rust's overflow panic or wrap-around.
- Locate.LocatePassHandOutcome: requires that no bone entity belongs to two trackers, which is what the spawning code creates. With shared entities, a later tracker's merge overwrites an earlier one's, and this lemma does not describe that.
- Plugin.TickAppliesSample: carries the same requirement that no bone entity belongs to two trackers.
- Plugin.AppliedHandTicked: carries the same requirement that no bone entity belongs to two trackers.
- Plugin.SkippedHandKept: carries the same requirement that no bone entity belongs to two trackers.
- Plugin.TickSkipsHand: carries the same requirement that no bone entity belongs to two trackers.
- Plugin.TickHandIndependent: carries the same requirement that no bone entity belongs to two trackers.
- Which error `get_many_mut` reports when several entities are bad follows the order described above. It only affects the log payload.
