/** The OpenXR values the hand-tracking update consumes: space location and velocity flags,
    the 26 hand joints of XR_EXT_hand_tracking, per-joint samples, the outcome of the
    joint query and the frame timing. */
module OpenXr {
  import opened Geometry

  /** XrSpaceLocationFlags and XrSpaceVelocityFlags are 64-bit flag words. */
  type Flags64 = bv64

  const SPACE_LOCATION_ORIENTATION_VALID: Flags64 := 0x1
  const SPACE_LOCATION_POSITION_VALID: Flags64 := 0x2
  const SPACE_LOCATION_ORIENTATION_TRACKED: Flags64 := 0x4
  const SPACE_LOCATION_POSITION_TRACKED: Flags64 := 0x8

  const SPACE_VELOCITY_LINEAR_VALID: Flags64 := 0x1
  const SPACE_VELOCITY_ANGULAR_VALID: Flags64 := 0x2

  /** A flag word contains a flag when every bit of the flag is set in it. */
  predicate Contains(flags: Flags64, bit: Flags64) {
    flags & bit == bit
  }

  /** XR_ERROR_EXTENSION_NOT_PRESENT. */
  const ERROR_EXTENSION_NOT_PRESENT: int := -9

  const I64_MIN: int := -0x8000_0000_0000_0000
  const I64_MAX: int := 0x7FFF_FFFF_FFFF_FFFF

  /** An `XrTime`: signed 64-bit nanoseconds. */
  type Nanos = t: int | I64_MIN <= t <= I64_MAX

  datatype FrameState = FrameState(predictedDisplayTime: Nanos, predictedDisplayPeriod: Nanos)

  /** Opaque handles of reference spaces and hand trackers. */
  type Space = nat
  type TrackerHandle = nat

  const HAND_JOINT_COUNT: nat := 26

  /** The hand joints, in XrHandJointEXT order; the discriminant is the joint's array index. */
  datatype HandBone =
    | Palm | Wrist
    | ThumbMetacarpal | ThumbProximal | ThumbDistal | ThumbTip
    | IndexMetacarpal | IndexProximal | IndexIntermediate | IndexDistal | IndexTip
    | MiddleMetacarpal | MiddleProximal | MiddleIntermediate | MiddleDistal | MiddleTip
    | RingMetacarpal | RingProximal | RingIntermediate | RingDistal | RingTip
    | LittleMetacarpal | LittleProximal | LittleIntermediate | LittleDistal | LittleTip

  /** A bone's array index: its position in the enumeration, which is its discriminant. */
  function Index(b: HandBone): (i: nat)
    ensures i < HAND_JOINT_COUNT
  {
    match b
    case Palm => 0
    case Wrist => 1
    case ThumbMetacarpal => 2
    case ThumbProximal => 3
    case ThumbDistal => 4
    case ThumbTip => 5
    case IndexMetacarpal => 6
    case IndexProximal => 7
    case IndexIntermediate => 8
    case IndexDistal => 9
    case IndexTip => 10
    case MiddleMetacarpal => 11
    case MiddleProximal => 12
    case MiddleIntermediate => 13
    case MiddleDistal => 14
    case MiddleTip => 15
    case RingMetacarpal => 16
    case RingProximal => 17
    case RingIntermediate => 18
    case RingDistal => 19
    case RingTip => 20
    case LittleMetacarpal => 21
    case LittleProximal => 22
    case LittleIntermediate => 23
    case LittleDistal => 24
    case LittleTip => 25
  }

  /** The joint stored at array index `i`. */
  function FromIndex(i: nat): (b: HandBone)
    requires i < HAND_JOINT_COUNT
    ensures Index(b) == i
  {
    if i == 0 then Palm
    else if i == 1 then Wrist
    else if i == 2 then ThumbMetacarpal
    else if i == 3 then ThumbProximal
    else if i == 4 then ThumbDistal
    else if i == 5 then ThumbTip
    else if i == 6 then IndexMetacarpal
    else if i == 7 then IndexProximal
    else if i == 8 then IndexIntermediate
    else if i == 9 then IndexDistal
    else if i == 10 then IndexTip
    else if i == 11 then MiddleMetacarpal
    else if i == 12 then MiddleProximal
    else if i == 13 then MiddleIntermediate
    else if i == 14 then MiddleDistal
    else if i == 15 then MiddleTip
    else if i == 16 then RingMetacarpal
    else if i == 17 then RingProximal
    else if i == 18 then RingIntermediate
    else if i == 19 then RingDistal
    else if i == 20 then RingTip
    else if i == 21 then LittleMetacarpal
    else if i == 22 then LittleProximal
    else if i == 23 then LittleIntermediate
    else if i == 24 then LittleDistal
    else LittleTip
  }

  /** Distinct joints use distinct samples: the index is a bijection onto [0, 26). */
  lemma IndexInjective(a: HandBone, b: HandBone)
    ensures Index(a) == Index(b) ==> a == b
  {
    assert FromIndex(Index(a)) == a by { match a { case _ => } }
    assert FromIndex(Index(b)) == b by { match b { case _ => } }
  }

  datatype Posef = Posef(orientation: Quat, position: Vec3)

  /** XrHandJointLocationEXT. */
  datatype JointLocation = JointLocation(locationFlags: Flags64, pose: Posef, radius: real)

  /** XrHandJointVelocityEXT. */
  datatype JointVelocity = JointVelocity(velocityFlags: Flags64, linearVelocity: Vec3, angularVelocity: Vec3)

  const NoLocation: JointLocation := JointLocation(0, Posef(IdentityRotation, Zero), 0.0)
  const NoVelocity: JointVelocity := JointVelocity(0, Zero, Zero)

  /** One sample per hand joint, indexed by `Index`. */
  type JointLocations = s: seq<JointLocation> | |s| == HAND_JOINT_COUNT
    witness seq(HAND_JOINT_COUNT, _ => NoLocation)
  type JointVelocities = s: seq<JointVelocity> | |s| == HAND_JOINT_COUNT
    witness seq(HAND_JOINT_COUNT, _ => NoVelocity)

  datatype HandJoints = HandJoints(locations: JointLocations, velocities: JointVelocities)

  /** The outcome of locating one hand's joints with velocities: the located joints, no data for
      that time yet, or a failure carrying the runtime's error code. */
  datatype LocateResult = Located(joints: HandJoints) | NotLocated | Failed(code: int)
}
