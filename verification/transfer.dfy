/** Copying the fused velocity into the physics engine's rigid-body velocity components. */
module Transfer {
  import opened Wrappers
  import opened Geometry
  import opened Ecs

  /** An entity of the transfer query whose physics velocities already equal its fused velocity. */
  predicate BoneSynced(c: Components) {
    InTransferQuery(c) ==>
      c.linearVelocity == Some(c.velocity.value.linear) && c.angularVelocity == Some(c.velocity.value.angular)
  }

  /** Every entity of the transfer query is synced. */
  predicate Synced(w: World) {
    forall e | e in w :: BoneSynced(w[e])
  }

  /** The loop body of the transfer: both physics velocities of a matching entity are overwritten. */
  function TransferBone(c: Components): (r: Components)
    ensures BoneSynced(r)
    ensures InTransferQuery(c) ==> r.linearVelocity == Some(c.velocity.value.linear)
    ensures InTransferQuery(c) ==> r.angularVelocity == Some(c.velocity.value.angular)
    ensures !InTransferQuery(c) ==> r == c
    ensures r.(linearVelocity := c.linearVelocity, angularVelocity := c.angularVelocity) == c
  {
    if InTransferQuery(c) then
      c.(linearVelocity := Some(c.velocity.value.linear), angularVelocity := Some(c.velocity.value.angular))
    else c
  }

  /** The transfer over every entity: afterwards all of the transfer query is synced, entities
      outside it are untouched, and no component other than the physics velocities is written. */
  function TransferVels(w: World): (r: World)
    ensures r.Keys == w.Keys
    ensures Synced(r)
    ensures forall e | e in w && !InTransferQuery(w[e]) :: r[e] == w[e]
    ensures forall e | e in w && InTransferQuery(w[e]) ::
              && r[e].linearVelocity == Some(w[e].velocity.value.linear)
              && r[e].angularVelocity == Some(w[e].velocity.value.angular)
    ensures forall e | e in w ::
              r[e].(linearVelocity := w[e].linearVelocity, angularVelocity := w[e].angularVelocity) == w[e]
  {
    map e | e in w :: TransferBone(w[e])
  }

  /** The transfer changes a world exactly when some entity is out of sync. */
  lemma TransferFixesExactlySynced(w: World)
    ensures TransferVels(w) == w <==> Synced(w)
  {
    var r := TransferVels(w);
    if Synced(w) {
      forall e | e in w ensures r[e] == w[e] {
        if InTransferQuery(w[e]) {
          assert BoneSynced(w[e]);
        }
      }
    }
  }

  /** Transferring twice gives the same world as transferring once. */
  lemma TransferIdempotent(w: World)
    ensures TransferVels(TransferVels(w)) == TransferVels(w)
  {
    TransferFixesExactlySynced(TransferVels(w));
  }
}
