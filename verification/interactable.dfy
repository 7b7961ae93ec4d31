/** The pickable item of the desk interactors, the scene they act on, and
    the raycast results they read each frame. */
module Interactable {
  import opened Common
  import opened Physics
  import opened DeskButtons

  type ItemId = nat
  type BodyId = nat

  /** One Interactable: its Visual transform, its default rotation (an
      abstract per-object field), the approximate size its renderer bounds
      give, the zoom multipliers, and the Rigidbody found in its parents. */
  datatype Item = Item(
    defaultRotation: Orientation,
    rotation: Orientation,
    position: Vec3,
    approxSize: real,
    defaultDistanceK: real,
    minZoomK: real,
    maxZoomK: real,
    body: Option<BodyId>)

  /** Several items may share a parent Rigidbody, so bodies live apart. */
  datatype World = World(items: map<ItemId, Item>, bodies: map<BodyId, Body>)

  ghost predicate Wired(w: World) {
    forall i :: i in w.items && w.items[i].body.Some? ==> w.items[i].body.value in w.bodies
  }

  datatype ButtonRef = ButtonRef(id: nat, kind: ButtonType)

  /** A raycast against the interactable layer mask: nothing, or a collider
      whose parents may or may not hold an Interactable. */
  datatype MaskedHit = MaskMiss | MaskHit(item: Option<ItemId>)

  /** A raycast with no mask: nothing, or a point on some collider, with the
      DeskButtons and the Interactable found in its parents, if any. */
  datatype RayHit = RayMiss | RayHit(point: Vec3, button: Option<ButtonRef>, item: Option<ItemId>)

  /** The raycast only reports items that exist. */
  ghost predicate MaskedIn(h: MaskedHit, items: set<ItemId>) {
    h.MaskHit? && h.item.Some? ==> h.item.value in items
  }

  ghost predicate RayIn(h: RayHit, items: set<ItemId>) {
    h.RayHit? && h.item.Some? ==> h.item.value in items
  }
}
