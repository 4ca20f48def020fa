/** The rotating blades trap: it slides horizontally at a fixed height and
    reverses, with a small push in the new direction, whenever its probe along
    the direction of travel hits a wall. */
module Blades {
  import opened Engine

  /** The push applied after a reversal. */
  const PushBack := 0.02

  class RootMovement {
    const speed: real
    const fixedY: real

    /** +1 moving right, -1 moving left. */
    var direction: int
    var facingRight: bool
    var position: Vec3

    ghost predicate Valid()
      reads this
    {
      direction == (if facingRight then 1 else -1)
    }

    /** Start at `position`: moving right, at the starting height for ever. */
    constructor (speed: real, position: Vec3)
      ensures Valid() && direction == 1 && facingRight
      ensures this.position == position && fixedY == position.y && this.speed == speed
    {
      this.speed := speed;
      fixedY := position.y;
      direction := 1;
      facingRight := true;
      this.position := position;
    }

    /** The probe direction: it always points the way the blades move. */
    function RayDirection(): (d: Vec2)
      requires Valid()
      reads this
      ensures d == Vec2(direction as real, 0.0)
    {
      if facingRight then Vec2(1.0, 0.0) else Vec2(-1.0, 0.0)
    }

    /** A frame of `dt` seconds: move `speed * dt` along the direction at the
        fixed height; `wallHit` is the probe cast from the new position along
        `RayDirection()`. A hit reverses the direction and pushes the blades
        back by `PushBack` the new way. */
    method Update(dt: real, wallHit: bool)
      requires Valid()
      modifies this`direction, this`facingRight, this`position
      ensures Valid()
      ensures var moved := old(position.x) + speed * (old(direction) as real) * dt;
              && (!wallHit ==> position == Vec3(moved, fixedY, old(position.z)) && direction == old(direction))
              && (wallHit ==> direction == -old(direction)
                              && position == Vec3(moved + PushBack * (direction as real), fixedY, old(position.z)))
    {
      var movementX := speed * (direction as real) * dt;
      position := Vec3(position.x + movementX, fixedY, position.z);
      if wallHit {
        FlipDirection();
      }
    }

    method FlipDirection()
      requires Valid()
      modifies this`direction, this`facingRight, this`position
      ensures Valid()
      ensures direction == -old(direction) && facingRight == !old(facingRight)
      ensures position == Vec3(old(position.x) + PushBack * (direction as real), old(position.y), old(position.z))
    {
      direction := direction * -1;
      facingRight := !facingRight;
      position := Vec3(position.x + PushBack * (direction as real), position.y, position.z);
    }
  }
}
