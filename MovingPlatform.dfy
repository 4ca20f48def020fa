/** The moving platform: it shuttles between its start point and an end point
    offset horizontally, vertically or both, pausing at each end, and carries
    the player by making itself the parent of the player's transform. The
    detach on leaving is deferred to the late update, and a new contact in the
    same frame cancels it. */
module Platforms {
  import opened Engine

  datatype MovementType = Horizontal | Vertical | Diagonal

  /** The end point: the start offset by `dx` along x unless the movement is
      vertical only, and by `dy` along y unless it is horizontal only. */
  function EndPoint(kind: MovementType, start: Vec3, dx: real, dy: real): (e: Vec3)
    ensures kind == Horizontal ==> e == Vec3(start.x + dx, start.y, start.z)
    ensures kind == Vertical ==> e == Vec3(start.x, start.y + dy, start.z)
    ensures kind == Diagonal ==> e == Vec3(start.x + dx, start.y + dy, start.z)
  {
    var targetX := if kind == Horizontal || kind == Diagonal then start.x + dx else start.x;
    var targetY := if kind == Vertical || kind == Diagonal then start.y + dy else start.y;
    Vec3(targetX, targetY, start.z)
  }

  /** The platform never leaves its depth, and a non-zero offset always
      separates the two waypoints. */
  lemma EndPointSeparated(kind: MovementType, start: Vec3, dx: real, dy: real)
    ensures EndPoint(kind, start, dx, dy).z == start.z
    ensures EndPoint(kind, start, dx, dy) == start
            <==> (kind == Vertical || dx == 0.0) && (kind == Horizontal || dy == 0.0)
  {
  }

  class MovingPlatform {
    const pauseTime: real
    const startPoint: Vec3
    const endPoint: Vec3

    var position: Vec3
    var nextTarget: Vec3
    var leg: Leg
    /** The player transform whose detach is scheduled, if any. */
    var playerToDetach: Body?
    var detachScheduled: bool
    ghost var legsDone: nat

    ghost predicate Valid()
      reads this
    {
      && nextTarget == LegTarget(startPoint, endPoint, legsDone)
      && (leg.Pausing? ==> position == nextTarget)
      && (detachScheduled <==> playerToDetach != null)
    }

    /** Start at `position`, heading for the end point first. */
    constructor (position: Vec3, kind: MovementType, patrolDistanceX: real, patrolDistanceY: real,
                 pauseTime: real)
      ensures Valid()
      ensures startPoint == position && endPoint == EndPoint(kind, position, patrolDistanceX, patrolDistanceY)
      ensures this.position == position && nextTarget == endPoint && leg == Travelling
      ensures playerToDetach == null && !detachScheduled
    {
      this.pauseTime := pauseTime;
      startPoint := position;
      endPoint := EndPoint(kind, position, patrolDistanceX, patrolDistanceY);
      this.position := position;
      nextTarget := EndPoint(kind, position, patrolDistanceX, patrolDistanceY);
      leg := Travelling;
      playerToDetach := null;
      detachScheduled := false;
      legsDone := 0;
    }

    /** One frame of a leg at time `now`, as for the vertical patroller:
        step while farther than the tolerance, else snap and pause. */
    method MoveStep(now: real, distance: real, stepped: Vec3)
      requires Valid() && leg.Travelling?
      modifies this`position, this`leg
      ensures Valid()
      ensures distance > ArrivalTolerance ==> position == stepped && leg == Travelling
      ensures distance <= ArrivalTolerance ==> position == nextTarget && leg == Pausing(now + pauseTime)
    {
      if distance > ArrivalTolerance {
        position := stepped;
      } else {
        position := nextTarget;
        leg := Pausing(now + pauseTime);
      }
    }

    /** Resumption of the movement cycle at time `now`; after a pause the
        target switches to the other end and the first step is taken. */
    method MovementTick(now: real, distance: real, stepped: Vec3)
      requires Valid()
      modifies this`position, this`nextTarget, this`leg, this`legsDone
      ensures Valid()
      ensures old(leg).Pausing? && now < old(leg).until
              ==> position == old(position) && nextTarget == old(nextTarget) && leg == old(leg)
      ensures old(leg).Pausing? && now >= old(leg).until
              ==> nextTarget == OtherWaypoint(old(nextTarget), startPoint, endPoint)
      ensures old(leg).Travelling? ==> nextTarget == old(nextTarget)
      ensures old(leg).Travelling? || now >= old(leg).until
              ==> (distance > ArrivalTolerance ==> position == stepped && leg == Travelling)
                  && (distance <= ArrivalTolerance ==> position == nextTarget && leg == Pausing(now + pauseTime))
    {
      match leg
      case Travelling =>
        MoveStep(now, distance, stepped);
      case Pausing(until) =>
        if now >= until {
          ToggleFollowsLegs(startPoint, endPoint, legsDone);
          nextTarget := OtherWaypoint(nextTarget, startPoint, endPoint);
          legsDone := legsDone + 1;
          leg := Travelling;
          MoveStep(now, distance, stepped);
        }
    }

    /** Late update: a scheduled detach unparents that player transform,
        whatever its parent is by now, and clears the schedule. */
    method LateUpdate()
      requires Valid()
      modifies this`playerToDetach, this`detachScheduled, playerToDetach
      ensures Valid()
      ensures playerToDetach == null && !detachScheduled
      ensures old(playerToDetach) != null
              ==> old(playerToDetach).parent == null
                  && old(playerToDetach).velocity == old(playerToDetach.velocity)
                  && old(playerToDetach).impulses == old(playerToDetach.impulses)
    {
      if detachScheduled && playerToDetach != null {
        playerToDetach.parent := null;
        playerToDetach := null;
        detachScheduled := false;
      }
    }

    /** Contact with `other`: a player-tagged one is parented to the platform
        and any pending detach is cancelled. */
    method OnCollisionEnter2D(isPlayer: bool, other: Body)
      requires Valid()
      modifies this`playerToDetach, this`detachScheduled, other
      ensures Valid()
      ensures isPlayer ==> other.parent == this && playerToDetach == null && !detachScheduled
      ensures !isPlayer ==> other.parent == old(other.parent) && playerToDetach == old(playerToDetach)
                            && detachScheduled == old(detachScheduled)
      ensures other.velocity == old(other.velocity) && other.impulses == old(other.impulses)
    {
      if isPlayer {
        other.parent := this;
        detachScheduled := false;
        playerToDetach := null;
      }
    }

    /** End of contact with `other`: a player-tagged one is scheduled for
        detaching, and stays parented until the late update. */
    method OnCollisionExit2D(isPlayer: bool, other: Body)
      requires Valid()
      modifies this`playerToDetach, this`detachScheduled
      ensures Valid()
      ensures isPlayer ==> playerToDetach == other && detachScheduled
      ensures !isPlayer ==> playerToDetach == old(playerToDetach) && detachScheduled == old(detachScheduled)
    {
      if isPlayer {
        playerToDetach := other;
        detachScheduled := true;
      }
    }
  }
}
