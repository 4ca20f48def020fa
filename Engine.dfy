/** Types and engine conventions shared by every gameplay component.

    The game engine itself (physics, animation, scene loading) is not modelled;
    what the components read from it arrives as method parameters, and what they
    ask of it is recorded in fields. */
module Engine {

  datatype Option<T> = None | Some(value: T)

  /** A rigid-body velocity or an impulse. */
  datatype Vec2 = Vec2(x: real, y: real)

  /** A transform position. */
  datatype Vec3 = Vec3(x: real, y: real, z: real)

  const Zero2 := Vec2(0.0, 0.0)

  /** The engine's sign function: 1 for zero and positive arguments, -1 for
      negative ones (it never returns 0). */
  function Sign(x: real): (s: real)
    ensures s == 1.0 || s == -1.0
    ensures s * x >= 0.0
  {
    if x >= 0.0 then 1.0 else -1.0
  }

  function Abs(x: real): real
  {
    if x >= 0.0 then x else -x
  }

  /** The C# cast `(int) f` of a float: truncation toward zero. */
  function Truncate(x: real): (n: int)
    ensures x >= 0.0 ==> n >= 0 && n as real <= x < n as real + 1.0
    ensures x < 0.0 ==> n <= 0 && n as real - 1.0 < x <= n as real
  {
    if x >= 0.0 then x.Floor else -((-x).Floor)
  }

  /** The player's Rigidbody2D and transform, as other components reach them:
      its velocity, the impulses requested from it with AddForce (in order),
      and the transform parent it is attached to (a moving platform or none). */
  class Body {
    var velocity: Vec2
    var impulses: seq<Vec2>
    var parent: object?

    constructor (v: Vec2)
      ensures velocity == v && impulses == [] && parent == null
    {
      velocity := v;
      impulses := [];
      parent := null;
    }
  }

  /** +1 when facing right, -1 when facing left. */
  function Forward(facingRight: bool): real
  {
    if facingRight then 1.0 else -1.0
  }

  /** A transform's Y Euler angle after adding 180 degrees, as the engine
      reports it again: within [0, 360). */
  function Rotated180(y: real): (r: real)
    requires 0.0 <= y < 360.0
    ensures 0.0 <= r < 360.0
    ensures r == y + 180.0 || r == y - 180.0
  {
    if y < 180.0 then y + 180.0 else y - 180.0
  }

  /** Two half turns restore the angle. */
  lemma Rotated180Twice(y: real)
    requires 0.0 <= y < 360.0
    ensures Rotated180(Rotated180(y)) == y
  {
  }

  // ---------------------------------------------------------------
  // Two-waypoint patrols (vertical patrol enemy, moving platform)
  // ---------------------------------------------------------------

  /** The waypoint a two-point patrol heads for after reaching `current`:
      the first point when it was not heading there, else the second. */
  function OtherWaypoint(current: Vec3, first: Vec3, second: Vec3): (r: Vec3)
    ensures r == first || r == second
  {
    if current == first then second else first
  }

  /** Toggling alternates between the two waypoints and returns after two steps. */
  lemma OtherWaypointAlternates(current: Vec3, first: Vec3, second: Vec3)
    requires current == first || current == second
    requires first != second
    ensures OtherWaypoint(current, first, second) != current
    ensures OtherWaypoint(OtherWaypoint(current, first, second), first, second) == current
  {
  }

  /** The target of leg `k` of a patrol that starts at `home` and heads for
      `far` first. */
  function LegTarget(home: Vec3, far: Vec3, k: nat): Vec3
  {
    if k % 2 == 0 then far else home
  }

  /** Toggling the target after each leg yields the alternating targets,
      even when both waypoints coincide. */
  lemma ToggleFollowsLegs(home: Vec3, far: Vec3, k: nat)
    ensures OtherWaypoint(LegTarget(home, far, k), home, far) == LegTarget(home, far, k + 1)
  {
  }

  /** Distance under which a waypoint walk snaps onto its target. */
  const ArrivalTolerance := 0.01

  /** A waypoint walk: moving one engine step per frame towards the target,
      or pausing at it until a deadline. */
  datatype Leg = Travelling | Pausing(until: real)

  // ---------------------------------------------------------------
  // Decimal formatting (C#'s int.ToString())
  // ---------------------------------------------------------------

  predicate IsDigit(c: char)
  {
    '0' <= c <= '9'
  }

  predicate AllDigits(s: string)
  {
    forall i :: 0 <= i < |s| ==> IsDigit(s[i])
  }

  function DigitChar(d: nat): (c: char)
    requires d < 10
    ensures IsDigit(c) && c as int - '0' as int == d
  {
    ('0' as int + d) as char
  }

  /** The decimal digits of `n`, most significant first, without leading zeros. */
  function Decimal(n: nat): (s: string)
    ensures |s| >= 1 && AllDigits(s)
    ensures (|s| == 1) <==> n < 10
    ensures n >= 10 ==> s[0] != '0'
  {
    if n < 10 then [DigitChar(n)] else Decimal(n / 10) + [DigitChar(n % 10)]
  }

  /** Reads a string of decimal digits back as a number (the inverse of Decimal). */
  function ParseDecimal(s: string): nat
    requires AllDigits(s)
  {
    if s == [] then 0
    else ParseDecimal(s[..|s| - 1]) * 10 + (s[|s| - 1] as int - '0' as int)
  }

  lemma {:induction false} DecimalRoundTrip(n: nat)
    ensures ParseDecimal(Decimal(n)) == n
  {
    if n >= 10 {
      DecimalRoundTrip(n / 10);
      var s := Decimal(n);
      assert s[..|s| - 1] == Decimal(n / 10);
    }
  }

  /** Different numbers print differently. */
  lemma DecimalInjective(m: nat, n: nat)
    requires Decimal(m) == Decimal(n)
    ensures m == n
  {
    DecimalRoundTrip(m);
    DecimalRoundTrip(n);
  }
}
