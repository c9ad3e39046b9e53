/** The pure rules of the simulation in src/game/SamsungSlashGame.ts: its constants, the
    per-object time step, the pruning filters, the launch kinematics of a new object,
    the frame delta and the screen transitions. The engine object in module SlashGame
    applies them to its fields. */
module GameRules {
  import opened Seqs
  import opened GameTypes

  /** Downward acceleration, pixels per second squared. */
  const GRAVITY: real := 2000.0
  /** Smallest launch speed, pixels per second. */
  const LAUNCH_SPEED_BASE: real := 1200.0
  /** Width of the random range added to the launch speed. */
  const LAUNCH_SPEED_RAND: real := 400.0
  /** Side of a launched object, pixels. */
  const ITEM_SIZE: real := 88.0
  /** How long a blade point stays in the trail, milliseconds. */
  const BLADE_TRAIL_DURATION: real := 150.0
  /** How far below the field bottom an object must fall to be dropped. */
  const FALL_MARGIN: real := 200.0
  /** Number of product images an object can show. */
  const PRODUCT_COUNT: int := 4

  // ---------------------------------------------------------------------------
  // Time step of one object

  /** a and b agree on every field the time step leaves alone. */
  predicate SameBody(a: GameItem, b: GameItem)
  {
    a.id == b.id && a.vx == b.vx && a.rotationSpeed == b.rotationSpeed &&
    a.width == b.width && a.height == b.height && a.imageIndex == b.imageIndex &&
    a.sliced == b.sliced && a.counted == b.counted && a.isBomb == b.isBomb
  }

  /** Advances one object by dt seconds in a field of the given height: position moves
      with the velocity held before this step, then gravity acts on vy, then the object
      turns; it is flagged off-screen once below fieldHeight + FALL_MARGIN. */
  function Integrate(it: GameItem, dt: real, fieldHeight: real): (r: GameItem)
    ensures SameBody(r, it)
    ensures r.offScreen <==> it.offScreen || r.y > fieldHeight + FALL_MARGIN
  {
    var y := it.y + it.vy * dt;
    it.(x := it.x + it.vx * dt,
        y := y,
        vy := it.vy + GRAVITY * dt,
        rotation := it.rotation + it.rotationSpeed * dt,
        offScreen := if y > fieldHeight + FALL_MARGIN then true else it.offScreen)
  }

  /** n successive steps of length dt. */
  function IntegrateN(it: GameItem, dt: real, fieldHeight: real, n: nat): GameItem
  {
    if n == 0 then it else Integrate(IntegrateN(it, dt, fieldHeight, n - 1), dt, fieldHeight)
  }

  /** The fields one step leaves alone stay as they were through any number of steps. */
  lemma {:induction false} IntegrateNSameBody(it: GameItem, dt: real, fieldHeight: real, n: nat)
    ensures SameBody(IntegrateN(it, dt, fieldHeight, n), it)
  {
    if n > 0 {
      IntegrateNSameBody(it, dt, fieldHeight, n - 1);
    }
  }

  /** After n steps the horizontal position and the angle have moved at constant rate and
      vy has grown by n times the gravity of one step. */
  lemma IntegrateNVelocity(it: GameItem, dt: real, fieldHeight: real, n: nat)
    ensures var r, m := IntegrateN(it, dt, fieldHeight, n), n as real;
      r.x == it.x + m * (it.vx * dt) &&
      r.vy == it.vy + m * (GRAVITY * dt) &&
      r.rotation == it.rotation + m * (it.rotationSpeed * dt)
  {
    IntegrateNXClosed(it, dt, fieldHeight, n);
    IntegrateNVyClosed(it, dt, fieldHeight, n);
    IntegrateNRotationClosed(it, dt, fieldHeight, n);
  }

  /** The x part of IntegrateNVelocity. */
  lemma IntegrateNXClosed(it: GameItem, dt: real, fieldHeight: real, n: nat)
    ensures IntegrateN(it, dt, fieldHeight, n).x == it.x + (n as real) * (it.vx * dt)
  {
    IntegrateNX(it, dt, fieldHeight, n);
    DriftClosed(it.x, it.vx * dt, n);
  }

  /** The vy part of IntegrateNVelocity. */
  lemma IntegrateNVyClosed(it: GameItem, dt: real, fieldHeight: real, n: nat)
    ensures IntegrateN(it, dt, fieldHeight, n).vy == it.vy + (n as real) * (GRAVITY * dt)
  {
    IntegrateNVy(it, dt, fieldHeight, n);
    DriftClosed(it.vy, GRAVITY * dt, n);
  }

  /** The angle part of IntegrateNVelocity. */
  lemma IntegrateNRotationClosed(it: GameItem, dt: real, fieldHeight: real, n: nat)
    ensures IntegrateN(it, dt, fieldHeight, n).rotation
         == it.rotation + (n as real) * (it.rotationSpeed * dt)
  {
    IntegrateNRotation(it, dt, fieldHeight, n);
    DriftClosed(it.rotation, it.rotationSpeed * dt, n);
  }

  /** The value reached from start after n increments of a. */
  function Drift(start: real, a: real, n: nat): real
  {
    if n == 0 then start else Drift(start, a, n - 1) + a
  }

  /** n equal increments of a add n times a. */
  lemma {:induction false} DriftClosed(start: real, a: real, n: nat)
    ensures Drift(start, a, n) == start + (n as real) * a
  {
    if n > 0 {
      DriftClosed(start, a, n - 1);
      OneMoreStep((n - 1) as real, a);
    }
  }

  /** x after n steps, as a sum of n equal increments. */
  lemma {:induction false} IntegrateNX(it: GameItem, dt: real, fieldHeight: real, n: nat)
    ensures IntegrateN(it, dt, fieldHeight, n).x == Drift(it.x, it.vx * dt, n)
  {
    if n > 0 {
      var p, r := IntegrateN(it, dt, fieldHeight, n - 1), IntegrateN(it, dt, fieldHeight, n);
      assert r.x == p.x + p.vx * dt;
      assert p.vx == it.vx by {
        IntegrateNSameBody(it, dt, fieldHeight, n - 1);
      }
      assert p.x == Drift(it.x, it.vx * dt, n - 1) by {
        IntegrateNX(it, dt, fieldHeight, n - 1);
      }
    }
  }

  /** vy after n steps, as a sum of n equal increments. */
  lemma {:induction false} IntegrateNVy(it: GameItem, dt: real, fieldHeight: real, n: nat)
    ensures IntegrateN(it, dt, fieldHeight, n).vy == Drift(it.vy, GRAVITY * dt, n)
  {
    if n > 0 {
      var p, r := IntegrateN(it, dt, fieldHeight, n - 1), IntegrateN(it, dt, fieldHeight, n);
      assert r.vy == p.vy + GRAVITY * dt;
      assert p.vy == Drift(it.vy, GRAVITY * dt, n - 1) by {
        IntegrateNVy(it, dt, fieldHeight, n - 1);
      }
    }
  }

  /** The angle after n steps, as a sum of n equal increments. */
  lemma {:induction false} IntegrateNRotation(it: GameItem, dt: real, fieldHeight: real, n: nat)
    ensures IntegrateN(it, dt, fieldHeight, n).rotation
         == Drift(it.rotation, it.rotationSpeed * dt, n)
  {
    if n > 0 {
      var p, r := IntegrateN(it, dt, fieldHeight, n - 1), IntegrateN(it, dt, fieldHeight, n);
      assert r.rotation == p.rotation + p.rotationSpeed * dt;
      assert p.rotationSpeed == it.rotationSpeed by {
        IntegrateNSameBody(it, dt, fieldHeight, n - 1);
      }
      assert p.rotation == Drift(it.rotation, it.rotationSpeed * dt, n - 1) by {
        IntegrateNRotation(it, dt, fieldHeight, n - 1);
      }
    }
  }

  /** Arithmetic of one step of DriftClosed: k + 1 equal increments. */
  lemma OneMoreStep(k: real, a: real)
    ensures (k + 1.0) * a == k * a + a
  {
  }

  /** Height reached from y0 after m steps of displacement a each, when every step adds c
      more displacement than the one before. */
  function Ballistic(y0: real, a: real, c: real, m: real): real
  {
    y0 + m * a + (m * (m - 1.0) / 2.0) * c
  }

  /** The height reached from y0 after n steps of length dt, each moving by the velocity
      held at its start, when the velocity starts at v0 and gravity acts after each move. */
  function Fall(y0: real, v0: real, dt: real, n: nat): real
  {
    if n == 0 then y0 else Fall(y0, v0, dt, n - 1) + Drift(v0, GRAVITY * dt, n - 1) * dt
  }

  /** y after n steps, as the sum of the moves of each step. */
  lemma {:induction false} IntegrateNY(it: GameItem, dt: real, fieldHeight: real, n: nat)
    ensures IntegrateN(it, dt, fieldHeight, n).y == Fall(it.y, it.vy, dt, n)
  {
    if n > 0 {
      var p, r := IntegrateN(it, dt, fieldHeight, n - 1), IntegrateN(it, dt, fieldHeight, n);
      var v := Drift(it.vy, GRAVITY * dt, n - 1);
      assert r.y == p.y + p.vy * dt;
      assert Fall(it.y, it.vy, dt, n) == Fall(it.y, it.vy, dt, n - 1) + v * dt;
      assert p.vy == v by {
        IntegrateNVy(it, dt, fieldHeight, n - 1);
      }
      assert p.y == Fall(it.y, it.vy, dt, n - 1) by {
        IntegrateNY(it, dt, fieldHeight, n - 1);
      }
    }
  }

  /** The sum of the moves in closed form. */
  lemma {:induction false} FallClosed(y0: real, v0: real, dt: real, n: nat)
    ensures Fall(y0, v0, dt, n) == Ballistic(y0, v0 * dt, GRAVITY * dt * dt, n as real)
  {
    if n > 0 {
      FallClosed(y0, v0, dt, n - 1);
      DriftClosed(v0, GRAVITY * dt, n - 1);
      HeightStep(y0, v0, dt, (n - 1) as real, n as real,
        Fall(y0, v0, dt, n - 1), Drift(v0, GRAVITY * dt, n - 1), Fall(y0, v0, dt, n));
    }
  }

  /** Closed form of the height after n steps: the sum of the velocities held at the START
      of each step, which is why the gravity term carries n(n-1)/2 and not n(n+1)/2 (the
      latter would mean gravity is applied before the position moves). */
  lemma IntegrateNHeight(it: GameItem, dt: real, fieldHeight: real, n: nat)
    ensures IntegrateN(it, dt, fieldHeight, n).y
         == Ballistic(it.y, it.vy * dt, GRAVITY * dt * dt, n as real)
  {
    assert IntegrateN(it, dt, fieldHeight, n).y == Fall(it.y, it.vy, dt, n) by {
      IntegrateNY(it, dt, fieldHeight, n);
    }
    FallClosed(it.y, it.vy, dt, n);
  }

  /** One step of FallClosed on plain values: from a height on the k-step ballistic
      path and the velocity held after k steps, one more step lands on the (k + 1)-step
      path. */
  lemma HeightStep(y0: real, v0: real, dt: real, k: real, m: real, y: real, v: real, y1: real)
    requires m == k + 1.0
    requires v == v0 + k * (GRAVITY * dt)
    requires y == Ballistic(y0, v0 * dt, GRAVITY * dt * dt, k)
    requires y1 == y + v * dt
    ensures y1 == Ballistic(y0, v0 * dt, GRAVITY * dt * dt, m)
  {
    var a, c := v0 * dt, GRAVITY * dt * dt;
    assert v * dt == a + k * c;
    assert Ballistic(y0, a, c, k) + (a + k * c) == Ballistic(y0, a, c, k + 1.0);
  }

  /** The list after every object has taken one step. */
  function Moved(items: seq<GameItem>, dt: real, fieldHeight: real): (r: seq<GameItem>)
    ensures |r| == |items|
    ensures forall k :: 0 <= k < |items| ==> r[k] == Integrate(items[k], dt, fieldHeight)
  {
    seq(|items|, k requires 0 <= k < |items| => Integrate(items[k], dt, fieldHeight))
  }

  /** The filter condition that keeps an object in the list. */
  predicate Remains(it: GameItem)
  {
    !it.offScreen
  }

  /** The list without the objects flagged off-screen, order kept. */
  function OnScreen(items: seq<GameItem>): (r: seq<GameItem>)
    ensures IsSubsequence(r, items)
    ensures forall it :: multiset(r)[it] == if it.offScreen then 0 else multiset(items)[it]
    ensures forall it :: it in r <==> it in items && !it.offScreen
  {
    FilterIsSubsequence(Remains, items);
    FilterCounts(Remains, items);
    Filter(Remains, items)
  }

  /** What one update does to the object list while playing. */
  function StepItems(items: seq<GameItem>, dt: real, fieldHeight: real): seq<GameItem>
  {
    OnScreen(Moved(items, dt, fieldHeight))
  }

  /** An object is in the list after an update exactly when it is the step of some object
      that was not yet flagged and whose new y is not below fieldHeight + FALL_MARGIN;
      the survivors are in their old order and none is flagged. */
  lemma StepItemsExact(items: seq<GameItem>, dt: real, fieldHeight: real, it: GameItem)
    ensures it in StepItems(items, dt, fieldHeight) <==>
      exists k :: 0 <= k < |items| && it == Integrate(items[k], dt, fieldHeight) &&
        !items[k].offScreen && it.y <= fieldHeight + FALL_MARGIN
    ensures it in StepItems(items, dt, fieldHeight) ==> !it.offScreen
    ensures IsSubsequence(StepItems(items, dt, fieldHeight), Moved(items, dt, fieldHeight))
  {
    var moved := Moved(items, dt, fieldHeight);
    if it in StepItems(items, dt, fieldHeight) {
      var k :| 0 <= k < |moved| && moved[k] == it;
      assert it == Integrate(items[k], dt, fieldHeight);
    }
  }

  /** An update keeps every listed object in the shape a launch gives it. */
  lemma StepKeepsLive(items: seq<GameItem>, dt: real, fieldHeight: real)
    requires forall it :: it in items ==> LiveItem(it)
    ensures forall it :: it in StepItems(items, dt, fieldHeight) ==> LiveItem(it)
  {
    forall it | it in StepItems(items, dt, fieldHeight)
      ensures LiveItem(it)
    {
      StepItemsExact(items, dt, fieldHeight, it);
      var k :| 0 <= k < |items| && it == Integrate(items[k], dt, fieldHeight) &&
               !items[k].offScreen && it.y <= fieldHeight + FALL_MARGIN;
      assert LiveItem(items[k]);
    }
  }

  // ---------------------------------------------------------------------------
  // Blade trail

  /** The filter condition that keeps a blade point at clock reading now. */
  function RecentAt(now: real): BladePoint -> bool
  {
    (b: BladePoint) => now - b.time < BLADE_TRAIL_DURATION
  }

  /** The trail after pruning at clock reading now: the points younger than
      BLADE_TRAIL_DURATION, order kept. */
  function RecentTrail(blade: seq<BladePoint>, now: real): (r: seq<BladePoint>)
    ensures IsSubsequence(r, blade)
    ensures forall b :: multiset(r)[b] ==
                        if now - b.time < BLADE_TRAIL_DURATION then multiset(blade)[b] else 0
    ensures forall b :: b in r <==> b in blade && now - b.time < BLADE_TRAIL_DURATION
  {
    FilterIsSubsequence(RecentAt(now), blade);
    FilterCounts(RecentAt(now), blade);
    Filter(RecentAt(now), blade)
  }

  /** Pruning at an earlier reading and then at a later one leaves the same trail as
      pruning once at the later one. */
  lemma TrailPruneTwice(blade: seq<BladePoint>, earlier: real, later: real)
    requires earlier <= later
    ensures RecentTrail(RecentTrail(blade, earlier), later) == RecentTrail(blade, later)
  {
    FilterNarrow(RecentAt(earlier), RecentAt(later), blade);
  }

  // ---------------------------------------------------------------------------
  // Launching an object

  /** The six Math.random() results a launch consumes, in the order it draws them. */
  datatype SpawnDraws = SpawnDraws(origin: real, target: real, speed: real,
                                   id: real, spin: real, image: real)

  /** Every draw lies in [0, 1), as Math.random() guarantees. */
  predicate ValidDraws(d: SpawnDraws)
  {
    0.0 <= d.origin < 1.0 && 0.0 <= d.target < 1.0 && 0.0 <= d.speed < 1.0 &&
    0.0 <= d.id < 1.0 && 0.0 <= d.spin < 1.0 && 0.0 <= d.image < 1.0
  }

  /** The shape every object in the engine's list has: created by a launch, never sliced,
      counted or a bomb, not flagged off-screen. */
  predicate LiveItem(it: GameItem)
  {
    it.width == ITEM_SIZE && it.height == ITEM_SIZE &&
    0 <= it.imageIndex < PRODUCT_COUNT &&
    !it.sliced && !it.offScreen && !it.counted && !it.isBomb
  }

  /** The point where an object would be half a second later at its launch speed. */
  function AimX(it: GameItem): real
  {
    it.x + it.vx / 2.0
  }

  /** A freshly launched object in a field of the given size. It starts ITEM_SIZE below the
      bottom edge, at a horizontal origin in the middle 60% of the field, aimed at a point
      in the middle 40%, moving upward at a speed in [1200, 1600), unrotated, with a spin
      in [-3, 3) and one of the four product images. */
  function NewItem(width: real, height: real, d: SpawnDraws): (it: GameItem)
    requires 0.0 <= width && ValidDraws(d)
    ensures LiveItem(it) && it.id == d.id
    ensures it.y == height + ITEM_SIZE && it.rotation == 0.0
    ensures 0.2 * width <= it.x <= 0.8 * width && (0.0 < width ==> it.x < 0.8 * width)
    ensures 0.3 * width <= AimX(it) <= 0.7 * width && (0.0 < width ==> AimX(it) < 0.7 * width)
    ensures -width <= it.vx <= width && (0.0 < width ==> -width < it.vx < width)
    ensures -(LAUNCH_SPEED_BASE + LAUNCH_SPEED_RAND) < it.vy <= -LAUNCH_SPEED_BASE
    ensures -3.0 <= it.rotationSpeed < 3.0
  {
    var fromX := width * 0.2 + d.origin * width * 0.6;
    var targetX := width * 0.3 + d.target * width * 0.4;
    var vx := (targetX - fromX) * 2.0;
    var vy := -(LAUNCH_SPEED_BASE + d.speed * LAUNCH_SPEED_RAND);
    LaunchGeometry(width, d.origin, d.target, fromX, targetX, vx);
    GameItem(
      id := d.id,
      x := fromX,
      y := height + ITEM_SIZE,
      vx := vx,
      vy := vy,
      rotation := 0.0,
      rotationSpeed := (d.spin - 0.5) * 6.0,
      width := ITEM_SIZE,
      height := ITEM_SIZE,
      imageIndex := (d.image * (PRODUCT_COUNT as real)).Floor,
      sliced := false,
      offScreen := false,
      counted := false,
      isBomb := false)
  }

  /** Where the launch formulas put the origin, the aim point and the horizontal speed. */
  lemma LaunchGeometry(width: real, origin: real, target: real, fromX: real, targetX: real, vx: real)
    requires 0.0 <= width && 0.0 <= origin < 1.0 && 0.0 <= target < 1.0
    requires fromX == width * 0.2 + origin * width * 0.6
    requires targetX == width * 0.3 + target * width * 0.4
    requires vx == (targetX - fromX) * 2.0
    ensures fromX + vx / 2.0 == targetX
    ensures 0.2 * width <= fromX <= 0.8 * width && (0.0 < width ==> fromX < 0.8 * width)
    ensures 0.3 * width <= targetX <= 0.7 * width && (0.0 < width ==> targetX < 0.7 * width)
    ensures -width <= vx <= width && (0.0 < width ==> -width < vx < width)
  {
    var o, t := origin * width, target * width;
    ScaleBelow(origin, width, o);
    ScaleBelow(target, width, t);
    SpanBounds(width, o, t, fromX, targetX, vx);
  }

  /** LaunchGeometry with the two scaled draws o and t as plain numbers. */
  lemma SpanBounds(width: real, o: real, t: real, fromX: real, targetX: real, vx: real)
    requires 0.0 <= o <= width && (0.0 < width ==> o < width)
    requires 0.0 <= t <= width && (0.0 < width ==> t < width)
    requires fromX == width * 0.2 + o * 0.6
    requires targetX == width * 0.3 + t * 0.4
    requires vx == (targetX - fromX) * 2.0
    ensures fromX + vx / 2.0 == targetX
    ensures 0.2 * width <= fromX <= 0.8 * width && (0.0 < width ==> fromX < 0.8 * width)
    ensures 0.3 * width <= targetX <= 0.7 * width && (0.0 < width ==> targetX < 0.7 * width)
    ensures -width <= vx <= width && (0.0 < width ==> -width < vx < width)
  {
  }

  /** A draw in [0, 1) scales a non-negative length to at most that length, strictly less
      when the length is positive. */
  lemma ScaleBelow(u: real, w: real, p: real)
    requires 0.0 <= u < 1.0 && 0.0 <= w && p == u * w
    ensures 0.0 <= p <= w && (0.0 < w ==> p < w)
  {
    assert w - p == (1.0 - u) * w;
    if 0.0 < w {
      assert 0.0 < (1.0 - u) * w;
    }
  }

  /** A new object is never dropped by the update that follows its launch, provided the
      clock did not run backwards: it starts above the drop line and moves up, so an update
      of a list holding only that object leaves exactly its step. */
  lemma LaunchSurvivesFirstStep(width: real, height: real, d: SpawnDraws, dt: real)
    requires 0.0 <= width && ValidDraws(d) && 0.0 <= dt
    ensures var r := Integrate(NewItem(width, height, d), dt, height);
      !r.offScreen && r.y <= height + ITEM_SIZE &&
      StepItems([NewItem(width, height, d)], dt, height) == [r]
  {
    var it := NewItem(width, height, d);
    var r := Integrate(it, dt, height);
    assert it.vy * dt <= 0.0;
    assert Moved([it], dt, height) == [r];
    assert Filter(Remains, [r]) == [r] + Filter(Remains, []);
  }

  // ---------------------------------------------------------------------------
  // Frame timing

  /** Seconds between two clock readings in milliseconds; no upper clamp. */
  function FrameDelta(now: real, lastTime: real): (dt: real)
    ensures dt * 1000.0 == now - lastTime
  {
    (now - lastTime) / 1000.0
  }

  /** The frame delta is not bounded: for every bound some reading exceeds it. */
  lemma FrameDeltaUnbounded(lastTime: real, bound: real)
    ensures exists now :: FrameDelta(now, lastTime) > bound
  {
    var now := lastTime + 1000.0 * (bound + 1.0);
    assert FrameDelta(now, lastTime) == bound + 1.0;
  }

  // ---------------------------------------------------------------------------
  // Screens

  /** The engine's public operations, as far as the screen is concerned. A pointer press
      is Press when the audio unlock it awaits resolves (or was done before) and
      RejectedPress when that unlock rejects, which ends the handler before it looks at
      the screen. */
  datatype Event = Press | RejectedPress | Tick | Launch | Resize | Teardown

  /** The screen after an operation. A press on the start screen is the only transition. */
  function NextScreen(s: GameScreen, e: Event): (t: GameScreen)
    ensures t != s <==> s == Start && e == Press
    ensures t != s ==> t == Playing
  {
    if e == Press && s == Start then Playing else s
  }

  /** The screen after a run of operations. */
  function Replay(s: GameScreen, events: seq<Event>): GameScreen
    decreases |events|
  {
    if events == [] then s else Replay(NextScreen(s, events[0]), events[1..])
  }

  /** Once playing, always playing. */
  lemma {:induction false} ReplayKeepsPlaying(events: seq<Event>)
    ensures Replay(Playing, events) == Playing
    decreases |events|
  {
    if events != [] {
      ReplayKeepsPlaying(events[1..]);
    }
  }

  /** From the start screen the game is playing exactly when some press got past the
      audio unlock, and it never reaches the game-over screen. */
  lemma {:induction false} ReplayFromStart(events: seq<Event>)
    ensures Replay(Start, events) == if Press in events then Playing else Start
    ensures Replay(Start, events) != GameOver
    decreases |events|
  {
    if events != [] {
      if events[0] == Press {
        ReplayKeepsPlaying(events[1..]);
      } else {
        ReplayFromStart(events[1..]);
        assert events == [events[0]] + events[1..];
      }
    }
  }
}
