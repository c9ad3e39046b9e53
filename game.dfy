/** The engine object of src/game/SamsungSlashGame.ts: its bookkeeping fields and the
    operations that change them in place. Clock readings (performance.now() and the
    animation-frame timestamp) and Math.random() results are parameters. */
module SlashGame {
  import opened Seqs
  import opened GameTypes
  import opened GameRules

  class Game {
    /** Field size in CSS pixels, as last measured. */
    var width: real
    var height: real
    var screen: GameScreen
    /** Launched objects, oldest first. */
    var items: seq<GameItem>
    /** Blade trail, oldest first. */
    var blade: seq<BladePoint>
    /** Timestamp of the last animation frame, milliseconds. */
    var lastTime: real
    var destroyed: bool
    /** Set once an audio unlock has resolved; later presses skip the unlock. */
    var audioUnlocked: bool

    /** The object invariant: measured sizes are not negative, the game-over screen is
        never shown, and every listed object has the shape a launch gives it and is not
        flagged off-screen. */
    ghost predicate Valid()
      reads this
    {
      0.0 <= width && 0.0 <= height && screen != GameOver &&
      forall it :: it in items ==> LiveItem(it)
    }

    /** Creates the engine on a field of the given size at clock reading now, then runs the
        first frame at that same reading, which changes nothing on the start screen. */
    constructor (width: real, height: real, now: real)
      requires 0.0 <= width && 0.0 <= height
      ensures Valid()
      ensures this.width == width && this.height == height
      ensures screen == Start && items == [] && blade == []
      ensures lastTime == now && !destroyed && !audioUnlocked
    {
      this.width := width;
      this.height := height;
      screen := Start;
      items := [];
      blade := [];
      destroyed := false;
      audioUnlocked := false;
      lastTime := now;
      new;
      Loop(lastTime, now);
    }

    /** Launches one object from below the bottom edge; the existing objects are kept. */
    method SpawnItem(d: SpawnDraws)
      requires Valid() && ValidDraws(d)
      modifies this`items
      ensures Valid()
      ensures items == old(items) + [NewItem(width, height, d)]
      ensures screen == NextScreen(old(screen), Launch)
    {
      items := items + [NewItem(width, height, d)];
    }

    /** One animation frame at timestamp now. A destroyed engine does nothing. Otherwise
        the delta since the last frame (seconds, unclamped) is passed to Update and now
        becomes the last frame time. clock is the reading Update takes for the trail. */
    method Loop(now: real, clock: real)
      requires Valid()
      modifies this`lastTime, this`items, this`blade
      ensures Valid()
      ensures old(destroyed) ==>
        lastTime == old(lastTime) && items == old(items) && blade == old(blade)
      ensures !old(destroyed) ==> lastTime == now
      ensures !old(destroyed) && screen == Playing ==>
        items == StepItems(old(items), FrameDelta(now, old(lastTime)), height) &&
        blade == RecentTrail(old(blade), clock)
      ensures screen != Playing ==> items == old(items) && blade == old(blade)
      ensures screen == NextScreen(old(screen), Tick)
    {
      if destroyed {
        return;
      }
      var dt := FrameDelta(now, lastTime);
      lastTime := now;
      Update(dt, clock);
    }

    /** Advances the simulation by dt seconds, only while playing: every object takes one
        step and is flagged when it falls below height + FALL_MARGIN, flagged objects are
        dropped, and trail points at least BLADE_TRAIL_DURATION older than clock are
        pruned. */
    method Update(dt: real, clock: real)
      requires Valid()
      modifies this`items, this`blade
      ensures Valid()
      ensures screen != Playing ==> items == old(items) && blade == old(blade)
      ensures screen == Playing ==>
        items == StepItems(old(items), dt, height) && blade == RecentTrail(old(blade), clock)
    {
      if screen != Playing {
        return;
      }
      MoveAll(dt);
      StepKeepsLive(old(items), dt, height);
      items := OnScreen(items);
      blade := RecentTrail(blade, clock);
    }

    /** The loop of Update: each object in turn, in place, takes one step of dt seconds. */
    method MoveAll(dt: real)
      modifies this`items
      ensures items == Moved(old(items), dt, height)
    {
      var i := 0;
      while i < |items|
        invariant 0 <= i <= |items| == |old(items)|
        invariant forall k :: 0 <= k < i ==> items[k] == Integrate(old(items)[k], dt, height)
        invariant forall k :: i <= k < |items| ==> items[k] == old(items)[k]
      {
        items := items[i := Integrate(items[i], dt, height)];
        i := i + 1;
      }
    }

    /** Pointer press at position pos and clock reading now. The handler first awaits the
        audio unlock, which returns at once when an earlier unlock resolved; otherwise
        unlockResolves says whether this attempt resolves. When it rejects, the handler
        stops: nothing changes and the flag stays unset, so the next press retries. Past
        the unlock, a press on the start screen starts the game and leaves the trail
        alone; on any other screen it leaves the screen alone and restarts the trail at
        the pressed point. */
    method PointerDown(pos: Vec2, now: real, unlockResolves: bool)
      requires Valid()
      modifies this`screen, this`blade, this`audioUnlocked
      ensures Valid()
      ensures audioUnlocked == (old(audioUnlocked) || unlockResolves)
      ensures screen == NextScreen(old(screen), if audioUnlocked then Press else RejectedPress)
      ensures !audioUnlocked ==> screen == old(screen) && blade == old(blade)
      ensures audioUnlocked && old(screen) == Start ==> screen == Playing && blade == old(blade)
      ensures audioUnlocked && old(screen) != Start ==>
        screen == old(screen) && blade == [BladePoint(pos.x, pos.y, now)]
    {
      if !audioUnlocked {
        if !unlockResolves {
          return;
        }
        audioUnlocked := true;
      }
      if screen == Start {
        screen := Playing;
        return;
      }
      blade := [BladePoint(pos.x, pos.y, now)];
    }

    /** Records a new field size (the canvas and pixel-ratio work is not modelled). */
    method Resize(width: real, height: real)
      requires Valid() && 0.0 <= width && 0.0 <= height
      modifies this`width, this`height
      ensures Valid()
      ensures this.width == width && this.height == height
      ensures screen == NextScreen(old(screen), Event.Resize)
    {
      this.width := width;
      this.height := height;
    }

    /** Marks the engine destroyed; every later frame is a no-op. */
    method Destroy()
      requires Valid()
      modifies this`destroyed
      ensures Valid() && destroyed
      ensures screen == NextScreen(old(screen), Teardown)
    {
      destroyed := true;
    }
  }

  /** A session as a client sees it through the contracts alone: objects do not move
      before the first press that gets past the audio unlock, which starts the game, and
      later presses restart the trail. */
  method Session(width: real, height: real, t0: real, d: SpawnDraws)
    requires 0.0 <= width && 0.0 <= height && ValidDraws(d)
  {
    var g := new Game(width, height, t0);
    g.SpawnItem(d);
    g.Loop(t0 + 16.0, t0 + 16.0);
    assert g.items == [NewItem(width, height, d)] && g.screen == Start;

    g.PointerDown(Vec2(10.0, 20.0), t0 + 20.0, true);
    assert g.screen == Playing && g.blade == [];
    g.PointerDown(Vec2(10.0, 20.0), t0 + 30.0, false);
    assert g.screen == Playing && g.blade == [BladePoint(10.0, 20.0, t0 + 30.0)];
  }

  /** While playing, an object launched before a frame is still listed after it, one step
      further on. */
  method LaunchSession(width: real, height: real, t0: real, d: SpawnDraws)
    requires 0.0 <= width && 0.0 <= height && ValidDraws(d)
  {
    var g := new Game(width, height, t0);
    g.PointerDown(Vec2(10.0, 20.0), t0 + 4.0, true);
    g.SpawnItem(d);
    var launched, dt := NewItem(width, height, d), FrameDelta(t0 + 16.0, t0);
    assert g.items == [launched] && g.screen == Playing && g.lastTime == t0 && !g.destroyed;
    g.Loop(t0 + 16.0, t0 + 16.0);
    LaunchSurvivesFirstStep(width, height, d, dt);
    assert g.items == [Integrate(launched, dt, height)];
  }

  /** After destroy, frames change neither the objects nor the last frame time. */
  method DestroyedSession(width: real, height: real, t0: real, d: SpawnDraws)
    requires 0.0 <= width && 0.0 <= height && ValidDraws(d)
  {
    var g := new Game(width, height, t0);
    g.PointerDown(Vec2(0.0, 0.0), t0 + 1.0, true);
    g.SpawnItem(d);
    g.Destroy();
    var before := g.items;
    g.Loop(t0 + 16.0, t0 + 16.0);
    g.Loop(t0 + 32.0, t0 + 32.0);
    assert g.items == before && g.lastTime == t0 && g.screen == Playing;
  }

  /** Presses whose audio unlock rejects change nothing and leave the next press to retry
      the unlock; once one resolves, the game is playing and later presses skip it. */
  method PressRetries(width: real, height: real, t0: real)
    requires 0.0 <= width && 0.0 <= height
  {
    var g := new Game(width, height, t0);
    g.PointerDown(Vec2(1.0, 2.0), t0 + 5.0, false);
    g.PointerDown(Vec2(1.0, 2.0), t0 + 6.0, false);
    assert g.screen == Start && g.blade == [] && !g.audioUnlocked;
    g.PointerDown(Vec2(1.0, 2.0), t0 + 7.0, true);
    assert g.screen == Playing && g.blade == [];
    g.PointerDown(Vec2(3.0, 4.0), t0 + 8.0, false);
    assert g.blade == [BladePoint(3.0, 4.0, t0 + 8.0)];
  }
}
