/** The per-frame particle systems of `src/particle_system/systems.rs`: the emitter's spawn state
    machine, particle ageing, distance accumulation and cleanup. Value curves, jittered values,
    trigonometry and the random number generator are not part of this model: their samples
    arrive as parameters. */
module ParticleSystems {
  import opened Common

  /** One `ParticleBurst`: `count` extra particles once the running time reaches `time`. */
  datatype Burst = Burst(time: real, count: nat)

  /** The fields of `ParticleSystem` that the state machine reads. */
  datatype SystemConfig = Config(
    shapeId: nat,
    maxParticles: nat,
    looping: bool,
    duration: real,               // system_duration_seconds
    bursts: seq<Burst>,
    maxDistance: Option<real>,
    useScaledTime: bool,
    despawnOnFinish: bool)

  /** A system with a positive duration: the life percentage divides by it. */
  type Config = c: SystemConfig | c.duration > 0.0 witness Config(0, 0, false, 1.0, [], None, false, false)

  /** `RunningState`: time within the current cycle, the second being throttled and how many
      particles were spawned in it. */
  datatype RunningState = RunningState(runningTime: real, currentSecond: real, spawnedThisSecond: nat)

  /** An emitter entity: its configuration, `ParticleCount`, `RunningState`, `BurstIndex` and
      whether it carries the `Playing` marker. */
  datatype Emitter = Emitter(config: Config, count: nat, run: RunningState, burstIndex: nat, playing: bool)

  /** What becomes of the emitter entity in one frame. */
  datatype Fate = Running | Paused | Despawned

  /** The outcome of one frame for one emitter: its new state, its fate, and the throttled and
      burst spawn counts. */
  datatype Spawn = Spawn(emitter: Emitter, fate: Fate, toSpawn: nat, extra: nat)

  /** A particle entity: `Particle` (parent, sampled maximum lifetime, maximum distance),
      `Lifetime`, `DistanceTraveled`, and the shape of its instance. */
  datatype Particle = Particle(
    parent: Id,
    maxLifetime: real,
    maxDistance: Option<real>,
    lifetime: real,
    distance: real,
    shape: nat)

  /** `f32::floor`. */
  function Floor(r: real): (f: real)
    ensures f <= r < f + 1.0
    ensures f == f.Floor as real
  {
    r.Floor as real
  }

  /** The time scale the spawner applies: the optional `TimeScale` resource when the system uses
      scaled time, 1 otherwise. */
  function SpawnerScale(c: Config, timeScale: Option<real>): real
  {
    if c.useScaledTime then (if timeScale.Some? then timeScale.value else 1.0) else 1.0
  }

  /** The frame's time step as the spawner sees it: the frame delta times the spawner's scale. */
  function Elapsed(c: Config, delta: real, timeScale: Option<real>): real
  {
    delta * SpawnerScale(c, timeScale)
  }

  /** How far through its cycle the system is: the running time over the system duration. */
  function LifePct(run: RunningState, c: Config): real
  {
    run.runningTime / c.duration
  }

  // ---------------------------------------------------------------------------------------------
  // The stages of one spawner frame

  /** Advance the running time; when its floor has passed the current second, start a new second. */
  function Advance(run: RunningState, dt: real): RunningState
  {
    var t := run.runningTime + dt;
    if Floor(t) > run.currentSecond + 0.5 then RunningState(t, Floor(t), 0)
    else run.(runningTime := t)
  }

  /** The looping wrap: take one duration off the running time and restart the second. */
  function Wrap(run: RunningState, duration: real): RunningState
  {
    var t := run.runningTime - duration;
    RunningState(t, Floor(t), 0)
  }

  /** The throttled spawn count before the forced minimum: the floor of the part of the rate due by
      this point of the second, less what was already spawned, clamped to `[0, remaining]`. */
  function Throttled(run: RunningState, rate: real, remaining: nat): (n: nat)
    ensures n <= remaining
  {
    var due := Due(run, rate);
    if due > remaining then remaining else if due < 0 then 0 else due
  }

  /** The whole number of particles the rate says are due by this point of the second, less those
      already spawned in it. */
  function Due(run: RunningState, rate: real): int
  {
    ((run.runningTime - Floor(run.runningTime)) * rate - run.spawnedThisSecond as real).Floor
  }

  /** The burst step: consume the next burst when its time has come. Returns the extra count and
      the new index. */
  function TakeBurst(bursts: seq<Burst>, index: nat, t: real): (nat, nat)
  {
    if index < |bursts| && t >= bursts[index].time then (bursts[index].count, index + 1)
    else (0, index)
  }

  /** The running state and burst index after the time advance and, for a looping system whose
      cycle is over, the wrap (which also rewinds the burst index). */
  function Prepared(e: Emitter, dt: real): (RunningState, nat)
  {
    var run1 := Advance(e.run, dt);
    if run1.runningTime >= e.config.duration && e.config.looping then (Wrap(run1, e.config.duration), 0)
    else (run1, e.burstIndex)
  }

  /** The non-looping system has run its course this frame. */
  predicate Finished(e: Emitter, dt: real)
  {
    !e.config.looping && Advance(e.run, dt).runningTime >= e.config.duration
  }

  /** The spawn rate curve sampled at the system's life percentage. */
  function Rate(e: Emitter, dt: real, rateAt: real -> real): real
  {
    rateAt(LifePct(Prepared(e, dt).0, e.config))
  }

  /** The non-looping finish: nothing spawns; a system with no live particles left is despawned
      or stops playing. */
  function FinishStep(e: Emitter, run1: RunningState): Spawn
  {
    var fate := if e.count == 0 then (if e.config.despawnOnFinish then Despawned else Paused) else Running;
    Spawn(e.(run := run1, playing := e.playing && fate != Paused), fate, 0, 0)
  }

  /** The rest of the frame once time has advanced (and wrapped): the capacity gate, the throttled
      count with its forced minimum, and the burst. */
  function GatedStep(e: Emitter, run2: RunningState, index: nat, rate: real): Spawn
  {
    var c := e.config;
    if e.count >= c.maxParticles then
      Spawn(e.(run := run2, burstIndex := index), Running, 0, 0)
    else
      var throttled := Throttled(run2, rate, c.maxParticles - e.count);
      var (extra, index') := TakeBurst(c.bursts, index, run2.runningTime);
      var toSpawn :=
        if throttled == 0 && run2.spawnedThisSecond == 0 && e.count < c.maxParticles && rate > 0.0 then 1
        else throttled;
      var run3 := run2.(spawnedThisSecond := run2.spawnedThisSecond + toSpawn);
      Spawn(Emitter(c, e.count + toSpawn + extra, run3, index', e.playing), Running, toSpawn, extra)
  }

  /** The specification of one frame of `particle_spawner` for one playing emitter. */
  function SpawnerStep(e: Emitter, dt: real, rateAt: real -> real): Spawn
  {
    if Finished(e, dt) then
      FinishStep(e, Advance(e.run, dt))
    else
      var (run2, index) := Prepared(e, dt);
      GatedStep(e, run2, index, Rate(e, dt, rateAt))
  }

  /** The gated part of a frame keeps the emitter running, adds what it spawns to the count, never
      lets the throttled count exceed the room left, and spawns nothing when the emitter is full. */
  lemma GatedBounds(e: Emitter, run2: RunningState, index: nat, rate: real)
    ensures var s := GatedStep(e, run2, index, rate);
      && s.fate == Running && s.emitter.config == e.config && s.emitter.playing == e.playing
      && s.emitter.count == e.count + s.toSpawn + s.extra
      && (s.toSpawn > 0 ==> e.count + s.toSpawn <= e.config.maxParticles)
      && (e.count >= e.config.maxParticles ==> s.toSpawn == 0 && s.extra == 0)
  {
  }

  /** The bookkeeping of one frame: the count grows by exactly what is spawned, the throttled count
      never takes the emitter past `max_particles`, a full emitter spawns nothing, only a finished
      non-looping emitter with no live particles can stop, and it then spawns nothing. */
  lemma SpawnerStepBounds(e: Emitter, dt: real, rateAt: real -> real)
    ensures var s := SpawnerStep(e, dt, rateAt);
      && s.emitter.config == e.config
      && s.emitter.count == e.count + s.toSpawn + s.extra
      && (s.toSpawn > 0 ==> e.count + s.toSpawn <= e.config.maxParticles)
      && (e.count >= e.config.maxParticles ==> s.toSpawn == 0 && s.extra == 0)
      && (s.fate != Running ==> !e.config.looping && e.count == 0 && s.toSpawn == 0 && s.extra == 0)
      && s.emitter.playing == (e.playing && s.fate != Paused)
  {
    if !Finished(e, dt) {
      var (run2, index) := Prepared(e, dt);
      GatedBounds(e, run2, index, Rate(e, dt, rateAt));
    }
  }

  lemma StepWhenFinished(e: Emitter, dt: real, rateAt: real -> real)
    requires Finished(e, dt)
    ensures SpawnerStep(e, dt, rateAt)
      == FinishStep(e, Advance(e.run, dt))
  {
  }

  lemma StepWhenRunning(e: Emitter, dt: real, rateAt: real -> real)
    requires !Finished(e, dt)
    ensures SpawnerStep(e, dt, rateAt)
      == GatedStep(e, Prepared(e, dt).0, Prepared(e, dt).1, Rate(e, dt, rateAt))
  {
  }

  /** The clock update at the top of each emitter's frame. */
  method AdvanceClock(run0: RunningState, dt: real) returns (run: RunningState)
    ensures run == Advance(run0, dt)
  {
    run := run0.(runningTime := run0.runningTime + dt);
    if Floor(run.runningTime) > run.currentSecond + 0.5 {
      run := run.(currentSecond := Floor(run.runningTime), spawnedThisSecond := 0);
    }
  }

  /** The capacity gate, the throttled count, the burst and the counters, for an emitter whose clock
      has been advanced to `run` with burst index `index`, spawning at `rate`. */
  method SpawnCounts(e: Emitter, run0: RunningState, index: nat, rate: real) returns (s: Spawn)
    ensures s == GatedStep(e, run0, index, rate)
  {
    var c := e.config;
    var run := run0;
    var burstIndex := index;
    if e.count >= c.maxParticles {
      return Spawn(e.(run := run, burstIndex := burstIndex), Running, 0, 0);
    }
    var remaining := c.maxParticles - e.count;
    var due := Due(run, rate);
    var toSpawn: nat := if due > remaining then remaining else if due < 0 then 0 else due;
    var extra := 0;
    if |c.bursts| > 0 && burstIndex < |c.bursts| {
      if run.runningTime >= c.bursts[burstIndex].time {
        extra := extra + c.bursts[burstIndex].count;
        burstIndex := burstIndex + 1;
      }
    }
    if toSpawn == 0 && run.spawnedThisSecond == 0 && e.count < c.maxParticles && rate > 0.0 {
      toSpawn := 1;
    }
    if toSpawn == 0 && extra == 0 {
      return Spawn(e.(run := run, burstIndex := burstIndex), Running, 0, 0);
    }
    run := run.(spawnedThisSecond := run.spawnedThisSecond + toSpawn);
    s := Spawn(Emitter(c, e.count + toSpawn + extra, run, burstIndex, e.playing), Running, toSpawn, extra);
  }

  /** One frame of `particle_spawner` for one playing emitter, step by step as the system does it. */
  method StepEmitter(e: Emitter, delta: real, timeScale: Option<real>, rateAt: real -> real) returns (s: Spawn)
    ensures s == SpawnerStep(e, Elapsed(e.config, delta, timeScale), rateAt)
  {
    var c := e.config;
    var dt := Elapsed(c, delta, timeScale);
    var run := AdvanceClock(e.run, dt);
    var burstIndex := e.burstIndex;
    if run.runningTime >= c.duration {
      if c.looping {
        run := run.(runningTime := run.runningTime - c.duration);
        run := run.(currentSecond := Floor(run.runningTime), spawnedThisSecond := 0);
        burstIndex := 0;
      } else {
        var fate := Running;
        if e.count == 0 {
          fate := if c.despawnOnFinish then Despawned else Paused;
        }
        StepWhenFinished(e, dt, rateAt);
        return Spawn(e.(run := run, playing := e.playing && fate != Paused), fate, 0, 0);
      }
    }
    assert (run, burstIndex) == Prepared(e, dt);
    StepWhenRunning(e, dt, rateAt);
    var rate := rateAt(LifePct(run, c));
    s := SpawnCounts(e, run, burstIndex, rate);
  }

  // ---------------------------------------------------------------------------------------------
  // Properties of one spawner frame

  /** `current_second` is the floor of the running time. */
  predicate InSecond(run: RunningState)
  {
    run.currentSecond == Floor(run.runningTime)
  }

  lemma AdvanceKeepsSecond(run: RunningState, dt: real)
    requires InSecond(run) && dt >= 0.0
    ensures InSecond(Advance(run, dt))
  {
    var t := run.runningTime + dt;
    assert Floor(run.runningTime) <= t;
    assert Floor(run.runningTime) <= Floor(t) by {
      assert run.runningTime.Floor < t.Floor + 1;
    }
  }

  /** As long as time does not run backwards, a frame keeps `current_second` equal to the floor of
      the running time: the rollover test fires exactly when a new whole second has been reached,
      and the wrap re-derives the second. */
  lemma SecondTracksTime(e: Emitter, dt: real, rateAt: real -> real)
    requires InSecond(e.run) && dt >= 0.0
    ensures InSecond(SpawnerStep(e, dt, rateAt).emitter.run)
  {
    AdvanceKeepsSecond(e.run, dt);
  }

  /** When the second rolls over, the throttle counter restarts; otherwise it carries on. */
  lemma Rollover(run: RunningState, dt: real)
    ensures var r := Advance(run, dt);
      && r.runningTime == run.runningTime + dt
      && (Floor(run.runningTime + dt) > run.currentSecond + 0.5 ==>
            r.currentSecond == Floor(r.runningTime) && r.spawnedThisSecond == 0)
      && (Floor(run.runningTime + dt) <= run.currentSecond + 0.5 ==>
            r.currentSecond == run.currentSecond && r.spawnedThisSecond == run.spawnedThisSecond)
  {
  }

  /** The looping wrap: the running time drops by one duration, the second restarts at its floor
      with nothing spawned except what this frame's throttle adds, and the burst schedule starts over
      (so at most the first burst is taken). */
  lemma LoopingWrap(e: Emitter, dt: real, rateAt: real -> real)
    requires e.config.looping
    requires Advance(e.run, dt).runningTime >= e.config.duration
    ensures var s := SpawnerStep(e, dt, rateAt);
      var t := Advance(e.run, dt).runningTime - e.config.duration;
      && s.fate == Running
      && s.emitter.run == RunningState(t, Floor(t), s.toSpawn)
      && s.emitter.burstIndex <= 1
      && (s.emitter.burstIndex == 1 <==>
            e.count < e.config.maxParticles && |e.config.bursts| > 0 && t >= e.config.bursts[0].time)
  {
    var run1 := Advance(e.run, dt);
    assert Prepared(e, dt) == (Wrap(run1, e.config.duration), 0);
  }

  /** The non-looping finish: nothing is spawned and no counter moves; the emitter is despawned, or
      only stops playing, exactly when it has no live particles left. */
  lemma NonLoopingFinish(e: Emitter, dt: real, rateAt: real -> real)
    requires Finished(e, dt)
    ensures var s := SpawnerStep(e, dt, rateAt);
      && s.toSpawn == 0 && s.extra == 0
      && s.emitter.count == e.count && s.emitter.burstIndex == e.burstIndex
      && (s.fate == Despawned <==> e.count == 0 && e.config.despawnOnFinish)
      && (s.fate == Paused <==> e.count == 0 && !e.config.despawnOnFinish)
      && (s.fate == Paused ==> !s.emitter.playing)
  {
  }

  /** The capacity gate: a full emitter spawns nothing and its burst index does not move (other than
      the wrap's rewind). */
  lemma CapacityGate(e: Emitter, dt: real, rateAt: real -> real)
    requires e.count >= e.config.maxParticles
    ensures var s := SpawnerStep(e, dt, rateAt);
      && s.toSpawn == 0 && s.extra == 0 && s.emitter.count == e.count
      && (s.emitter.burstIndex == e.burstIndex || (e.config.looping && s.emitter.burstIndex == 0))
  {
  }

  /** The throttled count and its forced minimum: the count never exceeds the room left, and it
      differs from the throttle's own result only when that result was 0, nothing has been spawned
      this second and the rate is positive, in which case exactly one particle is spawned. The
      throttle counter grows by the throttled count only, never by the burst. */
  lemma ThrottleAndMinimum(e: Emitter, dt: real, rateAt: real -> real)
    requires !Finished(e, dt) && e.count < e.config.maxParticles
    ensures var s := SpawnerStep(e, dt, rateAt);
      var run2 := Prepared(e, dt).0;
      var rate := Rate(e, dt, rateAt);
      var t := Throttled(run2, rate, e.config.maxParticles - e.count);
      && s.toSpawn <= e.config.maxParticles - e.count
      && (s.toSpawn != t <==> t == 0 && run2.spawnedThisSecond == 0 && rate > 0.0)
      && (s.toSpawn != t ==> s.toSpawn == 1)
      && s.emitter.run == run2.(spawnedThisSecond := run2.spawnedThisSecond + s.toSpawn)
  {
  }

  /** At most one burst per frame: the index advances by exactly one iff a next burst exists and
      its time has come, and then that burst's count is the extra; otherwise no extra is added. */
  lemma BurstAtMostOne(e: Emitter, dt: real, rateAt: real -> real)
    requires !Finished(e, dt)
    ensures var s := SpawnerStep(e, dt, rateAt);
      var (run2, index) := Prepared(e, dt);
      && (s.emitter.burstIndex == index + 1 <==>
            e.count < e.config.maxParticles && index < |e.config.bursts| && run2.runningTime >= e.config.bursts[index].time)
      && (s.emitter.burstIndex == index + 1 ==> s.extra == e.config.bursts[index].count)
      && (s.emitter.burstIndex != index + 1 ==> s.emitter.burstIndex == index && s.extra == 0)
  {
  }

  /** The burst index never runs past the burst list. */
  lemma BurstIndexBounded(e: Emitter, dt: real, rateAt: real -> real)
    requires e.burstIndex <= |e.config.bursts|
    ensures SpawnerStep(e, dt, rateAt).emitter.burstIndex <= |e.config.bursts|
  {
  }

  lemma NonPositiveProduct(f: real, r: real)
    requires f >= 0.0 && r <= 0.0
    ensures f * r <= 0.0
  {
  }

  /** With a spawn rate that is never positive, only bursts create particles. */
  lemma ZeroRateOnlyBursts(e: Emitter, dt: real, rateAt: real -> real)
    requires forall pct :: rateAt(pct) <= 0.0
    ensures var s := SpawnerStep(e, dt, rateAt);
      s.toSpawn == 0 && s.emitter.count == e.count + s.extra
  {
    if !Finished(e, dt) && e.count < e.config.maxParticles {
      var (run2, index) := Prepared(e, dt);
      var rate := Rate(e, dt, rateAt);
      NonPositiveProduct(run2.runningTime - Floor(run2.runningTime), rate);
      assert Due(run2, rate) <= 0;
      assert SpawnerStep(e, dt, rateAt) == GatedStep(e, run2, index, rate);
    }
  }

  /** Without bursts the count stays within `max_particles`. */
  lemma CountBoundedWithoutBursts(e: Emitter, dt: real, rateAt: real -> real)
    requires e.config.bursts == [] && e.count <= e.config.maxParticles
    ensures SpawnerStep(e, dt, rateAt).emitter.count <= e.config.maxParticles
  {
  }

  /** Bursts are not capped: a burst larger than the room left takes the count past
      `max_particles`. */
  lemma BurstsExceedCapacity()
    ensures var c := Config(0, 1, false, 5.0, [Burst(0.0, 5)], None, false, false);
      var e := Emitter(c, 0, RunningState(0.0, 0.0, 0), 0, true);
      var s := SpawnerStep(e, 0.5, pct => 0.0);
      s.emitter.count == 5 > c.maxParticles
  {
  }

  /** Two bursts of 1000 at 0 s and 2 s with a zero spawn rate: the first frame takes the first
      burst, a frame at 2.1 s takes the second, and the count is exactly 2000. */
  lemma TwoBurstsExact()
    ensures var c := Config(0, 5000, false, 3.0, [Burst(0.0, 1000), Burst(2.0, 1000)], None, false, false);
      var e0 := Emitter(c, 0, RunningState(0.0, 0.0, 0), 0, true);
      var s1 := SpawnerStep(e0, 0.5, pct => 0.0);
      var s2 := SpawnerStep(s1.emitter, 1.6, pct => 0.0);
      && s1.extra == 1000 && s1.emitter.count == 1000 && s1.emitter.burstIndex == 1
      && s2.extra == 1000 && s2.emitter.count == 2000 && s2.emitter.burstIndex == 2
  {
  }

  // ---------------------------------------------------------------------------------------------
  // The spawner system over all emitters

  /** What the spawner leaves of one emitter: a playing one steps, and is gone when it despawns;
      one without `Playing` is not visited. */
  function NextEmitter(e: Emitter, delta: real, timeScale: Option<real>, curve: real -> real): Option<Emitter>
  {
    if !e.playing then Some(e)
    else
      var s := SpawnerStep(e, Elapsed(e.config, delta, timeScale), curve);
      if s.fate == Despawned then None else Some(s.emitter)
  }

  /** How many particles an emitter spawns this frame. */
  function Spawned(e: Emitter, delta: real, timeScale: Option<real>, curve: real -> real): nat
  {
    if !e.playing then 0
    else
      var s := SpawnerStep(e, Elapsed(e.config, delta, timeScale), curve);
      s.toSpawn + s.extra
  }

  /** `n` new particles of emitter `id`: parented to it, with the sampled maximum lifetimes, the
      system's maximum distance and shape, and no age or distance yet. */
  function NewParticles(id: Id, c: Config, n: nat, lifetimeSample: (Id, nat) -> real): seq<Particle>
  {
    seq(n, k requires 0 <= k => Particle(id, lifetimeSample(id, k), c.maxDistance, 0.0, 0.0, c.shapeId))
  }

  /** One emitter's turn in `particle_spawner`: its next state (None once despawned) and the
      particles it spawns. */
  method EmitterFrame(id: Id, e: Emitter, delta: real, timeScale: Option<real>, curve: real -> real,
                      lifetimeSample: (Id, nat) -> real)
    returns (next: Option<Emitter>, born: seq<Particle>)
    ensures next == NextEmitter(e, delta, timeScale, curve)
    ensures born == NewParticles(id, e.config, Spawned(e, delta, timeScale, curve), lifetimeSample)
  {
    if !e.playing {
      assert Spawned(e, delta, timeScale, curve) == 0;
      assert NewParticles(id, e.config, 0, lifetimeSample) == [];
      return Some(e), [];
    }
    var s := StepEmitter(e, delta, timeScale, curve);
    PlayingOutcome(e, delta, timeScale, curve, s);
    born := SpawnParticles(id, e.config, s.toSpawn + s.extra, lifetimeSample);
    next := if s.fate == Despawned then None else Some(s.emitter);
  }

  lemma PlayingOutcome(e: Emitter, delta: real, timeScale: Option<real>, curve: real -> real, s: Spawn)
    requires e.playing && s == SpawnerStep(e, Elapsed(e.config, delta, timeScale), curve)
    ensures NextEmitter(e, delta, timeScale, curve) == if s.fate == Despawned then None else Some(s.emitter)
    ensures Spawned(e, delta, timeScale, curve) == s.toSpawn + s.extra
  {
  }

  /** The spawn loop: `n` particles of emitter `id`, one after the other. */
  method SpawnParticles(id: Id, c: Config, n: nat, lifetimeSample: (Id, nat) -> real) returns (born: seq<Particle>)
    ensures born == NewParticles(id, c, n, lifetimeSample)
  {
    born := [];
    for k := 0 to n
      invariant born == NewParticles(id, c, k, lifetimeSample)
    {
      born := born + [Particle(id, lifetimeSample(id, k), c.maxDistance, 0.0, 0.0, c.shapeId)];
    }
  }

  /** One emitter's turn, applied to the emitters as they stand: its new state (or its removal) and
      the particles it spawns. */
  function Turn(m: map<Id, Emitter>, id: Id, delta: real, timeScale: Option<real>, curves: Id -> (real -> real),
                lifetimeSample: (Id, nat) -> real): (r: (map<Id, Emitter>, seq<Particle>))
  {
    if id !in m then (m, [])
    else
      var next := NextEmitter(m[id], delta, timeScale, curves(id));
      (if next.Some? then m[id := next.value] else m - {id},
       NewParticles(id, m[id].config, Spawned(m[id], delta, timeScale, curves(id)), lifetimeSample))
  }

  /** The spawner's turns over the emitters in query order: the emitters afterwards and the
      particles spawned, in spawn order. */
  function SpawnerRun(es: map<Id, Emitter>, order: seq<Id>, delta: real, timeScale: Option<real>,
                      curves: Id -> (real -> real), lifetimeSample: (Id, nat) -> real): (r: (map<Id, Emitter>, seq<Particle>))
  {
    if order == [] then (es, [])
    else
      var before := SpawnerRun(es, order[..|order| - 1], delta, timeScale, curves, lifetimeSample);
      var turn := Turn(before.0, order[|order| - 1], delta, timeScale, curves, lifetimeSample);
      (turn.0, before.1 + turn.1)
  }

  /** `particle_spawner`: every emitter, in query order, takes its turn; the spawned particles join
      the particle store. The curve of each emitter and the lifetime samples are parameters. */
  method ParticleSpawner(es: map<Id, Emitter>, order: seq<Id>, ps: seq<Particle>, delta: real,
                         timeScale: Option<real>, curves: Id -> (real -> real),
                         lifetimeSample: (Id, nat) -> real)
    returns (es': map<Id, Emitter>, ps': seq<Particle>)
    ensures es' == SpawnerRun(es, order, delta, timeScale, curves, lifetimeSample).0
    ensures ps' == ps + SpawnerRun(es, order, delta, timeScale, curves, lifetimeSample).1
  {
    es' := es;
    ps' := ps;
    for i := 0 to |order|
      invariant es' == SpawnerRun(es, order[..i], delta, timeScale, curves, lifetimeSample).0
      invariant ps' == ps + SpawnerRun(es, order[..i], delta, timeScale, curves, lifetimeSample).1
    {
      SpawnerRunStep(es, order, i, delta, timeScale, curves, lifetimeSample);
      ghost var before := SpawnerRun(es, order[..i], delta, timeScale, curves, lifetimeSample).1;
      var born;
      es', born := TakeTurn(es', order[i], delta, timeScale, curves, lifetimeSample);
      AppendAssoc(ps, before, born);
      ps' := ps' + born;
    }
    assert order[..|order|] == order;
  }

  /** One emitter's turn, if the emitter still exists. */
  method TakeTurn(m: map<Id, Emitter>, id: Id, delta: real, timeScale: Option<real>, curves: Id -> (real -> real),
                  lifetimeSample: (Id, nat) -> real)
    returns (m': map<Id, Emitter>, born: seq<Particle>)
    ensures (m', born) == Turn(m, id, delta, timeScale, curves, lifetimeSample)
  {
    m', born := m, [];
    if id in m {
      var next;
      next, born := EmitterFrame(id, m[id], delta, timeScale, curves(id), lifetimeSample);
      TurnOf(m, id, delta, timeScale, curves, lifetimeSample, next, born);
      if next.Some? {
        m' := m[id := next.value];
      } else {
        m' := m - {id};
      }
    }
  }

  lemma AppendAssoc(a: seq<Particle>, b: seq<Particle>, c: seq<Particle>)
    ensures a + (b + c) == (a + b) + c
  {
  }

  lemma TurnOf(m: map<Id, Emitter>, id: Id, delta: real, timeScale: Option<real>, curves: Id -> (real -> real),
               lifetimeSample: (Id, nat) -> real, next: Option<Emitter>, born: seq<Particle>)
    requires id in m && next == NextEmitter(m[id], delta, timeScale, curves(id))
    requires born == NewParticles(id, m[id].config, Spawned(m[id], delta, timeScale, curves(id)), lifetimeSample)
    ensures Turn(m, id, delta, timeScale, curves, lifetimeSample)
      == (if next.Some? then m[id := next.value] else m - {id}, born)
  {
  }

  lemma SpawnerRunStep(es: map<Id, Emitter>, order: seq<Id>, i: nat, delta: real, timeScale: Option<real>,
                       curves: Id -> (real -> real), lifetimeSample: (Id, nat) -> real)
    requires i < |order|
    ensures var before := SpawnerRun(es, order[..i], delta, timeScale, curves, lifetimeSample);
      var turn := Turn(before.0, order[i], delta, timeScale, curves, lifetimeSample);
      SpawnerRun(es, order[..i + 1], delta, timeScale, curves, lifetimeSample) == (turn.0, before.1 + turn.1)
  {
    assert order[..i + 1][..i] == order[..i];
  }

  /** The number of particles in `ps` whose parent is `id`. */
  function Children(ps: seq<Particle>, id: Id): nat
  {
    if ps == [] then 0
    else Children(ps[..|ps| - 1], id) + (if ps[|ps| - 1].parent == id then 1 else 0)
  }

  lemma {:induction false} ChildrenAppend(a: seq<Particle>, b: seq<Particle>, id: Id)
    ensures Children(a + b, id) == Children(a, id) + Children(b, id)
  {
    if b == [] {
      assert a + b == a;
    } else {
      assert (a + b)[..|a + b| - 1] == a + b[..|b| - 1];
      ChildrenAppend(a, b[..|b| - 1], id);
    }
  }

  lemma {:induction false} ChildrenOfNew(id: Id, c: Config, n: nat, lifetimeSample: (Id, nat) -> real, x: Id)
    ensures Children(NewParticles(id, c, n, lifetimeSample), x) == if x == id then n else 0
  {
    if n > 0 {
      assert NewParticles(id, c, n, lifetimeSample)[..n - 1] == NewParticles(id, c, n - 1, lifetimeSample);
      ChildrenOfNew(id, c, n - 1, lifetimeSample, x);
    }
  }

  /** Each emitter takes exactly one turn, against its state at the start of the frame: after the
      run an emitter in the query order is in the state `NextEmitter` gives it (absent once
      despawned), and one not in it is untouched. */
  lemma {:induction false} SpawnerRunState(es: map<Id, Emitter>, order: seq<Id>, delta: real, timeScale: Option<real>,
                                           curves: Id -> (real -> real), lifetimeSample: (Id, nat) -> real, id: Id)
    requires id in es
    requires forall i, j :: 0 <= i < j < |order| ==> order[i] != order[j]
    ensures var r := SpawnerRun(es, order, delta, timeScale, curves, lifetimeSample);
      var next := NextEmitter(es[id], delta, timeScale, curves(id));
      && (id in order ==> (id in r.0 <==> next.Some?) && (id in r.0 ==> r.0[id] == next.value))
      && (id !in order ==> id in r.0 && r.0[id] == es[id])
  {
    if order != [] {
      var last := order[|order| - 1];
      var prefix := order[..|order| - 1];
      assert order == prefix + [last];
      SpawnerRunState(es, prefix, delta, timeScale, curves, lifetimeSample, id);
      if last == id {
        assert id !in prefix;
      }
    }
  }

  /** Exactly `Spawned` particles of the run have an emitter in the query order as parent, and
      none have any other emitter as parent. */
  lemma {:induction false} SpawnerRunChildren(es: map<Id, Emitter>, order: seq<Id>, delta: real, timeScale: Option<real>,
                                              curves: Id -> (real -> real), lifetimeSample: (Id, nat) -> real, id: Id)
    requires id in es
    requires forall i, j :: 0 <= i < j < |order| ==> order[i] != order[j]
    ensures Children(SpawnerRun(es, order, delta, timeScale, curves, lifetimeSample).1, id)
      == if id in order then Spawned(es[id], delta, timeScale, curves(id)) else 0
  {
    if order != [] {
      var last := order[|order| - 1];
      var prefix := order[..|order| - 1];
      assert order == prefix + [last];
      SpawnerRunChildren(es, prefix, delta, timeScale, curves, lifetimeSample, id);
      var before := SpawnerRun(es, prefix, delta, timeScale, curves, lifetimeSample);
      var turn := Turn(before.0, last, delta, timeScale, curves, lifetimeSample);
      ChildrenAppend(before.1, turn.1, id);
      if last == id {
        assert id !in prefix;
        SpawnerRunState(es, prefix, delta, timeScale, curves, lifetimeSample, id);
        ChildrenOfNew(id, es[id].config, Spawned(es[id], delta, timeScale, curves(id)), lifetimeSample, id);
      } else if last in before.0 {
        ChildrenOfNew(last, before.0[last].config, Spawned(before.0[last], delta, timeScale, curves(last)), lifetimeSample, id);
      }
    }
  }

  /** The spawner neither creates nor revives emitters. */
  lemma {:induction false} SpawnerRunKeys(es: map<Id, Emitter>, order: seq<Id>, delta: real, timeScale: Option<real>,
                                         curves: Id -> (real -> real), lifetimeSample: (Id, nat) -> real)
    ensures SpawnerRun(es, order, delta, timeScale, curves, lifetimeSample).0.Keys <= es.Keys
  {
    if order != [] {
      SpawnerRunKeys(es, order[..|order| - 1], delta, timeScale, curves, lifetimeSample);
    }
  }

  /** Each emitter's `ParticleCount` counts its live particles. */
  ghost predicate CountsTrackChildren(es: map<Id, Emitter>, ps: seq<Particle>)
  {
    forall id :: id in es ==> es[id].count == Children(ps, id)
  }

  /** The spawner keeps every emitter's count equal to the number of its particles: whatever it adds
      to `ParticleCount` it spawns, bursts included. */
  lemma SpawnerKeepsCounts(es: map<Id, Emitter>, order: seq<Id>, ps: seq<Particle>, delta: real,
                           timeScale: Option<real>, curves: Id -> (real -> real), lifetimeSample: (Id, nat) -> real)
    requires Enumerates(order, es.Keys) && CountsTrackChildren(es, ps)
    ensures var r := SpawnerRun(es, order, delta, timeScale, curves, lifetimeSample);
      CountsTrackChildren(r.0, ps + r.1)
  {
    var r := SpawnerRun(es, order, delta, timeScale, curves, lifetimeSample);
    SpawnerRunKeys(es, order, delta, timeScale, curves, lifetimeSample);
    forall id | id in r.0
      ensures r.0[id].count == Children(ps + r.1, id)
    {
      SpawnerRunState(es, order, delta, timeScale, curves, lifetimeSample, id);
      SpawnerRunChildren(es, order, delta, timeScale, curves, lifetimeSample, id);
      ChildrenAppend(ps, r.1, id);
      var e := es[id];
      if e.playing {
        SpawnerStepBounds(e, Elapsed(e.config, delta, timeScale), curves(id));
      }
    }
  }

  // ---------------------------------------------------------------------------------------------
  // Ageing, travel and cleanup of particles

  /** The scale `particle_lifetime` applies: the `TimeScale` resource when it is present and the
      particle's system still exists and uses scaled time, 1 otherwise. */
  function LifetimeScale(p: Particle, es: map<Id, Emitter>, timeScale: Option<real>): real
  {
    if timeScale.Some? && p.parent in es && es[p.parent].config.useScaledTime then timeScale.value else 1.0
  }

  /** How much a particle ages in one frame. */
  function AgeStep(p: Particle, es: map<Id, Emitter>, delta: real, timeScale: Option<real>): real
  {
    delta * LifetimeScale(p, es, timeScale)
  }

  /** A particle after one frame of `particle_lifetime`. */
  function Aged(p: Particle, es: map<Id, Emitter>, delta: real, timeScale: Option<real>): Particle
  {
    p.(lifetime := p.lifetime + AgeStep(p, es, delta, timeScale))
  }

  /** `particle_lifetime`: every particle ages by the frame delta times its scale. */
  method ParticleLifetime(ps: seq<Particle>, es: map<Id, Emitter>, delta: real, timeScale: Option<real>)
    returns (ps': seq<Particle>)
    ensures |ps'| == |ps|
    ensures forall i :: 0 <= i < |ps| ==> ps'[i] == Aged(ps[i], es, delta, timeScale)
  {
    ps' := [];
    for i := 0 to |ps|
      invariant |ps'| == i
      invariant forall j :: 0 <= j < i ==> ps'[j] == Aged(ps[j], es, delta, timeScale)
    {
      var p := AgeOne(ps[i], es, delta, timeScale);
      ps' := ps' + [p];
    }
  }

  /** The body of `particle_lifetime` for one particle. */
  method AgeOne(p: Particle, es: map<Id, Emitter>, delta: real, timeScale: Option<real>) returns (q: Particle)
    ensures q == Aged(p, es, delta, timeScale)
  {
    var scale := 1.0;
    if timeScale.Some? {
      if p.parent in es {
        if es[p.parent].config.useScaledTime {
          scale := timeScale.value;
        }
      }
    }
    q := p.(lifetime := p.lifetime + delta * scale);
  }

  /** A particle ages on the same clock as its system's spawner; an orphan ages unscaled. */
  lemma LifetimeScaleMatchesSpawner(p: Particle, es: map<Id, Emitter>, timeScale: Option<real>)
    ensures p.parent in es ==> LifetimeScale(p, es, timeScale) == SpawnerScale(es[p.parent].config, timeScale)
    ensures p.parent !in es ==> LifetimeScale(p, es, timeScale) == 1.0
  {
  }

  /** The distance a particle has covered after one frame of `particle_transform`, given how far its
      instance moved: only particles whose system still exists move. */
  function Travelled(p: Particle, es: map<Id, Emitter>, moved: real): Particle
  {
    if p.parent in es then p.(distance := p.distance + moved) else p
  }

  /** `particle_transform`, distance bookkeeping only: `moved[i]` is how far particle `i`'s instance
      moved this frame. */
  method ParticleTransform(ps: seq<Particle>, es: map<Id, Emitter>, moved: seq<real>) returns (ps': seq<Particle>)
    requires |moved| == |ps|
    ensures |ps'| == |ps|
    ensures forall i :: 0 <= i < |ps| ==> ps'[i] == Travelled(ps[i], es, moved[i])
  {
    ps' := [];
    for i := 0 to |ps|
      invariant |ps'| == i
      invariant forall j :: 0 <= j < i ==> ps'[j] == Travelled(ps[j], es, moved[j])
    {
      var p := ps[i];
      if p.parent in es {
        p := p.(distance := p.distance + moved[i]);
      }
      ps' := ps' + [p];
    }
  }

  /** A particle is due for removal: it has outlived its maximum lifetime, or it has a maximum
      distance and has covered it. */
  predicate Expired(p: Particle)
  {
    p.lifetime >= p.maxLifetime || (p.maxDistance.Some? && p.distance >= p.maxDistance.value)
  }

  /** Ageing and travel never bring an expired particle back, never change a parent, and with a
      non-negative step never make a particle younger or shorter-travelled. */
  lemma AgeingAndTravelMonotone(p: Particle, es: map<Id, Emitter>, delta: real, timeScale: Option<real>, moved: real)
    requires AgeStep(p, es, delta, timeScale) >= 0.0 && moved >= 0.0
    ensures var a := Aged(p, es, delta, timeScale);
      && a.parent == p.parent && a.lifetime >= p.lifetime
      && (Expired(p) ==> Expired(a))
    ensures var t := Travelled(p, es, moved);
      && t.parent == p.parent && t.distance >= p.distance && t.lifetime == p.lifetime
      && (Expired(p) ==> Expired(t))
  {
  }

  lemma {:induction false} ChildrenSameParents(a: seq<Particle>, b: seq<Particle>, id: Id)
    requires |a| == |b| && forall i :: 0 <= i < |a| ==> a[i].parent == b[i].parent
    ensures Children(a, id) == Children(b, id)
  {
    if a != [] {
      ChildrenSameParents(a[..|a| - 1], b[..|b| - 1], id);
    }
  }

  /** Ageing and travel keep every emitter's count equal to the number of its particles. */
  lemma AgeingAndTravelKeepCounts(es: map<Id, Emitter>, ps: seq<Particle>, ps': seq<Particle>)
    requires |ps'| == |ps| && forall i :: 0 <= i < |ps| ==> ps'[i].parent == ps[i].parent
    requires CountsTrackChildren(es, ps)
    ensures CountsTrackChildren(es, ps')
  {
    forall id | id in es
      ensures es[id].count == Children(ps', id)
    {
      ChildrenSameParents(ps, ps', id);
    }
  }

  /** `count - n`, stopping at 0: `n` saturating decrements. */
  function SatSub(count: nat, n: nat): nat
  {
    if count >= n then count - n else 0
  }

  /** The cleanup's pass over the particles in query order: the emitters afterwards and the
      particles kept. */
  function CleanupRun(es: map<Id, Emitter>, ps: seq<Particle>): (map<Id, Emitter>, seq<Particle>)
  {
    if ps == [] then (es, [])
    else
      var before := CleanupRun(es, ps[..|ps| - 1]);
      var m := before.0;
      var p := ps[|ps| - 1];
      if !Expired(p) then (m, before.1 + [p])
      else if p.parent in m && m[p.parent].count > 0 then
        (m[p.parent := m[p.parent].(count := m[p.parent].count - 1)], before.1)
      else (m, before.1)
  }

  /** `particle_cleanup`: every expired particle is despawned and decrements its system's count if
      the system exists and the count is positive. */
  method ParticleCleanup(es: map<Id, Emitter>, ps: seq<Particle>) returns (es': map<Id, Emitter>, ps': seq<Particle>)
    ensures (es', ps') == CleanupRun(es, ps)
  {
    es' := es;
    ps' := [];
    for i := 0 to |ps|
      invariant (es', ps') == CleanupRun(es, ps[..i])
    {
      assert ps[..i + 1][..i] == ps[..i];
      var p := ps[i];
      if Expired(p) {
        if p.parent in es' {
          if es'[p.parent].count > 0 {
            es' := es'[p.parent := es'[p.parent].(count := es'[p.parent].count - 1)];
          }
        }
      } else {
        ps' := ps' + [p];
      }
    }
    assert ps[..|ps|] == ps;
  }

  /** The number of expired particles in `ps` whose parent is `id`. */
  function DeadChildren(ps: seq<Particle>, id: Id): nat
  {
    if ps == [] then 0
    else DeadChildren(ps[..|ps| - 1], id) + (if ps[|ps| - 1].parent == id && Expired(ps[|ps| - 1]) then 1 else 0)
  }

  /** The cleanup adds and removes no system, and takes each system's count down by its expired
      particles, stopping at 0. */
  lemma {:induction false} CleanupCounts(es: map<Id, Emitter>, ps: seq<Particle>, id: Id)
    ensures var r := CleanupRun(es, ps);
      && (id in r.0 <==> id in es)
      && (id in es ==> r.0[id] == es[id].(count := SatSub(es[id].count, DeadChildren(ps, id))))
  {
    if ps != [] {
      CleanupCounts(es, ps[..|ps| - 1], id);
    }
  }

  /** The cleanup keeps exactly the particles that have not expired. */
  lemma {:induction false} CleanupSurvivors(es: map<Id, Emitter>, ps: seq<Particle>, q: Particle)
    ensures q in CleanupRun(es, ps).1 <==> q in ps && !Expired(q)
  {
    if ps != [] {
      var prefix := ps[..|ps| - 1];
      assert ps == prefix + [ps[|ps| - 1]];
      CleanupSurvivors(es, prefix, q);
    }
  }

  /** A system's particles after the cleanup and its expired ones make up its particles before. */
  lemma {:induction false} CleanupSplitsChildren(es: map<Id, Emitter>, ps: seq<Particle>, id: Id)
    ensures Children(CleanupRun(es, ps).1, id) + DeadChildren(ps, id) == Children(ps, id)
  {
    if ps != [] {
      var prefix := ps[..|ps| - 1];
      var p := ps[|ps| - 1];
      CleanupSplitsChildren(es, prefix, id);
      var before := CleanupRun(es, prefix);
      if !Expired(p) {
        assert (before.1 + [p])[..|before.1 + [p]| - 1] == before.1;
      }
    }
  }

  /** The cleanup keeps every emitter's count equal to the number of its particles. */
  lemma CleanupKeepsCounts(es: map<Id, Emitter>, ps: seq<Particle>)
    requires CountsTrackChildren(es, ps)
    ensures var r := CleanupRun(es, ps);
      r.0.Keys == es.Keys && CountsTrackChildren(r.0, r.1)
  {
    var r := CleanupRun(es, ps);
    forall id | id in r.0 || id in es
      ensures id in r.0 && id in es && r.0[id].count == Children(r.1, id)
    {
      CleanupCounts(es, ps, id);
      CleanupSplitsChildren(es, ps, id);
    }
  }
}
