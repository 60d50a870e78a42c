# prim: the simulation bookkeeping, modelled in Dafny

prim is a small 2D engine built on an entity-component store. Each frame its systems do the following:

- snap every collidable entity to a cell of a spatial hash grid and find overlapping colliders in the cells around it;
- run particle emitters through their spawn state machine, then age, move and clean up the particles;
- cycle animated entities through shapes and interpolate tweened attributes;
- keep the keyboard and mouse state between frames.

Beside the store, the engine keeps several registries: shapes and fonts by name, game objects with sequential ids, and a run-once latch for start-up systems.

This project models that bookkeeping and proves what it promises. The GPU, window and event loop are outside the model.

One module per source file:

| module | file | form |
|---|---|---|
| `Collision` | `collision.dfy` | pure rounding, neighbourhood and overlap functions; the marker and collision systems as methods over the store |
| `ParticleSystems` | `particle_systems.dfy` | the spawner step as a specification function with methods proved against it; the ageing, travel and cleanup loops |
| `Input` | `input.dfy` | classes `Keyboard` and `Mouse` whose methods update their three sets |
| `ShapeCycle` | `shape_cycle.dfy` | the time-to-index loop and the per-entity update |
| `Tween` | `tween.dfy` | clamped interpolation, and the per-entity loop with its `done` flag |
| `ShapeRegistry`, `Text` | `shape_registry.dfy`, `text.dfy` | classes over a sequence and a name index |
| `ObjectRegistry` | `object_registry.dfy` | classes `GameObject` and `ObjectRegistry`; the shape sort by a reference stable insertion sort |
| `Systems` | `systems.dfy` | the `HasRunMarker` latch |
| `Common` | `common.dfy` | shared types (`Option`, `Vec2`, `Vec4`, `Instance`) and the query-order predicate |

Modelling conventions:

- An ECS system becomes a method from a store `map<Id, Rec>` and a query order `seq<Id>`, which lists each key once, to the new store. The method is proved against a per-entity or fold specification function.
- Deferred commands are applied at once. Two lemmas show where this is harmless: the two marker systems commute, and `Colliding<T>` is not read by either collision query. The one-frame delay of `insert_hash_marker`'s inserts is not harmless; `Collision.UnmarkedNotCollided` states it, and "## Left out" says what the model does not capture.
- `f32` values are `real`. The `as i32` cast is truncation toward zero, and integer `/` and `%` truncate as Rust's do.
- Samplers are parameters: the spawn-rate curve, the lifetime jitter, and the distance a particle moved. So are the time delta, the time scale and the set of changed positions.

## Model

| member | source | states |
|---|---|---|
| Collision.Trunc | src/collision.rs:253 | The `as i32` cast truncates toward zero: the result is within one of the float, on the side of zero. |
| Collision.RoundToNearest | src/collision.rs:251-260 | The result is a multiple of `incr` for any non-zero `incr`. For a positive grid it is the multiple nearest the truncated value, with halves going away from zero, and it has the sign of the input. |
| Collision.RoundedIsMultiple | src/collision.rs:253-254 | Subtracting the truncated remainder leaves a multiple of the grid, and so does its negation, whatever the signs. |
| Collision.RoundedBounds | src/collision.rs:253-254 | On a positive grid, adding half a cell and dropping the remainder gives a non-negative multiple within half a cell of the value. |
| Collision.RoundOdd | src/collision.rs:251-260 | `round_to_nearest(-x, g) == -round_to_nearest(x, g)` for every non-zero `g`, including inputs in (-1, 1). |
| Collision.RoundExamples | src/collision.rs:271-276 | 250 → 300, 249.9 → 200, -250 → -300 and -249.9 → -200 on a grid of 100. |
| Collision.RoundOrderedAdjacent | src/collision.rs:251-260 | Two ordered points less than a cell apart, the larger non-negative, round to multiples at most one cell apart. |
| Collision.RoundOrderedNear | src/collision.rs:251-260 | The same for ordered points of any sign. |
| Collision.RoundAdjacent | src/collision.rs:251-260 | Points less than a cell apart round to the same or adjacent multiples. |
| Collision.CurrentHashGrid | src/collision.rs:242-249 | Each axis is rounded on its own, and both coordinates of the cell are multiples of the grid size. |
| Collision.HashGridExamples | src/collision.rs:279-284 | (250, 0) → (300, 0), (-250, 0) → (-300, 0), (0, 250) → (0, 300) and (0, -250) → (0, -300). |
| Collision.GetWithNeighbors | src/collision.rs:105-117 | Nine cells, the first being the cell itself. Each is offset by at most one grid step per axis, and for a non-zero grid they are pairwise distinct. |
| Collision.NeighborhoodComplete | src/collision.rs:105-117 | Every one of the nine offsets in {-g, 0, g}² occurs in the neighbourhood. |
| Collision.NeighborsExample | src/collision.rs:320-335 | The exact order the unit test expects around (200, 0). |
| Collision.OverlapSymmetric | src/collision.rs:224-236 | The box test is symmetric. It holds iff on both axes the centre distance is below the mean of the two extents. |
| Collision.TouchingDoesNotOverlap | src/collision.rs:224-236 | Boxes sharing only an edge do not overlap, either way round. |
| Collision.OverlapExamples | src/collision.rs:287-317 | The unit test's instances: a overlaps b, and a does not overlap c. |
| Collision.Overlapping | src/collision.rs:224-236 | Defines the overlap test: the boxes `position ± scale / 2` of the two instances intersect with strict inequalities on both axes. Rotation is ignored. |
| Collision.AxisStep | src/collision.rs:242-260 | Along one axis, points less than a cell apart are in cells zero or one step apart. |
| Collision.OverlapWithinNeighborhood | src/collision.rs:178-189 | When no box is larger than a cell, an overlapping instance's cell is among the nine around the other's. This is the grid's design assumption. |
| Collision.UpdatedMarker | src/collision.rs:122-135 | Only a `Collidable` entity with a marker and a changed or added position gets a new marker, and it is its current cell. Every other component is untouched. |
| Collision.InsertedMarker | src/collision.rs:141-151 | The marker changes iff the entity is `Collidable` and has none, and then it is the current cell. Every other component is untouched. |
| Collision.UpdateHashMarkers | src/collision.rs:122-135 | Over the store, every entity becomes `UpdatedMarker` of itself. No entity is added or removed. |
| Collision.InsertHashMarkers | src/collision.rs:141-151 | Over the store, every entity becomes `InsertedMarker` of itself. |
| Collision.MarkerSystemsCommute | src/collision.rs:122-151 | The two marker systems commute. Afterwards every `Collidable` entity has a marker, the current cell when it was changed or had none. Non-`Collidable` entities are unchanged. |
| Collision.CollidesWithQuery | src/collision.rs:164 | The query has at most one row per visited entity. |
| Collision.QueryMembership | src/collision.rs:164 | A row is in the query iff its entity carries `CollidesWith<T>` and a marker, and the row holds that instance and cell. |
| Collision.Bucket | src/collision.rs:170-176 | A bucket is no longer than the query. |
| Collision.BucketMembership | src/collision.rs:170-176 | An entry is in the bucket of cell c iff the query has that entity and instance in cell c. Every row lands in exactly its own cell's bucket. |
| Collision.BucketEmpty | src/collision.rs:170-176 | A cell's bucket is empty iff no row is in that cell. |
| Collision.BuildBuckets | src/collision.rs:170-176 | The loop builds exactly one non-empty bucket per occupied cell, in query order. |
| Collision.Hits | src/collision.rs:182-187 | The filter keeps at most the bucket's entries. |
| Collision.HitsMembership | src/collision.rs:182-187 | An id is a hit iff some entry of the bucket carries it and overlaps the collider. |
| Collision.NeighborHitsMembership | src/collision.rs:180-189 | An id is in the concatenated list iff it is a hit in the bucket of one of the visited cells. |
| Collision.CollisionsFor | src/collision.rs:179-189 | The per-collider loop yields the hits of the nine cells concatenated in `get_with_neighbors` order. |
| Collision.CollideEntity | src/collision.rs:178-196 | Only `Colliding<tag>` of a collider with a marker changes. When present it is non-empty. Other channels and non-colliders are untouched. |
| Collision.Collisions | src/collision.rs:162-198 | Every entity of the store becomes `CollideEntity` over the buckets of the `CollidesWith<tag>` query. |
| Collision.FoundIsPartner | src/collision.rs:170-189 | Every id found is a `CollidesWith<tag>` entity with a marker among the nine cells whose instance overlaps the collider. |
| Collision.PartnerIsFound | src/collision.rs:170-189 | Conversely, every such entity is found. |
| Collision.CollidingCharacterisation | src/collision.rs:170-196 | `Colliding<tag>` is present iff some partner exists. When present it lists exactly the partners. |
| Collision.UnmarkedNotCollided | src/collision.rs:137-151 | On the store as `collisions<T>` sees it, before the marker inserts take effect, no collider lists an entity without a marker, and a collider without a marker is left as it was. So a newly `Collidable` entity takes part only from the next frame. |
| Collision.OverlapIsDetected | src/collision.rs:122-196 | With current markers and no box larger than a cell, every overlapping `CollidesWith<tag>` entity is listed in the collider's `Colliding<tag>`. |
| ParticleSystems.Floor | src/particle_system/systems.rs:62-63 | `f32::floor`: the largest whole value not above the input. |
| ParticleSystems.Throttled | src/particle_system/systems.rs:89-97 | The throttled count never exceeds the room left below `max_particles`. |
| ParticleSystems.SpawnerStep | src/particle_system/systems.rs:60-148 | Defines one playing emitter's frame: a finished non-looping system takes the finish step. Any other takes the advance, the looping wrap, the capacity gate, the throttled count with its forced minimum and the burst. |
| ParticleSystems.GatedBounds | src/particle_system/systems.rs:85-148 | After the wrap, the emitter keeps running and its count grows by exactly `to_spawn + extra`. `to_spawn` never takes it past `max_particles`, and a full emitter spawns nothing. |
| ParticleSystems.SpawnerStepBounds | src/particle_system/systems.rs:60-148 | In one frame the count grows by exactly what is spawned, the throttled part never passes the cap, and a full emitter spawns nothing. Only a finished non-looping emitter with no particles stops, and it spawns nothing. `Playing` is lost iff it is paused. |
| ParticleSystems.StepWhenFinished | src/particle_system/systems.rs:73-82 | A finished non-looping frame is the finish step alone. |
| ParticleSystems.StepWhenRunning | src/particle_system/systems.rs:67-148 | Any other frame is the gated step after the advance and the wrap. |
| ParticleSystems.AdvanceClock | src/particle_system/systems.rs:60-65 | The clock loop body computes exactly the advance: running time plus the frame time, and a new second when its floor has passed the current one. |
| ParticleSystems.SpawnCounts | src/particle_system/systems.rs:85-148 | The gate, throttle, burst and counter code computes exactly the gated step. |
| ParticleSystems.StepEmitter | src/particle_system/systems.rs:55-148 | One emitter's frame computes exactly the spawner step at the scaled frame time. |
| ParticleSystems.AdvanceKeepsSecond | src/particle_system/systems.rs:60-65 | With time moving forward, `current_second` stays the floor of the running time. |
| ParticleSystems.SecondTracksTime | src/particle_system/systems.rs:60-82 | The same holds across a whole frame, wrap included. |
| ParticleSystems.Rollover | src/particle_system/systems.rs:62-65 | When the second rolls over, the counter restarts at 0 and the second becomes the floor. Otherwise both are kept. |
| ParticleSystems.LoopingWrap | src/particle_system/systems.rs:67-72 | A looping system past its duration loses one duration of running time. The second restarts at its floor, and the counter and burst index restart at 0 before spawning. |
| ParticleSystems.NonLoopingFinish | src/particle_system/systems.rs:73-82 | Nothing spawns. With no particles left the system is despawned when `despawn_on_finish` is set, and otherwise only loses `Playing`. With particles left it keeps running. |
| ParticleSystems.CapacityGate | src/particle_system/systems.rs:85-87 | A full emitter spawns nothing, and its burst index stays where the wrap left it. |
| ParticleSystems.ThrottleAndMinimum | src/particle_system/systems.rs:89-114 | `to_spawn` is within the room left. It is forced to 1 exactly when the throttled count is 0, nothing has spawned this second and the rate is positive. |
| ParticleSystems.BurstAtMostOne | src/particle_system/systems.rs:99-107 | At most one burst is taken per frame. The index advances by one iff a next burst exists and its time has come, and that burst's count is the extra. |
| ParticleSystems.BurstIndexBounded | src/particle_system/systems.rs:99-107 | The burst index never runs past the burst list. |
| ParticleSystems.ZeroRateOnlyBursts | src/particle_system/systems.rs:91-114 | With a rate curve that is never positive, only bursts spawn particles. |
| ParticleSystems.CountBoundedWithoutBursts | src/particle_system/systems.rs:85-148 | Without bursts the count never passes `max_particles`. |
| ParticleSystems.BurstsExceedCapacity | src/particle_system/systems.rs:146-148 | Bursts are not capped: a burst of 5 into an emitter capped at 1 leaves a count of 5. |
| ParticleSystems.TwoBurstsExact | src/particle_system/systems.rs:99-148 | Two bursts of 1000 at 0 s and 2 s are taken on separate frames, for a count of exactly 2000. |
| ParticleSystems.EmitterFrame | src/particle_system/systems.rs:46-149 | One emitter's turn yields its next state, or none once despawned, and exactly the particles it is due. An emitter without `Playing` is not visited. |
| ParticleSystems.PlayingOutcome | src/particle_system/systems.rs:55-148 | For a playing emitter, the next state and the spawn count are read off its spawner step. |
| ParticleSystems.SpawnParticles | src/particle_system/systems.rs:120-145 | The spawn loop creates exactly n particles. Each has the emitter as parent, the sampled lifetime, the system's maximum distance and shape, and no age or distance. |
| ParticleSystems.ParticleSpawner | src/particle_system/systems.rs:29-150 | The system over all emitters yields the fold of their turns in query order. The spawned particles are appended to the store. |
| ParticleSystems.TakeTurn | src/particle_system/systems.rs:46-149 | One iteration of the emitter loop applies that emitter's turn to the store. |
| ParticleSystems.SpawnerRunStep | src/particle_system/systems.rs:46-149 | The fold over a one-longer prefix is the fold over the prefix followed by the next turn. |
| ParticleSystems.ChildrenAppend | src/particle_system/systems.rs:136 | Counting a system's particles distributes over concatenation. |
| ParticleSystems.ChildrenOfNew | src/particle_system/systems.rs:120-145 | The n new particles all belong to the spawning system and to no other. |
| ParticleSystems.SpawnerRunState | src/particle_system/systems.rs:46-149 | After the run, each emitter in the order holds its own next state and is gone iff it despawned. It is computed from its state at the start of the frame. Emitters not in the order are unchanged. |
| ParticleSystems.SpawnerRunChildren | src/particle_system/systems.rs:120-148 | Each emitter in the order spawned exactly its own due count, and no other emitter spawned anything. |
| ParticleSystems.SpawnerRunKeys | src/particle_system/systems.rs:76 | The spawner never adds an emitter, it only despawns them. |
| ParticleSystems.SpawnerKeepsCounts | src/particle_system/systems.rs:146-148 | When every `ParticleCount` counts its live particles, the spawner keeps it so, and it still holds for the emitters that remain. |
| ParticleSystems.ParticleLifetime | src/particle_system/systems.rs:152-169 | Every particle's lifetime grows by the frame time scaled by its system's rule. Nothing else changes. |
| ParticleSystems.AgeOne | src/particle_system/systems.rs:159-167 | The per-particle body computes exactly the aged particle. |
| ParticleSystems.Aged | src/particle_system/systems.rs:159-167 | Defines the aged particle: lifetime plus the frame time, scaled only when a time scale is present, the parent system exists and it uses scaled time. |
| ParticleSystems.LifetimeScaleMatchesSpawner | src/particle_system/systems.rs:55-166 | A particle of a live system ages at that system's spawner scale. An orphan ages at scale 1. |
| ParticleSystems.ParticleTransform | src/particle_system/systems.rs:188-223 | A particle whose system exists adds the distance it moved to `DistanceTraveled`. An orphan is untouched. |
| ParticleSystems.Travelled | src/particle_system/systems.rs:204-219 | Defines the distance update: a particle whose system exists adds the distance it moved. |
| ParticleSystems.Expired | src/particle_system/systems.rs:231-232 | Defines expiry: the lifetime has reached the maximum, or a maximum distance is set and has been reached. |
| ParticleSystems.AgeingAndTravelMonotone | src/particle_system/systems.rs:152-219 | Ageing and travel keep the parent and never decrease lifetime or distance. An expired particle stays expired. |
| ParticleSystems.ChildrenSameParents | src/particle_system/systems.rs:152-223 | Sequences with the same parents, index by index, have the same counts per system. |
| ParticleSystems.AgeingAndTravelKeepCounts | src/particle_system/systems.rs:152-223 | Ageing and travel keep every count equal to the number of its particles. |
| ParticleSystems.ParticleCleanup | src/particle_system/systems.rs:225-242 | The cleanup loop computes exactly the cleanup fold. An expired particle is removed, and decrements its system's count when the system exists and the count is positive. |
| ParticleSystems.CleanupRun | src/particle_system/systems.rs:225-242 | Defines the cleanup fold in query order: an expired particle is dropped, and decrements its system's count when that system exists with a positive count. Other particles are kept in order. |
| ParticleSystems.CleanupCounts | src/particle_system/systems.rs:234-238 | No system is added or removed. Each count drops by its expired particles, stopping at 0. |
| ParticleSystems.CleanupSurvivors | src/particle_system/systems.rs:230-240 | A particle survives iff it was there and has not expired. An expired one has reached its maximum lifetime, or has a maximum distance that it has covered. |
| ParticleSystems.CleanupSplitsChildren | src/particle_system/systems.rs:230-240 | A system's survivors plus its expired particles are its particles before. |
| ParticleSystems.CleanupKeepsCounts | src/particle_system/systems.rs:225-242 | The cleanup keeps every count equal to the number of its particles. |
| Input.Keyboard.constructor | src/input.rs:19-36 | A new keyboard has all three sets empty. |
| Input.Keyboard.Update | src/input.rs:45-48 | The just-pressed and just-released sets are cleared. The held set is kept. |
| Input.Keyboard.Pressed | src/input.rs:53-56 | The key joins the just-pressed and held sets. |
| Input.Keyboard.Released | src/input.rs:61-64 | The key leaves the held set and joins the just-released set. |
| Input.Keyboard.IsDown | src/input.rs:67-70 | Membership in the held set. |
| Input.Keyboard.JustDown | src/input.rs:72-76 | Membership in the just-pressed set. |
| Input.Keyboard.JustUp | src/input.rs:78-82 | Membership in the just-released set. |
| Input.Mouse.constructor | src/input.rs:103-120 | A new mouse has all three sets empty. |
| Input.Mouse.Update | src/input.rs:129-132 | The same as for the keyboard. |
| Input.Mouse.Pressed | src/input.rs:137-140 | The same as for the keyboard. |
| Input.Mouse.Released | src/input.rs:145-168 | Left, Right and Middle release only themselves. Any `Other` code releases every held `Other` button. |
| Input.Mouse.IsDown | src/input.rs:170-174 | Membership in the held set. |
| Input.Mouse.JustDown | src/input.rs:176-180 | Membership in the just-pressed set. |
| Input.Mouse.JustUp | src/input.rs:182-189 | Membership in the just-released set. |
| Input.PressQueries | src/input.rs:53-82 | After a press the key is down and just down, its just-up answer is unchanged, and every other key answers as before. |
| Input.ReleaseQueries | src/input.rs:61-82 | After a release the key is not down and is just up, its just-down answer is unchanged, and every other key answers as before. |
| Input.UpdateQueries | src/input.rs:45-132 | After an update nothing is just down or just up, held keys stay down, and a second update changes nothing. |
| Input.PressThenReleaseSameFrame | src/input.rs:53-64 | A press and a release in one frame read as both just down and just up, and not down. |
| Input.DistinctKeysCommute | src/input.rs:53-64 | Events on different keys may arrive in either order. |
| Input.MouseReleaseNamed | src/input.rs:146-189 | Releasing a named button changes only that button's answers. |
| Input.MouseReleaseOther | src/input.rs:151-189 | Releasing any `Other` code makes every held `Other` button not down and just up. Named buttons keep their answers. |
| Input.OtherButtonSequence | src/input.rs:205-225 | The unit test: press `Other(64)`, update, release `Other(0)`. |
| ShapeCycle.Scan | src/animation/shape_cycle.rs:54-62 | The search returns an index at or after its start and below the length. |
| ShapeCycle.IndexAt | src/animation/shape_cycle.rs:47-63 | The index is always valid. |
| ShapeCycle.IndexForTime | src/animation/shape_cycle.rs:47-63 | The loop with its running total returns exactly `IndexAt`: the last index past the duration, otherwise the first time point that has not ended. |
| ShapeCycle.ScanIsFirst | src/animation/shape_cycle.rs:54-62 | The search stops at the first time point that has not ended at `time`, or at the last. |
| ShapeCycle.PrefixWithinTotal | src/animation/shape_cycle.rs:38 | With non-negative durations, a shorter prefix never lasts longer. |
| ShapeCycle.NewAnimation | src/animation/shape_cycle.rs:37-45 | Defines `Animation::new`: the duration is the total of all time-point durations, and the other fields are as given. |
| ShapeCycle.IndexIsFirst | src/animation/shape_cycle.rs:47-63 | The index is valid. It is the last past the duration, and otherwise the first time point whose end lies beyond `time`. |
| ShapeCycle.IndexLocatesTime | src/animation/shape_cycle.rs:37-63 | For an animation built by `new`, the chosen time point has started by `time` and has not ended unless `time` is past the whole. The early return agrees with the search. |
| ShapeCycle.AnimateOne | src/animation/shape_cycle.rs:97-105 | The per-entity body computes exactly one frame of `Animate`. |
| ShapeCycle.UpdateAnimations | src/animation/shape_cycle.rs:93-106 | Every animated entity advances by one frame. No entity is added or removed. |
| ShapeCycle.NextTimeBounds | src/animation/shape_cycle.rs:98-101 | Without looping the clock just advances. With looping it stays within the animation for frames no longer than a duration. The duration is taken off once only, so a longer frame ends past the end. |
| ShapeCycle.AnimateShowsIndex | src/animation/shape_cycle.rs:103-104 | The stored index is valid, the instance shows that time point's shape, and nothing else of the instance changes. |
| ShapeCycle.SpeedIgnored | src/animation/shape_cycle.rs:93-106 | The update never reads `speed`. |
| ShapeCycle.DefaultIsEmpty | src/animation/shape_cycle.rs:24-45 | The default animation is empty, lasts 0, loops and has unit speed. It equals `new` on no time points. |
| Tween.RunTweens | src/animation/tween.rs:87-107 | The loop writes every tween's attribute in list order. `done` is the conjunction of their completions. |
| Tween.TweenOne | src/animation/tween.rs:86-115 | The per-entity body computes exactly one frame of `TweenFrame`. |
| Tween.TweenSystem | src/animation/tween.rs:80-117 | Every entity with all three tweening components takes one frame. Others are untouched. |
| Tween.LerpReal | src/animation/tween.rs:29-32 | Defines `FromTo::lerp` on `f32`: the scalar `tween_lerp` (`a·(1 − p) + b·p`) from `from` to `to` at `time / duration` clamped to [0, 1]. |
| Tween.LerpV2 | src/animation/tween.rs:29-32 | The same for `Vec2`, component by component. |
| Tween.LerpV4 | src/animation/tween.rs:29-32 | The same for `Vec4`, component by component. |
| Tween.IsComplete | src/animation/tween.rs:34-36 | Defines completion: the time has reached the duration. |
| Tween.TweenFrame | src/animation/tween.rs:80-117 | Defines one frame on one entity: the clock advances, every tween writes its attribute in list order, and when all are complete the three tweening components are removed. |
| Tween.LerpBetween | src/animation/tween.rs:130-134 | The scalar lerp starts at a and ends at b, and stays between them for p in [0, 1]. |
| Tween.LerpClamped | src/animation/tween.rs:29-36 | With a positive duration the tween gives `from` up to time 0 and `to` from its duration on. It is complete iff its progress is 1. |
| Tween.LerpVectorsClamped | src/animation/tween.rs:29-140 | The same clamping for the vector tweens. |
| Tween.AllCompleteMeansEach | src/animation/tween.rs:87-107 | `done` holds iff every tween's duration has passed. An empty list is done at once. |
| Tween.TweenWritesOwnAttribute | src/animation/tween.rs:88-106 | Each tween writes its own attribute with its lerp and no other attribute. |
| Tween.ApplyAllAppend | src/animation/tween.rs:88-107 | Applying a list in two parts is applying it whole. |
| Tween.UndrivenAttributeKept | src/animation/tween.rs:88-107 | An attribute no tween drives keeps its value. |
| Tween.LastWriterWins | src/animation/tween.rs:88-107 | Of several tweens of one kind, the last in the list decides the attribute. |
| Tween.TweenFrameOutcome | src/animation/tween.rs:80-117 | The clock advances by the frame time. The three components are removed iff all tweens are complete, after which later frames leave the entity alone. Otherwise they are kept. |
| ShapeRegistry.ShapeRegistry.constructor | src/shape_registry.rs:15-23 | A new registry has no shapes and no names. |
| ShapeRegistry.ShapeRegistry.RegisterShape | src/shape_registry.rs:25-43 | The registry becomes the registration of the old one, and the id returned is the new position cast to `u32`. |
| ShapeRegistry.ShapeRegistry.RegisterBuiltinShapes | src/shape_registry.rs:55-64 | The registry becomes the old one with Line, Triangle and Square registered in turn. |
| ShapeRegistry.ShapeRegistry.GetId | src/shape_registry.rs:46-48 | The id the name index holds for the name, or none. |
| ShapeRegistry.ShapeRegistry.GetShape | src/shape_registry.rs:51-53 | The shape at position `id`. An id past the end is excluded, as it panics in the source. |
| ShapeRegistry.RegisterEffect | src/shape_registry.rs:32-48 | One shape is appended and earlier shapes keep their positions. The id is the previous count below 2^32. The name now finds that id, even if registered before, and other names find what they did. |
| ShapeRegistry.RegisterKeepsConsistent | src/shape_registry.rs:25-53 | Every name keeps leading to a shape of that name, and the returned id fetches the new shape. |
| ShapeRegistry.BuiltinIds | src/shape_registry.rs:55-115 | On a fresh registry the built-ins get Line = 0, Triangle = 1 and Square = 2, with their predefined points and indices. |
| Text.FontRegistry.constructor | src/text.rs:10-21 | A new registry has no fonts and no names. |
| Text.FontRegistry.InitializeFont | src/text.rs:31-54 | The registry and result become those of `Initialize` on the old registry. |
| Text.FontRegistry.GetFontId | src/text.rs:66-68 | The id the name index holds for the name, or none. |
| Text.FontRegistry.GetFont | src/text.rs:56-58 | The brush at position `id`. An id past the end is excluded, as it panics in the source. |
| Text.InitializeEffect | src/text.rs:38-68 | A font that does not parse gives `InvalidInput` and changes nothing. A font that parses is appended and its id is the previous count. Its name now finds that id, other names are unaffected, and earlier fonts keep their positions. |
| Text.InitializeKeepsConsistent | src/text.rs:46-68 | Every name keeps leading to a loaded font, so `get_font_mut` on an id from `get_font_id` is in range. |
| Text.ReloadRepoints | src/text.rs:46-53 | Loading a name twice points it at the second font. The first font stays loaded. |
| ObjectRegistry.GameObject.constructor | src/object_registry.rs:53-56 | A new object has the given id and no components. |
| ObjectRegistry.GameObject.AddComponent | src/object_registry.rs:25-30 | The component goes last, and the id is unchanged. |
| ObjectRegistry.GameObject.AllRenderables | src/object_registry.rs:32-37 | The renderables of the components, concatenated in component order. |
| ObjectRegistry.SortByShapeCorrect | src/object_registry.rs:74 | The sort yields a permutation that is non-decreasing by shape and stable: instances of one shape keep their order. |
| ObjectRegistry.InsertPermutes | src/object_registry.rs:74 | Insertion adds exactly the one element. |
| ObjectRegistry.InsertSorted | src/object_registry.rs:74 | Insertion keeps the order by shape. |
| ObjectRegistry.InsertKeepsShapeOrder | src/object_registry.rs:74 | Insertion places the element after all others of its shape. |
| ObjectRegistry.WithShapeAppend | src/object_registry.rs:74 | Picking one shape's instances distributes over concatenation. |
| ObjectRegistry.ObjectRegistry.constructor | src/object_registry.rs:45-49 | A new registry has no objects. |
| ObjectRegistry.ObjectRegistry.SpawnObject | src/object_registry.rs:51-60 | A fresh object is appended and handed back. Its id is the previous count cast to `u32` and it has no components. Every id still equals its position modulo 2^32. |
| ObjectRegistry.ObjectRegistry.CollectRenderables | src/object_registry.rs:68-77 | The result is every renderable of every object, in object then component order, sorted by shape. |
| ObjectRegistry.IdsUnique | src/object_registry.rs:53-55 | Below 2^32 objects, distinct positions carry distinct ids. |
| ObjectRegistry.FlattenAppend | src/object_registry.rs:25-37 | After `add_component` the object's renderables are the old ones followed by the component's. |
| ObjectRegistry.GatheredAppend | src/object_registry.rs:69-73 | Gathering renderables distributes over concatenation of object lists. |
| ObjectRegistry.CollectedSortedStable | src/object_registry.rs:68-77 | The collection is sorted by shape, keeps every renderable exactly once, and keeps object and component order within a shape. |
| Systems.HasRunMarker.constructor | src/systems.rs:8-10 | The marker holds the given flag and payload. |
| Systems.HasRunMarker.RunOnlyOnce | src/systems.rs:12-21 | The flag and answer are the latch's, and the payload is never modified. |
| Systems.Latch | src/systems.rs:12-21 | Defines the latch: a clear flag becomes set and answers Yes. A set flag stays set and answers No. |
| Systems.LatchEffect | src/systems.rs:16-20 | The answer is Yes iff the flag was clear. Afterwards the flag is set, and a set flag is left as it was. |
| Systems.SetFlagAnswersNo | src/systems.rs:20 | From a set flag, every call answers No. |
| Systems.RunsExactlyOnce | src/systems.rs:12-21 | From a clear flag, any number of calls answers Yes once, on the first call. |

## Left out

- Floats are `real`. `f32` rounding, NaN and infinities are not modelled. The overflow of the `as i32` cast and of `i32` arithmetic in `round_to_nearest` is not modelled.
- The RNG, the value curves and gradients (`at_lifetime_pct`, `get_value`, `get_color`), `cos`/`sin` and `Vec2::distance` are external code. The spawn rate is a function parameter, the lifetime samples are a parameter, and the distance each particle moved is a parameter of `ParticleTransform`.
- The spawn position, scale, colour, velocity and direction of new particles are float numerics over those samplers. So are `particle_color` and the position, velocity and scale integration of `particle_transform`. Only the distance accumulation is modelled.
- bevy's scheduling and parallel chunking (`par_for_each_mut`) are modelled as sequential loops in query order. Deferred `Commands` are applied immediately, and `Changed`/`Added` detection is an explicit set of changed entities.
- Collision.RoundToNearest: a grid size of 0 makes `res % incr` panic, so `update_hash_marker` and `insert_hash_marker` panic on the first `Collidable` entity. The model requires a non-zero grid here and in Collision.UpdatedMarker, Collision.InsertedMarker, Collision.UpdateHashMarkers and Collision.InsertHashMarkers. Negative grid sizes are modelled.
- Collision.InsertHashMarkers: the inserts are applied as the method runs, whereas the source defers them until after `collisions<T>` in the same frame. The model's store after `InsertHashMarkers` is therefore the store of the next frame. Running `Collision.Collisions` on it would let a newly `Collidable` entity collide one frame early. `Collision.UnmarkedNotCollided` states what happens on the store the source's `collisions<T>` actually sees.
- ParticleSystems.Config: a system duration of 0 would make the life percentage divide by zero, so the model requires a positive duration.
- Tween.Progress: a tween duration of 0 makes `time / duration` undefined in the model (in `f32` it is infinite or NaN), so tweens require a non-zero duration.
- Tween.LerpVec2: glam's vector `lerp` is modelled component by component with the scalar formula, which agrees with glam over reals.
- ShapeCycle.IndexForTime: an animation with no time points makes `len() - 1` underflow and panic, so a non-empty list is required. Updating an entity that carries the default animation is therefore outside the model.
- ShapeCycle.UpdateAnimations: the `Animating` marker filter is the choice of which entities are in the store given to the method.
- The GPU side is an opaque payload: shape vertex and index buffers, and font parsing and brush building. Whether the font bytes parse is a parameter of `Text.FontRegistry.InitializeFont`.
- Text.FontRegistry.InitializeFont: the source asserts that the new id fits in `u32` and panics otherwise. The model requires fewer than 2^32 fonts instead.
- Text.FontRegistry.GetFont: `get_font_mut` hands out a mutable reference. The model only reads the brush at that position. `fonts_mut` is not modelled, because it exposes all brushes for GPU-side mutation.
- ObjectRegistry: `Component::update`, `GameObject::update` and `ObjectRegistry::update` call into user components, which are external code. A component is modelled by its list of renderables.
- ObjectRegistry.SortByShape: the standard library's stable `sort_by` is modelled by a reference stable insertion sort. `collect_renderables` returns references; the model returns the instances.
- The query accessors `currently_pressed()` of `Keyboard` and `Mouse` are the set fields themselves.

## Where the expected behaviour and the code differ

- One might expect `ParticleCount` to stay within `[0, max_particles]`. The code caps only the throttled spawn count, and adds bursts without a cap (src/particle_system/systems.rs:99-107 and 146-148). The model follows the code. `ParticleSystems.BurstsExceedCapacity` exhibits a count past the cap. `ParticleSystems.CountBoundedWithoutBursts` shows the cap holds when there are no bursts.
- One might also expect a burst to fire even when the emitter is already full. In the code the capacity check at src/particle_system/systems.rs:85-87 comes first and skips the burst as well. `ParticleSystems.CapacityGate` states this: a full emitter spawns nothing and takes no burst. Its burst index is kept, except that a looping wrap in the same frame resets it to 0.
