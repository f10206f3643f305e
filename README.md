# ld48 core, modelled in Dafny

This project models the core of `ld48`, a small Rust game for the browser and the
desktop. The model covers:

- the texture-atlas packer, which is meant to place rectangles first-fit with a
  one-pixel gap and, as written, only ever fills the first row (`FirstFit` gives its
  outcome in closed form);
- the audio mixer, which adds every playing instance into an output buffer once per
  poll and drops the one-shot instances that reach their end;
- sprites cut from atlas rectangles, and the two-triangle quads that draw them;
- the game's keyboard controls and its eight-direction movement, and the near-copy
  of that logic in the entry point's frame closure;
- the bookkeeping of the OpenGL wrapper: uniform slots, the calls a draw makes, and
  `maintain`'s sweep of objects nobody else refers to;
- the two platform layers' translation of key codes, mouse buttons and window events
  into the game's own input events.

Each Rust struct whose fields change in place is a Dafny `class`: `TextureAtlas`,
`Mixer`, `Program`, `Context`, `Game`, the frame closure's captured state, and the
caller's vertex `Vec`. Each one's methods are proved against specification
functions. The order of the GL calls a method would make is returned as a log of
`GlCall` values. A Rust debug-build panic is an explicit outcome, for example
`SizeUnderflow`, `IndexPanic` or `panicked`.

Modules follow the source files:

| module | file |
|---|---|
| `Ints`, `Options`, `Geometry`, `Vecs` | fixed-width integers, `Option`, points and vectors, `Vec::swap_remove` |
| `Input` | `src/input.rs` |
| `TextureAtlas` | `src/texture_atlas.rs` |
| `Mixer` | `src/mixer.rs` |
| `Graphics` | `src/graphics.rs` |
| `Game` | `src/game.rs` |
| `Entry` | `src/main.rs` |
| `Gl` | `src/gl.rs` |
| `Web`, `Native` | `src/platform/web/mod.rs`, `src/platform/native/mod.rs` |

## Model

| member | source | states |
|---|---|---|
| `Ints.WrapAddI16` | src/mixer.rs:58-61 | the `i16` sum of two samples is their mathematical sum reduced modulo 2^16 into the `i16` range |
| `Ints.LowByte` | src/platform/web/mod.rs:287 | `n as u8` keeps the value modulo 256 |
| `Vecs.SwapRemove` | src/mixer.rs:70 | one element shorter; elements before `i` are unchanged; the last element moves into slot `i`; the multiset loses exactly `s[i]` |
| `Vecs.SwapRemoveAll` | src/mixer.rs:69-71 | swap-removing ascending positions from the highest down leaves a list with as many fewer elements as positions removed |
| `Vecs.SwapRemoveAllRemovesPicked` | src/mixer.rs:69-71 | what is left, together with the elements at the removed positions, is the original multiset |
| `TextureAtlas.Pad` | src/texture_atlas.rs:18 | `pad` succeeds iff no edge leaves the `u32` range, and `unpad` undoes it |
| `TextureAtlas.Unpad` | src/texture_atlas.rs:19 | `unpad` succeeds iff no edge leaves the `u32` range; width and height shrink by two |
| `TextureAtlas.Atlas.constructor` | src/texture_atlas.rs:11-16 | a new atlas has the given size, holds no rectangles, and satisfies the packing invariant |
| `TextureAtlas.Atlas.AddTexture` | src/texture_atlas.rs:17-61 | on every atlas whose rectangles are `Packed` (each inside the atlas with its top on row 1, and those with width pairwise a pixel apart) the outcome is exactly `FirstFit` of the old rectangles, and `Packed` is kept. A placement appends its rectangle; any other outcome leaves the atlas unchanged |
| `TextureAtlas.FirstFitPlacedIff` | src/texture_atlas.rs:24-46 | a texture is placed iff it fits inside the one-pixel border and one past the rightmost stored edge it still fits the row |
| `TextureAtlas.FirstFitPlaced` | src/texture_atlas.rs:43-58 | a placed rectangle has the requested size, lies in row 1 inside the atlas, passes the as-written filter against every stored rectangle, lies right of and a pixel apart from every stored rectangle with width, and keeps the atlas `Packed` |
| `TextureAtlas.FirstFitSizeUnderflow` | src/texture_atlas.rs:24-26 | the size panic happens iff `self.size.1 - size.1` underflows, or `self.size.0 - size.0` does once the outer loop is entered |
| `TextureAtlas.FirstFitTooLarge` | src/texture_atlas.rs:24-26 | a texture that leaves no room inside the border gives the overflow error |
| `TextureAtlas.FirstFitPadUnderflow` | src/texture_atlas.rs:27-49 | `pad` panics only when a stored texture with width leaves no room in row 1, on the restarted row just below the highest bottom edge with width, and only while that row still fits the texture |
| `TextureAtlas.FirstFitEmpty` | src/texture_atlas.rs:17-61 | an empty atlas places a texture that fits at (1, 1) |
| `TextureAtlas.FirstFitSecondTexture` | src/texture_atlas.rs:17-61 | in a 100 by 100 atlas holding (1, 1)-(3, 3), a 2 by 2 texture goes at (4, 1)-(6, 3) |
| `TextureAtlas.PackedNoOverlap` | src/texture_atlas.rs:27-30 | in a packed atlas no two stored rectangles with width overlap |
| `TextureAtlas.RightmostEdge` | src/texture_atlas.rs:38-40 | is at least every stored right edge with width and equal to one of them; 0 when no rectangle has width |
| `TextureAtlas.LowestBottom` | src/texture_atlas.rs:35-37 | is at most the height and at most one below every stored bottom edge with width, and is either the height or one below one of them |
| `TextureAtlas.ScanOverlaps` | src/texture_atlas.rs:28-42 | the cursor and `next_y` after one pass over the stored list are the folds `PassX` and `PassY`, and `any_intersect` is set iff the filter lets some stored rectangle through |
| `TextureAtlas.RowOneHit` | src/texture_atlas.rs:27-30 | in row 1 the as-written filter lets a stored rectangle through iff it has width and its right edge is at or right of the cursor |
| `TextureAtlas.FirstPass` | src/texture_atlas.rs:34-42 | the first pass of row 1 moves the cursor one past the rightmost edge and `next_y` to one below the highest bottom edge |
| `TextureAtlas.RowOnePass` | src/texture_atlas.rs:26-46 | at cursor 1 some rectangle is hit iff one has width; one past the rightmost edge nothing is hit |
| `TextureAtlas.RowOneStep` | src/texture_atlas.rs:26-46 | one pass of the inner loop from either cursor row 1 ever has: a hit happens iff the cursor is 1 and some rectangle has width, and then the cursor and `next_y` move to the rightmost edge and highest bottom edge |
| `TextureAtlas.PlaceInRowOne` | src/texture_atlas.rs:43-55 | placing one past the rightmost edge is the `FirstFit` outcome and keeps the atlas `Packed` |
| `TextureAtlas.RestartUnderflows` | src/texture_atlas.rs:27-49 | the restart at `x = 0` on a row that still fits makes `pad` underflow, which is the `FirstFit` outcome |
| `TextureAtlas.LoopEndOverflows` | src/texture_atlas.rs:24-59 | when the outer loop ends without a placement, the `FirstFit` outcome is the overflow error |
| `Mixer.Written` | src/mixer.rs:50-56 | a looping instance writes every slot; a one-shot writes up to the end of its buffer and never reads past it |
| `Mixer.Advanced` | src/mixer.rs:63-67 | an unfinished instance's cursor moves on by the output length and stays in range; nothing else about it changes |
| `Mixer.MixAll` | src/mixer.rs:49-62 | mixing every instance leaves the output length unchanged |
| `Mixer.AdvanceAll` | src/mixer.rs:49-68 | one advanced instance per playing instance |
| `Mixer.FinishedIndices` | src/mixer.rs:48-64 | the `finished` list is ascending and in range, and holds exactly the positions of the finished instances |
| `Mixer.AdvanceAllSplits` | src/mixer.rs:49-68 | the advanced list is, as a multiset, the kept instances plus the finished ones |
| `Mixer.FinishedPicksRemoved` | src/mixer.rs:63-71 | the `finished` positions pick exactly the finished instances out of the advanced list, in order |
| `Mixer.SurvivorsAreKept` | src/mixer.rs:45-72 | after `poll`, `playing` holds exactly the advanced unfinished instances, as a multiset, and it is shorter by the number that finished |
| `Mixer.KeptMembers` | src/mixer.rs:63-71 | an instance stays after a poll iff it is the advanced form of an unfinished instance |
| `Mixer.RemovedMembers` | src/mixer.rs:63-71 | an instance is dropped iff it finished |
| `Mixer.LoopingSurvives` | src/mixer.rs:51-67 | a looping instance is never dropped; it stays with its cursor moved on by the output length |
| `Mixer.OneShotDroppedIff` | src/mixer.rs:54-64 | a one-shot instance is dropped iff the output is at least as long as what is left of its buffer |
| `Mixer.OneShotSurvives` | src/mixer.rs:54-67 | a one-shot instance that does not reach its end stays, advanced |
| `Mixer.MixAllKeepsTail` | src/mixer.rs:56-62 | a slot beyond every instance's written prefix is left as it was |
| `Mixer.OneShotReadsFromCursor` | src/mixer.rs:50-62 | a one-shot instance adds its samples from its cursor on, with no wrap-around, into the first `min(len, remaining)` slots, and leaves the rest alone |
| `Mixer.MixInstance` | src/mixer.rs:50-62 | the per-instance inner loop panics iff a looping instance has an empty buffer and the output is not empty; otherwise it adds the instance into `out` as `MixOne` specifies |
| `Mixer.Mixer.constructor` | src/mixer.rs:10-16 | a new mixer plays nothing |
| `Mixer.Mixer.Play` | src/mixer.rs:33-43 | appends a new instance of the sound at cursor 0 with the given volume and loop flag |
| `Mixer.Mixer.Poll` | src/mixer.rs:45-72 | panics iff some looping instance has an empty buffer and the output is not empty. Otherwise the output is every instance mixed in, in list order, and `playing` becomes the advanced list with the finished positions swap-removed from the highest down |
| `Mixer.Mixer.RemoveFinished` | src/mixer.rs:69-71 | given ascending in-range positions, `playing` becomes the list with those positions swap-removed from the highest down, which (by `SwapRemoveAllRemovesPicked`) takes out exactly the instances at those positions |
| `Graphics.NewSprite` | src/graphics.rs:30-49 | the width underflow and the division by zero occur exactly on their inputs; otherwise there are `frame_count` frames and the origin is kept |
| `Graphics.FramesTile` | src/graphics.rs:31-42 | every frame has the same width and the image's full height, and the frames abut from the image's left edge |
| `Graphics.FramesInsideImage` | src/graphics.rs:31-42 | every frame lies inside the image, and fewer than `frame_count` columns are left over |
| `Graphics.FramesDisjoint` | src/graphics.rs:31-42 | an earlier frame ends at or before a later one starts |
| `Graphics.QuadVertices` | src/graphics.rs:175-206 | six vertices, all with the given color |
| `Graphics.QuadTriangles` | src/graphics.rs:175-206 | the two triangles share a diagonal, and together they reach exactly the box's four corners |
| `Graphics.QuadUvFollowsPosition` | src/graphics.rs:165-206 | each vertex lies on a corner of the box, and its texture coordinate is the matching texture edge, flipped vertically |
| `Graphics.VertexList.constructor` | src/game.rs:192 | the vertex list starts empty |
| `Graphics.RenderQuad` | src/graphics.rs:159-207 | panics, appending nothing, iff the texture rectangle's `u32` width or height underflows; otherwise appends the quad's six vertices |
| `Game.ApplyEventEffect` | src/game.rs:142-170 | a key-down of a flag's key sets that flag and a key-up clears it; other flags are unchanged |
| `Game.OtherEventsIgnored` | src/game.rs:168 | an event for any other key, or any mouse event, leaves the controls as they were |
| `Game.LastEventWins` | src/game.rs:142-170 | after a batch of events, a flag equals what the last event for its key said |
| `Game.UndrivenFlagKept` | src/game.rs:142-170 | a flag no event of the batch touches keeps its value |
| `Game.Direction` | src/game.rs:172-184 | each component is -1, 0 or 1: zero iff both or neither of its opposing keys are held, and positive iff only the up (right) key is |
| `Game.Moved` | src/game.rs:186-188 | a player with no direction stays put |
| `Game.MoveHasStepLength` | src/game.rs:186-188 | a player with a direction moves exactly `step` (`SPEED * dt`), straight or diagonally |
| `Game.FoldControls` | src/game.rs:141-184 | the event loop and the direction tests compute `ApplyEvents` and `Direction` |
| `Game.Game.constructor` | src/game.rs:125-137 | no key held, and the player at (100, 100) |
| `Game.Game.Update` | src/game.rs:141-189 | the controls fold in the events, and the player moves one tick at `SPEED` in the resulting direction |
| `Entry.FrameClosure.constructor` | src/main.rs:115-124 | no key held, and the position at (50, 100) |
| `Entry.FrameClosure.Call` | src/main.rs:125-171 | the same fold of the events, with a move of `100 * dt` |
| `Gl.UniformTypeOf` | src/gl.rs:522-539 | each uniform variant has its own type, in both directions |
| `Gl.Stored` | src/gl.rs:352-365 | converting a uniform to its stored value keeps its type |
| `Gl.Loaded` | src/gl.rs:476-489 | the stored form loses nothing: storing a loaded value gives it back |
| `Gl.StoredRoundTrip` | src/gl.rs:352-365 | loading a stored uniform gives the same uniform back |
| `Gl.TextureCount` | src/gl.rs:382-394 | the next free texture unit never exceeds the number of slots |
| `Gl.Units` | src/gl.rs:382-394 | the texture units `TEXTURE0 + lo` up to `TEXTURE0 + hi - 1`, one each, ascending |
| `Gl.SlotUnits` | src/gl.rs:382-394 | one slot activates a texture unit iff it holds a texture, and that unit is its own |
| `Gl.TextureUnitsInOrder` | src/gl.rs:382-394 | the texture uniforms take texture units 0, 1, 2, … in slot order |
| `Gl.Program.constructor` | src/gl.rs:83-129 | a new program has one unset slot per uniform entry, in order, at its location |
| `Gl.Program.SetUniform` | src/gl.rs:341-368 | an index past the end is an error and the last-plus-one index panics; a value of the wrong type is an error; otherwise only that slot changes, to the stored value |
| `Gl.Program.RenderVertices` | src/gl.rs:370-473 | if some uniform is unset, returns that error after the calls made so far and draws nothing; otherwise binds, uploads every uniform and enables every attribute, then draws `len` vertices, with nothing else issued |
| `Gl.UploadUniforms` | src/gl.rs:382-451 | stops at the first unset slot and reports it, with the calls of the slots before it; otherwise issues every slot's calls |
| `Gl.EnableAttributes` | src/gl.rs:453-467 | enables and points every vertex attribute in order |
| `Gl.NoDrawOnError` | src/gl.rs:383-470 | an unset uniform means no draw call is issued |
| `Gl.NoDrawInUniforms` | src/gl.rs:383-451 | uploading uniforms never draws |
| `Gl.KeepAndDropMembers` | src/gl.rs:219-224 | an object is kept iff something besides the registry still refers to it, and deleted iff only the registry does |
| `Gl.KeepAndDropPartition` | src/gl.rs:219-224 | kept and deleted together are the registry, as a multiset |
| `Gl.Sweep` | src/gl.rs:219-224 | one backwards `swap_remove` loop keeps exactly the shared objects, as a multiset, and deletes the rest from the highest position down |
| `Gl.Context.constructor` | src/gl.rs:41-50 | a new context has no objects |
| `Gl.Context.Maintain` | src/gl.rs:218-249 | every registry keeps exactly its shared objects, as a multiset; the calls are `MaintainDeletes`: the dropped programs, shaders, vertex arrays, buffers and textures, in that order, each batch highest position first |
| `Gl.MaintainDeletesExactlyUnshared` | src/gl.rs:218-249 | `maintain` deletes an object as a given kind iff it is in that kind's registry and the registry holds its last reference, once for each time it is registered there |
| `Gl.DeletesMember` | src/gl.rs:218-249 | a delete call in a registry's batch names one of the dropped objects, with that registry's kind |
| `Gl.DroppedCount` | src/gl.rs:218-249 | each entry only the registry holds is dropped as often as it occurs, and no other entry is dropped |
| `Web.EveryKeyHasCode` | src/platform/web/mod.rs:238-280 | every game key has a DOM code that maps to it |
| `Web.OnlyItsCodeMapsToKey` | src/platform/web/mod.rs:238-280 | only that code maps to the key, so the table is one-to-one |
| `Web.LetterCodes` | src/platform/web/mod.rs:240-265 | the code `KeyA` … `KeyZ` maps to the matching letter key |
| `Web.MouseButtonOf` | src/platform/web/mod.rs:282-289 | buttons 0, 1 and 2 are left, middle and right, in both directions; any other number is `Other` with its low byte |
| `Web.Translate` | src/platform/web/mod.rs:71-106 | a key event pushes the same kind of key event iff its code is in the table. A mouse-down or mouse-up pushes the same kind of event for the translated button, a mouse move pushes its offset as the point, and a wheel event pushes its deltas with the vertical one negated |
| `Web.KeyEventRoundTrip` | src/platform/web/mod.rs:72-81 | a key-down or key-up carrying a key's code reaches the game as that event for that key |
| `Native.EveryKeyHasCode` | src/platform/native/mod.rs:132-174 | every game key has a virtual key code that maps to it |
| `Native.OnlyItsCodeMapsToKey` | src/platform/native/mod.rs:132-174 | only that code maps to the key |
| `Native.LetterCodes` | src/platform/native/mod.rs:134-159 | the letter virtual key codes map to the matching letter keys |
| `Native.MouseButtonOf` | src/platform/native/mod.rs:176-183 | same variant, and `Other` keeps its number |
| `Native.Translate` | src/platform/native/mod.rs:72-117 | a keyboard input pushes a key down on press and a key up on release iff it has a virtual key code in the table. A mouse button always pushes down or up for the translated button. A wheel event pushes its line or pixel deltas as they are, not negated, and a cursor move pushes its position. Events that are not handled push nothing |

## Left out

- Floating point: `f32` and `f64` arithmetic is modelled as real arithmetic. The mixer's per-sample scaling and `floor` (`src/mixer.rs:58-61`) is the `scale` parameter.
- `Ints.WrapAddI16`: `out[i] += …` panics on `i16` overflow in a debug build; the model wraps, as a release build does.
- `Mixer::load_ogg`: Ogg/Vorbis decoding is a foreign library. An `Audio` is given as its sample sequence.
- The `Arc<Mutex<…>>` around `playing`, and the audio threads in `src/platform/*/audio.rs`: the model is single-threaded.
- `Mixer.Mixer.Poll`: the state after a panic is not described, because a panic ends the audio callback.
- The platform run loops, `HtmlEventStream`, window creation and the frame timing that computes `dt`: `dt` and the input batch are parameters.
- The GL side effects themselves, shader compilation and linking, and the `create_*` functions except for the registries they fill: GL calls are a returned log.
- `Rc::strong_count` is the `strong` parameter of `Maintain`.
- `Gl.Sweep` and `Gl.Context.Maintain`: the registries after `maintain` are stated as multisets, not in their `swap_remove` order. The order of the delete calls is stated exactly.
- `Texture::write`, `VertexBuffer::write`, `TextureFormat` and `Context::clear`: byte uploads with no logic of their own.
- `render_sprite`, `Sprite::set_transform` and the `Transform2D` arithmetic; `Game::draw`; the GL setup in `Game::new` and `main`; `load_image` and `load_raw_image` (PNG decoding).
- `usize` overflow of the mixer's cursors and of the GL counts: these are unbounded `nat`s.
- `Native`: the virtual key codes are those the table maps plus a sample of the others, not the windowing library's full list. Glutin's `Other` button number is modelled as a `u8`.
- `Game.Moved` and `Game.MoveHasStepLength`: `normalize` of a diagonal divides by `sqrt(2)`. The model takes `1/sqrt(2)` as the `invSqrt2` parameter, and the step-length statement assumes it squares to one half.
- `TextureAtlas.Atlas.AddTexture`: the loop is modelled as written, with two hazards. First, the row restart on `src/texture_atlas.rs:48` sets `x = 0`, so the first `pad` of every later row computes `0 - 1` and panics; this is the `PadUnderflow` outcome, and it alone confines placement to row 1. Second, the overlap filter on `src/texture_atlas.rs:29` compares a stored rectangle's right edge with its own left edge, so in row 1 every stored rectangle with width whose right edge is at or right of the cursor counts as a hit. The contract states this behaviour, not the first-fit packing the comments describe.
- `TextureAtlas.Atlas.AddTexture`: the contract holds for atlases whose rectangles are `Packed`, which every atlas built by `new` and `add_texture` is. In such an atlas the inner loop never hits without moving the cursor, so the loop that would spin forever on a stuck cursor cannot happen and is not an outcome.
- `Gl.Program.SetUniform`: the bounds test `index > len` (`src/gl.rs:342`) lets `index == len` through to the indexing, which panics; this is the `IndexPanic` outcome.
