# Ocean simulation: settings panel, water grid and shader build, in Dafny

This project models the state logic of the OpenGL ocean renderer *ocean-simulation*. It has two
parts.

**The scene part** comes from `Program` in `src/program.cpp`:

- `initScene` builds the water grid. It fills a row-major `GRID_LENGTH × GRID_LENGTH` index table
  (`GRID_LENGTH` is 513). It then appends two counter-clockwise triangles per cell to the mesh's
  `drawFaces`. The mesh is dropped when its texture fails to load.
- The settings panel (`buildUI`) regenerates the Gerstner wave slots on "Generate". The wave
  count is clamped to [1, 4] first.
- After every edit gesture the panel force-clamps the edited wave field.
- The panel also owns the time-of-day slider, its toggle and its per-frame tick. Time of day wraps
  into [7, 17) hours.
- It also owns the wave-animation sliders, the toggle and the per-frame tick. The wave time grows
  and is reset to 0 if it turns negative. The vertical-bounce phase advances by `dt / period`,
  wrapped into [0, 1).

**The shader part** comes from `ShaderTools` in `src/shader-tools.cpp`:

- `getFileLength` and `loadshader` read a file into a fresh `len + 1` character buffer. The buffer
  is 0-terminated right after the characters read.
- `unloadshader` releases a buffer and nulls the caller's pointer.
- `compileShaders` builds a program from two to four stages.
- `checkShaderCompilation` and `checkProgramLink` report failures without aborting.

Modules and files:

- `wrappers.dfy` (`Wrappers`): `Option`.
- `validation.dfy` (`Validation`): the force-clamp rules, `glm::clamp` and "negative becomes 0".
- `animation_clock.dfy` (`AnimationClock`): `glm::mod` over reals and the three per-frame ticks,
  as functions.
- `gerstner_waves.dfy` (`GerstnerWaves`): the wave record, the slot table after "Generate", and
  one field edit with its clamp, as functions.
- `water_grid.dfy` (`WaterGrid`): the grid topology as a function, with its properties. It also
  holds the two nested-loop methods of `initScene`, which work on a 2-D index array and on the
  mesh object's `drawFaces`.
- `scene.dfy` (`Scene`): the classes `RenderEngine` and `Program`. Their methods are the panel
  handlers and `initScene`. Each method updates the fields in place and is proved against the
  functions above.
- `shader_tools.dfy` (`ShaderTools`): the input stream, the buffer heap, the loader and unloader,
  the GL driver, and `compileShaders` with its phases.

Model choices:

- **Floats** are Dafny `real`s.
- **Random sampling** is a parameter. `randomFloat(slot, lo, hi)` and `randomDirection(slot)`
  stand for the draws made for slot `slot`. Proofs about ranges assume only that the sampler stays
  within its bounds and returns unit directions.
- **`glm::normalize`** is a parameter too. It is assumed to map non-zero vectors to unit vectors.
- **The frame delta** `1 / Framerate` is the parameter `dt`.
- **The GL driver** is a `GLContext` object. It records the sequence of GL calls made and the
  diagnostics printed.
- **Names** are handed out consecutively from `nextName`. They are never 0 and never reused.
- **Outcomes**: whether a shader compiles and whether a program links are the driver's oracles
  `compileStatus` and `linkStatus`.
- **What compileShaders does** is the function `CompileCalls`: the sequence of GL calls that create,
  source, compile, attach, link or delete an object, given the first name the driver hands out and
  which sources loaded. The status and info-log queries of `checkShaderCompilation` and
  `checkProgramLink` are not in this sequence; their answers are the oracles below. The `CompileCalls*` lemmas read it back
  through `Collect`, which lists what a chosen kind of call mentions, in call order. They prove:
  - creation order and names;
  - compilation of every stage;
  - deletion of every stage;
  - attach order;
  - the single create and link of the program;
  - which stages can receive a null source.
- **Source buffers** are tracked in `SourceHeap.live`, the set of buffers allocated and not yet
  released. `CompileShaders` leaves it as it found it.

Two ranges the model takes from the code:

- 3600 is only the wave-animation slider's range (`src/program.cpp:318`). Neither the slider nor
  the tick enforces it, so the wave time has no upper bound.
- The bounce-phase tick keeps the phase in [0, 1), but the phase slider clamps to the closed
  interval [0, 1] (`src/program.cpp:312`). So 1.0 is reachable and `ClockInRange` uses [0, 1].

## Model

| member | source | states |
|---|---|---|
| Validation.ClampInt | src/program.cpp:196 | glm::clamp on integers: the result lies in [lo, hi], equals the input exactly when the input is in range, and is the violated bound otherwise |
| Validation.Clamp | src/program.cpp:170 | glm::clamp: the result lies in [lo, hi], equals the input exactly when the input is in range, and is the violated bound otherwise |
| Validation.ForceNonNegative | src/program.cpp:247-248 | the one-sided force-clamp: never negative, a non-negative value is kept, a negative one becomes 0 |
| AnimationClock.Mod | src/program.cpp:184 | glm::mod over reals lies in [0, y) and leaves a value of [0, y) unchanged |
| AnimationClock.ModSameModulo | src/program.cpp:184 | glm::mod removes only whole periods: x and mod(x, y) differ by a whole multiple of y |
| AnimationClock.AdvanceTimeOfDay | src/program.cpp:179-185 | the time-of-day tick: while animating with positive speed the time lands in [7, 17) and is the plain sum when that sum is already in range; otherwise time is unchanged |
| AnimationClock.TimeOfDayWrapUnique | src/program.cpp:184 | the wrapped time of day is the only time of [7, 17) that differs from the unwrapped time by whole 10-hour spans |
| AnimationClock.AdvanceWaveTime | src/program.cpp:342-349 | the wave-time tick: while animating the result is the plain sum when that is non-negative and exactly 0 when it is negative, so never negative; otherwise unchanged |
| AnimationClock.AdvanceBouncePhase | src/program.cpp:351-356 | the bounce-phase tick: with a positive period while animating the phase lands in [0, 1) and is the plain sum when already in range; otherwise unchanged |
| AnimationClock.BouncePhaseWrapUnique | src/program.cpp:355 | the wrapped phase is the only phase of [0, 1) that differs from the unwrapped phase by whole cycles |
| AnimationClock.WrapExamples | src/program.cpp:184 | worked wrap-arounds: 16.9 h advanced by 0.2 h gives 7.1 h; phase 0.95 advanced by 0.1 gives 0.05 |
| AnimationClock.TickKeepsClockInRange | src/program.cpp:179-356 | from a clock in range (time of day in [7, 17], wave time non-negative, phase in [0, 1]), the time-of-day tick and the wave-time and bounce-phase ticks of a frame leave it in range, whatever dt, speed or period |
| AnimationClock.SlidersKeepClockInRange | src/program.cpp:167-323 | the slider force-clamps (time of day to [7, 17], bounce phase to [0, 1], a negative wave time to 0) put every clock field in range, whatever value was written |
| GerstnerWaves.SampledWave | src/program.cpp:205-213 | a regenerated wave has amplitude in [0.05, 0.15], frequency in [0.5, 2.0], phase constant in [0.3, 1.0], steepness in [0, 1] when the sampler keeps to its bounds, and is well formed when directions are unit |
| GerstnerWaves.Regenerated | src/program.cpp:199-217 | after Generate there are MaxCount slots; slot i is filled exactly when i < count, a filled slot holds the wave sampled for it, and all slots are well formed under a bounded sampler |
| GerstnerWaves.RegenerateExtremes | src/program.cpp:199-217 | a count of 0 empties every slot; a count of MaxCount fills every slot with a well-formed wave |
| GerstnerWaves.ClampDirection | src/program.cpp:270 | each component is clamped to [-1, 1] on its own: kept when inside, -1 when below, 1 when above; so the direction lies in the box [-1, 1]², equals the input exactly when it was inside, and is zero exactly when the input was zero |
| GerstnerWaves.ApplyEdit | src/program.cpp:244-277 | each edit changes only its own field: amplitude, frequency and phase constant keep non-negative values and become exactly 0 when negative; steepness keeps values of [0, 1], becomes 0 below and 1 above; a direction clamps to the box, then becomes (0, 1) if zero or is normalized otherwise; well-formedness is preserved |
| GerstnerWaves.EditSlots | src/program.cpp:236-277 | an edit of slot i skips an empty slot, changes no other slot, and preserves well-formedness of the table |
| WaterGrid.DecodeIndex | src/program.cpp:482-490 | index row*L + col decodes back to its row and column: the table numbers vertices row-major |
| WaterGrid.BuildGridIndices | src/program.cpp:479-490 | the nested loops fill an L×L table whose entry [row][col] equals row*L + col |
| WaterGrid.CellFaces | src/program.cpp:498-507 | one cell emits six indices, two triangles sharing the diagonal from (r, c) to (r+1, c+1) |
| WaterGrid.CellCorners | src/program.cpp:498-507 | the two triangles use the cell's four corners: the diagonal's ends twice each, the other two corners once |
| WaterGrid.Topology | src/program.cpp:494-509 | the topology of an L×L grid has 6 indices for each of its (L-1)² cells |
| WaterGrid.TopologyLength | src/program.cpp:494-509 | the topology has exactly 6*(L-1)² indices, none for a 1×1 grid |
| WaterGrid.TopologyAt | src/program.cpp:498-507 | cells are emitted row-major, 6 indices each; cell (r, c) emits (r,c),(r+1,c+1),(r+1,c) then (r,c),(r,c+1),(r+1,c+1) |
| WaterGrid.GridFacesKeepPrefix | src/program.cpp:494-509 | emitting more rows never changes the indices already emitted |
| WaterGrid.TopologyBounded | src/program.cpp:482-490 | every emitted index is below L*L, which fits a GLuint |
| WaterGrid.CellCounterClockwise | src/program.cpp:498-507 | both triangles of a cell have positive signed area, with column as x and row as y |
| WaterGrid.TopologyCounterClockwise | src/program.cpp:494-509 | every triangle of the topology is counter-clockwise |
| WaterGrid.AppendTopology | src/program.cpp:494-509 | the nested loops append exactly the topology to drawFaces and touch nothing else of the mesh |
| WaterGrid.AppendCell | src/program.cpp:501-507 | one loop body appends the cell's six indices read from the index table |
| WaterGrid.NewWaterGrid | src/program.cpp:474-509 | a fresh mesh whose drawFaces is the topology of the L×L grid |
| Scene.Program.InitScene | src/program.cpp:474-514 | the water grid is a fresh mesh with the grid topology and the loaded texture, and is null exactly when the texture id is 0 |
| Scene.Program.SetGerstnerWaveCount | src/program.cpp:193-197 | the wave count becomes the written value clamped to [1, 4] |
| Scene.Program.Generate | src/program.cpp:199-217 | the loop leaves the slot array equal to Regenerated for the current count, so every slot is well formed under a bounded sampler |
| Scene.Program.EditWave | src/program.cpp:236-277 | the slot array becomes EditSlots of the old array, so well-formedness is preserved |
| Scene.Program.SetTimeOfDay | src/program.cpp:167-171 | time of day becomes the written value clamped to [7, 17]; a clock in range stays in range |
| Scene.Program.ToggleTimeOfDayAnimation | src/program.cpp:175-178 | flips the time-of-day animation flag and nothing else |
| Scene.Program.AnimateTimeOfDay | src/program.cpp:179-185 | time of day becomes AdvanceTimeOfDay of the old time; a clock in range stays in range |
| Scene.Program.SetWaveAnimationTime | src/program.cpp:318-323 | wave time becomes the written value, with a negative value forced to 0; a clock in range stays in range |
| Scene.Program.SetBounceWavePhase | src/program.cpp:309-313 | the phase becomes the written value clamped to [0, 1]; a clock in range stays in range |
| Scene.Program.ToggleWaveAnimation | src/program.cpp:325-328 | flips the wave animation flag and nothing else |
| Scene.Program.SetBounceWavePeriod | src/program.cpp:332-337 | the period becomes the written value, with a negative value forced to 0 |
| Scene.Program.AnimateWaves | src/program.cpp:342-357 | wave time becomes AdvanceWaveTime and the phase becomes AdvanceBouncePhase of their old values; a clock in range stays in range |
| ShaderTools.InputFile.Open | src/shader-tools.cpp:124-127 | opening a missing file leaves the stream failed and empty; an existing file is opened at its start |
| ShaderTools.InputFile.Get | src/shader-tools.cpp:146-148 | get() on a good stream yields the next character, or the EOF character with eof and fail set at the end; a stream that is not good stays failed |
| ShaderTools.GetFileLength | src/shader-tools.cpp:110-120 | 0 for a stream that is not good; otherwise the file's length, with the stream rewound to its start |
| ShaderTools.LoadShader | src/shader-tools.cpp:122-156 | null exactly when the file cannot be opened or has length 0; otherwise a fresh buffer of length + 1 added to the live buffers, holding the characters read followed by a 0 at the index reached, and a 0 at index length |
| ShaderTools.UnloadShader | src/shader-tools.cpp:158-165 | a non-null buffer is removed from the live buffers, a null pointer changes nothing, and the pointer ends null either way |
| ShaderTools.CompileReport | src/shader-tools.cpp:167-183 | checkShaderCompilation reports nothing exactly when the shader compiled, and otherwise one compile error naming the stage |
| ShaderTools.LinkReport | src/shader-tools.cpp:185-201 | checkProgramLink reports nothing exactly when the program linked, and otherwise one link error |
| ShaderTools.CheckShaderCompilation | src/shader-tools.cpp:167-183 | appends the compile report and does nothing else: a failure is never fatal |
| ShaderTools.CheckProgramLink | src/shader-tools.cpp:185-201 | appends the link report and does nothing else: a failure is never fatal |
| ShaderTools.CreationOrder | src/shader-tools.cpp:50-78 | stages are created vertex, fragment, then tessellation control and evaluation exactly when present |
| ShaderTools.AttachOrder | src/shader-tools.cpp:81-87 | stages are attached vertex first and fragment last, with the present tessellation stages in between |
| ShaderTools.AttachOrderPermutesCreation | src/shader-tools.cpp:50-87 | the attach order rearranges the creation order: each created stage is attached exactly once |
| ShaderTools.CompileLog | src/shader-tools.cpp:54-78 | the compile checks of the stages, in creation order, print at most one diagnostic per stage |
| ShaderTools.CompileLogReportsFailures | src/shader-tools.cpp:54-78 | the compile diagnostics are empty exactly when every stage compiled; every stage that failed is reported by a compile error under its own name, and every diagnostic is the compile error of a stage that failed |
| ShaderTools.CompileCalls | src/shader-tools.cpp:50-98 | compileShaders makes five calls per stage (create, source, compile, attach, delete) plus the program's create and link; it starts by creating the vertex shader and ends by deleting the last stage created |
| ShaderTools.StageNames | src/shader-tools.cpp:50-78 | the stage objects get consecutive new names, one per created stage |
| ShaderTools.CompileCallsCreateStages | src/shader-tools.cpp:50-78 | compileShaders creates exactly the stage objects listed by StageNames, in that order |
| ShaderTools.CompileCallsStageKinds | src/shader-tools.cpp:50-78 | the shader objects are created for the stages of CreationOrder: a tessellation stage only when its source loaded |
| ShaderTools.CompileCallsCompileStages | src/shader-tools.cpp:50-78 | every stage object created is compiled once, in creation order, and nothing else is compiled |
| ShaderTools.CompileCallsNullSources | src/shader-tools.cpp:45-78 | exactly the vertex and fragment stages whose file did not load are handed a null source; a tessellation stage never is, since it is built only from a loaded source |
| ShaderTools.CompileCallsAttachStages | src/shader-tools.cpp:81-87 | the shaders attached are vertex, the present tessellation stages, then fragment: exactly the created shaders, each once |
| ShaderTools.CompileCallsAttachKinds | src/shader-tools.cpp:81-87 | the p-th shader attached is the object created for the p-th stage of AttachOrder |
| ShaderTools.CompileCallsAttachTarget | src/shader-tools.cpp:81-87 | every attachment targets the one program, once per created stage |
| ShaderTools.CompileCallsLinkProgram | src/shader-tools.cpp:80-90 | exactly one program is created and exactly one linked, the same one, under a name after every stage object's |
| ShaderTools.CompileCallsDeleteStages | src/shader-tools.cpp:92-98 | every created stage object is deleted exactly once, whatever the compile and link outcomes, and nothing else is deleted; the deletions are the last calls, after every attachment and the link |
| ShaderTools.BuildStage | src/shader-tools.cpp:51-54 | one stage adds create, source and compile calls for a new name, plus its compile report |
| ShaderTools.BuildOptionalStage | src/shader-tools.cpp:62-78 | a tessellation stage is built, under the next name and with its compile report, exactly when its source loaded; otherwise no call is made, no name is used and 0 stands for the stage |
| ShaderTools.BuildStages | src/shader-tools.cpp:50-78 | the stage-building part makes the stage calls of CompileCalls and the compile log of CreationOrder |
| ShaderTools.LinkStages | src/shader-tools.cpp:80-90 | the linking part creates the program, attaches the stages in order, links, and adds the link report |
| ShaderTools.DeleteStages | src/shader-tools.cpp:92-98 | the clean-up part deletes vertex, fragment and each present tessellation stage |
| ShaderTools.LoadSources | src/shader-tools.cpp:45-48 | each source pointer is null exactly when its stage file does not load; the buffers loaded are fresh and distinct and are exactly what was added to the live buffers |
| ShaderTools.LoadOptionalSource | src/shader-tools.cpp:47-48 | a tessellation source is loaded only when its file name is given: the pointer is null exactly when the stage does not load, and a loaded buffer is fresh and added to the live buffers |
| ShaderTools.UnloadSources | src/shader-tools.cpp:100-105 | every buffer the four pointers hold is released; nothing else is |
| ShaderTools.BuildProgram | src/shader-tools.cpp:50-98 | the GL calls made are exactly CompileCalls, the diagnostics are the compile log then the link report, and the name returned is the program's |
| ShaderTools.CompileShaders | src/shader-tools.cpp:36-108 | the GL calls are exactly CompileCalls for the sources that loaded, diagnostics never abort, the program's name is always returned, and every source buffer loaded is released again |

## Left out

- ImGui widgets, GLFW window and input handling, the render loop, textures, cubemaps and OBJ
  loading, and `assignBuffers` are I/O or foreign GPU calls. They are not modelled. The texture
  loader becomes `InitScene`'s parameter `loadedTextureId`.
- `getRandomFloat` and `getRandomDirection` use `std::mt19937` and `glm::normalize`. They are
  replaced by sampler parameters, because the distribution and its seeding are not part of the
  behaviour proved. `glm::normalize` is an abstract parameter because it needs a square root.
- IEEE single-precision rounding is not modelled. Floats are reals, so only ranges and wrap-around
  are claimed, not bit-exact values.
- The frame delta `1 / ImGui::GetIO().Framerate` is the parameter `dt`, since the frame rate is
  runtime I/O.
- `geometry::GerstnerWave::MAX_COUNT` is defined in a header that is not part of this model. It
  is taken to be 4, the upper bound of the wave-count clamp.
- The GLSL compile and link semantics, the info-log text and the `fprintf` output are left out.
  The driver's verdicts are the oracles `compileStatus` and `linkStatus`. A diagnostic records only
  the stage name or the program.
- The status and info-log queries (`glGetShaderiv`, `glGetShaderInfoLog`, `glGetProgramiv`,
  `glGetProgramInfoLog`, `src/shader-tools.cpp:170-196`) are not recorded in `CompileCalls`.
  Their answers are the oracles `compileStatus` and `linkStatus`.
- What the driver does with a null vertex or fragment source (`src/shader-tools.cpp:52`, 58) is
  not modelled. The model records that the null pointer was passed (`CompileCallsNullSources`)
  and leaves the compile outcome to `compileStatus`.
- GL name allocation is simplified. Names are consecutive and never 0. A `glCreateShader` failure
  that returns 0 is not modelled. The driver's deferred deletion of shaders still attached to a
  program is not modelled either. `glDeleteShader` is recorded as a call.
- `GLuint` arithmetic: the 513×513 grid's indices stay far below 2³², and `ValidSide` requires
  that L*L fits a GLuint. So no wrap-around occurs and none is modelled.
- LoadShader: requires that the stream delivers no more characters than the reported length.
  Beyond that, the source would write past its buffer, which is undefined behaviour in C++.
- LoadShader: the check for a null result of `new char[len + 1]` is not modelled. Standard `new`
  throws instead of returning null, so that branch is dead. Allocation always succeeds in the model.
- `ifstream` is modelled only as far as open, length and the character sequence. Text-mode
  stripping is represented by a text that may be shorter than the reported length.
- Vertex and fragment file names are plain strings. The code never passes null for them, and
  `loadshader` would not accept one.
- The cloud-proportion, heightmap and bounce-amplitude sliders (`src/program.cpp:187-191`,
  288-307) follow the same force-clamp rules as the modelled sliders. Their fields are not part of
  the modelled engine state.
