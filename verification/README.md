# Raycaster core of wolfenstein3d, modelled in Dafny

This project models the core of a small Wolfenstein-style raycaster:

- **Grid (level).** A row-major array of cells. 0 is empty and a positive value is a wall whose material is the value minus one. A fresh level has a border of walls around an empty interior.
- **Texture store.** The loaders for 64x64 P6 texture files, which pack each pixel into one 24-bit word. Also the older 32x32 loader, which keeps one int per byte.
- **Controls.** `mouse_look` turns the heading by a whole number of degrees. `keys_handler` moves the player forward or back, gated per axis by the occupancy of a probed grid cell.
- **Ray tracer.** For one ray, `calculate_vertical_hits` and `calculate_horizontal_hits` snap the start point to the next grid line. Each then marches at most `MAX_DEPTH` cells and stops at the first cell that counts as a hit. The nearer of the two marches is selected.
- **Scene renderer.** The integer parts of `render_scene`:
  - wall height, strip clipping and centring;
  - the texture column and its mirroring;
  - the texel lookup;
  - the unpacking of a texel into r, g, b, and the writes of one strip into the RGB pixel buffer, where black texels are skipped;
  - the sweep of ray angles across a frame.
- **Sprite projector.** The integer parts of `render_enemies`: scale clamping, the depth test against the int depth buffer, texture-row stepping and the chroma-key test.

## How doubles, widths and C++ operators are modelled

- Doubles are `real`. `static_cast<int>` is `CppArith.Trunc`, which truncates toward zero.
- C++ `/` and `%` on ints are `CDiv` and `CRem`, which truncate. Dafny's own operators are Euclidean.
- `>> 6` on an int is floor division by 64, which is `Shr6`.
- Texels are `bv32` and file bytes are `bv8`.
- Trigonometric values (cos, sin, tan and its reciprocal) are parameters, as are `RENDER_WIDTH`, `RENDER_HEIGHT` and `EPSILON`. The header that defines these constants, and `level.h`, are not part of this model.

Modules, one file each:

| module | what it models |
|---|---|
| `Results` | `Option` and `Result`, used for the error paths |
| `CppArith` | the C++ conversions and operators |
| `Utility` | `clamp_to_unit_circle` |
| `Levels` | the grid |
| `Textures` | the 64x64 loader and packed texels |
| `LegacyTextures` | the 32x32 loader |
| `TextureFiles` | the 64x64 loader applied to a whole file, as written and corrected |
| `Game` | the controls |
| `RayTracer` | the probe, the marches and hit selection |
| `SceneRenderer` | the integer parts of `render_scene` |
| `SpriteProjector` | the integer parts of `render_enemies` |

The loaders run over the file's lines as a state machine, with `Feed` as one step and `Run` as the fold. A fatal header line becomes a `Failed` state that absorbs the rest of the lines, which models the `exit(0)`. `Load` returns `Err(LoadError(name, line))` in that case.

## Model

| member | source | states |
|---|---|---|
| CppArith.SnapIsLargestMultiple | src/engine/engine.cpp:124-132 | `((n >> 6) << 6)` is a multiple of 64 that is at most n and more than n - 64, and it is the largest such multiple |
| Utility.ClampToUnitCircle | include/utility.h:38-44 | the result differs from the input by 0 or a whole turn; inputs in [0, 360) are unchanged; inputs in [-360, 720) land in [0, 360) |
| Utility.ClampNormalisesExactly | include/utility.h:38-44 | the result is in [0, 360) if and only if the input is in [-360, 720) |
| Utility.ClampLeavesLargeInputs | include/utility.h:38-44 | a single subtraction cannot bring inputs of 720 or more onto the circle (720 gives 360) |
| Utility.ClampIdempotent | include/utility.h:38-44 | clamping an input in [-360, 720) twice equals clamping it once |
| Levels.Initialize | src/engine/level.cpp:16-35 | the push_back loops append exactly the border grid, row by row, to the existing data, and the dimensions stay the same |
| Levels.NewLevelValid | src/engine/level.cpp:16-35 | a new w x h level has exactly w * h cells |
| Levels.NewLevelShape | src/engine/level.cpp:15-35 | in a new level the first and last rows and columns hold 1 and every interior cell holds 0 |
| Levels.NewLevelBinary | src/engine/level.cpp:18-34 | every cell of a new level is 0 or 1 |
| Levels.Update | src/engine/level.cpp:10-13 | a write through the mutable `operator[]` sets cell i and leaves the size and every other cell unchanged |
| Levels.ReadAfterUpdate | src/engine/level.cpp:5-13 | a read after a write returns the written value at that index and the old value elsewhere |
| Textures.Pack | src/engine/texture.cpp:50-54 | a texel assembled from three bytes fits in 24 bits |
| Textures.UnpackPack | src/engine/engine.cpp:302-304 | unpacking a packed texel gives back its red, green and blue bytes |
| Textures.PackUnpack | src/engine/texture.cpp:50-55 | every 24-bit texel is the packing of its three unpacked bytes |
| Textures.BlackIsZero | src/engine/engine.cpp:306 | for a 24-bit texel, all three channels are zero if and only if the word is 0 |
| Textures.DecodeTriple | src/engine/texture.cpp:47-60 | three bytes read in the red, green, blue states push their packed texel and return the state machine to red with a cleared colour |
| Textures.DecodeLineIsTexels | src/engine/texture.cpp:43-64 | the per-byte state machine over a body line yields the consecutive byte triples packed in order; it drops a trailing partial triple |
| Textures.TexelsLength | src/engine/texture.cpp:44-64 | a body line of n bytes yields n / 3 texels |
| Textures.TexelsIndex | src/engine/texture.cpp:47-64 | texel k of a body line is the packing of bytes 3k, 3k+1 and 3k+2 |
| Textures.TexelsAppend | src/engine/texture.cpp:44-64 | splitting a line at a multiple of three splits its texels at the same point |
| Textures.TexelsFit | src/engine/texture.cpp:50-55 | every decoded texel fits in 24 bits |
| Textures.LoadCharacterisation | src/engine/texture.cpp:30-75 | if lines 0 to 2 read "P6", "64 64" and "255", the load yields the texels of every later line, concatenated; otherwise the first mismatching line k is the reported error |
| Textures.HeaderOkOrMismatch | src/engine/texture.cpp:38-42 | every input either passes the header checks or has a first mismatching header line |
| Textures.LoadAfterHeader | src/engine/texture.cpp:36-66 | the exact header followed by any lines loads the concatenated texels of those lines |
| Textures.HeaderOnlyLoadsEmpty | src/engine/texture.cpp:36-42 | a file that ends within a correct header loads as an empty texture, with no error |
| Textures.LoadAppendsLine | src/engine/texture.cpp:43-66 | after a successful header, one more line extends the result by exactly that line's texels |
| Textures.LoadedTexelsFit | src/engine/texture.cpp:50-55 | every texel of a successful load fits in 24 bits |
| Textures.Update | src/engine/texture.cpp:15-18 | a write through the mutable `operator[]` changes exactly one texel |
| Textures.ReadAfterUpdate | src/engine/texture.cpp:10-18 | a read through the const `operator[]` after a write returns the written texel at that index and the old texel elsewhere |
| LegacyTextures.CharValue | include/texture.h:44 | a byte read as `int` through `char` lies in [-128, 128) when plain char is signed and in [0, 256) otherwise, and is congruent to the byte modulo 256 |
| LegacyTextures.Entries | include/texture.h:44 | the body line stores one entry per byte, in order |
| LegacyTextures.LoadSteps | include/texture.h:31-55 | lines 0 to 2 must read "P6", "32 32" and "255", and the first mismatch is the error; line 3 is stored byte by byte; a fifth line is always an error |
| LegacyTextures.LoadedEntryCount | include/texture.h:37-50 | a successful load has at most four lines and holds one entry per byte of line 3; it does not check for 32 * 32 * 3 entries |
| LegacyTextures.Update | include/texture.h:16 | a write through the mutable `operator[]` changes exactly one entry |
| LegacyTextures.ReadAfterUpdate | include/texture.h:15-16 | a read through the const `operator[]` after a write returns the written entry at that index and the old entry elsewhere |
| TextureFiles.SplitHeader | src/engine/texture.cpp:36-42 | getline splits the three header lines off a file exactly |
| TextureFiles.LoadFileOfHeader | src/engine/texture.cpp:36-66 | as written, the body of a file is read as the lines that getline cuts it into |
| TextureFiles.AgreeWithoutNewlineBytes | src/engine/texture.cpp:36-64 | when no pixel byte equals 0x0A, the loader as written and the corrected loader both load every byte triple of the body |
| TextureFiles.NewlineByteLosesTexel | src/engine/texture.cpp:36-64 | the body 01 02 0A 04 05 06 loads as one texel as written but as two texels when read raw |
| TextureFiles.RawRoundTrip | src/engine/texture.cpp:43-64 | with the body read raw, a 64x64 header followed by the bytes of any 24-bit texels loads exactly those texels |
| Game.TurnAmount | src/engine/game.cpp:7-10 | a positive dx turns by at least one degree, a negative dx by at most minus one degree, and zero does not turn |
| Game.MouseLook | src/engine/game.cpp:5-13 | the heading becomes the clamp of the heading minus the turn; it stays in [0, 360) for an in-range heading and a turn of at most 360; the position is untouched |
| Game.SmallMotionTurnsOneDegree | include/game.h:64-65 | a motion of fewer than 25 units turns exactly one degree in its direction, whatever dt is, because `dx / 25` is integer division |
| Game.StillMouseKeepsPlayer | include/game.h:60-68 | a still mouse leaves the player unchanged when the heading is in [0, 360) |
| Game.ProbeOffset | src/engine/game.cpp:20-21 | the probe offset is -10 exactly when the direction component is negative, and +10 otherwise, including zero |
| Game.StepForward | src/engine/game.cpp:26-33 | x advances by exactly 0.2 * dt * dx if and only if the cell on the entry row ahead in x is 0, otherwise it stays; y follows the same rule on its own probe cell |
| Game.StepBackward | src/engine/game.cpp:35-42 | the same rule with subtraction and the opposite probe offsets, applied to the position after the forward step |
| Game.KeysHandler | src/engine/game.cpp:15-43 | the heading never changes, and with neither key held the player is unchanged |
| Game.ForwardThenBackCancels | include/game.h:81-97 | in exact arithmetic, in an empty level, holding both keys leaves the player where it was |
| Game.WallsBlockMovement | include/game.h:86-96 | if every probed cell is a wall, no key combination moves the player |
| Game.AxesGatedIndependently | include/game.h:86-87 | the forward x step depends only on its x-probe cell and the y step only on its y-probe cell |
| RayTracer.HitMaterial | src/engine/engine.cpp:151-153 | the material of a hit is the cell value minus one, and it is never negative |
| RayTracer.CornerCellNeverHits | src/engine/engine.cpp:149-150 | points in the first 64x64 square probe cell 0, which never counts as a hit |
| RayTracer.ColumnOverflowAliases | src/engine/engine.cpp:149 | a point one level width to the right probes the same cell as a point one row down, because the column is not bounds-checked |
| RayTracer.HitIffWall | src/engine/engine.cpp:149-150 | for a point whose grid cell (x >> 6, y >> 6) lies inside the level, the flat probe hits exactly when that 2-D cell holds a wall and is not the corner cell (0, 0) |
| RayTracer.NewLevelHits | src/engine/engine.cpp:149-150 | on a fresh level, a probe inside the grid hits exactly on the border ring, except at the corner cell (0, 0) |
| RayTracer.NearerIsStrict | src/engine/engine.cpp:256 | the distance comparison, with INFINITY, is irreflexive, asymmetric and transitive |
| RayTracer.VerticalStepping | src/engine/engine.cpp:122-144 | a march exists exactly when cos is beyond ±EPSILON; it starts one cell past the snapped x when cos is positive and EPSILON before it when negative, stepping 64 or -64 in x |
| RayTracer.HorizontalStepping | src/engine/engine.cpp:183-205 | a march exists exactly when sin is beyond ±EPSILON; it starts EPSILON above the snapped y when sin is positive and one cell below it when negative, stepping -64 or 64 in y |
| RayTracer.March | src/engine/engine.cpp:146-161 | the march stops at the first step that hits, fewer than the depth bound; without a hit it makes all the steps; either way it leaves the point advanced once per step that missed |
| RayTracer.Cast | src/engine/engine.cpp:146-161 | a finite distance comes from the first hitting step, with material equal to the hit cell minus one and the projected distance of that point; INFINITY means none of the MAX_DEPTH probes hits, and the previous material is kept |
| RayTracer.VerticalHits | src/engine/engine.cpp:114-164 | without a march (cos within ±EPSILON), the result is INFINITY at the player position with no probe; otherwise the result is the first hit of the vertical set-up, as for `Cast`, or INFINITY when none of the MAX_DEPTH probes hits; a miss keeps the previous material |
| RayTracer.HorizontalHits | src/engine/engine.cpp:173-225 | the same for the horizontal march, gated on sin |
| RayTracer.Select | src/engine/engine.cpp:249-264 | the vertical hit is chosen, with shade 1, exactly when it is strictly nearer; otherwise the horizontal hit is chosen with shade 0.5 |
| RayTracer.SelectIsNearest | src/engine/engine.cpp:256-264 | the chosen trace is never farther than either march, and ties go to the horizontal hit |
| SceneRenderer.WallHeight | src/engine/engine.cpp:269 | the wall height is the largest whole number h with h * d at most 64 * RENDER_HEIGHT: non-negative, h * d <= 64 * RENDER_HEIGHT < (h + 1) * d |
| SceneRenderer.NearerWallsTaller | src/engine/engine.cpp:269 | a nearer wall is never drawn shorter |
| SceneRenderer.ClipStrip | src/engine/engine.cpp:274-280 | a wall taller than the render area is cut to RENDER_HEIGHT and skips half its excess; afterwards every drawn row lies inside the render area |
| SceneRenderer.ClipStripCentred | src/engine/engine.cpp:274-280 | the rows above and below the strip differ by at most one, and the texture rows drawn never run past the wall's own rows |
| SceneRenderer.TextureRowInRange | src/engine/engine.cpp:271-299 | every drawn row samples a texture row in [0, 64) |
| SceneRenderer.BaseColumn | src/engine/engine.cpp:287 | for a non-negative coordinate the column is in [0, 64); it differs from the truncated coordinate by a multiple of 64 |
| SceneRenderer.Mirror | src/engine/engine.cpp:288 | mirroring maps [0, 64) onto itself as 63 - tx |
| SceneRenderer.MirrorInvolution | src/engine/engine.cpp:288-293 | mirroring is its own inverse, so it is injective |
| SceneRenderer.TextureColumn | src/engine/engine.cpp:285-294 | the column comes from the hit's y for a vertical hit and from its x for a horizontal one, mirrored by the heading rule; it is in [0, 64) for a non-negative coordinate |
| SceneRenderer.MirrorRule | src/engine/engine.cpp:285-294 | a horizontal column is mirrored exactly when the heading is above 180, and a vertical one when it is strictly between 90 and 270; the other coordinate never matters |
| SceneRenderer.TexelIndex | src/engine/engine.cpp:299 | `ty * 64 + tx` lies inside the 4096 texels |
| SceneRenderer.DrawnIffNonZero | src/engine/engine.cpp:306 | a 24-bit texel is skipped exactly when it is 0 |
| SceneRenderer.StripTexels | src/engine/engine.cpp:297-300 | the strip samples one texel per drawn row, at that row's texture row and the strip's column |
| SceneRenderer.PixelByteInverse | src/engine/engine.cpp:308 | pixel byte positions lie inside the buffer and decode back to their row, column and channel, so distinct pixels never share a byte |
| SceneRenderer.DrawStrip | src/engine/engine.cpp:297-315 | after the walls loop, each byte of the strip's column holds the channel of its row's texel when that texel is not black; every other byte, including pixels whose texel is black, keeps its old value |
| SceneRenderer.RayStep | src/engine/engine.cpp:317 | the turn between neighbouring rays is positive and at most the 60-degree field of view |
| SceneRenderer.RayAngle | src/engine/engine.cpp:232-317 | for a heading in [0, 360), every ray angle of the frame lies in [0, 360) |
| SceneRenderer.RaySweep | src/engine/engine.cpp:241-317 | in exact arithmetic and up to whole turns, ray k points 30 degrees left of the heading minus k steps, so the per-ray clamps never drift the sweep |
| SceneRenderer.SweepSpansFieldOfView | src/engine/engine.cpp:233-317 | in exact arithmetic and up to whole turns, the last of RENDER_WIDTH rays points one step short of 30 degrees right of the heading, and one more step lands exactly there, so the rays span the 60-degree field of view |
| SpriteProjector.SpriteScale | src/engine/engine.cpp:57-59 | the scale lies in [0, 120], is 0 behind the camera, is the truncated `2560 / b` whenever that truncation is below 120, and is 120 otherwise |
| SpriteProjector.NearerIsLarger | src/engine/engine.cpp:57-59 | a nearer sprite is never drawn smaller |
| SpriteProjector.ScaleExtremes | src/engine/engine.cpp:57-59 | the scale saturates at 120 when b * 121 ≤ 2560 and is 0 beyond 2560 units |
| SpriteProjector.DepthColumnInRange | src/engine/engine.cpp:67 | the screen-range test keeps the depth-buffer index in [0, 120) |
| SpriteProjector.NeverDrawnBehindWall | src/engine/engine.cpp:67 | with the wall distance stored as a truncated int, a drawn sprite is always in front of the wall, and a sprite at or beyond the truncated wall distance is hidden, so a sprite up to one unit in front of the wall can be hidden |
| SpriteProjector.NextSpriteRow | src/engine/engine.cpp:85 | the next texture row is exactly max(0, ty - step): never below 0, never below ty - step, and equal to one of them |
| SpriteProjector.SpriteRowsInTexture | src/engine/engine.cpp:71-85 | starting from row 31, every row a sprite column samples is in [0, 31] |
| SpriteProjector.AsWrittenHidesMore | src/engine/engine.cpp:79 | the written test hides a colour exactly when r is 255, g is 0 or b is 255, a superset of the colours the intended test hides |
| SpriteProjector.AsWrittenHidesNonMagenta | src/engine/engine.cpp:79 | the written test hides (200, 0, 0) and white, which are not magenta, and every colour with no green, which includes many colours other than magenta |
| SpriteProjector.DrawnRestoresLostColours | src/engine/engine.cpp:79 | the corrected test, which hides only magenta, draws everything the written test draws plus exactly the non-magenta colours with r = 255, g = 0 or b = 255 that the written test hides |

## Left out

- IEEE-754 arithmetic. Doubles are exact reals, so rounding in the tan/cot stepping, the perpendicular distance and the accumulated `ty += ty_step` is not modelled. `degrees_to_radians`, cos, sin and tan are parameters.
- Undefined behaviour. Casting INFINITY or out-of-range doubles to int is not modelled. This covers the fish-eye corrected INFINITY stored into the int depth buffer when neither march hits, and a zero distance in the wall-height and sprite-scale divisions. `WallHeight` requires a positive distance (the corrected distance of a hit in front of the player), and `SpriteScale` requires a non-zero `b`, because a negative `b` (a sprite behind the camera) is a case the source handles.
- The fish-eye correction `cos(pa - r_angle)` and the store of the corrected distance into the depth buffer. The distance enters `WallHeight` and `NeverDrawnBehindWall` as a parameter.
- Unchecked indexing. `operator[]` of the level and the textures, and the cells `keys_handler` reads, do no bounds checks, so their indices are preconditions (`Game.ProbesInLevel`). A texture index past 4095, from a negative hit coordinate, is excluded by the non-negativity hypotheses.
- The argument quirk in render_scene. The call passes `vx` where the horizontal march's y output belongs, and the vertical march then overwrites it. Each march here returns its own `Trace`. The texture column only ever reads the coordinate the quirk leaves correct, which is x for a horizontal hit and y for a vertical one (`MirrorRule`).
- Stale material. When a march misses, `hmt` and `vmt` keep their previous value. `Trace.material` keeps the `previous` argument, and the caller's threading of it across rays is not modelled.
- RayTracer.Select: the shade (1 or 0.5) is computed but never applied to a colour in the source, so the model only records it and uses it to choose the texture column.
- The `render_enemies` drawing loop. It is never called from `display`, and its RGB-triple indexing into `textures[1]` does not match the packed texel layout. Only its scale clamp, depth test, row stepping and chroma-key test are modelled.
- The sprite rotation and projection (`a`, `b`, `sx`, `sy`). These are floating-point geometry, and `b` and `sx` enter as reals.
- OpenGL/GLUT plumbing, the floor and crosshair, frame timing and the FPS text. Printing and `exit(0)` on a bad header become the `Err` result. The source never checks that the file opened, so a file that cannot be opened yields no lines and loads as an empty texture, as in the source (`Textures.HeaderOnlyLoadsEmpty`). The 64x64 file arrives as a byte sequence or as lines.
- LegacyTextures.CharValue: whether plain `char` is signed is platform-defined, so it is a parameter.
- `FOV` in the engine header, which truncates `2 * atan(0.60)` to an int and is never used.
- The constructor defaults (player at (200, 400), a 12x12 level) and the enemy list. These are plain data.

## Findings

| source | as written | input that shows it | evidently intended | confidence | as-written member | corrected member |
|---|---|---|---|---|---|---|
| src/engine/engine.cpp:79 | `r != 255 && g != 0 && b != 255` hides any colour with one channel equal to magenta's | (200, 0, 0) or (255, 255, 255) is not drawn | hide only the transparent colour (255, 0, 255), that is `!(r == 255 && g == 0 && b == 255)` | medium, not executed | SpriteProjector.AsWrittenHidesNonMagenta | SpriteProjector.DrawnRestoresLostColours |
| src/engine/texture.cpp:36-64 | the binary pixel body is read with `std::getline`, so every 0x0A byte ends a line and resets the red/green/blue state | a 64x64 header followed by bytes 01 02 0A 04 05 06 loads one texel instead of two | the format's raw body: after the three header lines, every byte is pixel data | high, not executed | TextureFiles.NewlineByteLosesTexel | TextureFiles.RawRoundTrip |
