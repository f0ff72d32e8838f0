# IGM_OPENGL in Dafny

A model of the two graphics demos of IGM_OPENGL and proofs about that model.

- `escena_opengl/p1.c` is a raw OpenGL/GLFW program. It draws a cube, a pyramid and a UV sphere. The keys 1, 2 and 3 pick one of three cameras.
- `p2.cpp` is the same scene in OpenSceneGraph. A `CameraSwitcher` event handler installs one of three `FixedCameraManipulator` views.

The modules follow the programs:

- `Geometry` (`geometry.dfy`): the shared 3-vector and the look-at non-degeneracy predicate.
- `Sphere` (`sphere.dfy`): `generate_sphere`. It is an imperative fill of a freshly allocated `array<real>` through a running write index `idx`. Its contents are tied to a specification, `Cells`/`SphereSoup`: the grid's cells concatenated in latitude-major order. Its layout and vertex-sharing properties are proved as lemmas.
- `OpenGLScene` (`opengl_scene.dfy`):
  - The global `activeCamera` and `key_callback`, as a class with one field.
  - The eye the render loop selects.
  - The literal cube and pyramid tables and their draw counts.
- `OsgScene` (`osg_scene.dfy`):
  - `FixedCameraManipulator` as an immutable value.
  - `CameraSwitcher` as a class whose `Handle` and `SetManipulator` update its field and the viewer's manipulator.
  - The indexed pyramid that `createScene` builds by `push_back`.

`sinf`, `cosf` and `M_PI` are a parameter, `Trig`: a record of two arbitrary total functions and a real. Every sphere property except `CornerOnSphere` therefore holds whatever their values are. `CornerOnSphere` assumes sin² + cos² = 1 at the angles used.

Allocation success is a parameter too, `allocOk`. The out-parameter `*out_vertex_count` is modelled as its old value passed in and its new value returned.

The sphere corners follow the code: c1 = (θ1, φ1), c2 = (θ2, φ1), c3 = (θ2, φ2), c4 = (θ1, φ2); each corner uses its own (θ, φ) pair.

## Model

| member | source | states |
|---|---|---|
| Sphere.GenerateSphere | escena_opengl/p1.c:51-97 | No overrun. If `malloc` fails, the result is NULL and the out-count is unchanged. Otherwise the count is `lat*lon*6`. The new buffer holds exactly `3 *` that many floats, all equal to the grid's cell soup `SphereSoup`. Every store is in bounds, and so the loops end with `idx == count*3`. Each divide by a segment count happens only inside its loop, where the count is non-zero. |
| Sphere.EmitVertex | escena_opengl/p1.c:85 | Three `vertices[idx++]` stores: the index advances by 3 and the written prefix grows by exactly that vertex's x, y, z. The rest of the array is unchanged. |
| Sphere.EmitCell | escena_opengl/p1.c:85-92 | The body of one inner iteration. It appends the 18 floats of the triangles (c1, c2, c3) and (c1, c3, c4). The rest of the array is unchanged. |
| Sphere.Theta | escena_opengl/p1.c:60-61 | Latitude line `lat` of `lat_segments` is at polar angle `lat / lat_segments * π`: line 0 is at 0 and line `lat_segments` at π. |
| Sphere.Phi | escena_opengl/p1.c:64-65 | Longitude line `lon` of `lon_segments` is at azimuth `lon / lon_segments * 2π`: line 0 is at 0 and line `lon_segments` at 2π. |
| Sphere.Corner | escena_opengl/p1.c:68-82 | A corner's y is `radius*cos(θ)`, from θ alone, and the corner lies in the meridian plane of azimuth φ: `x*sin(φ) == z*cos(φ)`. |
| Sphere.TwoTriangles | escena_opengl/p1.c:85-92 | The two triangles of a quad take 18 floats, 6 vertices. |
| Sphere.TwoTrianglesVertices | escena_opengl/p1.c:85-92 | The six vertices are c1, c2, c3, then c1 and c3 again, then c4: both triangles share the diagonal c1–c3. |
| Geometry.Coords | escena_opengl/p1.c:85 | A vertex is stored as 3 floats, and reading vertex 0 back from them gives the vertex. |
| Sphere.CellAt | escena_opengl/p1.c:59-63 | Every flat cell index inside the grid names a cell of 18 floats. |
| Sphere.CellFloats | escena_opengl/p1.c:59-92 | Each cell contributes exactly 18 floats, as 6 vertices. |
| Sphere.Cells | escena_opengl/p1.c:59-92 | The first k cells, latitude-major, take 18·k floats. |
| Sphere.SphereSoup | escena_opengl/p1.c:52-53 | The buffer the generator fills is `3 * (lat*lon*6)` floats long. |
| Sphere.GridCell | escena_opengl/p1.c:59-63 | A flat cell index below `lat*lon` maps to a (lat, lon) pair inside the grid, with a non-zero longitude count. |
| Sphere.CellIndex | escena_opengl/p1.c:59-63 | Cell (lat, lon) has the flat index `lat*lon_segments + lon`, in range, and that index maps back to (lat, lon). |
| Sphere.RowBound | escena_opengl/p1.c:59-63 | One latitude band's cells end where the next band's begin and stay inside the grid. |
| Sphere.CellLayout | escena_opengl/p1.c:56-92 | Cell (lat, lon) occupies floats `[18*(lat*lon_segments+lon), +18)` of the buffer, which is long enough for it. |
| Sphere.CellShape | escena_opengl/p1.c:68-92 | Within a cell, vertex 3 is vertex 0 (corner 1) and vertex 4 is vertex 2 (corner 3). Corners 1 and 4 have y = `radius*cos(theta1)`, and corners 2 and 3 have y = `radius*cos(theta2)`. |
| Sphere.SharedVertices | escena_opengl/p1.c:68-92 | The same sharing and equal-y facts hold for the buffer's own vertices `6c .. 6c+5`. |
| Sphere.SliceVertices | escena_opengl/p1.c:85-92 | A cell's 18-float slice at offset 3v is vertices v .. v+5 of the buffer. |
| Sphere.EmptyGrid | escena_opengl/p1.c:52-65 | A zero segment count yields an empty buffer: nothing is written. |
| Sphere.CornerOnSphere | escena_opengl/p1.c:68-82 | With an ideal sine and cosine, every corner lies on the sphere of radius 0.5. |
| Sphere.SingleCellSphere | escena_opengl/p1.c:59-92 | A 1×1 grid is the two triangles over the corners at θ ∈ {0, π} and φ ∈ {0, 2π}. |
| Sphere.CellsStep | escena_opengl/p1.c:59-92 | Writing cell (lat, lon) after the first `lat*lon_segments+lon` cells extends the latitude-major soup by exactly that cell. |
| Sphere.TwoTrianglesCoords | escena_opengl/p1.c:85-92 | Appending the six vertices c1, c2, c3, c1, c3, c4 one at a time gives the two-triangle float list. |
| OpenGLScene.KeyTransition | escena_opengl/p1.c:28-34 | A press of key 1/2/3 sets the camera to `key - GLFW_KEY_1`, which is 0/1/2. Any other key, or any release or repeat, leaves it unchanged. |
| OpenGLScene.CameraSelection.constructor | escena_opengl/p1.c:9 | `activeCamera` starts at 0, in range. |
| OpenGLScene.CameraSelection.KeyCallback | escena_opengl/p1.c:28-34 | Updates `activeCamera` as `KeyTransition` says and keeps it in {0, 1, 2}. |
| OpenGLScene.RunKeysInRange | escena_opengl/p1.c:28-34 | Starting in range, no sequence of key events takes `activeCamera` out of {0, 1, 2}. |
| OpenGLScene.LastPressWins | escena_opengl/p1.c:28-34 | After any event sequence, the camera is the one chosen by the last press of 1/2/3. |
| OpenGLScene.NoPressKeepsCamera | escena_opengl/p1.c:28-34 | Without any press of 1/2/3, the camera never changes. |
| OpenGLScene.PressTwoThenOne | escena_opengl/p1.c:28-34 | Pressing 2, releasing it, then pressing 1 leaves camera 0 with eye (0, 0, 4). |
| OpenGLScene.Eye | escena_opengl/p1.c:204-211 | Cameras 0, 1 and 2 look from (0,0,4), (0,5,0.01) and (4,4,4). Any other value falls back to (4,4,4). |
| OpenGLScene.EyesDistinct | escena_opengl/p1.c:204-211 | The three cameras have three different eyes. |
| OpenGLScene.EyesGiveViews | escena_opengl/p1.c:204-214 | Every eye gives a well-defined look-at toward the origin with +y up. The direction is never parallel to up, thanks to the 0.01 offset of the top camera. |
| OpenGLScene.KeyPressSelectsEye | escena_opengl/p1.c:204-211 | After a press of key 1/2/3, from any history, the rendered eye is that camera's eye. |
| OpenGLScene.DrawCount | escena_opengl/p1.c:224 | `sizeof(t)/sizeof(float)/3` is the largest n with 3n ≤ the table's float count. |
| OpenGLScene.TableDrawCounts | escena_opengl/p1.c:224-233 | The cube is drawn as 36 vertices and the pyramid as 18. Both tables hold whole vertices only. |
| OpenGLScene.CubeFacesAreQuads | escena_opengl/p1.c:133-152 | Each of the six cube faces is two triangles (a, b, c), (a, c, d) of one quad. |
| OpenGLScene.CubeIsUnitCube | escena_opengl/p1.c:133-152 | Every cube coordinate is ±0.5. |
| OpenGLScene.PyramidShape | escena_opengl/p1.c:157-173 | The base vertices lie on y = -0.5. Each side triangle has the apex (0, 0.5, 0) in the middle. Consecutive sides share a base corner, closing around the base. |
| OpenGLScene.CreateSphereObject | escena_opengl/p1.c:179-188 | A successfully allocated 20×20 sphere is drawn as 2400 vertices. Otherwise the program stops. |
| OsgScene.KeyChar | p2.cpp:55 | `char k = getKey()` is the unique value in [-128, 128) congruent to the key code mod 256. |
| OsgScene.NextCamera | p2.cpp:53-63 | An event switches exactly when it is a KEYDOWN whose low byte is '1'..'3', and then it selects `k - '1'`. Otherwise the camera is unchanged. |
| OsgScene.RunEventsInRange | p2.cpp:53-69 | `_activeCamera` stays in [0, 3), so `_eyes[idx]` and `_ups[idx]` are in bounds. |
| OsgScene.LastSwitchWins | p2.cpp:53-63 | After any event sequence, the camera is the one chosen by the last switching event. |
| OsgScene.AsciiKeysSwitch | p2.cpp:54-56 | For ASCII key codes, exactly the key-downs of '1', '2' and '3' switch cameras. |
| OsgScene.WideKeyCodesAlias | p2.cpp:55-57 | Key codes above 255 are truncated, not rejected: code 0x131 switches to camera 0 like '1'. |
| OsgScene.FixedCamera.SetByMatrix | p2.cpp:19 | Setting a matrix leaves the eye, center and up unchanged. |
| OsgScene.FixedCamera.SetByInverseMatrix | p2.cpp:20 | Setting an inverse matrix leaves the eye, center and up unchanged. |
| OsgScene.FixedCamera.Handle | p2.cpp:27-29 | Every event is declined: `handle` never reports it as handled. |
| OsgScene.FixedCameraNeverMoves | p2.cpp:14-33 | Under any sequence of `setByMatrix`, `setByInverseMatrix` and `handle` calls, the manipulator keeps its eye, center and up, and declines every event. |
| OsgScene.Viewer.constructor | p2.cpp:140-143 | The viewer starts with no camera manipulator. |
| OsgScene.Viewer.SetCameraManipulator | p2.cpp:68 | The installed manipulator is the one passed in. |
| OsgScene.SwitcherViewsWellDefined | p2.cpp:40-49 | Each of the three views looks at the origin from a direction not parallel to the +z up vector. |
| OsgScene.CameraSwitcher.constructor | p2.cpp:37-51 | The switcher starts with `_activeCamera == 0`, three eyes, three ups and the center at the origin, and camera 0's view is installed on the viewer. |
| OsgScene.CameraSwitcher.Valid | p2.cpp:66-67 | In a valid switcher `_activeCamera` indexes both `_eyes` and `_ups` in bounds, and a manipulator is installed on the viewer. |
| OsgScene.CameraSwitcher.Handle | p2.cpp:53-63 | A KEYDOWN of '1'..'3' sets `_activeCamera = k - '1'`, installs that view and returns true. Any other event returns false and changes neither the camera nor the viewer. The vectors and the in-range invariant are kept. |
| OsgScene.CameraSwitcher.SetManipulator | p2.cpp:66-69 | Installs a fixed manipulator with `_eyes[idx]`, `_center` and `_ups[idx]`. |
| OsgScene.PressTwoThenOne | p2.cpp:53-63 | Key-downs of '2' and then '1' leave camera 0 active with eye (0, -4, 0) installed. |
| OsgScene.PyramidIndicesInRange | p2.cpp:102-110 | The 18 indices make whole triangles, and every index is below 5, the vertex count. |
| OsgScene.PyramidTableTopology | p2.cpp:103-110 | The two base triangles use only indices 0..3. Side s is (s, s+1 mod 4, 4), so each side holds the apex index exactly once. |
| OsgScene.PyramidTableShape | p2.cpp:95-100 | Four base vertices lie at z = -0.5, and the apex is at (0, 0, 0.5). |
| OsgScene.CreatePyramidGeometry | p2.cpp:95-110 | The `push_back` sequence builds exactly the pyramid table, which is in range and well-shaped. |

## Left out

- All GL, GLFW, GLEW and OSG calls: window and context creation, shaders, `create_object` (VAO/VBO upload), the draw calls, buffer swaps, event polling and the viewer's run loop. They are foreign I/O and rendering.
- The numeric values of `sinf`, `cosf` and `M_PI`, and all float rounding. Coordinates are reals, and the trigonometric functions are arbitrary.
- `glm_lookat`, `glm_perspective`, `glm_translate`, `glm_mat4_mulN` and OSG's `lookAt`/`inverse` in `getMatrix`/`getInverseMatrix`. They are library matrix math over floats. `LookAtWellDefined` only states the precondition under which a look-at view has an orientation.
- Sphere.GenerateSphere: does not model C `int` overflow of `lat*lon*6*3`; a precondition bounds it by `INT_MAX`.
- Sphere.GenerateSphere: does not model negative segment counts; a precondition excludes them. For two negative counts the product is positive while the loops write nothing.
- Sphere.GenerateSphere: `malloc(0)` for an empty grid may return NULL or a pointer; `allocOk` covers both. If it is true, the result is an empty buffer. If it is false, the result is null and the count is unchanged.
- OpenGLScene.CameraSelection.KeyCallback: the `window` parameter is left out. `scancode` and `mods` are accepted and ignored, as in the source.
- OsgScene.KeyChar: assumes a signed 8-bit `char`, in two's complement. Where `char` is unsigned, key codes with the low byte ≥ 128 convert differently, but that never reaches '1'..'3'.
- OsgScene.CameraSwitcher.Handle: the `GUIActionAdapter` argument is left out, because it is never used.
- `osg::ref_ptr` reference counting, scene-graph node wiring, colours and node positions in `createScene` and `main`. The box and sphere shapes of `p2.cpp` are library drawables with no logic here.
- `free(sphere_vertices)` after upload: the model's buffer is not freed.
