# Euclidean geometry editor — a Dafny model

This project models the core of a small interactive editor for Euclidean
figures. The user places points, joins them with straight lines, and selects
and deletes points with the mouse and keyboard. The editor
(`GeometryApp` in `python/euclid2.py`) keeps a scene with these parts:

- an ordered list of points;
- an ordered list of straight lines;
- an editing mode: POINT, LINE or SELECT;
- three pieces of transient state: the selected point, the start point of a
  line under construction, and the preview line.

Each frame, `update` applies that frame's input in a fixed order. TAB cycles
the mode, then ESC cancels, then DELETE or BACKSPACE deletes the selected
point together with its lines, and then the handler of the current mode runs.

The model makes that update a pure step function `Editor.Step` from a scene
and one frame's input (`FrameInput`: the keys pressed, the click, and the
integer cursor position) to the next scene. Python points are entities
compared by identity, since `Point` defines no `__eq__`. The model gives each
point an identity `id` next to its integer coordinates. Lines are ordered
pairs of identities. The scene's `nextId` stands in for the fresh object
that `Point(mx, my)` allocates.

The project also models the smaller entity pieces:

- the endpoint helpers `connects` and `other_point` of `StraightLine`;
- the shared-vertex check of the `Angle` constructor;
- the area and perimeter arithmetic of the rectangle `Surface` constructor;
- the distinct-endpoint check of the `Line` constructor in `python/euclid.py`;
- the window record of `python/main.py`: its open/closed flag and its
  world-to-screen conversion.

Modules:

- `Wrappers` (wrappers.dfy): `Option` and `Result`.
- `Geometry` (geometry.dfy): points, lines, angles, the rectangle surface,
  hit-testing, `other_point`, and the checked constructors.
- `Screen` (screen.dfy): the window record, open/close, and `to_screen`.
- `Scene` (scene.dfy): the scene, the modes, hit-testing over the point list,
  list removal, the line-delete filter, and the scene invariant `Valid`.
- `Editor` (editor.dfy): the per-event handlers, `Step` and `Run`.
- `EditorProperties` (editor_properties.dfy): what each single event does to
  a scene, and the proof that every reachable scene is valid.

In `Scene.Valid`:

- points have distinct identities, all below `nextId`;
- every line has two distinct endpoints, and both are still in the scene;
- a selection exists only in SELECT mode;
- a line start and a preview exist only in LINE mode;
- the selection, line start and preview all name points of the scene.

Facts about the code that the model follows:

- There is no polygon detection and no list of surfaces in the scene. The
  only `Surface` classes are a container the editor never builds and a
  rectangle record whose constructor ignores its `area` and `perimeter`
  arguments.
- Points have integer coordinates, because `handle_point_mode` builds them
  from the integer mouse position.
- In LINE mode, clicking the start point or empty space clears
  `line_start_point` but leaves that frame's `preview_line` in place; the
  next frame recomputes it.

## Model

| member | source | states |
|---|---|---|
| Geometry.IsHovered | python/euclid2.py:31-32 | The hit test: the cursor exactly on a point hovers it, and a hovered point lies within the radius of the cursor along each axis. |
| Geometry.ConnectsReversed | python/utils/definitions.py:61-63 | Whether a line connects p does not depend on the order of its endpoints, and neither does whether other_point(p) succeeds (other_point succeeds exactly when connects(p), see Geometry.OtherPoint). |
| Geometry.OtherPoint | python/utils/definitions.py:61-72 | other_point succeeds exactly for the points `connects` accepts. Otherwise it fails with "not on this line". On success the answer is itself an endpoint, and on a line with two distinct endpoints it is never the point given. |
| Geometry.OtherPointOfEndpoints | python/utils/definitions.py:65-70 | other_point of A is B. other_point of B is A when B is not A. |
| Geometry.OtherPointInvolution | python/utils/definitions.py:65-70 | For any endpoint p, other_point of other_point(p) gives back p. |
| Geometry.NewLine | python/euclid.py:16-21 | The Line constructor fails exactly when both points are the same point. On success it keeps them in the order given, and each endpoint's other_point is the other one. |
| Geometry.NewLineComparesIdentity | python/euclid.py:4-21 | Point equality is identity. Two different points at the same coordinates make a valid line, and no point makes a line with itself. |
| Geometry.NewAngle | python/utils/definitions.py:117-122 | The Angle constructor fails exactly when the two lines do not start at the same point. On success the vertex is that shared start, both lines are kept unchanged, and both lines have the vertex as an endpoint. |
| Geometry.NewSurface | python/utils/definitions.py:90-95 | The Surface constructor keeps length, width and position. It sets area to length × width and perimeter to 2·length + 2·width. |
| Geometry.NewSurfaceIgnoresAreaAndPerimeter | python/utils/definitions.py:90-95 | The constructed surface does not depend on the area and perimeter arguments. |
| Screen.NewWindow | python/main.py:14-25 | A new window keeps its size, title and frame rate, and is not yet open. |
| Screen.DefaultWindow | python/main.py:5-25 | With every argument left at its default a window is 1200 × 800, titled "Window", at 60 frames per second, and not open. |
| Screen.Init | python/main.py:27-31 | init sets the open flag and changes no other field. |
| Screen.CloseWindow | python/main.py:33-36 | close_window closes the library window exactly when the open flag is set. Afterwards the flag is clear and the other fields are unchanged. |
| Screen.CloseTwiceIsNoOp | python/main.py:33-36 | A second close_window changes nothing and closes nothing. |
| Screen.InitThenClose | python/main.py:27-36 | Closing after init closes the library window and gives back the original record with the flag clear. |
| Screen.Half | python/main.py:40-41 | `n // 2` is floor division: 2h ≤ n < 2h + 2. |
| Screen.ToScreen | python/main.py:38-42 | to_screen on integers can be inverted: x = sx − width//2 and y = height//2 − sy. |
| Screen.ToScreenOrigin | python/main.py:38-42 | to_screen(0, 0) is (width // 2, height // 2). |
| Screen.ToScreenStepX | python/main.py:40 | Adding 1 to x adds 1 to sx and leaves sy unchanged. |
| Screen.ToScreenStepY | python/main.py:41 | Adding 1 to y subtracts 1 from sy, because the y axis is flipped. sx is unchanged. |
| Screen.ScreenRoundTrip | python/main.py:38-42 | Every screen position is the image of exactly the world point the inverse names. |
| Scene.NextMode | python/euclid2.py:166-168 | TAB moves to the next mode in the list POINT, LINE, SELECT, wrapping from SELECT back to POINT: the position advances by one modulo 3, so the mode always changes. |
| Scene.InitialScene | python/euclid2.py:120-127 | The editor starts with no points, no lines, POINT mode and no transient state. |
| Scene.FirstMatch | python/euclid2.py:156-159 | The list scan answers the first index whose element passes the test, with every earlier one failing. It answers nothing exactly when no element passes. |
| Scene.HoveredIndex | python/euclid2.py:154-159 | get_hovered_point answers the first point, in list order, with (x−mx)² + (y−my)² ≤ 8². It answers none exactly when no point qualifies. |
| Scene.Hovered | python/euclid2.py:154-159 | The answer is the identity of the first hovered point in list order, which is a scene point. There is none exactly when the cursor is within radius 8 of no point. |
| Scene.RemovePoint | python/euclid2.py:186 | list.remove fails exactly when the point is absent. Otherwise it removes the first occurrence of it, and the other points keep their order. |
| Scene.RemovePointIds | python/euclid2.py:186 | On a list of distinct points, removing p leaves exactly the other points, still distinct. The set of identities loses only p. |
| Scene.LinesAvoiding | python/euclid2.py:184 | The kept lines are exactly the lines without the deleted point as A or B. The number removed is that point's degree. |
| Scene.LinesAvoidingAppend | python/euclid2.py:184 | The line filter distributes over concatenation, so the kept lines stay in their original order. |
| Scene.LinesAvoidingUntouched | python/euclid2.py:184 | When no line touches the point, the filter keeps the whole list unchanged. |
| Editor.CycleMode | python/euclid2.py:165-171 | TAB moves to the next mode, clears selection, line start and preview, and leaves points and lines unchanged. |
| Editor.Cancel | python/euclid2.py:175-178 | ESC clears selection, line start and preview, and leaves mode, points and lines unchanged. |
| Editor.DeleteSelected | python/euclid2.py:182-187 | Delete with no selection does nothing. With a selection, it fails exactly when the point is missing. Otherwise it filters the lines, removes the point, clears the selection, and changes nothing else. |
| Editor.PointModeFrame | python/euclid2.py:198-204 | The POINT handler changes the scene exactly when there is a click and no point is hovered. Then it appends one point at the cursor with the next identity. |
| Editor.PreviewFor | python/euclid2.py:211-215 | The preview runs from the line start to the cursor. It exists exactly while a line is started and no point is hovered. |
| Editor.LineModeFrame | python/euclid2.py:207-237 | The LINE handler never changes points, mode or selection. It changes the lines only on a click on a hovered point other than the start, by appending that one line. |
| Editor.SelectModeFrame | python/euclid2.py:239-255 | The SELECT handler changes only the selection, and any selection it leaves after a click is the hovered point. |
| Editor.HandleMode | python/euclid2.py:190-196 | The handler of the current mode runs. No handler changes the mode. Only POINT mode adds points, and only by appending the cursor point. Only LINE mode changes lines, line start and preview. Only SELECT mode changes the selection. |
| Editor.Step | python/euclid2.py:161-196 | A frame changes the mode only through TAB. Every point it adds has the fresh identity `nextId`. It fails exactly when a delete key is pressed without TAB or ESC, a point is selected, and that point is not in the list, where list.remove raises. |
| Editor.Run | python/euclid2.py:147-149 | The main loop applies one update per frame: no frames leave the scene as it is, a failing first frame ends the run with its error, and identities only grow. |
| Editor.RunOne | python/euclid2.py:147-149 | One pass of the loop is exactly one update. |
| Editor.RunAppend | python/euclid2.py:147-149 | The loop over two batches of frames is the loop over the first batch followed by the loop over the second from the scene it left; an error in the first batch ends the run with that error. With Editor.RunOne this pins the loop down to one update per frame, in order. |
| EditorProperties.IdleFrame | python/euclid2.py:190-215 | A frame with no input changes nothing, except that in LINE mode the preview follows the cursor. |
| EditorProperties.TabSwitchesMode | python/euclid2.py:165-171 | A TAB frame gives the next mode, clears selection, line start and preview, and keeps points and lines. |
| EditorProperties.ThreeTabsRestoreMode | python/euclid2.py:165-171 | Three TAB frames return to the original mode with the transient state cleared and the figure unchanged. |
| EditorProperties.EscCancels | python/euclid2.py:175-178 | An ESC frame in any mode clears the three transient fields and changes nothing else. |
| EditorProperties.DeleteCascade | python/euclid2.py:182-187 | With a selected point, a delete removes exactly the lines having that point as A or B, and keeps the rest in order. It removes that point and no other, clears the selection, and keeps mode and identity counter. |
| EditorProperties.DeleteWithoutSelectionIsIdle | python/euclid2.py:182-196 | A delete key with no selection does the same as a frame with no input. |
| EditorProperties.PointModeClick | python/euclid2.py:198-204 | A POINT-mode click appends exactly one point at (mx, my) if and only if no point is hovered, and its identity is fresh. Otherwise the scene is unchanged. |
| EditorProperties.LineModeClick | python/euclid2.py:207-237 | A LINE-mode click on a hovered point with no start makes it the start. On a point other than the start it appends exactly (start, hovered) and clears start and preview. On the start or on empty space it clears the start and adds no line. |
| EditorProperties.SelectModeClick | python/euclid2.py:239-255 | A SELECT-mode click on a hovered point selects it, or deselects it if it was the selection. A click on empty space clears the selection. Points, lines and mode are unchanged. |
| EditorProperties.SelectClickTwiceRestores | python/euclid2.py:241-255 | Two clicks at the same place restore the scene when nothing else was selected before. |
| EditorProperties.InitialSceneValid | python/euclid2.py:120-127 | The initial scene satisfies the scene invariant. |
| EditorProperties.DeletePreservesValid | python/euclid2.py:182-187 | On a valid scene the delete never raises, and the scene stays valid. |
| EditorProperties.PointModePreservesValid | python/euclid2.py:198-204 | Adding a point keeps identities distinct and the scene valid. |
| EditorProperties.LineModePreservesValid | python/euclid2.py:207-237 | A new line joins two distinct scene points, and line start and preview name scene points. |
| EditorProperties.HandleModePreservesValid | python/euclid2.py:190-196 | Every mode handler keeps the scene valid. |
| EditorProperties.StepPreservesValid | python/euclid2.py:161-196 | From a valid scene every frame succeeds and gives a valid scene. |
| EditorProperties.RunPreservesValid | python/euclid2.py:147-149 | From a valid scene every sequence of frames succeeds and ends in a valid scene. |
| EditorProperties.ReachableScenesValid | python/euclid2.py:161-237 | After any sequence of events from the start: the editor has not failed; every line has two distinct endpoints, both in the scene; a selection exists only in SELECT mode; a line start exists only in LINE mode and is a scene point. |

## Left out

- Rendering: every `draw` method, `GeometryApp.draw` and `draw_ui`, the highlight colours and radii, and `main()` in `python/main.py`. These only produce output.
- From `GeometryApp.run`: window creation, `window_should_close`, the `draw` call after each update, and `close_window`. The loop of updates itself is `Editor.Run`. raylib's default exit key is ESC and the program never changes it, so in the running program an ESC press most likely makes `window_should_close` true and ends the loop before the ESC branch of `update` acts; `Editor.Run` applies ESC frames through that branch as `update` is written.
- The raylib calls inside `Window.init` and `close_window`. The model keeps only their effect on the `_initialized` flag and reports whether the library window would be closed.
- Input polling: `is_key_pressed`, `is_mouse_button_pressed` and `get_mouse_x/y`. These are the fields of `FrameInput`.
- `StraightLine.length` and `Angle.measure`. Both use floating-point square roots and `acos`.
- Screen.ToScreen: covers integer inputs only. The `int(x)` truncation of non-integer coordinates is left out because it is floating-point.
- Geometry.NewSurface: the sides are integers. Floating-point sides are not modelled.
- Stubs with no behaviour: the `Line` base class, `PlaneSurface`, `Angle.get_type` and `Angle.draw`. Also the `Surface` container in `python/euclid2.py`, which the editor never builds.
- Polygon and cycle detection, and surface invalidation. No file of the program implements them.
- The radius and colour attributes of the point in `python/utils/definitions.py`. They are render hints.
- The point constructors in all three files store their coordinates unchanged. In the model that is the `Point` datatype constructor, with the identity added.
- `print` logging and `__repr__` strings.
- Lines that do not parse in `python/utils/definitions.py` and `python/euclid.py`: the stray character, the empty `PlaneSurface` body, and the unfinished `__repr__`. The model covers only the complete functions around them.
