/**
 * The OpenSceneGraph demo (p2.cpp): a camera manipulator that holds a fixed
 * view, an event handler that switches between three such views on the keys
 * 1, 2 and 3, and the indexed pyramid of the scene.
 */
module OsgScene {
  import opened Geometry

  datatype Option<T> = None | Some(value: T)

  /** The event kinds of `osgGA::GUIEventAdapter` that matter here; the rest are `OtherEvent`. */
  datatype EventType = KeyDown | KeyUp | Push | Release | Frame | OtherEvent

  /** A GUI event: its kind and the key code `getKey()` returns. */
  datatype GuiEvent = GuiEvent(eventType: EventType, key: int)

  /** A 4x4 matrix handed to a manipulator; its entries play no part here. */
  datatype Matrixd = Matrixd(entries: seq<real>)

  /**
   * `char k = ea.getKey()`: the key code converted to a signed 8-bit `char`,
   * which keeps the low byte and reads it in two's complement.
   */
  function KeyChar(key: int): (k: int)
    ensures -128 <= k < 128
    ensures (key - k) % 256 == 0
  {
    var low := key % 256;
    if low >= 128 then low - 256 else low
  }

  predicate IsCameraKey(k: int)
  {
    '1' as int <= k <= '3' as int
  }

  /** The events `CameraSwitcher::handle` acts on: a key-down of 1, 2 or 3 once truncated to a char. */
  predicate Switches(ev: GuiEvent)
  {
    ev.eventType == KeyDown && IsCameraKey(KeyChar(ev.key))
  }

  /**
   * `_activeCamera` after `handle` has seen `ev`: the event switches exactly
   * when it is a key-down whose low byte is the ASCII code of 1, 2 or 3, and
   * then selects camera 0, 1 or 2.
   */
  function NextCamera(activeCamera: int, ev: GuiEvent): (r: int)
    ensures Switches(ev) <==> ev.eventType == KeyDown && 49 <= ev.key % 256 <= 51
    ensures Switches(ev) ==> r == ev.key % 256 - 49
    ensures !Switches(ev) ==> r == activeCamera
  {
    if Switches(ev) then KeyChar(ev.key) - '1' as int else activeCamera
  }

  /** `_activeCamera` after a sequence of events, the last one handled last. */
  function RunEvents(activeCamera: int, events: seq<GuiEvent>): int
    decreases |events|
  {
    if events == [] then activeCamera
    else NextCamera(RunEvents(activeCamera, events[..|events| - 1]), events[|events| - 1])
  }

  /** Starting in range, `_activeCamera` stays in [0, 3), so `_eyes` and `_ups` are indexed in bounds. */
  lemma {:induction false} RunEventsInRange(activeCamera: int, events: seq<GuiEvent>)
    requires 0 <= activeCamera < 3
    ensures 0 <= RunEvents(activeCamera, events) < 3
    decreases |events|
  {
    if events != [] {
      RunEventsInRange(activeCamera, events[..|events| - 1]);
    }
  }

  /** The camera is the one chosen by the last switching event, whatever came after it. */
  lemma {:induction false} LastSwitchWins(activeCamera: int, events: seq<GuiEvent>, i: int)
    requires 0 <= i < |events| && Switches(events[i])
    requires forall j | i < j < |events| :: !Switches(events[j])
    ensures RunEvents(activeCamera, events) == KeyChar(events[i].key) - '1' as int
    decreases |events|
  {
    if i < |events| - 1 {
      var prefix := events[..|events| - 1];
      assert prefix[i] == events[i];
      forall j | i < j < |prefix|
        ensures !Switches(prefix[j])
      {
        assert prefix[j] == events[j];
      }
      LastSwitchWins(activeCamera, prefix, i);
    }
  }

  /** For key codes in the ASCII range, exactly the key-downs of 1, 2 and 3 switch cameras. */
  lemma AsciiKeysSwitch(ev: GuiEvent)
    requires 0 <= ev.key < 128
    ensures Switches(ev) <==> ev.eventType == KeyDown && '1' as int <= ev.key <= '3' as int
  {
  }

  /**
   * Key codes beyond the char range are truncated, not rejected: a key-down
   * whose code is 0x131 switches to camera 0 exactly as the key 1 does.
   */
  lemma WideKeyCodesAlias()
    ensures Switches(GuiEvent(KeyDown, 0x131)) && NextCamera(2, GuiEvent(KeyDown, 0x131)) == 0
  {
    assert KeyChar(0x131) == 49;
  }

  /**
   * `FixedCameraManipulator`: a manipulator that keeps the eye, center and
   * up vectors it was built with. Being told a new matrix changes nothing,
   * and it declines every event.
   */
  datatype FixedCamera = FixedCamera(eye: Vec3, center: Vec3, up: Vec3)
  {
    /** `setByMatrix`: the view is fixed, so the new matrix is ignored. */
    function SetByMatrix(matrix: Matrixd): (r: FixedCamera)
      ensures r.eye == eye && r.center == center && r.up == up
    {
      this
    }

    /** `setByInverseMatrix`: ignored like `setByMatrix`. */
    function SetByInverseMatrix(matrix: Matrixd): (r: FixedCamera)
      ensures r.eye == eye && r.center == center && r.up == up
    {
      this
    }

    /** `handle`: no event moves the camera, and none is reported as consumed. */
    function Handle(ev: GuiEvent): (handled: bool)
      ensures !handled
    {
      false
    }
  }

  /** A call the viewer may make on its manipulator. */
  datatype ManipulatorCall =
    | SetByMatrixCall(matrix: Matrixd)
    | SetByInverseMatrixCall(inverse: Matrixd)
    | HandleCall(ev: GuiEvent)

  /** The manipulator after the viewer has made `calls` on it, in order. */
  function Replay(camera: FixedCamera, calls: seq<ManipulatorCall>): FixedCamera
    decreases |calls|
  {
    if calls == [] then camera
    else
      var next := match calls[0]
        case SetByMatrixCall(m) => camera.SetByMatrix(m)
        case SetByInverseMatrixCall(m) => camera.SetByInverseMatrix(m)
        case HandleCall(_) => camera;
      Replay(next, calls[1..])
  }

  /**
   * Whatever the viewer does, a fixed manipulator keeps its eye, center and
   * up, and it reports every event it is offered as not handled.
   */
  lemma {:induction false} FixedCameraNeverMoves(camera: FixedCamera, calls: seq<ManipulatorCall>)
    ensures Replay(camera, calls) == camera
    ensures forall i | 0 <= i < |calls| && calls[i].HandleCall? :: !camera.Handle(calls[i].ev)
    decreases |calls|
  {
    if calls != [] {
      FixedCameraNeverMoves(camera, calls[1..]);
    }
  }

  /** The part of `osgViewer::Viewer` the switcher uses: its current camera manipulator. */
  class Viewer {
    var manipulator: Option<FixedCamera>

    constructor ()
      ensures manipulator == None
    {
      manipulator := None;
    }

    method SetCameraManipulator(m: FixedCamera)
      modifies this
      ensures manipulator == Some(m)
    {
      manipulator := Some(m);
    }
  }

  /** The three eye positions and the common up vector the switcher is built with. */
  const SwitcherEyes: seq<Vec3> := [Vec3(0.0, -4.0, 0.0), Vec3(0.0, -0.01, 5.0), Vec3(4.0, -4.0, 4.0)]
  const SwitcherUp: Vec3 := Vec3(0.0, 0.0, 1.0)

  /** Each of the three views looks at the origin from a direction not parallel to +z. */
  lemma SwitcherViewsWellDefined(i: int)
    requires 0 <= i < |SwitcherEyes|
    ensures LookAtWellDefined(SwitcherEyes[i], Origin, SwitcherUp)
  {
  }

  /** `CameraSwitcher`: the event handler that installs one of three fixed views on the viewer. */
  class CameraSwitcher {
    const viewer: Viewer
    var eyes: seq<Vec3>
    var ups: seq<Vec3>
    var center: Vec3
    var activeCamera: int

    /**
     * The vectors keep what the constructor put in them, the active camera
     * indexes them in bounds, and the viewer shows that camera's view.
     */
    predicate Valid(): (ok: bool)
      reads this, viewer
      ensures ok ==> 0 <= activeCamera < |eyes| && activeCamera < |ups| && viewer.manipulator.Some?
    {
      && eyes == SwitcherEyes
      && ups == [SwitcherUp, SwitcherUp, SwitcherUp]
      && center == Origin
      && 0 <= activeCamera < 3
      && viewer.manipulator == Some(FixedCamera(eyes[activeCamera], center, ups[activeCamera]))
    }

    constructor (viewer: Viewer)
      modifies viewer
      ensures this.viewer == viewer && activeCamera == 0 && Valid()
    {
      this.viewer := viewer;
      activeCamera := 0;
      var eyes0: seq<Vec3> := [];
      var ups0: seq<Vec3> := [];
      eyes0 := eyes0 + [Vec3(0.0, -4.0, 0.0)];
      ups0 := ups0 + [Vec3(0.0, 0.0, 1.0)];
      eyes0 := eyes0 + [Vec3(0.0, -0.01, 5.0)];
      ups0 := ups0 + [Vec3(0.0, 0.0, 1.0)];
      eyes0 := eyes0 + [Vec3(4.0, -4.0, 4.0)];
      ups0 := ups0 + [Vec3(0.0, 0.0, 1.0)];
      eyes, ups := eyes0, ups0;
      center := Vec3(0.0, 0.0, 0.0);
      new;
      SetManipulator(activeCamera);
    }

    /**
     * `handle`: a key-down of 1, 2 or 3 selects and installs that camera and
     * is reported handled; any other event changes nothing and is declined.
     */
    method Handle(ev: GuiEvent) returns (handled: bool)
      requires Valid()
      modifies this`activeCamera, viewer
      ensures Valid()
      ensures handled == Switches(ev)
      ensures activeCamera == NextCamera(old(activeCamera), ev)
      ensures !handled ==> viewer.manipulator == old(viewer.manipulator)
    {
      if ev.eventType == KeyDown {
        var k := KeyChar(ev.key);
        if k >= '1' as int && k <= '3' as int {
          activeCamera := k - '1' as int;
          SetManipulator(activeCamera);
          return true;
        }
      }
      return false;
    }

    /** Installs a fixed manipulator for camera `idx` on the viewer. */
    method SetManipulator(idx: int)
      requires 0 <= idx < |eyes| && idx < |ups|
      modifies viewer
      ensures viewer.manipulator == Some(FixedCamera(eyes[idx], center, ups[idx]))
    {
      var manip := FixedCamera(eyes[idx], center, ups[idx]);
      viewer.SetCameraManipulator(manip);
    }
  }

  /** Pressing 2 and then 1 leaves camera 0 active and its view installed: the last key wins. */
  method PressTwoThenOne() returns (active: int, installed: Option<FixedCamera>)
    ensures active == 0 && installed == Some(FixedCamera(Vec3(0.0, -4.0, 0.0), Origin, SwitcherUp))
  {
    var viewer := new Viewer();
    var switcher := new CameraSwitcher(viewer);
    var handled := switcher.Handle(GuiEvent(KeyDown, '2' as int));
    handled := switcher.Handle(GuiEvent(KeyUp, '2' as int));
    handled := switcher.Handle(GuiEvent(KeyDown, '1' as int));
    active := switcher.activeCamera;
    installed := viewer.manipulator;
  }

  const PyramidApex: int := 4

  /** A triangle list: whole triangles only, and every index names one of `vertexCount` vertices. */
  predicate IndicesInRange(indices: seq<int>, vertexCount: int)
  {
    |indices| % 3 == 0 && forall i | 0 <= i < |indices| :: 0 <= indices[i] < vertexCount
  }

  /**
   * Six triangles over a square base 0..3 and an apex 4: the two base
   * triangles use only base corners, and each side triangle joins one base
   * edge (s, s + 1 mod 4) to the apex and holds the apex index exactly once.
   */
  predicate PyramidTopology(indices: seq<int>)
  {
    && |indices| == 18
    && (forall i | 0 <= i < 6 :: indices[i] < PyramidApex)
    && (forall s | 0 <= s < 4 ::
          indices[6 + 3 * s] == s && indices[7 + 3 * s] == (s + 1) % 4 && indices[8 + 3 * s] == PyramidApex)
    && (forall t | 2 <= t < 6 :: multiset{indices[3 * t], indices[3 * t + 1], indices[3 * t + 2]}[PyramidApex] == 1)
  }

  /** A square base at z = -0.5 and an apex on the axis above it at z = 0.5. */
  predicate PyramidShape(verts: seq<Vec3>)
  {
    && |verts| == PyramidApex + 1
    && (forall v | 0 <= v < PyramidApex :: verts[v].z == -0.5)
    && verts[PyramidApex] == Vec3(0.0, 0.0, 0.5)
  }

  const PyramidVerts: seq<Vec3> :=
    [Vec3(-0.5, -0.5, -0.5), Vec3(0.5, -0.5, -0.5), Vec3(0.5, 0.5, -0.5), Vec3(-0.5, 0.5, -0.5), Vec3(0.0, 0.0, 0.5)]
  const PyramidIndices: seq<int> := [0, 1, 2, 0, 2, 3, 0, 1, 4, 1, 2, 4, 2, 3, 4, 3, 0, 4]

  /** The pyramid's 18 indices make six whole triangles over its five vertices. */
  lemma PyramidIndicesInRange()
    ensures |PyramidIndices| == 18 && IndicesInRange(PyramidIndices, |PyramidVerts|)
  {
  }

  lemma PyramidTableTopology()
    ensures PyramidTopology(PyramidIndices)
  {
    var indices := PyramidIndices;
    assert forall i | 0 <= i < 6 :: indices[i] < PyramidApex;
    assert forall s | 0 <= s < 4 ::
      indices[6 + 3 * s] == s && indices[7 + 3 * s] == (s + 1) % 4 && indices[8 + 3 * s] == PyramidApex;
    forall t | 2 <= t < 6
      ensures multiset{indices[3 * t], indices[3 * t + 1], indices[3 * t + 2]}[PyramidApex] == 1
    {
      assert indices[3 * t] != PyramidApex && indices[3 * t + 1] != PyramidApex;
    }
  }

  lemma PyramidTableShape()
    ensures PyramidShape(PyramidVerts)
  {
  }

  /** `createScene`'s pyramid, pushed vertex by vertex and index by index. */
  method CreatePyramidGeometry() returns (verts: seq<Vec3>, indices: seq<int>)
    ensures verts == PyramidVerts && indices == PyramidIndices
    ensures IndicesInRange(indices, |verts|) && PyramidTopology(indices) && PyramidShape(verts)
  {
    verts := [];
    verts := verts + [Vec3(-0.5, -0.5, -0.5)];
    verts := verts + [Vec3(0.5, -0.5, -0.5)];
    verts := verts + [Vec3(0.5, 0.5, -0.5)];
    verts := verts + [Vec3(-0.5, 0.5, -0.5)];
    verts := verts + [Vec3(0.0, 0.0, 0.5)];

    indices := [];
    // base
    indices := indices + [0, 1, 2];
    indices := indices + [0, 2, 3];
    // sides
    indices := indices + [0, 1, 4];
    indices := indices + [1, 2, 4];
    indices := indices + [2, 3, 4];
    indices := indices + [3, 0, 4];
    PyramidIndicesInRange();
    PyramidTableTopology();
    PyramidTableShape();
  }
}
