/**
 * The GLFW demo (escena_opengl/p1.c) apart from the sphere generator: the
 * keyboard callback that selects one of three cameras, the eye each camera
 * looks from, and the literal cube and pyramid triangle soups with their
 * draw counts.
 */
module OpenGLScene {
  import opened Geometry
  import Sphere

  // GLFW's action and key codes (glfw3.h).
  const GlfwRelease := 0
  const GlfwPress := 1
  const GlfwRepeat := 2
  const GlfwKey1 := 49
  const GlfwKey2 := 50
  const GlfwKey3 := 51

  /** A key event as `key_callback` sees it; window, scancode and modifiers play no part. */
  datatype KeyEvent = KeyEvent(key: int, action: int)

  /** A press (not a release or auto-repeat) of one of the keys 1, 2, 3. */
  predicate CameraKeyPress(key: int, action: int)
  {
    action == GlfwPress && GlfwKey1 <= key <= GlfwKey3
  }

  /** `activeCamera` after `key_callback` has handled one event. */
  function KeyTransition(activeCamera: int, key: int, action: int): (r: int)
    ensures CameraKeyPress(key, action) ==> r == key - GlfwKey1
    ensures !CameraKeyPress(key, action) ==> r == activeCamera
  {
    if action == GlfwPress then
      if key == GlfwKey1 then 0
      else if key == GlfwKey2 then 1
      else if key == GlfwKey3 then 2
      else activeCamera
    else activeCamera
  }

  /** `activeCamera` after a sequence of key events, the last one handled last. */
  function RunKeys(activeCamera: int, events: seq<KeyEvent>): int
    decreases |events|
  {
    if events == [] then activeCamera
    else
      var last := events[|events| - 1];
      KeyTransition(RunKeys(activeCamera, events[..|events| - 1]), last.key, last.action)
  }

  /** Starting in range, no sequence of key events takes `activeCamera` out of {0, 1, 2}. */
  lemma {:induction false} RunKeysInRange(activeCamera: int, events: seq<KeyEvent>)
    requires 0 <= activeCamera < 3
    ensures 0 <= RunKeys(activeCamera, events) < 3
    decreases |events|
  {
    if events != [] {
      RunKeysInRange(activeCamera, events[..|events| - 1]);
    }
  }

  /** The camera is the one chosen by the last camera-key press, whatever came after it. */
  lemma {:induction false} LastPressWins(activeCamera: int, events: seq<KeyEvent>, i: int)
    requires 0 <= i < |events| && CameraKeyPress(events[i].key, events[i].action)
    requires forall j | i < j < |events| :: !CameraKeyPress(events[j].key, events[j].action)
    ensures RunKeys(activeCamera, events) == events[i].key - GlfwKey1
    decreases |events|
  {
    if i < |events| - 1 {
      var prefix := events[..|events| - 1];
      assert prefix[i] == events[i];
      forall j | i < j < |prefix|
        ensures !CameraKeyPress(prefix[j].key, prefix[j].action)
      {
        assert prefix[j] == events[j];
      }
      LastPressWins(activeCamera, prefix, i);
    }
  }

  /** Without any camera-key press the camera never changes. */
  lemma {:induction false} NoPressKeepsCamera(activeCamera: int, events: seq<KeyEvent>)
    requires forall j | 0 <= j < |events| :: !CameraKeyPress(events[j].key, events[j].action)
    ensures RunKeys(activeCamera, events) == activeCamera
    decreases |events|
  {
    if events != [] {
      var prefix := events[..|events| - 1];
      forall j | 0 <= j < |prefix|
        ensures !CameraKeyPress(prefix[j].key, prefix[j].action)
      {
        assert prefix[j] == events[j];
      }
      NoPressKeepsCamera(activeCamera, prefix);
    }
  }

  /** The program-wide `activeCamera` variable and the callback GLFW invokes on it. */
  class CameraSelection {
    var activeCamera: int

    constructor ()
      ensures activeCamera == 0 && Valid()
    {
      activeCamera := 0;
    }

    predicate Valid()
      reads this
    {
      0 <= activeCamera < 3
    }

    method KeyCallback(key: int, scancode: int, action: int, mods: int)
      modifies this
      ensures activeCamera == KeyTransition(old(activeCamera), key, action)
      ensures old(Valid()) ==> Valid()
    {
      if action == GlfwPress {
        if key == GlfwKey1 {
          activeCamera := 0;
        } else if key == GlfwKey2 {
          activeCamera := 1;
        } else if key == GlfwKey3 {
          activeCamera := 2;
        }
      }
    }
  }

  /** Pressing 2 and then 1 on a fresh program leaves camera 0 active: the last press wins. */
  method PressTwoThenOne() returns (active: int, eye: Vec3)
    ensures active == 0 && eye == Vec3(0.0, 0.0, 4.0)
  {
    var selection := new CameraSelection();
    selection.KeyCallback(GlfwKey2, 0, GlfwPress, 0);
    selection.KeyCallback(GlfwKey2, 0, GlfwRelease, 0);
    selection.KeyCallback(GlfwKey1, 0, GlfwPress, 0);
    active := selection.activeCamera;
    eye := Eye(active);
  }

  // The view the render loop builds each frame: it looks at the origin with +y up.
  const Center: Vec3 := Origin
  const Up: Vec3 := Vec3(0.0, 1.0, 0.0)

  /** The three camera positions, indexed by camera. */
  const Eyes: seq<Vec3> := [Vec3(0.0, 0.0, 4.0), Vec3(0.0, 5.0, 0.01), Vec3(4.0, 4.0, 4.0)]

  /**
   * The eye the render loop picks for `activeCamera`: the camera's own
   * position when it is 0, 1 or 2 and the third position for any other value.
   */
  function Eye(activeCamera: int): (eye: Vec3)
    ensures 0 <= activeCamera < 3 ==> eye == Eyes[activeCamera]
    ensures !(0 <= activeCamera < 3) ==> eye == Eyes[2]
  {
    if activeCamera == 0 then Vec3(0.0, 0.0, 4.0)
    else if activeCamera == 1 then Vec3(0.0, 5.0, 0.01)
    else Vec3(4.0, 4.0, 4.0)
  }

  /** The three cameras really are three different views. */
  lemma EyesDistinct(a: int, b: int)
    requires 0 <= a < 3 && 0 <= b < 3 && Eye(a) == Eye(b)
    ensures a == b
  {
    assert Eye(a) == Eyes[a] && Eye(b) == Eyes[b];
  }

  /**
   * Every camera gives a well-defined look-at view: the top camera is offset
   * by 0.01 along z exactly so that it does not look straight down the up axis.
   */
  lemma EyesGiveViews(activeCamera: int)
    ensures LookAtWellDefined(Eye(activeCamera), Center, Up)
  {
  }

  /** A press of key 1, 2 or 3 shows the view of camera 0, 1 or 2, from any prior state. */
  lemma {:induction false} KeyPressSelectsEye(activeCamera: int, events: seq<KeyEvent>, key: int)
    requires GlfwKey1 <= key <= GlfwKey3
    ensures Eye(RunKeys(activeCamera, events + [KeyEvent(key, GlfwPress)])) == Eyes[key - GlfwKey1]
  {
    var all := events + [KeyEvent(key, GlfwPress)];
    assert all[..|all| - 1] == events;
  }

  /** `glDrawArrays`' vertex count for a float table: `sizeof(table)/sizeof(float)/3`. */
  function DrawCount(floats: seq<real>): (n: int)
    ensures 0 <= n && 3 * n <= |floats| < 3 * n + 3
  {
    |floats| / 3
  }

  /** Whole floats are all the cube and pyramid tables hold: each vertex is three of them. */
  predicate WholeVertices(floats: seq<real>)
  {
    |floats| % 3 == 0
  }

  /** A face written as two triangles (a, b, c), (a, c, d) of the quad a, b, c, d. */
  predicate QuadFace(face: seq<real>)
  {
    |face| == 18 && VertexAt(face, 3) == VertexAt(face, 0) && VertexAt(face, 4) == VertexAt(face, 2)
  }

  predicate OnUnitCube(floats: seq<real>)
  {
    forall i | 0 <= i < |floats| :: floats[i] == 0.5 || floats[i] == -0.5
  }

  const CubeFront: seq<real> := [
      -0.5, -0.5, 0.5, 0.5, -0.5, 0.5, 0.5, 0.5, 0.5,
      -0.5, -0.5, 0.5, 0.5, 0.5, 0.5, -0.5, 0.5, 0.5
    ]
  const CubeBack: seq<real> := [
      -0.5, -0.5, -0.5, -0.5, 0.5, -0.5, 0.5, 0.5, -0.5,
      -0.5, -0.5, -0.5, 0.5, 0.5, -0.5, 0.5, -0.5, -0.5
    ]
  const CubeLeft: seq<real> := [
      -0.5, -0.5, -0.5, -0.5, -0.5, 0.5, -0.5, 0.5, 0.5,
      -0.5, -0.5, -0.5, -0.5, 0.5, 0.5, -0.5, 0.5, -0.5
    ]
  const CubeRight: seq<real> := [
      0.5, -0.5, -0.5, 0.5, 0.5, -0.5, 0.5, 0.5, 0.5,
      0.5, -0.5, -0.5, 0.5, 0.5, 0.5, 0.5, -0.5, 0.5
    ]
  const CubeTop: seq<real> := [
      -0.5, 0.5, -0.5, -0.5, 0.5, 0.5, 0.5, 0.5, 0.5,
      -0.5, 0.5, -0.5, 0.5, 0.5, 0.5, 0.5, 0.5, -0.5
    ]
  const CubeBottom: seq<real> := [
      -0.5, -0.5, -0.5, 0.5, -0.5, -0.5, 0.5, -0.5, 0.5,
      -0.5, -0.5, -0.5, 0.5, -0.5, 0.5, -0.5, -0.5, 0.5
    ]

  /** The cube table, face by face in the order the program lists them. */
  const CubeVertices: seq<real> := CubeFront + CubeBack + CubeLeft + CubeRight + CubeTop + CubeBottom

  const PyramidBase: seq<real> := [
      -0.5, -0.5, -0.5, 0.5, -0.5, -0.5, 0.5, -0.5, 0.5,
      -0.5, -0.5, -0.5, 0.5, -0.5, 0.5, -0.5, -0.5, 0.5
    ]
  /** The four sides, each (base corner, apex, next base corner). */
  const PyramidSides: seq<seq<real>> := [
      [-0.5, -0.5, 0.5, 0.0, 0.5, 0.0, 0.5, -0.5, 0.5],
      [0.5, -0.5, 0.5, 0.0, 0.5, 0.0, 0.5, -0.5, -0.5],
      [0.5, -0.5, -0.5, 0.0, 0.5, 0.0, -0.5, -0.5, -0.5],
      [-0.5, -0.5, -0.5, 0.0, 0.5, 0.0, -0.5, -0.5, 0.5]
    ]
  const PyramidVertices: seq<real> :=
    PyramidBase + PyramidSides[0] + PyramidSides[1] + PyramidSides[2] + PyramidSides[3]

  /** The cube and the pyramid are drawn as 36 and 18 vertices, with no float left over. */
  lemma TableDrawCounts()
    ensures DrawCount(CubeVertices) == 36 && WholeVertices(CubeVertices)
    ensures DrawCount(PyramidVertices) == 18 && WholeVertices(PyramidVertices)
  {
  }

  /** Each of the cube's six faces is a quad split along one diagonal. */
  lemma CubeFacesAreQuads()
    ensures QuadFace(CubeFront) && QuadFace(CubeBack) && QuadFace(CubeLeft)
    ensures QuadFace(CubeRight) && QuadFace(CubeTop) && QuadFace(CubeBottom)
  {
  }

  /** Every cube coordinate is +-0.5: the cube is the unit cube centred on its origin. */
  lemma CubeIsUnitCube()
    ensures OnUnitCube(CubeVertices)
  {
    assert OnUnitCube(CubeFront) && OnUnitCube(CubeBack) && OnUnitCube(CubeLeft);
    assert OnUnitCube(CubeRight) && OnUnitCube(CubeTop) && OnUnitCube(CubeBottom);
  }

  const Apex: Vec3 := Vec3(0.0, 0.5, 0.0)

  /**
   * The pyramid's base vertices lie on the plane y = -0.5; each side triangle
   * has the apex in the middle, and consecutive sides share a base corner, the
   * last closing the fan onto the first.
   */
  lemma PyramidShape()
    ensures forall v | 0 <= v < 6 :: VertexAt(PyramidBase, v).y == -0.5
    ensures forall side | 0 <= side < 4 :: |PyramidSides[side]| == 9 && VertexAt(PyramidSides[side], 1) == Apex
    ensures forall side | 0 <= side < 3 :: VertexAt(PyramidSides[side], 2) == VertexAt(PyramidSides[side + 1], 0)
    ensures VertexAt(PyramidSides[3], 2) == VertexAt(PyramidSides[0], 0)
  {
  }

  /**
   * The sphere as the program builds it (20 x 20 segments): when the buffer is
   * allocated it is drawn as 2400 vertices; otherwise the program stops.
   */
  method CreateSphereObject(trig: Sphere.Trig, allocOk: bool) returns (created: bool, drawCount: int)
    ensures created == allocOk
    ensures created ==> drawCount == 2400
  {
    var vertices, count := Sphere.GenerateSphere(trig, 20, 20, 0, allocOk);
    if vertices == null {
      return false, 0;
    }
    created, drawCount := true, count;
  }
}
