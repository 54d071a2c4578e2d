/**
 * `src/TransformControlsComponent.jsx`: the transform gizmo around the
 * selected object. Two pieces of state, `mode` and `snap`, are changed by
 * Blender-style keys; the snap increments are derived from `snap`; while the
 * gizmo is dragged the orbit controls are switched off.
 */
module TransformControls {
  import opened Wrappers

  datatype Mode = Translate | Rotate | Scale

  /** The component's state: `[mode, setMode]` and `[snap, setSnap]`. */
  datatype Gizmo = Gizmo(mode: Mode, snap: bool)

  /** The state after one `keydown` whose `e.key` is `key`. */
  function OnKey(g: Gizmo, key: string): (r: Gizmo)
    ensures r.snap != g.snap <==> key == "x"
    ensures r.mode != g.mode ==> key == "g" || key == "r" || key == "s"
  {
    if key == "g" then g.(mode := Translate)
    else if key == "r" then g.(mode := Rotate)
    else if key == "s" then g.(mode := Scale)
    else if key == "x" then g.(snap := !g.snap)
    else g
  }

  /** The four shortcut keys; `e.key` is compared exactly, so "G", "R", "S" and "X" are not among them. */
  predicate IsShortcut(key: string)
  {
    key == "g" || key == "r" || key == "s" || key == "x"
  }

  /** "g", "r" and "s" set the mode and keep snap; "x" flips snap and keeps the mode; any other key changes nothing. */
  lemma KeyEffects(g: Gizmo, key: string)
    ensures key == "g" ==> OnKey(g, key) == Gizmo(Translate, g.snap)
    ensures key == "r" ==> OnKey(g, key) == Gizmo(Rotate, g.snap)
    ensures key == "s" ==> OnKey(g, key) == Gizmo(Scale, g.snap)
    ensures key == "x" ==> OnKey(g, key) == Gizmo(g.mode, !g.snap)
    ensures !IsShortcut(key) ==> OnKey(g, key) == g
  {
  }

  /** Upper-case letters are not shortcuts. */
  lemma UpperCaseIgnored(g: Gizmo)
    ensures OnKey(g, "G") == g && OnKey(g, "R") == g && OnKey(g, "S") == g && OnKey(g, "X") == g
  {
    assert "G" != "g" && "R" != "r" && "S" != "s" && "X" != "x" by {
      assert "G"[0] != "g"[0] && "R"[0] != "r"[0] && "S"[0] != "s"[0] && "X"[0] != "x"[0];
    }
  }

  /** Pressing "x" twice restores the snap setting, and a mode key pressed twice acts once. */
  lemma RepeatedKeys(g: Gizmo, key: string)
    ensures key == "x" ==> OnKey(OnKey(g, key), key) == g
    ensures key != "x" ==> OnKey(OnKey(g, key), key) == OnKey(g, key)
  {
  }

  /** The state after the keys are pressed in turn. */
  function Presses(g: Gizmo, keys: seq<string>): Gizmo
    decreases |keys|
  {
    if keys == [] then g else Presses(OnKey(g, keys[0]), keys[1..])
  }

  /** How many times `key` occurs in `keys`. */
  function Count(keys: seq<string>, key: string): nat
  {
    if keys == [] then 0 else Count(keys[..|keys| - 1], key) + (if keys[|keys| - 1] == key then 1 else 0)
  }

  /** The mode chosen by the last of "g", "r", "s" in `keys`; `m` when there is none. */
  function LastMode(keys: seq<string>, m: Mode): Mode
  {
    if keys == [] then m
    else
      var k := keys[|keys| - 1];
      if k == "g" then Translate
      else if k == "r" then Rotate
      else if k == "s" then Scale
      else LastMode(keys[..|keys| - 1], m)
  }

  /** One more key press acts on the state the earlier ones left. */
  lemma {:induction false} PressesSnoc(g: Gizmo, keys: seq<string>, key: string)
    ensures Presses(g, keys + [key]) == OnKey(Presses(g, keys), key)
    decreases |keys|
  {
    if keys != [] {
      assert (keys + [key])[1..] == keys[1..] + [key];
      PressesSnoc(OnKey(g, keys[0]), keys[1..], key);
    }
  }

  /**
   * After any sequence of key presses the mode is the one named by the last
   * mode key, and snap has been flipped once per "x".
   */
  lemma {:induction false} PressesSpec(g: Gizmo, keys: seq<string>)
    ensures Presses(g, keys).mode == LastMode(keys, g.mode)
    ensures Presses(g, keys).snap == (g.snap != (Count(keys, "x") % 2 == 1))
    decreases |keys|
  {
    if keys != [] {
      var init := keys[..|keys| - 1];
      PressesSpec(g, init);
      PressesSnoc(g, init, keys[|keys| - 1]);
      assert init + [keys[|keys| - 1]] == keys;
    }
  }

  /** An angle of `degrees` degrees, as `THREE.MathUtils.degToRad(degrees)` gives it in radians. */
  datatype Angle = DegToRad(degrees: nat)

  /** The `snapping`, `translationSnap`, `rotationSnap` and `scaleSnap` props. */
  datatype Snaps = Snaps(snapping: bool, translation: Option<real>, rotation: Option<Angle>, scale: Option<real>)

  /** The snap props derived from `snap`: null when off; 0.5, 15 degrees and 0.1 when on. */
  function SnapsFor(snap: bool): (s: Snaps)
    ensures s.snapping == snap
    ensures !snap <==> s.translation.None? && s.rotation.None? && s.scale.None?
    ensures snap ==> s.translation == Some(0.5) && s.rotation == Some(DegToRad(15)) && s.scale == Some(0.1)
  {
    if snap then Snaps(true, Some(0.5), Some(DegToRad(15)), Some(0.1))
    else Snaps(false, None, None, None)
  }

  /** The props of the rendered `<TransformControls>`. */
  datatype Controls = Controls(mode: Mode, localSpace: bool, size: real, showAxes: bool, snaps: Snaps)

  /** What the component renders: controls around the object, or nothing without one. */
  function Render<O>(selected: Option<O>, g: Gizmo): (c: Option<Controls>)
    ensures c.None? <==> selected.None?
    ensures c.Some? ==> c.value.mode == g.mode && c.value.snaps == SnapsFor(g.snap)
  {
    match selected
    case None => None
    case Some(_) => Some(Controls(g.mode, true, 1.0, true, SnapsFor(g.snap)))
  }

  /** Toggling snap twice renders the same controls again. */
  lemma SnapToggleRestoresControls<O>(selected: Option<O>, g: Gizmo)
    ensures Render(selected, OnKey(OnKey(g, "x"), "x")) == Render(selected, g)
  {
    RepeatedKeys(g, "x");
  }

  /** `orbitControlsRef.current`: the orbit controls, of which only `enabled` is written here. */
  class OrbitControls {
    var enabled: bool

    constructor ()
      ensures enabled
    {
      enabled := true;
    }
  }

  /** The drag listener is registered only while there is an object and the controls are mounted. */
  predicate Listening(hasObject: bool, controlsMounted: bool)
  {
    hasObject && controlsMounted
  }

  /** `onDragChange`: orbiting is switched off while dragging and back on after; without orbit controls nothing is written. */
  method OnDragChange(orbit: OrbitControls?, dragging: bool)
    modifies orbit
    ensures orbit != null ==> orbit.enabled == !dragging
  {
    if orbit != null {
      orbit.enabled := !dragging;
    }
  }

  /** A `dragging-changed` event reaches `onDragChange` only while the listener is registered. */
  method DragEvent(hasObject: bool, controlsMounted: bool, orbit: OrbitControls?, dragging: bool)
    modifies orbit
    ensures orbit != null && Listening(hasObject, controlsMounted) ==> orbit.enabled == !dragging
    ensures orbit != null && !Listening(hasObject, controlsMounted) ==> orbit.enabled == old(orbit.enabled)
  {
    if Listening(hasObject, controlsMounted) {
      OnDragChange(orbit, dragging);
    }
  }

  /** The component's state and its key handler. */
  class TransformControlsComponent {
    var mode: Mode
    var snap: bool

    /** `useState("translate")` and `useState(false)`. */
    constructor ()
      ensures mode == Translate && !snap
    {
      mode := Translate;
      snap := false;
    }

    /** `handleKey`: four independent tests of `e.key`, in source order. */
    method HandleKey(key: string)
      modifies this
      ensures Gizmo(mode, snap) == OnKey(Gizmo(old(mode), old(snap)), key)
    {
      if key == "g" {
        mode := Translate;
      }
      if key == "r" {
        mode := Rotate;
      }
      if key == "s" {
        mode := Scale;
      }
      if key == "x" {
        snap := !snap;
      }
    }
  }
}
