/**
 * Per-frame keyboard and mouse handling: which animation clip is played,
 * how the character and the camera move, and the mouse and window flags.
 */
module FrameInput {
  import opened Matrices
  import opened SceneGraph

  /** The keys and the mouse button processInput polls, each pressed or not. */
  datatype Keys = Keys(
    escape: bool, leftAlt: bool, leftMouse: bool,
    w: bool, s: bool, a: bool, d: bool, space: bool)

  datatype CursorMode = CursorNormal | CursorDisabled

  // ---------------------------------------------------------------------------
  // Clip selection

  /** The clip played when no clip key is pressed. */
  const IdleClip: nat := 0

  /** A key and the clip it selects. */
  datatype Binding = Binding(pressed: bool, clip: nat)

  /** The clip keys in the order processInput tests them. */
  function ClipBindings(k: Keys): seq<Binding> {
    [Binding(k.w, 1), Binding(k.s, 4), Binding(k.a, 3), Binding(k.d, 2), Binding(k.space, 5)]
  }

  /** The clip of the first pressed key in the list, or the idle clip when none is. */
  function FirstPressed(bs: seq<Binding>): nat
    decreases |bs|
  {
    if bs == [] then IdleClip
    else if bs[0].pressed then bs[0].clip
    else FirstPressed(bs[1..])
  }

  /** The clip one call of processInput plays. */
  function SelectedClip(k: Keys): nat {
    FirstPressed(ClipBindings(k))
  }

  /** A pressed key wins when no key before it in the list is pressed. */
  lemma {:induction false} FirstPressedPicks(bs: seq<Binding>, i: nat)
    requires i < |bs| && bs[i].pressed
    requires forall j | 0 <= j < i :: !bs[j].pressed
    ensures FirstPressed(bs) == bs[i].clip
    decreases i
  {
    if i > 0 {
      FirstPressedPicks(bs[1..], i - 1);
    }
  }

  /** With no key of the list pressed, the idle clip plays. */
  lemma {:induction false} FirstPressedNone(bs: seq<Binding>)
    requires forall j | 0 <= j < |bs| :: !bs[j].pressed
    ensures FirstPressed(bs) == IdleClip
    decreases |bs|
  {
    if bs != [] {
      FirstPressedNone(bs[1..]);
    }
  }

  /**
   * The priority W, S, A, D, SPACE: each key's clip plays exactly when it is
   * the first pressed one; the idle clip plays exactly when none is.
   */
  lemma ClipPriority(k: Keys)
    ensures k.w ==> SelectedClip(k) == 1
    ensures !k.w && k.s ==> SelectedClip(k) == 4
    ensures !k.w && !k.s && k.a ==> SelectedClip(k) == 3
    ensures !k.w && !k.s && !k.a && k.d ==> SelectedClip(k) == 2
    ensures !k.w && !k.s && !k.a && !k.d && k.space ==> SelectedClip(k) == 5
    ensures SelectedClip(k) == IdleClip <==> !(k.w || k.s || k.a || k.d || k.space)
  {
    var bs := ClipBindings(k);
    if k.w {
      FirstPressedPicks(bs, 0);
    } else if k.s {
      FirstPressedPicks(bs, 1);
    } else if k.a {
      FirstPressedPicks(bs, 2);
    } else if k.d {
      FirstPressedPicks(bs, 3);
    } else if k.space {
      FirstPressedPicks(bs, 4);
    } else {
      FirstPressedNone(bs);
    }
  }

  // ---------------------------------------------------------------------------
  // Movement

  const Zero: Vec3 := Vec3(0.0, 0.0, 0.0)

  /** a - b */
  function Sub(a: Vec3, b: Vec3): Vec3 {
    Add(a, Neg(b))
  }

  /** How far the character moves: along +z for W, -z for S, +x for A, -x for D, first pressed first. */
  function CharacterOffset(k: Keys, speed: real): Vec3 {
    if k.w then Vec3(0.0, 0.0, 0.75 * speed)
    else if k.s then Vec3(0.0, 0.0, -(0.5 * speed))
    else if k.a then Vec3(0.75 * speed, 0.0, 0.0)
    else if k.d then Vec3(-(0.75 * speed), 0.0, 0.0)
    else Zero
  }

  /**
   * The camera's extra step along the view: forward along the flattened view
   * direction for W, back for S, against the right vector for A, along it for D.
   */
  function ViewStep(k: Keys, speed: real, flatFront: Vec3, right: Vec3): Vec3 {
    if k.w then Scaled(flatFront, speed)
    else if k.s then Neg(Scaled(flatFront, speed))
    else if k.a then Neg(Scaled(right, speed))
    else if k.d then Scaled(right, speed)
    else Zero
  }

  /** Only the movement keys move the character, each along its own axis and never vertically. */
  lemma CharacterMoves(k: Keys, speed: real)
    requires speed > 0.0
    ensures CharacterOffset(k, speed) != Zero <==> (k.w || k.s || k.a || k.d)
    ensures CharacterOffset(k, speed).y == 0.0
    ensures k.w ==> CharacterOffset(k, speed).z > 0.0 && CharacterOffset(k, speed).x == 0.0
    ensures !k.w && k.s ==> CharacterOffset(k, speed).z < 0.0 && CharacterOffset(k, speed).x == 0.0
    ensures !k.w && !k.s && k.a ==> CharacterOffset(k, speed).x > 0.0 && CharacterOffset(k, speed).z == 0.0
    ensures !k.w && !k.s && !k.a && k.d ==> CharacterOffset(k, speed).x < 0.0 && CharacterOffset(k, speed).z == 0.0
  {
  }

  /**
   * The camera follows the character: after a frame, the camera's position
   * relative to the character has changed by the view step alone.
   */
  lemma CameraFollowsCharacter(cam: Vec3, pos: Vec3, k: Keys, speed: real, flatFront: Vec3, right: Vec3)
    ensures Sub(Add(Add(cam, CharacterOffset(k, speed)), ViewStep(k, speed, flatFront, right)),
                Add(pos, CharacterOffset(k, speed)))
         == Add(Sub(cam, pos), ViewStep(k, speed, flatFront, right))
  {
  }

  // ---------------------------------------------------------------------------
  // processInput

  /** The program state processInput reads and writes, besides the character node. */
  class InputState {
    var cameraPos: Vec3
    var isCameraRotating: bool
    var lastMouseX: real
    var lastMouseY: real
    var cursorMode: CursorMode
    var windowShouldClose: bool
    /** The clips passed to the animator's playAnimation, oldest first. */
    var played: seq<nat>

    /**
     * The state when the render loop starts: the camera where it was placed,
     * not rotating, the zero-initialised cursor record, and the cursor
     * already disabled by the window setup.
     */
    constructor (cameraPos: Vec3)
      ensures this.cameraPos == cameraPos && !isCameraRotating && !windowShouldClose
      ensures lastMouseX == 0.0 && lastMouseY == 0.0
      ensures cursorMode == CursorDisabled && played == []
    {
      this.cameraPos := cameraPos;
      isCameraRotating := false;
      lastMouseX := 0.0;
      lastMouseY := 0.0;
      cursorMode := CursorDisabled;
      windowShouldClose := false;
      played := [];
    }

    /**
     * processInput for one frame: the window and mouse flags, the movement
     * and clip chain, then the cursor disabled again while the button is held.
     * The flattened view direction and the right vector are the normalised
     * vectors the source computes from the camera front and up; the cursor
     * position is what the window reports.
     */
    method ProcessInput(character: Node, k: Keys, deltaTime: real,
                        cursorX: real, cursorY: real, flatFront: Vec3, right: Vec3)
      modifies this, character`position
      ensures played == old(played) + [SelectedClip(k)]
      ensures character.position == Add(old(character.position), CharacterOffset(k, 2.0 * deltaTime))
      ensures cameraPos == Add(Add(old(cameraPos), CharacterOffset(k, 2.0 * deltaTime)),
                               ViewStep(k, 2.0 * deltaTime, flatFront, right))
      ensures Sub(cameraPos, character.position)
           == Add(Sub(old(cameraPos), old(character.position)), ViewStep(k, 2.0 * deltaTime, flatFront, right))
      ensures isCameraRotating == k.leftMouse
      ensures k.leftMouse ==> lastMouseX == cursorX && lastMouseY == cursorY
      ensures !k.leftMouse ==> lastMouseX == old(lastMouseX) && lastMouseY == old(lastMouseY)
      ensures cursorMode == if k.leftMouse then CursorDisabled else if k.leftAlt then CursorNormal else old(cursorMode)
      ensures windowShouldClose == (old(windowShouldClose) || k.escape)
    {
      HandleWindowAndMouse(k, cursorX, cursorY);
      var speed := 2.0 * deltaTime;
      MoveAndPlay(character, k, speed, flatFront, right);
      if k.leftMouse {
        cursorMode := CursorDisabled;
      }
    }

    /** The escape, left-alt and left-button handling at the top of processInput. */
    method HandleWindowAndMouse(k: Keys, cursorX: real, cursorY: real)
      modifies this`windowShouldClose, this`cursorMode, this`isCameraRotating, this`lastMouseX, this`lastMouseY
      ensures isCameraRotating == k.leftMouse
      ensures k.leftMouse ==> lastMouseX == cursorX && lastMouseY == cursorY
      ensures !k.leftMouse ==> lastMouseX == old(lastMouseX) && lastMouseY == old(lastMouseY)
      ensures cursorMode == if k.leftMouse then CursorDisabled else if k.leftAlt then CursorNormal else old(cursorMode)
      ensures windowShouldClose == (old(windowShouldClose) || k.escape)
    {
      if k.escape {
        windowShouldClose := true;
      }
      if k.leftAlt {
        cursorMode := CursorNormal;
      }
      if k.leftMouse {
        cursorMode := CursorDisabled;
        isCameraRotating := true;
        lastMouseX, lastMouseY := cursorX, cursorY;
      } else {
        isCameraRotating := false;
      }
    }

    /**
     * The movement chain of processInput: the first pressed of W, S, A, D moves
     * the character and the camera and plays its clip, SPACE only plays its
     * clip, and the idle clip plays when none of them was pressed.
     */
    method MoveAndPlay(character: Node, k: Keys, speed: real, flatFront: Vec3, right: Vec3)
      modifies this`cameraPos, this`played, character`position
      ensures played == old(played) + [SelectedClip(k)]
      ensures character.position == Add(old(character.position), CharacterOffset(k, speed))
      ensures cameraPos == Add(Add(old(cameraPos), CharacterOffset(k, speed)), ViewStep(k, speed, flatFront, right))
      ensures Sub(cameraPos, character.position)
           == Add(Sub(old(cameraPos), old(character.position)), ViewStep(k, speed, flatFront, right))
    {
      var idle := true;
      var p := character.position;
      if k.w {
        character.position := Vec3(p.x, p.y, p.z + 0.75 * speed);
        cameraPos := cameraPos.(z := cameraPos.z + 0.75 * speed);
        played := played + [1];
        idle := false;
        cameraPos := Add(cameraPos, Scaled(flatFront, speed));
      } else if k.s {
        character.position := Vec3(p.x, p.y, p.z - 0.5 * speed);
        cameraPos := cameraPos.(z := cameraPos.z - 0.5 * speed);
        played := played + [4];
        idle := false;
        cameraPos := Sub(cameraPos, Scaled(flatFront, speed));
      } else if k.a {
        character.position := Vec3(p.x + 0.75 * speed, p.y, p.z);
        cameraPos := cameraPos.(x := cameraPos.x + 0.75 * speed);
        played := played + [3];
        idle := false;
        cameraPos := Sub(cameraPos, Scaled(right, speed));
      } else if k.d {
        character.position := Vec3(p.x - 0.75 * speed, p.y, p.z);
        cameraPos := cameraPos.(x := cameraPos.x - 0.75 * speed);
        played := played + [2];
        idle := false;
        cameraPos := Add(cameraPos, Scaled(right, speed));
      } else if k.space {
        played := played + [5];
        idle := false;
      }

      if idle {
        played := played + [IdleClip];
      }
      ClipPriority(k);
      CameraFollowsCharacter(old(cameraPos), old(character.position), k, speed, flatFront, right);
    }
  }
}
