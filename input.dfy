/**
 * The keyboard and mouse state machine of src/utility/Input.cpp. One object
 * holds fixed-size flag buffers: the "down" flags persist across frames, the
 * "was pressed / was released" flags are cleared before every event poll and
 * set by the window system's callbacks.
 */
module Input {

  /** GLFW action codes handed to the key and mouse-button callbacks. */
  const GlfwRelease: int := 0
  const GlfwPress: int := 1
  const GlfwRepeat: int := 2

  /** Sentinel value of the last cursor position before the first movement event. */
  const NoPosition: real := -1.0

  /** The cursor mode the button callback hands to the window system. */
  datatype CursorMode = CursorNormal | CursorDisabled

  class Input {
    /** Sizes of the flag buffers (KeyboardKeyCount, MouseButtonCount). */
    const keyCount: nat
    const buttonCount: nat
    /** Index of `Button::Right`. */
    const rightButton: nat

    const keyDown: array<bool>
    const keyPressed: array<bool>
    const keyReleased: array<bool>
    const buttonDown: array<bool>
    const buttonPressed: array<bool>
    const buttonReleased: array<bool>

    var currentX: real
    var currentY: real
    var lastX: real
    var lastY: real
    var currentScrollOffset: real
    var lastScrollOffset: real

    /** The six flag buffers have their declared sizes and are distinct objects. */
    ghost predicate Valid() {
      && keyDown.Length == keyCount && keyPressed.Length == keyCount && keyReleased.Length == keyCount
      && buttonDown.Length == buttonCount && buttonPressed.Length == buttonCount
      && buttonReleased.Length == buttonCount
      && rightButton < buttonCount
      && keyDown != keyPressed && keyDown != keyReleased && keyPressed != keyReleased
      && buttonDown != buttonPressed && buttonDown != buttonReleased && buttonPressed != buttonReleased
      && keyDown != buttonDown && keyDown != buttonPressed && keyDown != buttonReleased
      && keyPressed != buttonDown && keyPressed != buttonPressed && keyPressed != buttonReleased
      && keyReleased != buttonDown && keyReleased != buttonPressed && keyReleased != buttonReleased
    }

    constructor (keyCount: nat, buttonCount: nat, rightButton: nat)
      requires rightButton < buttonCount
      ensures Valid()
      ensures this.keyCount == keyCount && this.buttonCount == buttonCount
      ensures this.rightButton == rightButton
      ensures forall k :: 0 <= k < keyCount ==> !keyDown[k] && !keyPressed[k] && !keyReleased[k]
      ensures forall b :: 0 <= b < buttonCount ==> !buttonDown[b] && !buttonPressed[b] && !buttonReleased[b]
      ensures currentX == 0.0 && currentY == 0.0
      ensures fresh(keyDown) && fresh(keyPressed) && fresh(keyReleased)
      ensures fresh(buttonDown) && fresh(buttonPressed) && fresh(buttonReleased)
      ensures lastX == NoPosition && lastY == NoPosition
      ensures currentScrollOffset == lastScrollOffset == 0.0
    {
      this.keyCount, this.buttonCount, this.rightButton := keyCount, buttonCount, rightButton;
      keyDown := new bool[keyCount](_ => false);
      keyPressed := new bool[keyCount](_ => false);
      keyReleased := new bool[keyCount](_ => false);
      buttonDown := new bool[buttonCount](_ => false);
      buttonPressed := new bool[buttonCount](_ => false);
      buttonReleased := new bool[buttonCount](_ => false);
      currentX, currentY := 0.0, 0.0;
      lastX, lastY := NoPosition, NoPosition;
      currentScrollOffset, lastScrollOffset := 0.0, 0.0;
    }

    /** `preEventPoll`: clears the per-frame flags and makes the current
        cursor position and scroll offset the reference for the next deltas. */
    method PreEventPoll()
      requires Valid()
      modifies this, keyPressed, keyReleased, buttonPressed, buttonReleased
      ensures Valid()
      ensures forall k :: 0 <= k < keyCount ==> !keyPressed[k] && !keyReleased[k]
      ensures forall b :: 0 <= b < buttonCount ==> !buttonPressed[b] && !buttonReleased[b]
      ensures unchanged(keyDown, buttonDown)
      ensures currentX == old(currentX) && currentY == old(currentY)
      ensures currentScrollOffset == old(currentScrollOffset)
      ensures lastX == currentX && lastY == currentY && lastScrollOffset == currentScrollOffset
      ensures MouseDelta() == (0.0, 0.0) && ScrollDelta() == 0.0
    {
      forall k | 0 <= k < keyCount {
        keyPressed[k] := false;
      }
      forall k | 0 <= k < keyCount {
        keyReleased[k] := false;
      }
      forall b | 0 <= b < buttonCount {
        buttonPressed[b] := false;
      }
      forall b | 0 <= b < buttonCount {
        buttonReleased[b] := false;
      }
      lastX := currentX;
      lastY := currentY;
      lastScrollOffset := currentScrollOffset;
    }

    function IsKeyDown(key: nat): bool
      requires Valid() && key < keyCount
      reads keyDown
    {
      keyDown[key]
    }

    function WasKeyPressed(key: nat): bool
      requires Valid() && key < keyCount
      reads keyPressed
    {
      keyPressed[key]
    }

    /** `wasKeyReleased` as written: it reads the PRESSED buffer. */
    function WasKeyReleased(key: nat): bool
      requires Valid() && key < keyCount
      reads keyPressed
    {
      keyPressed[key]
    }

    /** `wasKeyReleased` as evidently intended: it reads the released buffer
        that the key callback sets on a release. */
    function WasKeyReleasedIntended(key: nat): bool
      requires Valid() && key < keyCount
      reads keyReleased
    {
      keyReleased[key]
    }

    function IsButtonDown(button: nat): bool
      requires Valid() && button < buttonCount
      reads buttonDown
    {
      buttonDown[button]
    }

    function WasButtonPressed(button: nat): bool
      requires Valid() && button < buttonCount
      reads buttonPressed
    {
      buttonPressed[button]
    }

    function WasButtonReleased(button: nat): bool
      requires Valid() && button < buttonCount
      reads buttonReleased
    {
      buttonReleased[button]
    }

    /** `mouseDelta`: cursor movement since the last poll. */
    function MouseDelta(): (real, real)
      reads this
    {
      (currentX - lastX, currentY - lastY)
    }

    /** `scrollDelta`: vertical scrolling since the last poll. */
    function ScrollDelta(): real
      reads this
    {
      currentScrollOffset - lastScrollOffset
    }

    /** `keyEventCallback`: a press sets the key's pressed and down flags, a
        release sets its released flag and clears its down flag; repeats and
        unknown actions change nothing. No other key is touched. */
    method KeyEventCallback(key: nat, action: int)
      requires Valid() && key < keyCount
      modifies keyPressed, keyReleased, keyDown
      ensures Valid()
      ensures action == GlfwPress ==>
        && keyPressed[..] == old(keyPressed[..])[key := true]
        && keyDown[..] == old(keyDown[..])[key := true]
        && unchanged(keyReleased)
      ensures action == GlfwRelease ==>
        && keyReleased[..] == old(keyReleased[..])[key := true]
        && keyDown[..] == old(keyDown[..])[key := false]
        && unchanged(keyPressed)
      ensures action != GlfwPress && action != GlfwRelease ==> unchanged(keyPressed, keyReleased, keyDown)
    {
      if action == GlfwPress {
        keyPressed[key] := true;
        keyDown[key] := true;
      } else if action == GlfwRelease {
        keyReleased[key] := true;
        keyDown[key] := false;
      }
    }

    /** `mouseButtonEventCallback`: the key rules for buttons; afterwards the
        cursor is disabled exactly while the right button is down. */
    method MouseButtonEventCallback(button: nat, action: int) returns (mode: CursorMode)
      requires Valid() && button < buttonCount
      modifies buttonPressed, buttonReleased, buttonDown
      ensures Valid()
      ensures action == GlfwPress ==>
        && buttonPressed[..] == old(buttonPressed[..])[button := true]
        && buttonDown[..] == old(buttonDown[..])[button := true]
        && unchanged(buttonReleased)
      ensures action == GlfwRelease ==>
        && buttonReleased[..] == old(buttonReleased[..])[button := true]
        && buttonDown[..] == old(buttonDown[..])[button := false]
        && unchanged(buttonPressed)
      ensures action != GlfwPress && action != GlfwRelease ==>
        unchanged(buttonPressed, buttonReleased, buttonDown)
      ensures mode == CursorDisabled <==> IsButtonDown(rightButton)
    {
      if action == GlfwPress {
        buttonPressed[button] := true;
        buttonDown[button] := true;
      } else if action == GlfwRelease {
        buttonReleased[button] := true;
        buttonDown[button] := false;
      }
      mode := if buttonDown[rightButton] then CursorDisabled else CursorNormal;
    }

    /** `mouseMovementEventCallback`: records the new position; the first
        movement (last position still the sentinel) also becomes the last
        position, so that the first delta is zero. */
    method MouseMovementEventCallback(xPos: real, yPos: real)
      modifies this
      ensures currentX == xPos && currentY == yPos
      ensures old(lastX) == NoPosition ==> lastX == xPos && lastY == yPos && MouseDelta() == (0.0, 0.0)
      ensures old(lastX) != NoPosition ==> lastX == old(lastX) && lastY == old(lastY)
      ensures currentScrollOffset == old(currentScrollOffset) && lastScrollOffset == old(lastScrollOffset)
    {
      currentX := xPos;
      currentY := yPos;
      if lastX == NoPosition {
        lastX := xPos;
        lastY := yPos;
      }
    }

    /** `mouseScrollEventCallback`: accumulates the vertical offset, ignores the horizontal one. */
    method MouseScrollEventCallback(xOffset: real, yOffset: real)
      modifies this
      ensures currentScrollOffset == old(currentScrollOffset) + yOffset
      ensures ScrollDelta() == old(ScrollDelta()) + yOffset
      ensures lastScrollOffset == old(lastScrollOffset)
      ensures currentX == old(currentX) && currentY == old(currentY)
      ensures lastX == old(lastX) && lastY == old(lastY)
    {
      currentScrollOffset := currentScrollOffset + yOffset;
    }
  }

  /** As written, `wasKeyReleased` always agrees with `wasKeyPressed`. */
  lemma ReleasedMirrorsPressed(input: Input, key: nat)
    requires input.Valid() && key < input.keyCount
    ensures input.WasKeyReleased(key) == input.WasKeyPressed(key)
  {
  }

  /** A key released in this frame is not reported released by `wasKeyReleased`
      as written, while the intended reading reports it. */
  method ReleaseAfterPollIsMissed(input: Input, key: nat)
    requires input.Valid() && key < input.keyCount
    modifies input, input.keyPressed, input.keyReleased, input.buttonPressed, input.buttonReleased, input.keyDown
    ensures input.Valid()
    ensures !input.WasKeyReleased(key) && input.WasKeyReleasedIntended(key)
    ensures !input.IsKeyDown(key)
  {
    input.PreEventPoll();
    input.KeyEventCallback(key, GlfwRelease);
    assert input.keyReleased[..][key] && !input.keyPressed[..][key];
  }

  /** With the intended reading, one key event after a poll is reported
      exactly as what it was: released iff it was a release, pressed iff it
      was a press, and down iff it was a press or a repeat of a held key. */
  method PolledKeyEvent(input: Input, key: nat, action: int)
    requires input.Valid() && key < input.keyCount
    modifies input, input.keyPressed, input.keyReleased, input.buttonPressed, input.buttonReleased, input.keyDown
    ensures input.Valid()
    ensures input.WasKeyReleasedIntended(key) <==> action == GlfwRelease
    ensures input.WasKeyPressed(key) <==> action == GlfwPress
    ensures input.IsKeyDown(key) <==> action == GlfwPress || (action != GlfwRelease && old(input.keyDown[key]))
  {
    input.PreEventPoll();
    assert !input.keyPressed[..][key] && !input.keyReleased[..][key];
    input.KeyEventCallback(key, action);
  }

  /** One button event after a poll is reported exactly as what it was, and
      the cursor mode handed back follows the right button. */
  method PolledButtonEvent(input: Input, button: nat, action: int) returns (mode: CursorMode)
    requires input.Valid() && button < input.buttonCount
    modifies input, input.keyPressed, input.keyReleased, input.buttonPressed, input.buttonReleased, input.buttonDown
    ensures input.Valid()
    ensures input.WasButtonReleased(button) <==> action == GlfwRelease
    ensures input.WasButtonPressed(button) <==> action == GlfwPress
    ensures input.IsButtonDown(button) <==>
      action == GlfwPress || (action != GlfwRelease && old(input.buttonDown[button]))
    ensures mode == CursorDisabled <==> input.IsButtonDown(input.rightButton)
  {
    input.PreEventPoll();
    assert !input.buttonPressed[..][button] && !input.buttonReleased[..][button];
    mode := input.MouseButtonEventCallback(button, action);
  }

  /** After a poll, a movement to (x, y) and a scroll by `dy`: the mouse delta
      is the movement from where the cursor was at the poll (zero while the
      last position is still the sentinel) and the scroll delta is `dy`. */
  method PolledMotion(input: Input, x: real, y: real, dx: real, dy: real)
    requires input.Valid()
    modifies input, input.keyPressed, input.keyReleased, input.buttonPressed, input.buttonReleased
    ensures input.Valid()
    ensures input.MouseDelta() ==
      if old(input.currentX) == NoPosition then (0.0, 0.0) else (x - old(input.currentX), y - old(input.currentY))
    ensures input.ScrollDelta() == dy
  {
    input.PreEventPoll();
    input.MouseMovementEventCallback(x, y);
    input.MouseScrollEventCallback(dx, dy);
  }

  /** At start-up, a poll before the first movement event copies the current
      position (0, 0) over the sentinel, so the first movement to (x, y) then
      reports a delta of (x, y) rather than zero. */
  method FirstMoveAfterStartupPoll(keyCount: nat, buttonCount: nat, rightButton: nat, x: real, y: real)
    returns (input: Input)
    requires rightButton < buttonCount
    ensures input.Valid()
    ensures input.MouseDelta() == (x, y)
  {
    input := new Input(keyCount, buttonCount, rightButton);
    input.PreEventPoll();
    input.MouseMovementEventCallback(x, y);
  }
}
