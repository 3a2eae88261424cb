/**
 * The two input hooks the host calls: `process_record_user` for every key event and
 * `encoder_update_user` for every encoder step. Both wake the display; the encoder hook
 * also maps the turn to one keystroke, chosen by encoder, direction and the host's
 * `layer_state_is(0)`.
 */
module InputHooks {
  import opened Bytes

  /** The keycodes the encoders send. */
  datatype Key =
    | VolumeUp      // KC_VOLU
    | VolumeDown    // KC_VOLD
    | Right         // KC_RGHT
    | Left          // KC_LEFT
    | WheelDown     // MS_WHLD
    | WheelUp       // MS_WHLU
    | Tab           // KC_TAB

  /** A keystroke: `tap_code(key)`, or `tap_code16` of the key with modifiers held. */
  datatype Tap =
    | TapCode(key: Key)
    | TapCode16(ctrl: bool, shift: bool, key: Key)

  /**
   * What a hook did: whether it asked the host to switch the display on (`oled_on`),
   * which keystroke it sent, and what it returned (`true`: let the host go on with its
   * own handling).
   */
  datatype HookResult = HookResult(wake: bool, tap: Option<Tap>, result: bool)

  /** `C(KC_TAB)` */
  const CtrlTab: Tap := TapCode16(true, false, Tab)

  /** `C(S(KC_TAB))` */
  const CtrlShiftTab: Tap := TapCode16(true, true, Tab)

  /**
   * `process_record_user(keycode, record)`: wakes the display on a press (when the OLED
   * is compiled in), sends nothing, and never swallows the key.
   */
  function ProcessRecord(oledEnabled: bool, keycode: u16, pressed: bool): (r: HookResult)
    ensures r.result
    ensures r.tap == None
    ensures r.wake <==> oledEnabled && pressed
  {
    HookResult(oledEnabled && pressed, None, true)
  }

  /**
   * `encoder_update_user(index, clockwise)`, where `layer0On` is the host's
   * `layer_state_is(0)`. Encoder 0 is volume when it holds and tab switching
   * otherwise; encoder 1 is the arrow keys when it holds and the scroll wheel
   * otherwise; any other index sends nothing. The display is always woken (when the
   * OLED is compiled in) and default encoder handling is always suppressed.
   */
  function EncoderUpdate(oledEnabled: bool, index: u8, clockwise: bool, layer0On: bool): (r: HookResult)
    ensures !r.result
    ensures r.wake == oledEnabled
    ensures r.tap.Some? <==> index <= 1
    ensures index == 0 && layer0On ==> r.tap == Some(TapCode(if clockwise then VolumeUp else VolumeDown))
    ensures index == 0 && !layer0On ==> r.tap == Some(if clockwise then CtrlTab else CtrlShiftTab)
    ensures index == 1 && layer0On ==> r.tap == Some(TapCode(if clockwise then Right else Left))
    ensures index == 1 && !layer0On ==> r.tap == Some(TapCode(if clockwise then WheelDown else WheelUp))
  {
    var tap :=
      if index == 0 then
        if layer0On then Some(TapCode(if clockwise then VolumeUp else VolumeDown))
        else Some(if clockwise then CtrlTab else CtrlShiftTab)
      else if index == 1 then
        if layer0On then Some(TapCode(if clockwise then Right else Left))
        else Some(TapCode(if clockwise then WheelDown else WheelUp))
      else None;
    HookResult(oledEnabled, tap, false)
  }

  /** The keystroke that undoes a keystroke's effect: the opposite direction of the same control. */
  function Opposite(t: Tap): Tap
  {
    match t
    case TapCode(k) => TapCode(OppositeKey(k))
    case TapCode16(ctrl, shift, k) => if k == Tab then TapCode16(ctrl, !shift, k) else TapCode16(ctrl, shift, OppositeKey(k))
  }

  function OppositeKey(k: Key): Key
  {
    match k
    case VolumeUp => VolumeDown
    case VolumeDown => VolumeUp
    case Right => Left
    case Left => Right
    case WheelDown => WheelUp
    case WheelUp => WheelDown
    case Tab => Tab
  }

  /**
   * Turning an encoder one step back sends the opposite of what the step forward sent,
   * on every encoder and for either answer of `layer_state_is(0)`; so the two directions never send the same keystroke.
   */
  lemma EncoderDirectionsAreOpposite(oledEnabled: bool, index: u8, layer0On: bool)
    requires index <= 1
    ensures EncoderUpdate(oledEnabled, index, false, layer0On).tap
         == Some(Opposite(EncoderUpdate(oledEnabled, index, true, layer0On).tap.value))
    ensures Opposite(Opposite(EncoderUpdate(oledEnabled, index, true, layer0On).tap.value))
         == EncoderUpdate(oledEnabled, index, true, layer0On).tap.value
    ensures EncoderUpdate(oledEnabled, index, false, layer0On).tap
         != EncoderUpdate(oledEnabled, index, true, layer0On).tap
  {
  }

  /** Encoder 0 turned clockwise while `layer_state_is(0)` holds: raises the volume and wakes the display. */
  lemma VolumeUpScenario()
    ensures EncoderUpdate(true, 0, true, true) == HookResult(true, Some(TapCode(VolumeUp)), false)
  {
  }
}
