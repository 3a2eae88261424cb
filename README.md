# KirBoard status display and input hooks, in Dafny

A model of the per-keyboard customisation file of the KirBoard split keyboard
(`keyboards/geigeigeist/klor/kirboard.c`). The keyboard firmware host polls it and calls
into it. The file has four self-contained pieces, each modelled and proved here:

- **Redraw scheduler** (`oled_task_user`), in module `Redraw`. Its three static variables
  are `layer_prev`, `wpm_prev_bucket` and `last_draw`. They are the fields of the class
  `RedrawScheduler`, and its `Poll` method runs the source's steps in order. `Poll`
  returns what it rendered (nothing, the splash screen, or the layer screen with its
  name and keymap when the layer has them, plus the WPM field). It also returns the
  sequence of display primitives called, and the `false` the host gets back.
  - `Poll` is proved against the pure function `Step`.
  - Lemmas over `Run`, a sequence of polls, cover the rest: unchanged input never
    repaints; a change absorbed by the frame cap is never painted; two repaints are at
    least `OLED_UPDATE_INTERVAL` (100) apart; every repaint shows the values of its own
    poll.
- **Sprite blitter** (`draw_kirby32x32_at` and the 128-byte `kirbyM` table), in module
  `Sprite`. The display memory of the 128x64 OLED is an `array<u8>` of 1024 bytes,
  updated in place by the two nested loops. The loops are the method `BlitSprite`, which
  takes the sprite bytes as a parameter. `DrawKirbyAt` runs it on `kirbyM`.
  - The result equals `Blit`, the writes applied in order.
  - Lemmas about `Blit`: the 128 written addresses are distinct, each holds its sprite
    byte, and every other byte is unchanged. When the sprite lies on screen, byte `i`
    of sprite page `p` lands on page `y/8 + p`, column `x + i`.
- **Input hooks** (`encoder_update_user`, `process_record_user`), in module
  `InputHooks`. Both are pure decisions: whether to wake the display, which keystroke
  to send, and the constant return value. The contract states the encoder table, and a
  lemma proves that the two turn directions send opposite keystrokes.
- **WPM field** (`snprintf(wbuf, sizeof wbuf, "%3u", wpm_now)`), in module
  `DecimalField`. For every 8-bit value the field has exactly three characters: spaces,
  then the decimal digits, which read back as the value.

Host inputs are parameters: whether this half is the master, the highest layer, the
WPM reported by the host, the timer, and `layer_state_is(0)`. The display primitives are values of
`OledCall`, and sent keystrokes are values of `Tap`.

Four behaviours of the code that the model reproduces as written:

- Each previous value is updated as soon as a difference is seen (kirboard.c:92-93),
  before the frame-cap check can return (kirboard.c:97). So the previous values do not
  record the last repaint: they record the last master poll. A change seen inside the
  rate-limit window is absorbed, and `AbsorbedChangeIsNeverPainted` proves that it is
  never drawn unless something else changes later. This includes the first poll after
  power-on when it comes before time 100 (`FirstPollIsDirty`).
- `wpm_now` is declared `uint8_t` and takes the host's WPM through a cast
  (kirboard.c:79). So a host value of 256 or more is reduced to its low eight bits
  (`WpmSample`, applied by `Poll`). The field is three characters for every value that
  reaches it.
- The comment at kirboard.c:111 mentions a y of 32 that would centre the sprite. The
  call on the next line draws it at (48, 0), and so does the model.
- The encoder table tests `layer_state_is(0)` (kirboard.c:152, 158). It does not test
  the highest active layer. The model takes the result as the input `layer0On`.

## Model

| member | source | states |
|---|---|---|
| `Redraw.Step` | keyboards/geigeigeist/klor/kirboard.c:72-101 | A secondary half changes nothing and draws nothing. On the master half, `layer_prev`/`wpm_prev_bucket` become the current values whether or not it repaints. It repaints iff something changed and at least 100 has elapsed since `last_draw`. `last_draw` becomes `now` exactly when it repaints. A repaint shows the current layer's screen and WPM. |
| `Redraw.RedrawScheduler.Poll` | keyboards/geigeigeist/klor/kirboard.c:72-133 | `oled_task_user` on the class's three fields. The host's WPM is first sampled by `WpmSample`. It always returns `false`. The new fields and the rendered frame are those of `Step` on the sampled WPM, and the display primitives it calls are `Calls` of that frame. |
| `Redraw.RedrawScheduler.constructor` | keyboards/geigeigeist/klor/kirboard.c:85-87 | At power-on both previous values hold the sentinel 0xFF and `last_draw` is 0. |
| `Redraw.ScreenFor` | keyboards/geigeigeist/klor/kirboard.c:106-124 | Layer 0 gives the splash screen. Any other layer gives the layer screen. Its name is `layer_names[layer]`, present exactly when `layer` is below the table's size. Its keymap is `layer_keymap[layer]`, likewise bounded by its own table. |
| `Redraw.Calls` | keyboards/geigeigeist/klor/kirboard.c:99-130 | No primitive is called when nothing is drawn. A repaint has exactly 4 calls plus those of its screen. It starts with `oled_clear` and ends with cursor (0,7), "WPM:" and the field. The splash screen is, in order: cursor (0,0), "KirBoard v1:", cursor (2,4), "Made by Phil George", sprite at (48,0). The layer screen is cursor (0,0) and "Layer:". Then come cursor (7,0) and the name when it has one, then cursor (0,2), then the keymap when it has one. The sprite is drawn iff the screen is the splash, and always where it fits on the display. |
| `Redraw.Render` | keyboards/geigeigeist/klor/kirboard.c:104-130 | The drawing block, entered only once a repaint is due: the frame is the screen of the current layer with the current WPM field, and the primitives called are `Calls` of that frame, in order. |
| `Redraw.WpmSample` | keyboards/geigeigeist/klor/kirboard.c:78-82 | The WPM is the host's value cut to 8 bits, or 0 when WPM tracking is compiled out. |
| `Redraw.Elapsed32` | keyboards/geigeigeist/klor/kirboard.c:97 | The elapsed time is the difference of two 32-bit timer readings modulo 2^32: adding it to `since` gives `now` again, and for `since <= now` it is the plain difference. |
| `Redraw.SamePollTwice` | keyboards/geigeigeist/klor/kirboard.c:91-99 | After any poll, a second poll with the same layer and WPM, at any time, draws nothing and leaves the state unchanged. |
| `Redraw.FirstPollIsDirty` | keyboards/geigeigeist/klor/kirboard.c:85-97 | From the power-on state, every layer below 0xFF is a change. The first master poll repaints iff `now >= 100`. |
| `Redraw.UnchangedInputsNeverRepaint` | keyboards/geigeigeist/klor/kirboard.c:91-99 | Over any sequence of polls: once a layer and WPM have been seen, later polls carrying the same values (or from the secondary half) never repaint and leave the state as it was. |
| `Redraw.AbsorbedChangeIsNeverPainted` | keyboards/geigeigeist/klor/kirboard.c:92-99 | A master poll that sees a change inside the 100 window draws nothing. If the values then stay the same, no later poll ever draws them. |
| `Redraw.RepaintsAreIntervalApart` | keyboards/geigeigeist/klor/kirboard.c:95-101 | In any sequence of polls, two consecutive repaints are at least `OLED_UPDATE_INTERVAL` apart on the 32-bit timer. |
| `Redraw.RepaintsShowCurrentValues` | keyboards/geigeigeist/klor/kirboard.c:101-130 | In any sequence of polls, a repaint happens only on the master half and shows the screen and WPM of the layer and WPM supplied to that same poll. |
| `Redraw.SpacedDirtyPollRepaints` | keyboards/geigeigeist/klor/kirboard.c:91-101 | A master poll that sees a change at least 100 after `last_draw` repaints at once, with the current layer's screen and WPM. |
| `Redraw.SpacedPollsShowLatest` | keyboards/geigeigeist/klor/kirboard.c:91-130 | In a sequence of polls at least 100 apart, the first at least 100 after `last_draw`, every master poll that sees a change repaints that poll's layer and WPM. The frame cap then never holds a change back. |
| `Redraw.LayerTwoScenario` | keyboards/geigeigeist/klor/kirboard.c:113-123 | Moving from layer 0 to layer 2 after the interval repaints "Numeric" and "Numbers and Symbols". |
| `Redraw.LayerTablesHaveSixRows` | keyboards/geigeigeist/klor/kirboard.c:23-39 | `layer_names` and `layer_keymap` have six rows each, the bound `ARRAY_SIZE` checks. |
| `Sprite.BlitSprite` | keyboards/geigeigeist/klor/kirboard.c:58-68 | The nested page/column loops leave display memory equal to `Blit` of the old memory. Every `uint16_t` base address fits in 16 bits. |
| `Sprite.DrawKirbyAt` | keyboards/geigeigeist/klor/kirboard.c:58-68 | `draw_kirby32x32_at(x, y)` leaves display memory equal to the blit of `kirbyM` at (x, y). |
| `Sprite.KirbySize` | keyboards/geigeigeist/klor/kirboard.c:42-55 | `kirbyM` has exactly 128 bytes: four pages of 32 columns. |
| `Sprite.BlitSpec` | keyboards/geigeigeist/klor/kirboard.c:57-68 | The blit writes exactly 128 distinct addresses. Address `(y/8 + p)*128 + x + i` holds sprite byte `p*32 + i`, and every other byte of display memory is unchanged. |
| `Sprite.AddrInjective` | keyboards/geigeigeist/klor/kirboard.c:63-65 | Distinct sprite bytes are written to distinct display addresses. |
| `Sprite.WrittenCount` | keyboards/geigeigeist/klor/kirboard.c:62-67 | The first `n` writes touch exactly `n` distinct addresses. |
| `Sprite.WritesPlaceSprite` | keyboards/geigeigeist/klor/kirboard.c:65 | After the first `n` writes, the address of write `j < n` holds sprite byte `j`; no later write overwrites it. |
| `Sprite.WritesFrame` | keyboards/geigeigeist/klor/kirboard.c:62-67 | A display byte outside the written addresses keeps its old value. |
| `Sprite.PlacementOnScreen` | keyboards/geigeigeist/klor/kirboard.c:57-65 | If `x + 32 <= 128` and `y/8 + 4 <= 8`, byte `i` of sprite page `p` lands on display page `y/8 + p`, column `x + i`, with no wrap onto the next page. A `y` that is not a multiple of 8 is drawn at its page. |
| `DecimalField.Decimal` | keyboards/geigeigeist/klor/kirboard.c:129 | `%u` prints at least one digit, only digits, and no leading zero. |
| `DecimalField.DecimalRoundTrip` | keyboards/geigeigeist/klor/kirboard.c:129 | Reading the printed digits back gives the number. |
| `DecimalField.DecimalAtMostThreeDigits` | keyboards/geigeigeist/klor/kirboard.c:128-129 | A number prints in at most three digits iff it is below 1000. |
| `DecimalField.PadLeft` | keyboards/geigeigeist/klor/kirboard.c:129 | The width of `%3u`: the content is right-justified behind spaces and is never cut. |
| `DecimalField.SnprintfUnsigned` | keyboards/geigeigeist/klor/kirboard.c:128-129 | `snprintf` into a buffer of `size` bytes keeps the first `size - 1` characters of the padded field, and nothing when `size` is 0. |
| `DecimalField.WpmText` | keyboards/geigeigeist/klor/kirboard.c:128-130 | For every `uint8_t` the field has exactly 3 characters: spaces, then the decimal digits with no leading zero; the last character is a digit. Trimming the spaces and reading the digits gives the value back. The 5-byte buffer never truncates it. |
| `DecimalField.WpmTextOneDigit` | keyboards/geigeigeist/klor/kirboard.c:129 | 5 is shown as "  5". |
| `DecimalField.WpmTextThreeDigits` | keyboards/geigeigeist/klor/kirboard.c:129 | 120 is shown as "120". |
| `DecimalField.WideValueIsCut` | keyboards/geigeigeist/klor/kirboard.c:128-129 | A five-digit value would be cut to four characters by the 5-byte buffer. |
| `InputHooks.EncoderUpdate` | keyboards/geigeigeist/klor/kirboard.c:146-165 | Always returns `false`, and wakes the display when the OLED is compiled in. Encoder 0 sends VOLU/VOLD when `layer_state_is(0)` holds and Ctrl+Tab/Ctrl+Shift+Tab otherwise. Encoder 1 sends RGHT/LEFT when it holds and WHLD/WHLU otherwise. Any other index sends nothing. |
| `InputHooks.EncoderDirectionsAreOpposite` | keyboards/geigeigeist/klor/kirboard.c:151-163 | On both encoders and both layer states, a counter-clockwise step sends the opposite of the clockwise step's keystroke, so the two directions always differ. |
| `InputHooks.VolumeUpScenario` | keyboards/geigeigeist/klor/kirboard.c:146-153 | Encoder 0, clockwise, with `layer_state_is(0)` true: wakes the display, sends Volume-Up, suppresses default handling. |
| `InputHooks.ProcessRecord` | keyboards/geigeigeist/klor/kirboard.c:137-144 | Always returns `true` and sends nothing. It wakes the display iff the event is a press and the OLED is compiled in. |

## Left out

- `oled_init_user` (kirboard.c:13-19): display orientation only, and as written it is not
  valid C (missing semicolons; it returns `false` as a rotation). There is nothing to state.
- The OLED driver (`oled_clear`, `oled_set_cursor`, `oled_write`, `oled_write_P`,
  `oled_on`): it belongs to the host. Calls to it are recorded as `OledCall` values or as
  the `wake` flag. The glyphs that text writes put into display memory are not modelled.
  `Render` records the sprite as a `DrawKirby` call, and its effect on display memory is
  modelled by `DrawKirbyAt`.
- `Sprite.DrawKirbyAt`: it requires every address it writes to lie in display memory
  (`Fits`). The source does not check this. An out-of-range index goes to the host's
  `oled_write_raw_byte`, whose behaviour is not part of this model.
- `get_highest_layer`, `layer_state_is`, `get_current_wpm`, `is_keyboard_master`,
  `tap_code`, `tap_code16`: host functions. Their results are inputs, and keystrokes are
  `Tap` values, not HID reports.
- Timers: `now` is an input. `Redraw.SpacedPollsShowLatest` speaks of timer readings
  that increase without wrapping within the sequence. `Redraw.Elapsed32` assumes the
  host's `timer_elapsed32` is the difference of two 32-bit readings modulo 2^32. The code reads the timer twice
  (kirboard.c:97 and 101), and the model uses one reading for both.
- Compile-time switches: `OLED_ENABLE` is the `oledEnabled` parameter of the hooks, and
  `WPM_ENABLE` is the `wpmEnabled` parameter of `Poll`, passed on to `WpmSample`.
  `OLED_UPDATE_INTERVAL` is defined in config.h, so the frame cap is always in effect.
- `OLED_TIMEOUT`, `SPLIT_ACTIVITY_ENABLE` (config.h:6-7): the host owns display power
  timeout and split synchronisation.
- I2C driver and pins, font path (config.h:12-19): build configuration.
- `kirbyM` is declared `const char` and each byte is cast back with `(uint8_t)`. The model
  stores the bytes directly.
- Keycodes are symbolic (`Key`, `Tap`), since their numeric values come from host headers
  that are not part of this model.
