/**
 * The event-driven status screen of `oled_task_user`: on every poll from the host's
 * main loop the master half compares the current layer and WPM with the last values
 * it saw, and repaints (at most once per `OLED_UPDATE_INTERVAL` milliseconds) either
 * the splash screen (layer 0) or the layer screen, both ending with the WPM field.
 *
 * The previous values are updated as soon as a change is seen, before the rate limit
 * is checked, so a change that arrives inside the interval is absorbed and is not
 * painted later unless something else changes.
 */
module Redraw {
  import opened Bytes
  import opened DecimalField
  import Sprite

  /** `OLED_UPDATE_INTERVAL`: minimum time between two repaints. */
  const UpdateInterval: nat := 100

  /** Initial value of `layer_prev` and `wpm_prev_bucket`: "nothing seen yet". */
  const NeverSeen: u8 := 0xFF

  /** `layer_names`, indexed by layer. */
  const LayerNames: seq<string> := [
    "Alpha", "Navigation", "Numeric", "Function", "Mouse", "Shortcuts"
  ]

  /** `layer_keymap`, indexed by layer. */
  const LayerKeymap: seq<string> := [
    "Alphabet", "Navigation & Media Utilities", "Numbers and Symbols",
    "Function Keys", "Mouse Control", "Various Shortcut Keys"
  ]

  const SplashTitle: string := "KirBoard v1:"
  const SplashCredit: string := "Made by Phil George"
  const LayerHeader: string := "Layer:"
  const WpmLabel: string := "WPM:"

  /** Where the splash screen draws the sprite. */
  const SplashSpriteX: u8 := 48
  const SplashSpriteY: u8 := 0

  /** `(uint8_t)get_current_wpm()`, or 0 when WPM tracking is compiled out. */
  function WpmSample(wpmEnabled: bool, currentWpm: nat): (w: u8)
    ensures !wpmEnabled ==> w == 0
    ensures wpmEnabled && currentWpm < 0x100 ==> w == currentWpm
    ensures wpmEnabled ==> (currentWpm - w) % 0x100 == 0
  {
    if wpmEnabled then ToU8(currentWpm) else 0
  }

  /** The `i < ARRAY_SIZE(table)` guard: an out-of-range index yields nothing. */
  function Lookup(table: seq<string>, i: nat): Option<string>
  {
    if i < |table| then Some(table[i]) else None
  }

  /** What a repaint shows above the WPM line. */
  datatype Screen =
    | Splash                                               // title, credit, sprite
    | LayerInfo(name: Option<string>, keymap: Option<string>)

  /** What one poll rendered: nothing, or a screen and the three-character WPM field. */
  datatype Frame = NoDraw | Draw(screen: Screen, wpmText: string)

  /** The display primitives a repaint calls, in order. */
  datatype OledCall =
    | Clear                              // oled_clear()
    | SetCursor(col: nat, row: nat)      // oled_set_cursor(col, row)
    | Write(text: string)                // oled_write / oled_write_P
    | DrawKirby(x: u8, y: u8)            // draw_kirby32x32_at(x, y)

  /** The screen for a layer: the splash on layer 0, otherwise the layer's name and keymap when it has them. */
  function ScreenFor(layer: u8): (sc: Screen)
    ensures sc.Splash? <==> layer == 0
    ensures sc.LayerInfo? ==>
      (sc.name.Some? <==> layer < |LayerNames|) && (sc.keymap.Some? <==> layer < |LayerKeymap|)
    ensures sc.LayerInfo? && sc.name.Some? ==> sc.name.value == LayerNames[layer]
    ensures sc.LayerInfo? && sc.keymap.Some? ==> sc.keymap.value == LayerKeymap[layer]
  {
    if layer == 0 then Splash else LayerInfo(Lookup(LayerNames, layer), Lookup(LayerKeymap, layer))
  }

  /** The primitives that draw a screen, between `oled_clear` and the WPM line. */
  function ScreenCalls(sc: Screen): seq<OledCall>
  {
    match sc
    case Splash =>
      [SetCursor(0, 0), Write(SplashTitle), SetCursor(2, 4), Write(SplashCredit),
       DrawKirby(SplashSpriteX, SplashSpriteY)]
    case LayerInfo(name, keymap) =>
      [SetCursor(0, 0), Write(LayerHeader)]
      + (if name.Some? then [SetCursor(7, 0), Write(name.value)] else [])
      + [SetCursor(0, 2)]
      + (if keymap.Some? then [Write(keymap.value)] else [])
  }

  /**
   * The display primitives a frame amounts to. A poll that draws nothing writes
   * nothing. A repaint starts with `oled_clear` and ends with "WPM:" and the field on
   * the last text row. The splash screen writes its two captions at (0,0) and (2,4) and
   * draws the sprite at (48,0), where it fits on the display; the layer screen writes
   * "Layer:" at (0,0), the name at (7,0) only when it has one, moves to (0,2), and
   * writes the keymap there only when it has one. Nothing else is called.
   */
  function Calls(f: Frame): (calls: seq<OledCall>)
    ensures f.NoDraw? <==> calls == []
    ensures f.Draw? ==> |calls| == 4 + ScreenCallCount(f.screen) && calls[0] == Clear
    ensures f.Draw? ==> calls[|calls| - 3..] == [SetCursor(0, 7), Write(WpmLabel), Write(f.wpmText)]
    ensures f.Draw? && f.screen.Splash? ==>
      calls[1..6] == [SetCursor(0, 0), Write(SplashTitle), SetCursor(2, 4), Write(SplashCredit),
                      DrawKirby(48, 0)]
    ensures f.Draw? && f.screen.LayerInfo? ==> calls[1..3] == [SetCursor(0, 0), Write(LayerHeader)]
    ensures f.Draw? && f.screen.LayerInfo? && f.screen.name.Some? ==>
      calls[3..6] == [SetCursor(7, 0), Write(f.screen.name.value), SetCursor(0, 2)]
    ensures f.Draw? && f.screen.LayerInfo? && f.screen.name.None? ==> calls[3] == SetCursor(0, 2)
    ensures f.Draw? && f.screen.LayerInfo? && f.screen.keymap.Some? ==>
      calls[|calls| - 4] == Write(f.screen.keymap.value) && calls[|calls| - 5] == SetCursor(0, 2)
    ensures f.Draw? && f.screen.LayerInfo? && f.screen.keymap.None? ==> calls[|calls| - 4] == SetCursor(0, 2)
    ensures (exists k :: 0 <= k < |calls| && calls[k].DrawKirby?) <==> f.Draw? && f.screen.Splash?
    ensures forall k :: 0 <= k < |calls| && calls[k].DrawKirby? ==>
      Sprite.Fits(calls[k].x, calls[k].y) &&
      calls[k].x + Sprite.SpriteWidth <= Sprite.DisplayWidth &&
      calls[k].y / 8 + Sprite.SpritePages <= Sprite.DisplayHeight / 8
  {
    match f
    case NoDraw => []
    case Draw(sc, wpm) =>
      var calls := [Clear] + ScreenCalls(sc) + [SetCursor(0, 7), Write(WpmLabel), Write(wpm)];
      assert sc.Splash? ==> calls[5] == DrawKirby(SplashSpriteX, SplashSpriteY);
      assert sc.LayerInfo? && sc.name.Some? ==> calls[3..6] == ScreenCalls(sc)[2..5];
      calls
  }

  /** How many primitives a screen calls between `oled_clear` and the WPM line. */
  function ScreenCallCount(sc: Screen): nat
  {
    match sc
    case Splash => 5
    case LayerInfo(name, keymap) => 3 + (if name.Some? then 2 else 0) + (if keymap.Some? then 1 else 0)
  }

  /** The three static variables of `oled_task_user`. */
  datatype SchedState = SchedState(layerPrev: u8, wpmPrevBucket: u8, lastDraw: u32)

  /** Their values at power-on. */
  const Boot: SchedState := SchedState(NeverSeen, NeverSeen, 0)

  /** What the host supplies to one poll. */
  datatype PollInput = PollInput(isMaster: bool, layerNow: u8, wpmNow: u8, now: u32)

  datatype Outcome = Outcome(state: SchedState, frame: Frame)

  /** `timer_elapsed32(since)` at time `now`: the difference of two 32-bit timer readings. */
  function Elapsed32(now: u32, since: u32): (d: u32)
    ensures (since + d) % 0x1_0000_0000 == now
    ensures since <= now ==> d == now - since
  {
    (now - since) % 0x1_0000_0000
  }

  /** Something visible differs from what was last seen. */
  predicate Dirty(s: SchedState, layerNow: u8, wpmNow: u8) {
    layerNow != s.layerPrev || wpmNow != s.wpmPrevBucket
  }

  /** Less than the interval has passed since the last repaint. */
  predicate RateLimited(s: SchedState, now: u32) {
    Elapsed32(now, s.lastDraw) < UpdateInterval
  }

  /**
   * One call of `oled_task_user`. A secondary half changes nothing and draws nothing.
   * On the master half the previous values become the current ones whether or not it
   * repaints; it repaints exactly when something changed and the interval has passed,
   * and then, and only then, `last_draw` becomes `now`. A repaint shows the current
   * layer's screen and WPM.
   */
  function Step(s: SchedState, input: PollInput): (r: Outcome)
    ensures !input.isMaster ==> r == Outcome(s, NoDraw)
    ensures input.isMaster ==>
      r.state.layerPrev == input.layerNow && r.state.wpmPrevBucket == input.wpmNow
    ensures input.isMaster ==>
      (r.frame.Draw? <==> Dirty(s, input.layerNow, input.wpmNow) && !RateLimited(s, input.now))
    ensures r.state.lastDraw == if r.frame.Draw? then input.now else s.lastDraw
    ensures r.frame.Draw? ==>
      r.frame.screen == ScreenFor(input.layerNow) && r.frame.wpmText == WpmText(input.wpmNow)
  {
    if !input.isMaster then Outcome(s, NoDraw)
    else
      var wpmBucket := input.wpmNow;
      var dirty := input.layerNow != s.layerPrev || wpmBucket != s.wpmPrevBucket;
      var seen := SchedState(input.layerNow, wpmBucket, s.lastDraw);
      if dirty && Elapsed32(input.now, s.lastDraw) < UpdateInterval then Outcome(seen, NoDraw)
      else if !dirty then Outcome(seen, NoDraw)
      else Outcome(seen.(lastDraw := input.now), Draw(ScreenFor(input.layerNow), WpmText(input.wpmNow)))
  }

  /** The state after a sequence of polls. */
  function Run(s: SchedState, polls: seq<PollInput>): SchedState
    decreases |polls|
  {
    if polls == [] then s else Step(Run(s, polls[..|polls| - 1]), polls[|polls| - 1]).state
  }

  /** What poll `k` of a sequence rendered. */
  function FrameAt(s: SchedState, polls: seq<PollInput>, k: nat): Frame
    requires k < |polls|
  {
    Step(Run(s, polls[..k]), polls[k]).frame
  }

  lemma RunExtend(s: SchedState, polls: seq<PollInput>, k: nat)
    requires k < |polls|
    ensures Run(s, polls[..k + 1]) == Step(Run(s, polls[..k]), polls[k]).state
  {
    assert polls[..k + 1][..k] == polls[..k];
  }

  /** Polling again with the same layer and WPM repaints nothing and changes nothing. */
  lemma SamePollTwice(s: SchedState, input: PollInput, later: u32)
    ensures var s1 := Step(s, input).state;
      Step(s1, input.(now := later)) == Outcome(s1, NoDraw)
  {
  }

  /** The first master poll after power-on is dirty for every real layer. */
  lemma FirstPollIsDirty(layerNow: u8, wpmNow: u8, now: u32)
    requires layerNow < NeverSeen
    ensures Dirty(Boot, layerNow, wpmNow)
    ensures Step(Boot, PollInput(true, layerNow, wpmNow, now)).frame.Draw? <==> now >= UpdateInterval
  {
  }

  /** Helper: with unchanged layer and WPM from poll `i` on, the state stays as it was before poll `i`. */
  lemma {:induction false} SteadyState(s: SchedState, polls: seq<PollInput>, i: nat, n: nat)
    requires i <= n <= |polls|
    requires forall k :: i <= k < |polls| && polls[k].isMaster ==>
      polls[k].layerNow == Run(s, polls[..i]).layerPrev && polls[k].wpmNow == Run(s, polls[..i]).wpmPrevBucket
    ensures Run(s, polls[..n]) == Run(s, polls[..i])
    decreases n
  {
    if n > i {
      SteadyState(s, polls, i, n - 1);
      RunExtend(s, polls, n - 1);
      var base := Run(s, polls[..i]);
      assert !Dirty(base, polls[n - 1].layerNow, polls[n - 1].wpmNow) || !polls[n - 1].isMaster;
      assert Step(base, polls[n - 1]).state == base;
    }
  }

  /**
   * Idempotence over any number of polls: once the state has seen a layer and WPM, no
   * later poll that carries the same values (or comes from the secondary half) repaints
   * or changes the state, whatever the time.
   */
  lemma UnchangedInputsNeverRepaint(s: SchedState, polls: seq<PollInput>, i: nat)
    requires i <= |polls|
    requires forall k :: i <= k < |polls| && polls[k].isMaster ==>
      polls[k].layerNow == Run(s, polls[..i]).layerPrev && polls[k].wpmNow == Run(s, polls[..i]).wpmPrevBucket
    ensures Run(s, polls) == Run(s, polls[..i])
    ensures forall k :: i <= k < |polls| ==> FrameAt(s, polls, k) == NoDraw
  {
    SteadyState(s, polls, i, |polls|);
    assert polls[..|polls|] == polls;
    forall k | i <= k < |polls|
      ensures FrameAt(s, polls, k) == NoDraw
    {
      SteadyState(s, polls, i, k);
    }
  }

  /**
   * The absorbed change: a master poll that sees a change inside the rate-limit window
   * paints nothing, and if the layer and WPM then stay as they are, no later poll ever
   * paints them, however much time passes.
   */
  lemma AbsorbedChangeIsNeverPainted(s: SchedState, polls: seq<PollInput>)
    requires |polls| >= 1 && polls[0].isMaster
    requires Dirty(s, polls[0].layerNow, polls[0].wpmNow) && RateLimited(s, polls[0].now)
    requires forall k :: 1 <= k < |polls| && polls[k].isMaster ==>
      polls[k].layerNow == polls[0].layerNow && polls[k].wpmNow == polls[0].wpmNow
    ensures forall k :: 0 <= k < |polls| ==> FrameAt(s, polls, k) == NoDraw
  {
    assert polls[..0] == [];
    RunExtend(s, polls, 0);
    UnchangedInputsNeverRepaint(s, polls, 1);
  }

  /** Helper: between two repaints `last_draw` keeps the time of the first one. */
  lemma {:induction false} LastDrawHeld(s: SchedState, polls: seq<PollInput>, k1: nat, n: nat)
    requires k1 < n <= |polls|
    requires FrameAt(s, polls, k1).Draw?
    requires forall k :: k1 < k < n ==> FrameAt(s, polls, k) == NoDraw
    ensures Run(s, polls[..n]).lastDraw == polls[k1].now
    decreases n
  {
    RunExtend(s, polls, n - 1);
    var before := Run(s, polls[..n - 1]);
    var out := Step(before, polls[n - 1]);
    assert out.frame == FrameAt(s, polls, n - 1);
    if n - 1 > k1 {
      assert out.frame == NoDraw;
      LastDrawHeld(s, polls, k1, n - 1);
      assert before.lastDraw == polls[k1].now;
    }
  }

  /**
   * The frame cap: two consecutive repaints in any sequence of polls are at least
   * `OLED_UPDATE_INTERVAL` apart on the 32-bit timer.
   */
  lemma RepaintsAreIntervalApart(s: SchedState, polls: seq<PollInput>, k1: nat, k2: nat)
    requires k1 < k2 < |polls|
    requires FrameAt(s, polls, k1).Draw? && FrameAt(s, polls, k2).Draw?
    requires forall k :: k1 < k < k2 ==> FrameAt(s, polls, k) == NoDraw
    ensures Elapsed32(polls[k2].now, polls[k1].now) >= UpdateInterval
  {
    LastDrawHeld(s, polls, k1, k2);
  }

  /**
   * Every repaint in a sequence of polls shows the layer and WPM supplied to that very
   * poll: the screen never shows stale values.
   */
  lemma RepaintsShowCurrentValues(s: SchedState, polls: seq<PollInput>, k: nat)
    requires k < |polls| && FrameAt(s, polls, k).Draw?
    ensures polls[k].isMaster
    ensures FrameAt(s, polls, k) == Draw(ScreenFor(polls[k].layerNow), WpmText(polls[k].wpmNow))
  {
  }

  /**
   * A change seen by the master half at least `OLED_UPDATE_INTERVAL` after the last
   * repaint is painted at once, with the current layer and WPM.
   */
  lemma SpacedDirtyPollRepaints(s: SchedState, input: PollInput)
    requires input.isMaster && s.lastDraw + UpdateInterval <= input.now
    requires Dirty(s, input.layerNow, input.wpmNow)
    ensures Step(s, input).frame == Draw(ScreenFor(input.layerNow), WpmText(input.wpmNow))
  {
    assert Elapsed32(input.now, s.lastDraw) == input.now - s.lastDraw;
  }

  /** Helper: when polls come at least the interval apart, the last repaint is always one interval back. */
  lemma {:induction false} SpacedPollsLastDraw(s: SchedState, polls: seq<PollInput>, k: nat)
    requires k < |polls|
    requires s.lastDraw + UpdateInterval <= polls[0].now
    requires forall j :: 0 < j < |polls| ==> polls[j - 1].now + UpdateInterval <= polls[j].now
    ensures Run(s, polls[..k]).lastDraw + UpdateInterval <= polls[k].now
    decreases k
  {
    if k == 0 {
      assert polls[..0] == [];
    } else {
      SpacedPollsLastDraw(s, polls, k - 1);
      RunExtend(s, polls, k - 1);
      assert polls[k - 1].now + UpdateInterval <= polls[k].now;
    }
  }

  /**
   * With polls at least `OLED_UPDATE_INTERVAL` apart, the rate limit never holds a
   * change back: every master poll that sees a new layer or WPM repaints it.
   */
  lemma SpacedPollsShowLatest(s: SchedState, polls: seq<PollInput>)
    requires |polls| > 0 ==> s.lastDraw + UpdateInterval <= polls[0].now
    requires forall j :: 0 < j < |polls| ==> polls[j - 1].now + UpdateInterval <= polls[j].now
    ensures forall k ::
      (0 <= k < |polls| && polls[k].isMaster && Dirty(Run(s, polls[..k]), polls[k].layerNow, polls[k].wpmNow)) ==>
      FrameAt(s, polls, k) == Draw(ScreenFor(polls[k].layerNow), WpmText(polls[k].wpmNow))
  {
    forall k | 0 <= k < |polls| && polls[k].isMaster && Dirty(Run(s, polls[..k]), polls[k].layerNow, polls[k].wpmNow)
      ensures FrameAt(s, polls, k) == Draw(ScreenFor(polls[k].layerNow), WpmText(polls[k].wpmNow))
    {
      SpacedPollsLastDraw(s, polls, k);
      SpacedDirtyPollRepaints(Run(s, polls[..k]), polls[k]);
    }
  }

  /** A change to layer 2 once the interval has passed repaints its name and keymap. */
  lemma LayerTwoScenario(wpm: u8, lastDraw: u32, now: u32)
    requires Elapsed32(now, lastDraw) >= UpdateInterval
    ensures Step(SchedState(0, wpm, lastDraw), PollInput(true, 2, wpm, now)).frame
         == Draw(LayerInfo(Some("Numeric"), Some("Numbers and Symbols")), WpmText(wpm))
  {
    assert LayerNames[2] == "Numeric" && LayerKeymap[2] == "Numbers and Symbols";
    assert ScreenFor(2) == LayerInfo(Some(LayerNames[2]), Some(LayerKeymap[2]));
  }

  /** The layer tables have six rows each, the bound `ARRAY_SIZE` checks against. */
  lemma LayerTablesHaveSixRows()
    ensures |LayerNames| == 6 && |LayerKeymap| == 6
  {
  }

  /**
   * The drawing half of `oled_task_user`, run once a repaint is due: clears the
   * display, draws the screen of `layerNow` and the WPM line, and returns the frame
   * together with the primitives it called, in order.
   */
  method Render(layerNow: u8, wpmNow: u8) returns (frame: Frame, calls: seq<OledCall>)
    ensures frame == Draw(ScreenFor(layerNow), WpmText(wpmNow))
    ensures calls == Calls(frame)
  {
    calls := [Clear];
    var screen: Screen;
    if layerNow == 0 {
      screen := Splash;
      calls := calls + [SetCursor(0, 0), Write(SplashTitle), SetCursor(2, 4), Write(SplashCredit)];
      calls := calls + [DrawKirby(SplashSpriteX, SplashSpriteY)];
    } else {
      calls := calls + [SetCursor(0, 0), Write(LayerHeader)];
      var name: Option<string> := None;
      if layerNow < |LayerNames| {
        name := Some(LayerNames[layerNow]);
        calls := calls + [SetCursor(7, 0), Write(LayerNames[layerNow])];
      }
      calls := calls + [SetCursor(0, 2)];
      var keymap: Option<string> := None;
      if layerNow < |LayerKeymap| {
        keymap := Some(LayerKeymap[layerNow]);
        calls := calls + [Write(LayerKeymap[layerNow])];
      }
      screen := LayerInfo(name, keymap);
    }
    assert calls == [Clear] + ScreenCalls(screen);
    var wpmText := WpmText(wpmNow);
    calls := calls + [SetCursor(0, 7), Write(WpmLabel), Write(wpmText)];
    frame := Draw(screen, wpmText);
  }

  /**
   * The static state of `oled_task_user`, held by one object that the host polls.
   */
  class RedrawScheduler {
    var layerPrev: u8
    var wpmPrevBucket: u8
    var lastDraw: u32

    function State(): SchedState
      reads this
    {
      SchedState(layerPrev, wpmPrevBucket, lastDraw)
    }

    /** The state at power-on. */
    constructor ()
      ensures State() == Boot
    {
      layerPrev := NeverSeen;
      wpmPrevBucket := NeverSeen;
      lastDraw := 0;
    }

    /**
     * `oled_task_user()`: returns what was rendered and the display primitives it
     * called, and the `false` the host gets back. `hostWpm` is what `get_current_wpm`
     * reports, sampled as the build says. The new state and the frame are those of
     * `Step` on the sampled WPM.
     */
    method Poll(isMaster: bool, layerNow: u8, wpmEnabled: bool, hostWpm: nat, now: u32)
      returns (frame: Frame, calls: seq<OledCall>, result: bool)
      modifies this
      ensures !result
      ensures Outcome(State(), frame)
           == Step(old(State()), PollInput(isMaster, layerNow, WpmSample(wpmEnabled, hostWpm), now))
      ensures calls == Calls(frame)
    {
      result := false;
      frame := NoDraw;
      calls := [];
      if !isMaster {
        return;
      }
      var wpmNow := WpmSample(wpmEnabled, hostWpm);
      var wpmBucket := wpmNow;
      var dirty := false;
      if layerNow != layerPrev {
        layerPrev := layerNow;
        dirty := true;
      }
      if wpmBucket != wpmPrevBucket {
        wpmPrevBucket := wpmBucket;
        dirty := true;
      }
      if dirty && Elapsed32(now, lastDraw) < UpdateInterval {
        return;
      }
      if !dirty {
        return;
      }
      lastDraw := now;
      frame, calls := Render(layerNow, wpmNow);
    }
  }
}
