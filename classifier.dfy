/** The per-device gesture classifier run for every MQTT message of one Tap
    Dial (`message_received` in the integration's setup).

    `Classify` is the reference definition of one record's effect: on the
    device state (last accepted action and its time, stored metadata, the
    four button states), on the events fired on the Home Assistant bus and
    on the metadata notifications dispatched to the sensors. `TapDial.Step`
    is the imperative classifier, proved to agree with it. */
module Classifier {
  import opened Values
  import opened Actions

  /** Two identical actions arriving less than this many milliseconds apart
      are one action delivered twice. */
  const DedupWindowMs: int := 100

  datatype PressType = Short | Long
  datatype Direction = Up | Down
  datatype Speed = Slow | Fast

  /** What the classifier fires on the bus. `delta` is the payload's
      `action_brightness_delta` as received, `absDelta` its absolute value. */
  datatype Event =
    | ButtonEvent(button: ButtonNum, pressType: PressType, duration: Option<Value>)
    | DialEvent(direction: Direction, speed: Option<Speed>, delta: Value, absDelta: nat,
                brightness: Option<Value>)
    | CombinedEvent(heldButton: ButtonNum, direction: Direction, speed: Option<Speed>,
                    delta: Value, absDelta: nat, brightness: Option<Value>)

  /** Device metadata forwarded to the sensor entities. */
  datatype MetaField = Battery | LinkQuality | InstalledVersion | LatestVersion | UpdateAvailable
  datatype Notice = Notice(field: MetaField, value: Value)

  datatype ButtonState = ButtonState(down: bool, rotated: bool)
  const Released := ButtonState(false, false)

  /** The classifier's part of the per-device record: the last accepted
      action and its arrival time (ms, monotonic), the stored metadata, and
      the states of buttons 1..4 at indices 0..3. */
  datatype Machine = Machine(lastAction: Option<Value>, lastTime: int,
                             meta: map<MetaField, Value>, buttons: seq<ButtonState>)

  /** A button counts as rotated only while it is down. */
  predicate RotatedOnlyWhileDown(bs: seq<ButtonState>)
  {
    forall i :: 0 <= i < |bs| ==> (bs[i].rotated ==> bs[i].down)
  }

  /** Four buttons, none rotated unless down. */
  predicate Consistent(m: Machine)
  {
    |m.buttons| == 4 && RotatedOnlyWhileDown(m.buttons)
  }

  /** The record built when a config entry is set up. */
  const Initial := Machine(None, 0, map[], [Released, Released, Released, Released])

  /** The effect of one record. */
  datatype Outcome = Outcome(next: Machine, events: seq<Event>, notices: seq<Notice>)

  // ---------------------------------------------------------------------
  // Stages of one record

  /** The metadata notifications a payload carries, in dispatch order. */
  function Metadata(p: map<string, Value>): seq<Notice>
  {
    Note(p, "battery", Battery) + Note(p, "linkquality", LinkQuality) + UpdateNotices(p)
  }

  /** The notification for `key`, when the record carries it. */
  function Note(d: map<string, Value>, key: string, field: MetaField): seq<Notice>
  {
    if key in d then [Notice(field, d[key])] else []
  }

  /** The notifications taken from an `update` object: the two versions when
      present, and the availability flag, which falls back to the object's
      `state` being "available". */
  function UpdateNotices(p: map<string, Value>): seq<Notice>
  {
    if "update" in p && p["update"].Obj? then
      var upd := p["update"].fields;
      Note(upd, "installed_version", InstalledVersion) + Note(upd, "latest_version", LatestVersion)
      + [Notice(UpdateAvailable, GetOr(p, "update_available", Bool(Get(upd, "state") == Some(Str("available")))))]
    else []
  }

  /** Stored metadata after the notifications `ns` were recorded in order. */
  function Record(meta: map<MetaField, Value>, ns: seq<Notice>): map<MetaField, Value>
  {
    if ns == [] then meta
    else Record(meta, ns[..|ns| - 1])[ns[|ns| - 1].field := ns[|ns| - 1].value]
  }

  lemma RecordAppend(meta: map<MetaField, Value>, ns: seq<Notice>, n: Notice)
    ensures Record(meta, ns + [n]) == Record(meta, ns)[n.field := n.value]
  {
    assert (ns + [n])[..|ns|] == ns;
  }

  /** Does `action` name one of button `b`'s four transitions? */
  predicate NamesButton(action: Value, b: ButtonNum)
  {
    || action == Str(Format(ButtonPress, b)) || action == Str(Format(ButtonHold, b))
    || action == Str(Format(ButtonRelease, b)) || action == Str(Format(ButtonHoldRelease, b))
  }

  /** One iteration of the loop over buttons: button `b` in state `st`. */
  function ButtonStep(p: map<string, Value>, action: Value, b: ButtonNum, st: ButtonState)
    : (ButtonState, seq<Event>)
  {
    if action == Str(Format(ButtonPress, b)) || action == Str(Format(ButtonHold, b)) then
      (if st.down then st else ButtonState(true, false), [])
    else if action == Str(Format(ButtonRelease, b)) || action == Str(Format(ButtonHoldRelease, b)) then
      (Released,
       if st.rotated then []
       else [ButtonEvent(b, if Contains(action.s, "press_release") then Short else Long,
                         Get(p, "action_duration"))])
    else
      (st, [])
  }

  /** The loop over buttons 1..n: new states and the events fired so far. */
  function Scan(p: map<string, Value>, action: Value, bs: seq<ButtonState>, n: nat)
    : (r: (seq<ButtonState>, seq<Event>))
    requires |bs| == 4 && n <= 4
    ensures |r.0| == 4
  {
    if n == 0 then (bs, [])
    else
      var prev := Scan(p, action, bs, n - 1);
      var step := ButtonStep(p, action, n, prev.0[n - 1]);
      (prev.0[n - 1 := step.0], prev.1 + step.1)
  }

  /** `down_buttons` restricted to buttons 1..n, in ascending order. */
  function Held(bs: seq<ButtonState>, n: nat): seq<ButtonNum>
    requires |bs| == 4 && n <= 4
  {
    if n == 0 then []
    else Held(bs, n - 1) + (if bs[n - 1].down then [n as ButtonNum] else [])
  }

  function MarkRotated(bs: seq<ButtonState>, b: ButtonNum): seq<ButtonState>
    requires |bs| == 4
  {
    bs[b - 1 := bs[b - 1].(rotated := true)]
  }

  /** A `brightness_step_up`/`_down` action (`up` tells which). */
  function BrightnessStep(p: map<string, Value>, up: bool, bs: seq<ButtonState>)
    : (r: (seq<ButtonState>, seq<Event>))
    requires |bs| == 4
    ensures |r.0| == 4
  {
    var delta := GetOr(p, "action_brightness_delta", Int(0));
    match Numeric(delta)
    case None => (bs, [])  // abs() raises: the record is dropped
    case Some(d) =>
      if Abs(d) == 255 && Numeric(GetOr(p, "action_step_size", Int(0))) == Some(255) then (bs, [])
      else if d == 0 then (bs, [])
      else
        var direction := if up then Up else Down;
        var held := Held(bs, 4);
        if held != [] then
          (MarkRotated(bs, held[0]),
           [CombinedEvent(held[0], direction, None, delta, Abs(d), Get(p, "brightness"))])
        else
          (bs, [DialEvent(direction, None, delta, Abs(d), Get(p, "brightness"))])
  }

  /** A legacy `dial_rotate_*` action. */
  function LegacyRotate(p: map<string, Value>, a: string, bs: seq<ButtonState>)
    : (r: (seq<ButtonState>, seq<Event>))
    requires |bs| == 4
    ensures |r.0| == 4
  {
    if Contains(a, "_step") || "action_brightness_delta" !in p then (bs, [])
    else
      var delta := p["action_brightness_delta"];
      var direction := if Contains(a, "right") then Up else Down;
      var speed := if Contains(a, "fast") then Fast else Slow;
      var held := Held(bs, 4);
      // the held button is marked before abs() is evaluated
      var bs' := if held != [] then MarkRotated(bs, held[0]) else bs;
      match Numeric(delta)
      case None => (bs', [])  // abs() raises: no event
      case Some(d) =>
        (bs', [if held != [] then CombinedEvent(held[0], direction, Some(speed), delta, Abs(d), None)
               else DialEvent(direction, Some(speed), delta, Abs(d), None)])
  }

  /** The dial part of the classifier, after the button loop. */
  function DialStage(p: map<string, Value>, action: Value, bs: seq<ButtonState>)
    : (r: (seq<ButtonState>, seq<Event>))
    requires |bs| == 4
    ensures |r.0| == 4
  {
    if action == Str(BrightnessStepUp) || action == Str(BrightnessStepDown) then
      BrightnessStep(p, action == Str(BrightnessStepUp), bs)
    else if action.Str? && action.s in RotateActions then
      LegacyRotate(p, action.s, bs)
    else
      (bs, [])
  }

  /** Is `action` at `now` a repeat of the last accepted action? */
  predicate IsDuplicate(m: Machine, action: Value, now: int)
  {
    m.lastAction == Some(action) && now - m.lastTime < DedupWindowMs
  }

  /** The effect of one decoded message `msg` arriving at `now` (ms). */
  function Classify(m: Machine, msg: Value, now: int): (r: Outcome)
    requires |m.buttons| == 4
    ensures |r.next.buttons| == 4
  {
    if !msg.Obj? then Outcome(m, [], [])  // payload.get raises
    else
      var p := msg.fields;
      var action := GetOr(p, "action", Null);
      if !Truthy(action) || IsDuplicate(m, action, now) then Outcome(m, [], [])
      else
        var notices := Metadata(p);
        var scanned := Scan(p, action, m.buttons, 4);
        var dialed := DialStage(p, action, scanned.0);
        Outcome(Machine(Some(action), now, Record(m.meta, notices), dialed.0),
                scanned.1 + dialed.1, notices)
  }

  // ---------------------------------------------------------------------
  // The fired events as the bus sees them

  /** The three bus event types: hue_tap_dial_button, hue_tap_dial_dial,
      hue_tap_dial_combined. */
  datatype Bus = ButtonBus | DialBus | CombinedBus

  datatype Fired = Fired(bus: Bus, data: map<string, Value>)

  function PressTypeName(t: PressType): string
  {
    match t
    case Short => "short"
    case Long => "long"
  }

  function DirectionName(d: Direction): string
  {
    match d
    case Up => "up"
    case Down => "down"
  }

  function SpeedName(s: Speed): string
  {
    match s
    case Slow => "slow"
    case Fast => "fast"
  }

  /** `d` with `key` set when `v` is present. */
  function WithOpt(d: map<string, Value>, key: string, v: Option<Value>): map<string, Value>
  {
    if v.Some? then d[key := v.value] else d
  }

  /** The event data dictionary fired for `e` by the device `deviceId`. */
  function Fire(e: Event, deviceId: string): Fired
  {
    match e
    case ButtonEvent(b, t, duration) =>
      Fired(ButtonBus,
            WithOpt(map["button" := Int(b), "press_type" := Str(PressTypeName(t)),
                        "action" := Str("button_" + [Digit(b)] + "_" + PressTypeName(t)),
                        "device_id" := Str(deviceId)],
                    "duration", duration))
    case DialEvent(dir, speed, delta, absDelta, brightness) =>
      Fired(DialBus,
            WithOpt(WithOpt(map["direction" := Str(DirectionName(dir)), "brightness_delta" := delta,
                                "abs_brightness_delta" := Int(absDelta),
                                "action" := Str("brightness_step_" + DirectionName(dir)),
                                "device_id" := Str(deviceId)],
                            "speed", if speed.Some? then Some(Str(SpeedName(speed.value))) else None),
                    "brightness", brightness))
    case CombinedEvent(b, dir, speed, delta, absDelta, brightness) =>
      Fired(CombinedBus,
            WithOpt(WithOpt(map["held_button" := Int(b), "direction" := Str(DirectionName(dir)),
                                "brightness_delta" := delta, "abs_brightness_delta" := Int(absDelta),
                                "action" := Str("button_" + [Digit(b)] + "_dial_brightness_step_"
                                                + DirectionName(dir)),
                                "device_id" := Str(deviceId)],
                            "speed", if speed.Some? then Some(Str(SpeedName(speed.value))) else None),
                    "brightness", brightness))
  }

  // ---------------------------------------------------------------------
  // The imperative classifier

  class TapDial {
    var lastAction: Option<Value>
    var lastTime: int
    var meta: map<MetaField, Value>
    /** `button_states[n]` is `buttons[n - 1]`. */
    const buttons: array<ButtonState>

    ghost function State(): Machine
      reads this, buttons
    {
      Machine(lastAction, lastTime, meta, buttons[..])
    }

    ghost predicate Valid()
      reads this, buttons
    {
      Consistent(State())
    }

    constructor ()
      ensures Valid() && State() == Initial && fresh(buttons)
    {
      lastAction := None;
      lastTime := 0;
      meta := map[];
      buttons := new ButtonState[4](_ => Released);
      new;
      assert buttons[..] == [Released, Released, Released, Released];
    }

    /** The metadata stage: record and return every notification the
        payload carries. */
    method RecordMetadata(p: map<string, Value>) returns (notices: seq<Notice>)
      modifies this
      ensures notices == Metadata(p) && meta == Record(old(meta), notices)
      ensures lastAction == old(lastAction) && lastTime == old(lastTime)
    {
      notices := [];
      ghost var base := meta;
      notices := Store(p, "battery", Battery, base, notices);
      notices := Store(p, "linkquality", LinkQuality, base, notices);
      notices := StoreUpdate(p, base, notices);
    }

    /** Record the `update` object's notifications. */
    method StoreUpdate(p: map<string, Value>, ghost base: map<MetaField, Value>, sofar: seq<Notice>)
      returns (notices: seq<Notice>)
      requires meta == Record(base, sofar)
      modifies this
      ensures notices == sofar + UpdateNotices(p)
      ensures meta == Record(base, notices)
      ensures lastAction == old(lastAction) && lastTime == old(lastTime)
    {
      notices := sofar;
      if "update" in p && p["update"].Obj? {
        var upd := p["update"].fields;
        notices := Store(upd, "installed_version", InstalledVersion, base, notices);
        notices := Store(upd, "latest_version", LatestVersion, base, notices);
        var available := GetOr(p, "update_available", Bool(Get(upd, "state") == Some(Str("available"))));
        RecordAppend(base, notices, Notice(UpdateAvailable, available));
        meta := meta[UpdateAvailable := available];
        notices := notices + [Notice(UpdateAvailable, available)];
      }
    }

    /** Record `d[key]` under `field` when the record carries `key`. */
    method Store(d: map<string, Value>, key: string, field: MetaField,
                 ghost base: map<MetaField, Value>, sofar: seq<Notice>)
      returns (notices: seq<Notice>)
      requires meta == Record(base, sofar)
      modifies this
      ensures notices == sofar + Note(d, key, field)
      ensures meta == Record(base, notices)
      ensures lastAction == old(lastAction) && lastTime == old(lastTime)
    {
      notices := sofar;
      if key in d {
        RecordAppend(base, sofar, Notice(field, d[key]));
        meta := meta[field := d[key]];
        notices := sofar + [Notice(field, d[key])];
      }
    }

    /** The loop over buttons 1..4. */
    method ScanButtons(p: map<string, Value>, action: Value) returns (events: seq<Event>)
      requires buttons.Length == 4
      modifies buttons
      ensures (buttons[..], events) == Scan(p, action, old(buttons[..]), 4)
    {
      events := [];
      for n := 1 to 5
        invariant (buttons[..], events) == Scan(p, action, old(buttons[..]), n - 1)
      {
        ghost var prev := Scan(p, action, old(buttons[..]), n - 1);
        ghost var step := ButtonStep(p, action, n, buttons[n - 1]);
        if action == Str(Format(ButtonPress, n)) || action == Str(Format(ButtonHold, n)) {
          if !buttons[n - 1].down {
            // first press/hold transition
            buttons[n - 1] := ButtonState(true, false);
          }
        } else if action == Str(Format(ButtonRelease, n)) || action == Str(Format(ButtonHoldRelease, n)) {
          var rotated := buttons[n - 1].rotated;
          buttons[n - 1] := Released;
          if !rotated {
            var pressType := if Contains(action.s, "press_release") then Short else Long;
            events := events + [ButtonEvent(n, pressType, Get(p, "action_duration"))];
          }
        }
        assert buttons[..] == prev.0[n - 1 := step.0];
        assert events == prev.1 + step.1;
      }
    }

    /** `down_buttons`: the numbers of the buttons that are down. */
    method DownButtons() returns (held: seq<ButtonNum>)
      requires buttons.Length == 4
      ensures held == Held(buttons[..], 4)
    {
      held := [];
      for n := 1 to 5
        invariant held == Held(buttons[..], n - 1)
      {
        if buttons[n - 1].down {
          held := held + [n];
        }
      }
    }

    /** A `brightness_step_up`/`_down` action; `held` is `down_buttons`. */
    method StepBrightness(p: map<string, Value>, up: bool, held: seq<ButtonNum>) returns (events: seq<Event>)
      requires buttons.Length == 4 && held == Held(buttons[..], 4)
      modifies buttons
      ensures (buttons[..], events) == BrightnessStep(p, up, old(buttons[..]))
    {
      events := [];
      var delta := GetOr(p, "action_brightness_delta", Int(0));
      var d := Numeric(delta);
      if d.None? {
        return;  // abs() raises
      }
      if Abs(d.value) == 255 && Numeric(GetOr(p, "action_step_size", Int(0))) == Some(255) {
        return;  // bogus full-scale message
      }
      // int() of a value abs() accepted is that value
      if d.value == 0 {
        return;
      }
      var direction := if up then Up else Down;
      if held != [] {
        var b := held[0];
        buttons[b - 1] := buttons[b - 1].(rotated := true);
        events := [CombinedEvent(b, direction, None, delta, Abs(d.value), Get(p, "brightness"))];
      } else {
        events := [DialEvent(direction, None, delta, Abs(d.value), Get(p, "brightness"))];
      }
    }

    /** A legacy `dial_rotate_*` action; `held` is `down_buttons`. */
    method StepLegacyRotate(p: map<string, Value>, a: string, held: seq<ButtonNum>) returns (events: seq<Event>)
      requires buttons.Length == 4 && held == Held(buttons[..], 4)
      modifies buttons
      ensures (buttons[..], events) == LegacyRotate(p, a, old(buttons[..]))
    {
      events := [];
      if Contains(a, "_step") {
        return;
      }
      if "action_brightness_delta" !in p {
        return;
      }
      var delta := p["action_brightness_delta"];
      var direction := if Contains(a, "right") then Up else Down;
      var speed := if Contains(a, "fast") then Fast else Slow;
      if held != [] {
        var b := held[0];
        buttons[b - 1] := buttons[b - 1].(rotated := true);
        var d := Numeric(delta);
        if d.None? {
          return;  // abs() raises after the button was marked
        }
        events := [CombinedEvent(b, direction, Some(speed), delta, Abs(d.value), None)];
      } else {
        var d := Numeric(delta);
        if d.None? {
          return;
        }
        events := [DialEvent(direction, Some(speed), delta, Abs(d.value), None)];
      }
    }

    /** The dial part, after the loop over buttons. */
    method DialStageOf(p: map<string, Value>, action: Value, held: seq<ButtonNum>) returns (events: seq<Event>)
      requires buttons.Length == 4 && held == Held(buttons[..], 4)
      modifies buttons
      ensures (buttons[..], events) == DialStage(p, action, old(buttons[..]))
    {
      events := [];
      if action == Str(BrightnessStepUp) || action == Str(BrightnessStepDown) {
        events := StepBrightness(p, action == Str(BrightnessStepUp), held);
        return;
      }
      if action.Str? && action.s in RotateActions {
        events := StepLegacyRotate(p, action.s, held);
        return;
      }
    }

    /** Handle one decoded message arriving at `now` (ms). */
    method Step(msg: Value, now: int) returns (events: seq<Event>, notices: seq<Notice>)
      requires Valid()
      modifies this, buttons
      ensures Valid()
      ensures Outcome(State(), events, notices) == Classify(old(State()), msg, now)
    {
      ghost var m0 := State();
      ClassifyKeepsConsistent(m0, msg, now);
      events, notices := [], [];
      if !msg.Obj? {
        return;
      }
      var p := msg.fields;
      var action := GetOr(p, "action", Null);
      if !Truthy(action) {
        return;
      }
      if lastAction == Some(action) && now - lastTime < DedupWindowMs {
        return;
      }
      lastAction, lastTime := Some(action), now;

      notices := RecordMetadata(p);

      events := ScanButtons(p, action);
      var held := DownButtons();

      var more := DialStageOf(p, action, held);
      events := events + more;
    }
  }

  // ---------------------------------------------------------------------
  // The invariant

  /** `down_buttons` lists exactly the buttons that are down, ascending. */
  lemma {:induction false} HeldExactly(bs: seq<ButtonState>, n: nat)
    requires |bs| == 4 && n <= 4
    ensures forall b: ButtonNum :: b in Held(bs, n) <==> b <= n && bs[b - 1].down
    ensures forall i, j :: 0 <= i < j < |Held(bs, n)| ==> Held(bs, n)[i] < Held(bs, n)[j]
    ensures forall i :: 0 <= i < |Held(bs, n)| ==> Held(bs, n)[i] <= n
  {
    if n > 0 {
      HeldExactly(bs, n - 1);
    }
  }

  /** The first entry of `down_buttons` is the lowest-numbered button that is
      down, and the list is empty exactly when no button is down. */
  lemma LowestHeld(bs: seq<ButtonState>)
    requires |bs| == 4
    ensures var h := Held(bs, 4);
      && (h == [] <==> forall i :: 0 <= i < 4 ==> !bs[i].down)
      && (h != [] ==> bs[h[0] - 1].down && forall i :: 0 <= i < h[0] as int - 1 ==> !bs[i].down)
  {
    var h := Held(bs, 4);
    HeldExactly(bs, 4);
    if h == [] {
      forall i | 0 <= i < 4 ensures !bs[i].down {
        var b: ButtonNum := i + 1;
        assert b !in h;
      }
    } else {
      assert h[0] in h;
      assert forall k :: 0 <= k < |h| ==> h[0] <= h[k];
      forall i | 0 <= i < h[0] as int - 1 ensures !bs[i].down {
        var b: ButtonNum := i + 1;
        assert b !in h;
      }
    }
  }

  lemma {:induction false} ScanKeepsConsistent(p: map<string, Value>, action: Value, bs: seq<ButtonState>, n: nat)
    requires |bs| == 4 && n <= 4
    requires RotatedOnlyWhileDown(bs)
    ensures RotatedOnlyWhileDown(Scan(p, action, bs, n).0)
  {
    if n > 0 {
      ScanKeepsConsistent(p, action, bs, n - 1);
      var prev := Scan(p, action, bs, n - 1).0;
      assert prev[n - 1].rotated ==> prev[n - 1].down;
      var step := ButtonStep(p, action, n, prev[n - 1]);
      assert step.0.rotated ==> step.0.down;
    }
  }

  lemma MarkHeldKeepsConsistent(bs: seq<ButtonState>)
    requires |bs| == 4 && Held(bs, 4) != []
    requires RotatedOnlyWhileDown(bs)
    ensures RotatedOnlyWhileDown(MarkRotated(bs, Held(bs, 4)[0]))
  {
    LowestHeld(bs);
  }

  lemma DialStageKeepsConsistent(p: map<string, Value>, action: Value, bs: seq<ButtonState>)
    requires |bs| == 4
    requires RotatedOnlyWhileDown(bs)
    ensures RotatedOnlyWhileDown(DialStage(p, action, bs).0)
  {
    if Held(bs, 4) != [] {
      MarkHeldKeepsConsistent(bs);
    }
    if action == Str(BrightnessStepUp) || action == Str(BrightnessStepDown) {
      var r := BrightnessStep(p, action == Str(BrightnessStepUp), bs).0;
      assert r == bs || (Held(bs, 4) != [] && r == MarkRotated(bs, Held(bs, 4)[0]));
    } else if action.Str? && action.s in RotateActions {
      var r := LegacyRotate(p, action.s, bs).0;
      assert r == bs || (Held(bs, 4) != [] && r == MarkRotated(bs, Held(bs, 4)[0]));
    }
  }

  /** Every record keeps "rotated implies down" for every button. */
  lemma ClassifyKeepsConsistent(m: Machine, msg: Value, now: int)
    requires Consistent(m)
    ensures Consistent(Classify(m, msg, now).next)
  {
    if msg.Obj? {
      var p := msg.fields;
      var action := GetOr(p, "action", Null);
      ScanKeepsConsistent(p, action, m.buttons, 4);
      DialStageKeepsConsistent(p, action, Scan(p, action, m.buttons, 4).0);
    }
  }
}
