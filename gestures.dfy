/** What the classifier promises, stated over its reference definition
    `Classify`: the filters, the button rules, the dial rules, the
    invariant, and a few gesture sequences end to end. */
module Gestures {
  import opened Values
  import opened Actions
  import opened Classifier

  /** The `action` field of a decoded payload. */
  function ActionOf(msg: Value): Value
    requires msg.Obj?
  {
    GetOr(msg.fields, "action", Null)
  }

  /** The record passes the action check and the duplicate filter. */
  predicate Accepted(m: Machine, msg: Value, now: int)
  {
    msg.Obj? && Truthy(ActionOf(msg)) && !IsDuplicate(m, ActionOf(msg), now)
  }

  /** Button `b` is the lowest-numbered button that is down. */
  predicate LowestDown(bs: seq<ButtonState>, b: ButtonNum)
    requires |bs| == 4
  {
    bs[b - 1].down && forall i :: 0 <= i < b - 1 ==> !bs[i].down
  }

  predicate NoneDown(bs: seq<ButtonState>)
  {
    forall i :: 0 <= i < |bs| ==> !bs[i].down
  }

  // ---------------------------------------------------------------------
  // Filters

  /** A record that is not an object, has no truthy `action`, or repeats the
      last accepted action within the window changes nothing at all: no
      dedup update, no metadata, no event, no button change. */
  lemma RejectedChangesNothing(m: Machine, msg: Value, now: int)
    requires |m.buttons| == 4 && !Accepted(m, msg, now)
    ensures Classify(m, msg, now) == Outcome(m, [], [])
  {
  }

  /** An accepted record becomes the last action at `now` and dispatches its
      metadata, whether or not an event follows. */
  lemma AcceptedUpdatesDedup(m: Machine, msg: Value, now: int)
    requires |m.buttons| == 4 && Accepted(m, msg, now)
    ensures var r := Classify(m, msg, now);
      && r.next.lastAction == Some(ActionOf(msg)) && r.next.lastTime == now
      && r.notices == Metadata(msg.fields) && r.next.meta == Record(m.meta, r.notices)
  {
  }

  /** The same record again less than 100 ms later is dropped, and the
      stored time is not refreshed; 100 ms or more later it is accepted. */
  lemma {:induction false} RepeatWithinWindow(m: Machine, msg: Value, t: int, dt: int)
    requires |m.buttons| == 4 && Accepted(m, msg, t)
    ensures var m1 := Classify(m, msg, t).next;
      && (dt < DedupWindowMs ==> Classify(m1, msg, t + dt) == Outcome(m1, [], []))
      && (dt >= DedupWindowMs ==> Accepted(m1, msg, t + dt))
  {
    AcceptedUpdatesDedup(m, msg, t);
  }

  // ---------------------------------------------------------------------
  // The button loop

  /** Button `n` ignores an action naming another button. */
  lemma OtherButtonIdle(p: map<string, Value>, t: Template, b: ButtonNum, n: ButtonNum, st: ButtonState)
    requires t in ButtonTemplates && n != b
    ensures ButtonStep(p, Str(Format(t, b)), n, st) == (st, [])
  {
    ButtonNamesInjective(t, b, ButtonPress, n);
    ButtonNamesInjective(t, b, ButtonHold, n);
    ButtonNamesInjective(t, b, ButtonRelease, n);
    ButtonNamesInjective(t, b, ButtonHoldRelease, n);
  }

  /** The loop over buttons touches only the button the action names. */
  lemma {:induction false} ScanOneButton(p: map<string, Value>, t: Template, b: ButtonNum,
                                         bs: seq<ButtonState>, n: nat)
    requires t in ButtonTemplates && |bs| == 4 && n <= 4
    ensures var step := ButtonStep(p, Str(Format(t, b)), b, bs[b - 1]);
      Scan(p, Str(Format(t, b)), bs, n) == if n < b then (bs, []) else (bs[b - 1 := step.0], step.1)
  {
    if n > 0 {
      ScanOneButton(p, t, b, bs, n - 1);
      var prev := Scan(p, Str(Format(t, b)), bs, n - 1);
      if n != b {
        OtherButtonIdle(p, t, b, n, prev.0[n - 1]);
        ScanIdleStep(p, Str(Format(t, b)), bs, n);
      } else {
        ScanFirstStep(p, Str(Format(t, b)), bs, n);
      }
    }
  }

  /** An iteration that leaves its button alone leaves the loop's result
      as it was. */
  lemma ScanIdleStep(p: map<string, Value>, action: Value, bs: seq<ButtonState>, n: nat)
    requires |bs| == 4 && 0 < n <= 4
    requires var prev := Scan(p, action, bs, n - 1);
      ButtonStep(p, action, n, prev.0[n - 1]) == (prev.0[n - 1], [])
    ensures Scan(p, action, bs, n) == Scan(p, action, bs, n - 1)
  {
    var prev := Scan(p, action, bs, n - 1);
    assert prev.0[n - 1 := prev.0[n - 1]] == prev.0;
    assert prev.1 + [] == prev.1;
  }

  /** The first iteration that acts, on an untouched table. */
  lemma ScanFirstStep(p: map<string, Value>, action: Value, bs: seq<ButtonState>, n: nat)
    requires |bs| == 4 && 0 < n <= 4 && Scan(p, action, bs, n - 1) == (bs, [])
    ensures var step := ButtonStep(p, action, n, bs[n - 1]);
      Scan(p, action, bs, n) == (bs[n - 1 := step.0], step.1)
  {
    var step := ButtonStep(p, action, n, bs[n - 1]);
    assert [] + step.1 == step.1;
  }

  /** The loop over buttons ignores an action that names no button. */
  lemma {:induction false} ScanNoButton(p: map<string, Value>, action: Value, bs: seq<ButtonState>, n: nat)
    requires |bs| == 4 && n <= 4
    requires forall b: ButtonNum :: !NamesButton(action, b)
    ensures Scan(p, action, bs, n).0 == bs && Scan(p, action, bs, n).1 == []
  {
    if n > 0 {
      ScanNoButton(p, action, bs, n - 1);
      assert !NamesButton(action, n);
      assert bs[n - 1 := bs[n - 1]] == bs;
    }
  }

  /** The dial and brightness names name no button. */
  lemma DialNamesNoButton(a: string)
    requires a in DialActions
    ensures forall b: ButtonNum :: !NamesButton(Str(a), b)
  {
    forall b: ButtonNum ensures !NamesButton(Str(a), b) {
      ButtonNameIsNotDial(ButtonPress, b);
      ButtonNameIsNotDial(ButtonHold, b);
      ButtonNameIsNotDial(ButtonRelease, b);
      ButtonNameIsNotDial(ButtonHoldRelease, b);
    }
  }

  /** An accepted button action: only the named button's state changes, as
      one iteration of the loop says, and the dial stage does nothing. */
  lemma ClassifyButton(m: Machine, msg: Value, now: int, t: Template, b: ButtonNum)
    requires |m.buttons| == 4 && Accepted(m, msg, now)
    requires t in ButtonTemplates && ActionOf(msg) == Str(Format(t, b))
    ensures var step := ButtonStep(msg.fields, ActionOf(msg), b, m.buttons[b - 1]);
      var r := Classify(m, msg, now);
      r.next.buttons == m.buttons[b - 1 := step.0] && r.events == step.1
  {
    var p, action := msg.fields, ActionOf(msg);
    ScanOneButton(p, t, b, m.buttons, 4);
    ButtonNameIsNotDial(t, b);
    assert action.s !in RotateActions;
  }

  /** Press or hold of `b` marks it down and not rotated, unless it is down
      already, in which case the table is unchanged; no event either way. */
  lemma PressRule(m: Machine, msg: Value, now: int, t: Template, b: ButtonNum)
    requires |m.buttons| == 4 && Accepted(m, msg, now)
    requires (t == ButtonPress || t == ButtonHold) && ActionOf(msg) == Str(Format(t, b))
    ensures var r := Classify(m, msg, now);
      && r.events == []
      && r.next.buttons == if m.buttons[b - 1].down then m.buttons
                           else m.buttons[b - 1 := ButtonState(true, false)]
  {
    ClassifyButton(m, msg, now, t, b);
  }

  /** Release of `b` (short or long) always leaves it up and not rotated; a
      button event is fired iff it was not rotated, short exactly for the
      press release, carrying `duration` iff the payload has one. */
  lemma ReleaseRule(m: Machine, msg: Value, now: int, t: Template, b: ButtonNum)
    requires |m.buttons| == 4 && Accepted(m, msg, now)
    requires (t == ButtonRelease || t == ButtonHoldRelease) && ActionOf(msg) == Str(Format(t, b))
    ensures var r := Classify(m, msg, now);
      && r.next.buttons == m.buttons[b - 1 := Released]
      && r.events == if m.buttons[b - 1].rotated then []
                     else [ButtonEvent(b, if t == ButtonRelease then Short else Long,
                                       Get(msg.fields, "action_duration"))]
  {
    ClassifyButton(m, msg, now, t, b);
    ButtonNamesInjective(t, b, ButtonPress, b);
    ButtonNamesInjective(t, b, ButtonHold, b);
    ReleaseNamesSplit(b);
  }

  // ---------------------------------------------------------------------
  // The dial

  /** An accepted dial or brightness action leaves the button loop idle. */
  lemma ClassifyDial(m: Machine, msg: Value, now: int, a: string)
    requires |m.buttons| == 4 && Accepted(m, msg, now)
    requires a in DialActions && ActionOf(msg) == Str(a)
    ensures var d := DialStage(msg.fields, ActionOf(msg), m.buttons);
      var r := Classify(m, msg, now);
      r.next.buttons == d.0 && r.events == d.1
  {
    DialNamesNoButton(a);
    ScanNoButton(msg.fields, ActionOf(msg), m.buttons, 4);
  }

  /** The step's `action_brightness_delta`, 0 when absent. */
  function Delta(msg: Value): Value
    requires msg.Obj?
  {
    GetOr(msg.fields, "action_brightness_delta", Int(0))
  }

  /** The brightness-step filters: a non-numeric delta (abs raises), the
      bogus full-scale message (|delta| = 255 with step size 255), and a
      zero delta. */
  predicate StepFiltered(msg: Value)
    requires msg.Obj?
  {
    || Numeric(Delta(msg)).None?
    || (Abs(Numeric(Delta(msg)).value) == 255
        && Numeric(GetOr(msg.fields, "action_step_size", Int(0))) == Some(255))
    || Numeric(Delta(msg)) == Some(0)
  }

  /** A filtered brightness step fires nothing and leaves the table alone. */
  lemma StepFilteredIgnored(m: Machine, msg: Value, now: int, up: bool)
    requires |m.buttons| == 4 && Accepted(m, msg, now)
    requires ActionOf(msg) == Str(if up then BrightnessStepUp else BrightnessStepDown)
    requires StepFiltered(msg)
    ensures var r := Classify(m, msg, now);
      r.events == [] && r.next.buttons == m.buttons
  {
    ClassifyStep(m, msg, now, up);
  }

  /** A brightness step that passes the filters while button `b` is the
      lowest one down marks `b` rotated and fires one combined event for it,
      with |delta| as the absolute delta. */
  lemma StepWhileHeld(m: Machine, msg: Value, now: int, up: bool, b: ButtonNum)
    requires |m.buttons| == 4 && Accepted(m, msg, now)
    requires ActionOf(msg) == Str(if up then BrightnessStepUp else BrightnessStepDown)
    requires !StepFiltered(msg) && LowestDown(m.buttons, b)
    ensures var r := Classify(m, msg, now);
      var d := Numeric(Delta(msg)).value;
      && r.next.buttons == m.buttons[b - 1 := m.buttons[b - 1].(rotated := true)]
      && r.events == [CombinedEvent(b, if up then Up else Down, None, Delta(msg), Abs(d),
                                    Get(msg.fields, "brightness"))]
  {
    ClassifyStep(m, msg, now, up);
    LowestIsFirstHeld(m.buttons, b);
  }

  /** A brightness step that passes the filters with no button down fires
      one free dial event and leaves the table alone. */
  lemma StepFree(m: Machine, msg: Value, now: int, up: bool)
    requires |m.buttons| == 4 && Accepted(m, msg, now)
    requires ActionOf(msg) == Str(if up then BrightnessStepUp else BrightnessStepDown)
    requires !StepFiltered(msg) && NoneDown(m.buttons)
    ensures var r := Classify(m, msg, now);
      var d := Numeric(Delta(msg)).value;
      && r.next.buttons == m.buttons
      && r.events == [DialEvent(if up then Up else Down, None, Delta(msg), Abs(d),
                                Get(msg.fields, "brightness"))]
  {
    ClassifyStep(m, msg, now, up);
    LowestHeld(m.buttons);
    FreeStep(msg.fields, up, m.buttons);
  }

  lemma FreeStep(p: map<string, Value>, up: bool, bs: seq<ButtonState>)
    requires |bs| == 4 && Held(bs, 4) == []
    ensures var delta := GetOr(p, "action_brightness_delta", Int(0));
      Numeric(delta).Some? && Numeric(delta) != Some(0)
      && !(Abs(Numeric(delta).value) == 255 && Numeric(GetOr(p, "action_step_size", Int(0))) == Some(255))
      ==> BrightnessStep(p, up, bs)
          == (bs, [DialEvent(if up then Up else Down, None, delta, Abs(Numeric(delta).value), Get(p, "brightness"))])
  {
  }

  /** An accepted brightness step is the brightness branch on the table. */
  lemma ClassifyStep(m: Machine, msg: Value, now: int, up: bool)
    requires |m.buttons| == 4 && Accepted(m, msg, now)
    requires ActionOf(msg) == Str(if up then BrightnessStepUp else BrightnessStepDown)
    ensures var r := Classify(m, msg, now);
      (r.next.buttons, r.events) == BrightnessStep(msg.fields, up, m.buttons)
  {
    ClassifyDial(m, msg, now, if up then BrightnessStepUp else BrightnessStepDown);
  }

  lemma LowestIsFirstHeld(bs: seq<ButtonState>, b: ButtonNum)
    requires |bs| == 4 && LowestDown(bs, b)
    ensures Held(bs, 4) != [] && Held(bs, 4)[0] == b
  {
    LowestHeld(bs);
  }

  /** The direction a legacy rotate name stands for. */
  function RotateDirection(a: string): Direction
  {
    if a == DialRotateRightSlow || a == DialRotateRightFast then Up else Down
  }

  /** The speed a legacy rotate name stands for. */
  function RotateSpeed(a: string): Speed
  {
    if a == DialRotateLeftFast || a == DialRotateRightFast then Fast else Slow
  }

  /** The legacy rotate branch, with the substring tests on the name
      replaced by what they decide. */
  lemma LegacyRotateByName(p: map<string, Value>, a: string, bs: seq<ButtonState>)
    requires |bs| == 4 && a in RotateActions && "action_brightness_delta" in p
    ensures var delta := p["action_brightness_delta"];
      var held := Held(bs, 4);
      var marked := if held != [] then MarkRotated(bs, held[0]) else bs;
      LegacyRotate(p, a, bs) ==
        (marked,
         match Numeric(delta)
         case None => []
         case Some(d) =>
           [if held != [] then CombinedEvent(held[0], RotateDirection(a), Some(RotateSpeed(a)), delta, Abs(d), None)
            else DialEvent(RotateDirection(a), Some(RotateSpeed(a)), delta, Abs(d), None)])
  {
    RotateNamesHaveNoStep(a);
    RotateNameRight(a);
    RotateNameFast(a);
  }

  /** An accepted legacy rotate is the legacy rotate branch on the table. */
  lemma ClassifyRotate(m: Machine, msg: Value, now: int, a: string)
    requires |m.buttons| == 4 && Accepted(m, msg, now)
    requires a in RotateActions && ActionOf(msg) == Str(a)
    ensures var r := Classify(m, msg, now);
      (r.next.buttons, r.events) == LegacyRotate(msg.fields, a, m.buttons)
  {
    ClassifyDial(m, msg, now, a);
  }

  /** A legacy rotate without `action_brightness_delta` does nothing. */
  lemma RotateWithoutDelta(m: Machine, msg: Value, now: int, a: string)
    requires |m.buttons| == 4 && Accepted(m, msg, now)
    requires a in RotateActions && ActionOf(msg) == Str(a)
    requires "action_brightness_delta" !in msg.fields
    ensures var r := Classify(m, msg, now);
      r.events == [] && r.next.buttons == m.buttons
  {
    ClassifyDial(m, msg, now, a);
  }

  /** A legacy rotate with a numeric delta while `b` is the lowest button
      down marks `b` rotated and fires a combined event whose direction is up
      exactly for the right-hand names and whose speed is fast exactly for
      the fast names. */
  lemma RotateWhileHeld(m: Machine, msg: Value, now: int, a: string, b: ButtonNum, d: int)
    requires |m.buttons| == 4 && Accepted(m, msg, now)
    requires a in RotateActions && ActionOf(msg) == Str(a)
    requires "action_brightness_delta" in msg.fields
    requires Numeric(msg.fields["action_brightness_delta"]) == Some(d)
    requires LowestDown(m.buttons, b)
    ensures var r := Classify(m, msg, now);
      && r.next.buttons == m.buttons[b - 1 := m.buttons[b - 1].(rotated := true)]
      && r.events == [CombinedEvent(b, RotateDirection(a), Some(RotateSpeed(a)),
                                    msg.fields["action_brightness_delta"], Abs(d), None)]
  {
    ClassifyRotate(m, msg, now, a);
    HeldRotate(msg.fields, a, m.buttons, b, d);
  }

  lemma HeldRotate(p: map<string, Value>, a: string, bs: seq<ButtonState>, b: ButtonNum, d: int)
    requires |bs| == 4 && a in RotateActions && "action_brightness_delta" in p
    requires Numeric(p["action_brightness_delta"]) == Some(d) && LowestDown(bs, b)
    ensures LegacyRotate(p, a, bs)
         == (bs[b - 1 := bs[b - 1].(rotated := true)],
             [CombinedEvent(b, RotateDirection(a), Some(RotateSpeed(a)), p["action_brightness_delta"], Abs(d), None)])
  {
    LegacyRotateByName(p, a, bs);
    LowestIsFirstHeld(bs, b);
  }

  /** A legacy rotate with a numeric delta and no button down fires a free
      dial event with the name's direction and speed. */
  lemma RotateFree(m: Machine, msg: Value, now: int, a: string, d: int)
    requires |m.buttons| == 4 && Accepted(m, msg, now)
    requires a in RotateActions && ActionOf(msg) == Str(a)
    requires "action_brightness_delta" in msg.fields
    requires Numeric(msg.fields["action_brightness_delta"]) == Some(d)
    requires NoneDown(m.buttons)
    ensures var r := Classify(m, msg, now);
      && r.next.buttons == m.buttons
      && r.events == [DialEvent(RotateDirection(a), Some(RotateSpeed(a)),
                                msg.fields["action_brightness_delta"], Abs(d), None)]
  {
    ClassifyRotate(m, msg, now, a);
    FreeRotate(msg.fields, a, m.buttons, d);
  }

  lemma FreeRotate(p: map<string, Value>, a: string, bs: seq<ButtonState>, d: int)
    requires |bs| == 4 && a in RotateActions && "action_brightness_delta" in p
    requires Numeric(p["action_brightness_delta"]) == Some(d) && NoneDown(bs)
    ensures LegacyRotate(p, a, bs)
         == (bs, [DialEvent(RotateDirection(a), Some(RotateSpeed(a)), p["action_brightness_delta"], Abs(d), None)])
  {
    LegacyRotateByName(p, a, bs);
    LowestHeld(bs);
  }

  /** A legacy rotate whose delta is not a number, while `b` is held: `b` is
      marked rotated before abs() raises, so no event is fired but the
      release of `b` will be suppressed. */
  lemma RotateBadDeltaStillMarks(m: Machine, msg: Value, now: int, a: string, b: ButtonNum)
    requires |m.buttons| == 4 && Accepted(m, msg, now)
    requires a in RotateActions && ActionOf(msg) == Str(a)
    requires "action_brightness_delta" in msg.fields
    requires Numeric(msg.fields["action_brightness_delta"]).None?
    requires LowestDown(m.buttons, b)
    ensures var r := Classify(m, msg, now);
      r.events == [] && r.next.buttons == m.buttons[b - 1 := m.buttons[b - 1].(rotated := true)]
  {
    ClassifyRotate(m, msg, now, a);
    BadDeltaRotate(msg.fields, a, m.buttons, b);
  }

  lemma BadDeltaRotate(p: map<string, Value>, a: string, bs: seq<ButtonState>, b: ButtonNum)
    requires |bs| == 4 && a in RotateActions && "action_brightness_delta" in p
    requires Numeric(p["action_brightness_delta"]).None? && LowestDown(bs, b)
    ensures LegacyRotate(p, a, bs) == (bs[b - 1 := bs[b - 1].(rotated := true)], [])
  {
    LegacyRotateByName(p, a, bs);
    LowestIsFirstHeld(bs, b);
  }

  // ---------------------------------------------------------------------
  // Whole records

  /** Each record fires at most one event. */
  lemma AtMostOneEvent(m: Machine, msg: Value, now: int)
    requires |m.buttons| == 4
    ensures |Classify(m, msg, now).events| <= 1
  {
    if Accepted(m, msg, now) {
      var p, action := msg.fields, ActionOf(msg);
      if b: ButtonNum :| NamesButton(action, b) {
        var t := if action == Str(Format(ButtonPress, b)) then ButtonPress
                 else if action == Str(Format(ButtonHold, b)) then ButtonHold
                 else if action == Str(Format(ButtonRelease, b)) then ButtonRelease
                 else ButtonHoldRelease;
        ClassifyButton(m, msg, now, t, b);
      } else {
        ScanNoButton(p, action, m.buttons, 4);
        DialStageAtMostOne(p, action, m.buttons);
      }
    }
  }

  /** The dial stage fires at most one event. */
  lemma DialStageAtMostOne(p: map<string, Value>, action: Value, bs: seq<ButtonState>)
    requires |bs| == 4
    ensures |DialStage(p, action, bs).1| <= 1
  {
  }

  /** Every record keeps "rotated only while down" for every button. */
  lemma StaysConsistent(m: Machine, msg: Value, now: int)
    requires Consistent(m)
    ensures Consistent(Classify(m, msg, now).next)
  {
    ClassifyKeepsConsistent(m, msg, now);
  }

  // ---------------------------------------------------------------------
  // Gestures end to end

  /** A press or hold of a released button, then its release: the release
      fires one button event, short exactly for a press release, and leaves
      the button up. */
  lemma ReleaseAfterPress(m: Machine, press: Value, release: Value, t: Template, u: Template,
                          b: ButtonNum, t0: int, t1: int)
    requires |m.buttons| == 4 && !m.buttons[b - 1].down
    requires t == ButtonPress || t == ButtonHold
    requires u == ButtonRelease || u == ButtonHoldRelease
    requires Accepted(m, press, t0) && ActionOf(press) == Str(Format(t, b))
    requires release.Obj? && ActionOf(release) == Str(Format(u, b))
    ensures var r1 := Classify(m, press, t0);
      var r2 := Classify(r1.next, release, t1);
      && r1.events == []
      && r2.events == [ButtonEvent(b, if u == ButtonRelease then Short else Long,
                                   Get(release.fields, "action_duration"))]
      && r2.next.buttons == m.buttons[b - 1 := Released]
  {
    PressRule(m, press, t0, t, b);
    AcceptedUpdatesDedup(m, press, t0);
    var m1 := Classify(m, press, t0).next;
    ButtonNamesInjective(t, b, u, b);
    FormatShape(u, b);
    assert Accepted(m1, release, t1);
    ReleaseRule(m1, release, t1, u, b);
    UpdateTwice(m.buttons, b - 1, ButtonState(true, false), Released);
  }

  /** A later update of the same slot overrides an earlier one. */
  lemma UpdateTwice(bs: seq<ButtonState>, i: int, x: ButtonState, y: ButtonState)
    requires 0 <= i < |bs|
    ensures bs[i := x][i := y] == bs[i := y]
  {
  }

  /** Press then release of a released button is one short press. */
  lemma ShortPress(m: Machine, press: Value, release: Value, b: ButtonNum, t0: int, t1: int)
    requires |m.buttons| == 4 && !m.buttons[b - 1].down
    requires Accepted(m, press, t0) && ActionOf(press) == Str(Format(ButtonPress, b))
    requires release.Obj? && ActionOf(release) == Str(Format(ButtonRelease, b))
    ensures var r1 := Classify(m, press, t0);
      var r2 := Classify(r1.next, release, t1);
      && r1.events == []
      && r2.events == [ButtonEvent(b, Short, Get(release.fields, "action_duration"))]
  {
    ReleaseAfterPress(m, press, release, ButtonPress, ButtonRelease, b, t0, t1);
  }

  /** Hold then hold release of a released button is one long press. */
  lemma LongPress(m: Machine, hold: Value, release: Value, b: ButtonNum, t0: int, t1: int)
    requires |m.buttons| == 4 && !m.buttons[b - 1].down
    requires Accepted(m, hold, t0) && ActionOf(hold) == Str(Format(ButtonHold, b))
    requires release.Obj? && ActionOf(release) == Str(Format(ButtonHoldRelease, b))
    ensures var r1 := Classify(m, hold, t0);
      var r2 := Classify(r1.next, release, t1);
      && r1.events == []
      && r2.events == [ButtonEvent(b, Long, Get(release.fields, "action_duration"))]
  {
    ReleaseAfterPress(m, hold, release, ButtonHold, ButtonHoldRelease, b, t0, t1);
  }

  /** Press a button with no button down, turn the dial by a step that
      passes the filters, release: the turn is a combined event for that
      button, and the release fires nothing and leaves every button up. */
  lemma PressTurnRelease(m: Machine, press: Value, step: Value, release: Value,
                         b: ButtonNum, t0: int, t1: int, t2: int)
    requires Consistent(m) && NoneDown(m.buttons)
    requires Accepted(m, press, t0) && ActionOf(press) == Str(Format(ButtonPress, b))
    requires step.Obj? && ActionOf(step) == Str(BrightnessStepUp) && !StepFiltered(step)
    requires release.Obj? && ActionOf(release) == Str(Format(ButtonRelease, b))
    ensures var r1 := Classify(m, press, t0);
      var r2 := Classify(r1.next, step, t1);
      var r3 := Classify(r2.next, release, t2);
      && r2.events == [CombinedEvent(b, Up, None, Delta(step), Abs(Numeric(Delta(step)).value),
                                     Get(step.fields, "brightness"))]
      && r3.events == []
      && r3.next.buttons == m.buttons
  {
    var m1 := PressStage(m, press, b, t0);
    ButtonNameIsNotDial(ButtonPress, b);
    assert Accepted(m1, step, t1);
    StepWhileHeld(m1, step, t1, true, b);
    AcceptedUpdatesDedup(m1, step, t1);
    var m2 := Classify(m1, step, t1).next;
    ButtonNameIsNotDial(ButtonRelease, b);
    assert Accepted(m2, release, t2);
    ReleaseRule(m2, release, t2, ButtonRelease, b);
    RestoredAfterRelease(m.buttons, b);
  }

  /** The record after the press in `PressTurnRelease`. */
  lemma PressStage(m: Machine, press: Value, b: ButtonNum, t0: int) returns (m1: Machine)
    requires |m.buttons| == 4 && NoneDown(m.buttons)
    requires Accepted(m, press, t0) && ActionOf(press) == Str(Format(ButtonPress, b))
    ensures m1 == Classify(m, press, t0).next
    ensures |m1.buttons| == 4 && LowestDown(m1.buttons, b) && !m1.buttons[b - 1].rotated
    ensures m1.lastAction == Some(Str(Format(ButtonPress, b)))
    ensures m1.buttons == m.buttons[b - 1 := ButtonState(true, false)]
  {
    PressRule(m, press, t0, ButtonPress, b);
    AcceptedUpdatesDedup(m, press, t0);
    m1 := Classify(m, press, t0).next;
  }

  /** Marking the one pressed button rotated and then releasing it restores
      a table with no button down. */
  lemma RestoredAfterRelease(bs: seq<ButtonState>, b: ButtonNum)
    requires |bs| == 4 && NoneDown(bs) && RotatedOnlyWhileDown(bs)
    ensures var pressed := bs[b - 1 := ButtonState(true, false)];
      pressed[b - 1 := pressed[b - 1].(rotated := true)][b - 1 := Released] == bs
  {
    var pressed := bs[b - 1 := ButtonState(true, false)];
    assert bs[b - 1] == Released;
    assert pressed[b - 1 := pressed[b - 1].(rotated := true)][b - 1 := Released] == bs;
  }
}
