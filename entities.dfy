/** The event entities of one configured Tap Dial: which of them react to an
    event fired on the bus, with which event type and which attributes. */
module Entities {
  import opened Values
  import opened Actions
  import opened Classifier

  /** A press entity exists per button and press type ("short"/"long"), a
      single dial entity, and a combined entity per held button. */
  datatype Entity =
    | PressEntity(deviceId: string, button: ButtonNum, pressType: PressType)
    | DialEntity(deviceId: string)
    | ComboEntity(deviceId: string, button: ButtonNum)

  /** What an entity records when it triggers. */
  datatype Trigger = Trigger(eventType: string, attrs: map<string, Value>)

  /** The part of the unique id after "{device_id}_". */
  function IdSuffix(e: Entity): string
  {
    match e
    case PressEntity(_, b, t) => "button_" + [Digit(b)] + "_" + PressTypeName(t)
    case DialEntity(_) => "dial"
    case ComboEntity(_, b) => "button_" + [Digit(b)] + "_dial"
  }

  function UniqueId(e: Entity): string
  {
    e.deviceId + "_" + IdSuffix(e)
  }

  /** Python `v == n` for a looked-up value and an int (a bool counts as 0/1;
      a missing key is `None`, which equals no int). */
  predicate EqualsInt(v: Option<Value>, n: int)
  {
    v.Some? && Numeric(v.value) == Some(n)
  }

  /** Is the fired data addressed to this device? */
  predicate ForDevice(data: map<string, Value>, deviceId: string)
  {
    Get(data, "device_id") == Some(Str(deviceId))
  }

  // ---------------------------------------------------------------------
  // The three handlers

  /** `handle_button_event`: only the entity's own button, device and press
      type; the trigger carries the button and, when present, the duration. */
  function HandleButton(deviceId: string, button: ButtonNum, pressType: PressType,
                        data: map<string, Value>): Option<Trigger>
  {
    if !EqualsInt(Get(data, "button"), button) || !ForDevice(data, deviceId) then None
    else if Get(data, "press_type") != Some(Str(PressTypeName(pressType))) then None
    else
      var attrs := map["button" := Int(button)];
      Some(Trigger(PressTypeName(pressType),
                   if "duration" in data then attrs["duration" := data["duration"]] else attrs))
  }

  /** The attributes the dial entity copies when the fired data has them. */
  const DialCopied: seq<string> :=
    ["direction", "speed", "brightness", "step_size", "transition_time", "action_time", "action_type"]

  /** `attrs` with `key` copied from `data` when present. */
  function CopyIfPresent(attrs: map<string, Value>, data: map<string, Value>, key: string): map<string, Value>
  {
    if key in data then attrs[key := data[key]] else attrs
  }

  /** `attrs` with each of `keys`, in order, copied from `data` when present. */
  function CopyPresent(attrs: map<string, Value>, data: map<string, Value>, keys: seq<string>)
    : map<string, Value>
    decreases |keys|
  {
    if keys == [] then attrs
    else CopyPresent(CopyIfPresent(attrs, data, keys[0]), data, keys[1..])
  }

  /** The dial entity's attributes, built in the handler's order: the
      action, direction/speed/brightness when present, the delta (0 when
      absent), then step size, transition time, action time and action type
      when present. */
  function DialAttributes(action: Value, data: map<string, Value>): map<string, Value>
  {
    var early := CopyPresent(map["action" := action], data, DialCopied[..3]);
    CopyPresent(early["brightness_delta" := GetOr(data, "brightness_delta", Int(0))], data, DialCopied[3..])
  }

  /** The event types the dial entity declares. */
  const DialEventTypes: seq<string> :=
    ["rotate_left_slow", "rotate_left_fast", "rotate_right_slow", "rotate_right_fast",
     "brightness_step_up", "brightness_step_down"]

  /** The event types a combined entity declares. */
  const CombinedEventTypes: seq<string> := ["brightness_step_up", "brightness_step_down"]

  /** `handle_dial_event`. `None` when the data is for another device, when
      `"brightness_step" in action` raises (an action that is neither a
      string, a list nor a dict), and when the derived event type is not one
      the entity declares, for which triggering raises. */
  function HandleDial(deviceId: string, data: map<string, Value>): Option<Trigger>
  {
    if !ForDevice(data, deviceId) then None
    else
      var action := GetOr(data, "action", Str(""));
      match PyIn("brightness_step", action)
      case None => None
      case Some(isStep) =>
        var direction := GetOr(data, "direction", Str(""));
        var speed := GetOr(data, "speed", Str(""));
        var eventType :=
          if isStep || speed == Str("") || direction == Str("up") || direction == Str("down")
          then "brightness_step_" + Text(direction)
          else "rotate_" + Text(direction) + "_" + Text(speed);
        // the entity refuses an event type it did not declare
        if eventType !in DialEventTypes then None
        else Some(Trigger(eventType, DialAttributes(action, data)))
  }

  /** `handle_combined`: only the entity's own held button and device, and
      only a declared event type (up or down). */
  function HandleCombined(deviceId: string, button: ButtonNum, data: map<string, Value>): Option<Trigger>
  {
    if !EqualsInt(Get(data, "held_button"), button) || !ForDevice(data, deviceId) then None
    else
      var direction := GetOr(data, "direction", Null);
      var attrs := map["direction" := direction,
                       "brightness_delta" := GetOr(data, "brightness_delta", Int(0))];
      var eventType := "brightness_step_" + Text(direction);
      // the entity refuses an event type it did not declare
      if eventType !in CombinedEventTypes then None
      else Some(Trigger(eventType,
                        if "brightness" in data then attrs["brightness" := data["brightness"]] else attrs))
  }

  /** An entity hears only the bus event type it listens to. */
  function Deliver(e: Entity, f: Fired): Option<Trigger>
  {
    match e
    case PressEntity(d, b, t) => if f.bus == ButtonBus then HandleButton(d, b, t, f.data) else None
    case DialEntity(d) => if f.bus == DialBus then HandleDial(d, f.data) else None
    case ComboEntity(d, b) => if f.bus == CombinedBus then HandleCombined(d, b, f.data) else None
  }

  // ---------------------------------------------------------------------
  // The entity set

  /** Short and long press entities for buttons 1..k. */
  function PressEntities(d: string, k: nat): seq<Entity>
    requires k <= 4
  {
    if k == 0 then [] else PressEntities(d, k - 1) + [PressEntity(d, k, Short), PressEntity(d, k, Long)]
  }

  /** Combined entities for buttons 1..k. */
  function ComboEntities(d: string, k: nat): seq<Entity>
    requires k <= 4
  {
    if k == 0 then [] else ComboEntities(d, k - 1) + [ComboEntity(d, k)]
  }

  /** The entities set up for device `d`, in the order they are added. */
  function EntityList(d: string): seq<Entity>
  {
    PressEntities(d, 4) + [DialEntity(d)] + ComboEntities(d, 4)
  }

  /** `async_setup_entry`: two append loops around the dial entity. */
  method SetupEntities(d: string) returns (es: seq<Entity>)
    ensures es == EntityList(d)
  {
    es := [];
    for i := 1 to 5
      invariant es == PressEntities(d, i - 1)
    {
      es := es + [PressEntity(d, i, Short)];
      es := es + [PressEntity(d, i, Long)];
    }
    es := es + [DialEntity(d)];
    ghost var presses := es;
    for i := 1 to 5
      invariant es == presses + ComboEntities(d, i - 1)
    {
      es := es + [ComboEntity(d, i)];
    }
  }

  /** The thirteen entities of device `d`, in order. */
  function Spelled(d: string): seq<Entity>
  {
    [PressEntity(d, 1, Short), PressEntity(d, 1, Long), PressEntity(d, 2, Short), PressEntity(d, 2, Long),
     PressEntity(d, 3, Short), PressEntity(d, 3, Long), PressEntity(d, 4, Short), PressEntity(d, 4, Long),
     DialEntity(d), ComboEntity(d, 1), ComboEntity(d, 2), ComboEntity(d, 3), ComboEntity(d, 4)]
  }

  /** Setup creates short and long press entities for buttons 1..4, then the
      dial entity, then the combined entities for buttons 1..4. */
  lemma EntityListSpelled(d: string)
    ensures EntityList(d) == Spelled(d)
  {
    assert PressEntities(d, 1) == [PressEntity(d, 1, Short), PressEntity(d, 1, Long)];
    assert PressEntities(d, 2) == PressEntities(d, 1) + [PressEntity(d, 2, Short), PressEntity(d, 2, Long)];
    assert PressEntities(d, 3) == PressEntities(d, 2) + [PressEntity(d, 3, Short), PressEntity(d, 3, Long)];
    assert PressEntities(d, 4) == PressEntities(d, 3) + [PressEntity(d, 4, Short), PressEntity(d, 4, Long)];
    assert ComboEntities(d, 1) == [ComboEntity(d, 1)];
    assert ComboEntities(d, 2) == ComboEntities(d, 1) + [ComboEntity(d, 2)];
    assert ComboEntities(d, 3) == ComboEntities(d, 2) + [ComboEntity(d, 3)];
    assert ComboEntities(d, 4) == ComboEntities(d, 3) + [ComboEntity(d, 4)];
  }

  /** Every entity of device `d` is set up, and only those: 13 in all. */
  lemma EntityListContents(d: string)
    ensures |EntityList(d)| == 13
    ensures forall e :: e in EntityList(d) <==> e.deviceId == d
  {
    EntityListSpelled(d);
    forall e: Entity ensures e in Spelled(d) <==> e.deviceId == d {
      SpelledHas(d, e);
    }
  }

  /** An entity is spelled out for `d` exactly when it belongs to `d`. */
  lemma SpelledHas(d: string, e: Entity)
    ensures e in Spelled(d) <==> e.deviceId == d
  {
    var es := Spelled(d);
    assert forall i :: 0 <= i < |es| ==> es[i].deviceId == d;
    if e.deviceId == d {
      match e
      case PressEntity(_, b, t) => PressSpelled(d, b, t);
      case DialEntity(_) => assert e == es[8];
      case ComboEntity(_, b) => assert e == es[8 + b];
    }
  }

  lemma PressSpelled(d: string, b: ButtonNum, t: PressType)
    ensures PressEntity(d, b, t) in Spelled(d)
  {
    var es := Spelled(d);
    var i := 2 * (b - 1) + (if t == Short then 0 else 1);
    assert es[i] == PressEntity(d, b, t);
  }

  /** The unique-id suffix tells entities of one device apart. */
  lemma SuffixInjective(e1: Entity, e2: Entity)
    ensures IdSuffix(e1) == IdSuffix(e2) <==> e1.(deviceId := "") == e2.(deviceId := "")
  {
    var s1, s2 := IdSuffix(e1), IdSuffix(e2);
    if e1.DialEntity? != e2.DialEntity? {
      assert s1[0] != s2[0];
    } else if !e1.DialEntity? && e1.button != e2.button {
      assert s1[7] != s2[7];
    } else if !e1.DialEntity? && e1.(deviceId := "") != e2.(deviceId := "") {
      assert s1[9] != s2[9];
    }
  }

  /** All unique ids of one device's entities are pairwise distinct. */
  lemma UniqueIdsDistinct(d: string)
    ensures |EntityList(d)| == 13
    ensures forall i, j :: 0 <= i < j < 13 ==> UniqueId(EntityList(d)[i]) != UniqueId(EntityList(d)[j])
  {
    EntityListSpelled(d);
    var es := Spelled(d);
    SpelledPositions(d);
    forall i, j | 0 <= i < j < 13 ensures UniqueId(es[i]) != UniqueId(es[j]) {
      UniqueIdDiffers(es[i], es[j]);
    }
  }

  /** Where an entity stands in the spelled-out list. */
  function Position(e: Entity): nat
  {
    match e
    case PressEntity(_, b, t) => 2 * (b - 1) + (if t == Short then 0 else 1)
    case DialEntity(_) => 8
    case ComboEntity(_, b) => 8 + b
  }

  lemma SpelledPositions(d: string)
    ensures forall i :: 0 <= i < 13 ==> Position(Spelled(d)[i]) == i && Spelled(d)[i].deviceId == d
  {
  }

  /** Two different entities of one device have different unique ids. */
  lemma UniqueIdDiffers(x: Entity, y: Entity)
    requires x.deviceId == y.deviceId && x != y
    ensures UniqueId(x) != UniqueId(y)
  {
    SuffixInjective(x, y);
    assert x.(deviceId := "") != y.(deviceId := "");
    assert UniqueId(x)[|x.deviceId| + 1..] == IdSuffix(x);
    assert UniqueId(y)[|y.deviceId| + 1..] == IdSuffix(y);
  }

  // ---------------------------------------------------------------------
  // What each handler promises

  /** A press entity triggers exactly when button, device and press type all
      match its own; it then triggers with its press type, the button, and
      the duration iff the data has one. */
  lemma ButtonHandlerRule(d: string, b: ButtonNum, t: PressType, data: map<string, Value>)
    ensures HandleButton(d, b, t, data).Some? <==>
      && EqualsInt(Get(data, "button"), b) && ForDevice(data, d)
      && Get(data, "press_type") == Some(Str(PressTypeName(t)))
    ensures var r := HandleButton(d, b, t, data);
      r.Some? ==>
        && r.value.eventType == PressTypeName(t)
        && r.value.attrs.Keys == {"button"} + (if "duration" in data then {"duration"} else {})
        && r.value.attrs["button"] == Int(b)
        && ("duration" in data ==> r.value.attrs["duration"] == data["duration"])
  {
  }

  /** The dial entity's event type is `brightness_step_{direction}` exactly
      when the action contains "brightness_step", or the speed is empty, or
      the direction is "up" or "down"; otherwise `rotate_{direction}_{speed}`.
      It triggers exactly when that type is declared: a step type needs the
      direction "up" or "down", a rotate type "left" or "right" and the speed
      "slow" or "fast". */
  lemma DialTypeRule(d: string, data: map<string, Value>)
    requires ForDevice(data, d) && PyIn("brightness_step", GetOr(data, "action", Str(""))).Some?
    ensures var r := HandleDial(d, data);
      var direction := GetOr(data, "direction", Str(""));
      var speed := GetOr(data, "speed", Str(""));
      var stepType := || PyIn("brightness_step", GetOr(data, "action", Str(""))) == Some(true)
                      || speed == Str("") || direction == Str("up") || direction == Str("down");
      && (r.Some? <==>
            if stepType then direction == Str("up") || direction == Str("down")
            else (direction == Str("left") || direction == Str("right"))
                 && (speed == Str("slow") || speed == Str("fast")))
      && (r.Some? ==>
            && r.value.eventType in DialEventTypes
            && (r.value.eventType == "brightness_step_" + Text(direction) <==> stepType)
            && (!stepType ==> r.value.eventType == "rotate_" + Text(direction) + "_" + Text(speed)))
  {
    var direction := GetOr(data, "direction", Str(""));
    var speed := GetOr(data, "speed", Str(""));
    StepTypeDeclared(Text(direction));
    RotateTypeDeclared(Text(direction), Text(speed));
    TextOfWord(direction, "up");
    TextOfWord(direction, "down");
    TextOfWord(direction, "left");
    TextOfWord(direction, "right");
    TextOfWord(speed, "slow");
    TextOfWord(speed, "fast");
    assert ("brightness_step_" + Text(direction))[0] == 'b';
    assert ("rotate_" + Text(direction) + "_" + Text(speed))[0] == 'r';
  }

  /** A `brightness_step_` type is declared exactly for "up" and "down", by
      the dial entity and by the combined entities alike. */
  lemma StepTypeDeclared(t: string)
    ensures "brightness_step_" + t in DialEventTypes <==> t == "up" || t == "down"
    ensures "brightness_step_" + t in CombinedEventTypes <==> t == "up" || t == "down"
  {
    var x := "brightness_step_" + t;
    assert x[16..] == t;
    assert x[0] == 'b';
    if x == "brightness_step_up" {
      assert x[16..] == "up";
    } else if x == "brightness_step_down" {
      assert x[16..] == "down";
    }
  }

  /** A `rotate_` type is declared exactly for a left or right direction
      with a slow or fast speed. */
  lemma RotateTypeDeclared(a: string, b: string)
    ensures "rotate_" + a + "_" + b in DialEventTypes <==>
      (a == "left" || a == "right") && (b == "slow" || b == "fast")
  {
    var x := "rotate_" + a + "_" + b;
    assert x[0] == 'r';
    assert x != DialEventTypes[4] && x != DialEventTypes[5];
    assert DialEventTypes[0] == "rotate_" + "left" + "_" + "slow";
    assert DialEventTypes[1] == "rotate_" + "left" + "_" + "fast";
    assert DialEventTypes[2] == "rotate_" + "right" + "_" + "slow";
    assert DialEventTypes[3] == "rotate_" + "right" + "_" + "fast";
    RotateNameParts(a, b, "left", "slow");
    RotateNameParts(a, b, "left", "fast");
    RotateNameParts(a, b, "right", "slow");
    RotateNameParts(a, b, "right", "fast");
  }

  /** `rotate_{a}_{b}` names the rotate type of `w1` and `w2` exactly when
      `a` is `w1` and `b` is `w2`. */
  lemma RotateNameParts(a: string, b: string, w1: string, w2: string)
    requires '_' !in w1 && '_' !in w2
    ensures "rotate_" + a + "_" + b == "rotate_" + w1 + "_" + w2 <==> a == w1 && b == w2
  {
    if "rotate_" + a + "_" + b == "rotate_" + w1 + "_" + w2 {
      assert ("rotate_" + a + "_" + b)[7..] == a + "_" + b;
      assert ("rotate_" + w1 + "_" + w2)[7..] == w1 + "_" + w2;
      UnderscoreSplit(a, b, w1, w2);
    }
  }

  /** Joining with '_' is injective on words without '_'. */
  lemma UnderscoreSplit(a: string, b: string, w1: string, w2: string)
    requires '_' !in w1 && '_' !in w2 && a + "_" + b == w1 + "_" + w2
    ensures a == w1 && b == w2
  {
    var x := w1 + "_" + w2;
    assert x[|a|] == '_';
    assert forall i :: 0 <= i < |w1| ==> x[i] == w1[i];
    assert forall i :: |w1| < i < |x| ==> x[i] == w2[i - |w1| - 1];
    assert |a| == |w1|;
    assert a == x[..|a|];
    assert b == x[|a| + 1..];
  }

  /** Copying keys adds exactly the listed keys the data has, with the
      data's values, and keeps everything else. */
  lemma {:induction false} CopyPresentRule(attrs: map<string, Value>, data: map<string, Value>,
                                           keys: seq<string>, k: string)
    ensures var r := CopyPresent(attrs, data, keys);
      && (k in r <==> k in attrs || (k in keys && k in data))
      && (k in r ==> r[k] == if k in keys && k in data then data[k] else attrs[k])
    decreases |keys|
  {
    if keys != [] {
      CopyPresentRule(CopyIfPresent(attrs, data, keys[0]), data, keys[1..], k);
      assert k in keys <==> k == keys[0] || k in keys[1..];
    }
  }

  /** The dial entity always reports the action and the delta (0 when
      absent), and each optional key exactly when the data has it, with the
      data's value. */
  lemma DialAttributesRule(action: Value, data: map<string, Value>)
    ensures var attrs := DialAttributes(action, data);
      && (forall k :: k in attrs <==> k == "action" || k == "brightness_delta" || (k in DialCopied && k in data))
      && attrs["action"] == action
      && attrs["brightness_delta"] == GetOr(data, "brightness_delta", Int(0))
      && (forall k :: k in DialCopied && k in data ==> attrs[k] == data[k])
  {
    DialCopiedFacts();
    TwoStageCopy(action, GetOr(data, "brightness_delta", Int(0)), data, DialCopied[..3], DialCopied[3..]);
  }

  /** Copying around a fixed action and delta: the two fixed keys stay, and
      each listed key is added exactly when the data has it. */
  lemma TwoStageCopy(action: Value, delta: Value, data: map<string, Value>, ks1: seq<string>, ks2: seq<string>)
    requires "action" !in ks1 && "action" !in ks2
    requires "brightness_delta" !in ks1 && "brightness_delta" !in ks2
    ensures var attrs := CopyPresent(CopyPresent(map["action" := action], data, ks1)["brightness_delta" := delta], data, ks2);
      && (forall k :: k in attrs <==> k == "action" || k == "brightness_delta" || ((k in ks1 || k in ks2) && k in data))
      && attrs["action"] == action && attrs["brightness_delta"] == delta
      && (forall k :: (k in ks1 || k in ks2) && k in data ==> attrs[k] == data[k])
  {
    var early := CopyPresent(map["action" := action], data, ks1);
    var mid := early["brightness_delta" := delta];
    var attrs := CopyPresent(mid, data, ks2);
    forall k
      ensures k in attrs <==> k == "action" || k == "brightness_delta" || ((k in ks1 || k in ks2) && k in data)
      ensures (k in ks1 || k in ks2) && k in data ==> attrs[k] == data[k]
    {
      CopyPresentRule(map["action" := action], data, ks1, k);
      CopyPresentRule(mid, data, ks2, k);
    }
    CopyPresentRule(map["action" := action], data, ks1, "action");
    CopyPresentRule(mid, data, ks2, "action");
    CopyPresentRule(mid, data, ks2, "brightness_delta");
  }

  lemma DialCopiedFacts()
    ensures forall k :: k in DialCopied <==> k in DialCopied[..3] || k in DialCopied[3..]
    ensures "action" !in DialCopied[..3] && "brightness_delta" !in DialCopied[..3]
    ensures "action" !in DialCopied[3..] && "brightness_delta" !in DialCopied[3..]
  {
    assert DialCopied == DialCopied[..3] + DialCopied[3..];
    assert forall k :: k in DialCopied ==> |k| != 6 && |k| != 16;
  }

  /** A combined entity triggers exactly for its own held button and device
      and a direction "up" or "down", with type `brightness_step_{direction}`,
      the direction, the delta (0 when absent) and the brightness iff
      present. */
  lemma CombinedHandlerRule(d: string, b: ButtonNum, data: map<string, Value>)
    ensures var direction := GetOr(data, "direction", Null);
      HandleCombined(d, b, data).Some? <==>
        && EqualsInt(Get(data, "held_button"), b) && ForDevice(data, d)
        && (direction == Str("up") || direction == Str("down"))
    ensures var r := HandleCombined(d, b, data);
      var direction := GetOr(data, "direction", Null);
      r.Some? ==>
        && r.value.eventType == "brightness_step_" + Text(direction)
        && r.value.eventType in CombinedEventTypes
        && r.value.attrs.Keys == {"direction", "brightness_delta"} + (if "brightness" in data then {"brightness"} else {})
        && r.value.attrs["direction"] == direction
        && r.value.attrs["brightness_delta"] == GetOr(data, "brightness_delta", Int(0))
        && ("brightness" in data ==> r.value.attrs["brightness"] == data["brightness"])
  {
    var direction := GetOr(data, "direction", Null);
    StepTypeDeclared(Text(direction));
    TextOfWord(direction, "up");
    TextOfWord(direction, "down");
  }

  // ---------------------------------------------------------------------
  // From the classifier to the entities

  /** The entity of device `d` that an event is meant for. */
  function Target(e: Event, d: string): Entity
  {
    match e
    case ButtonEvent(b, t, _) => PressEntity(d, b, t)
    case DialEvent(_, _, _, _, _) => DialEntity(d)
    case CombinedEvent(b, _, _, _, _, _) => ComboEntity(d, b)
  }

  /** The trigger the target entity records for an event. */
  function Expected(e: Event): Trigger
  {
    match e
    case ButtonEvent(b, t, duration) =>
      Trigger(PressTypeName(t), WithOpt(map["button" := Int(b)], "duration", duration))
    case DialEvent(dir, speed, delta, _, brightness) =>
      Trigger("brightness_step_" + DirectionName(dir),
              WithOpt(WithOpt(map["action" := Str("brightness_step_" + DirectionName(dir)),
                                  "direction" := Str(DirectionName(dir)), "brightness_delta" := delta],
                              "speed", if speed.Some? then Some(Str(SpeedName(speed.value))) else None),
                      "brightness", brightness))
    case CombinedEvent(_, dir, _, delta, _, brightness) =>
      Trigger("brightness_step_" + DirectionName(dir),
              WithOpt(map["direction" := Str(DirectionName(dir)), "brightness_delta" := delta],
                      "brightness", brightness))
  }

  /** A button event fired by `d` triggers only the press entity of `d`
      for its button and press type, with the press type as event type. */
  lemma RoutedButton(b: ButtonNum, t: PressType, duration: Option<Value>, d: string, x: Entity)
    ensures var e := ButtonEvent(b, t, duration);
      && (Deliver(x, Fire(e, d)).Some? <==> x == Target(e, d))
      && Deliver(Target(e, d), Fire(e, d)) == Some(Expected(e))
  {
    var e := ButtonEvent(b, t, duration);
    var data := Fire(e, d).data;
    assert Get(data, "button") == Some(Int(b));
    assert Get(data, "press_type") == Some(Str(PressTypeName(t)));
    assert ForDevice(data, d);
    if x.PressEntity? && x.pressType != t {
      assert PressTypeName(x.pressType) != PressTypeName(t);
    }
  }

  /** A dial event fired by `d` triggers only the dial entity of `d`, with
      type `brightness_step_{direction}`: the action always contains
      "brightness_step", so the `rotate_*` types are never produced. */
  lemma RoutedDial(dir: Direction, speed: Option<Speed>, delta: Value, absDelta: nat,
                   brightness: Option<Value>, d: string, x: Entity)
    ensures var e := DialEvent(dir, speed, delta, absDelta, brightness);
      && (Deliver(x, Fire(e, d)).Some? <==> x == Target(e, d))
      && Deliver(Target(e, d), Fire(e, d)) == Some(Expected(e))
  {
    DialData(dir, speed, delta, absDelta, brightness, d);
    DialReachesOnlyTarget(dir, speed, delta, absDelta, brightness, d, x);
    DialTargetTrigger(dir, speed, delta, absDelta, brightness, d);
  }

  lemma DialReachesOnlyTarget(dir: Direction, speed: Option<Speed>, delta: Value, absDelta: nat,
                              brightness: Option<Value>, d: string, x: Entity)
    ensures var e := DialEvent(dir, speed, delta, absDelta, brightness);
      Deliver(x, Fire(e, d)).Some? <==> x == DialEntity(d)
  {
    var data := Fire(DialEvent(dir, speed, delta, absDelta, brightness), d).data;
    assert ForDevice(data, d);
    if x == DialEntity(d) {
      DialTargetTrigger(dir, speed, delta, absDelta, brightness, d);
    }
  }

  lemma DialTargetTrigger(dir: Direction, speed: Option<Speed>, delta: Value, absDelta: nat,
                          brightness: Option<Value>, d: string)
    ensures var e := DialEvent(dir, speed, delta, absDelta, brightness);
      HandleDial(d, Fire(e, d).data) == Some(Expected(e))
  {
    var e := DialEvent(dir, speed, delta, absDelta, brightness);
    var data := Fire(e, d).data;
    var name := DirectionName(dir);
    DialData(dir, speed, delta, absDelta, brightness, d);
    assert ForDevice(data, d);
    ContainsSplice("", "brightness_step", "_" + name);
    assert "brightness_step_" + name == "" + "brightness_step" + ("_" + name);
    StepTypeDeclared(name);
    DialFiredAttributes(dir, speed, delta, absDelta, brightness, d);
  }

  /** The first three copies of the dial handler, spelled out. */
  lemma EarlyCopies(attrs: map<string, Value>, data: map<string, Value>)
    ensures CopyPresent(attrs, data, DialCopied[..3])
         == CopyIfPresent(CopyIfPresent(CopyIfPresent(attrs, data, "direction"), data, "speed"), data, "brightness")
  {
    assert DialCopied[..3] == ["direction", "speed", "brightness"];
    assert ["direction", "speed", "brightness"][1..] == ["speed", "brightness"];
    assert ["speed", "brightness"][1..] == ["brightness"];
  }

  /** The last four copies of the dial handler, when the data has none of
      their keys. */
  lemma LateCopiesIdle(attrs: map<string, Value>, data: map<string, Value>)
    requires "step_size" !in data && "transition_time" !in data
    requires "action_time" !in data && "action_type" !in data
    ensures CopyPresent(attrs, data, DialCopied[3..]) == attrs
  {
    var late := DialCopied[3..];
    assert late == ["step_size", "transition_time", "action_time", "action_type"];
    assert late[1..] == ["transition_time", "action_time", "action_type"];
    assert late[2..] == ["action_time", "action_type"];
    assert late[3..] == ["action_type"];
    assert CopyPresent(attrs, data, late[3..]) == attrs;
    assert CopyPresent(attrs, data, late[2..]) == attrs;
    assert CopyPresent(attrs, data, late[1..]) == attrs;
  }

  /** What the dial entity reports for a dial event fired by the classifier. */
  lemma DialFiredAttributes(dir: Direction, speed: Option<Speed>, delta: Value, absDelta: nat,
                            brightness: Option<Value>, d: string)
    ensures var e := DialEvent(dir, speed, delta, absDelta, brightness);
      DialAttributes(GetOr(Fire(e, d).data, "action", Str("")), Fire(e, d).data) == Expected(e).attrs
  {
    var e := DialEvent(dir, speed, delta, absDelta, brightness);
    var data := Fire(e, d).data;
    var name := DirectionName(dir);
    var speedText := if speed.Some? then Some(Str(SpeedName(speed.value))) else None;
    DialData(dir, speed, delta, absDelta, brightness, d);
    var base := map["action" := Str("brightness_step_" + name)];
    EarlyCopies(base, data);
    var s1 := CopyIfPresent(base, data, "direction");
    var s2 := CopyIfPresent(s1, data, "speed");
    assert s2 == WithOpt(s1, "speed", speedText);
    var s3 := CopyIfPresent(s2, data, "brightness");
    assert s3 == WithOpt(s2, "brightness", brightness);
    var mid := s3["brightness_delta" := delta];
    LateCopiesIdle(mid, data);
    WithOptCommutes(s2, "brightness", brightness, "brightness_delta", delta);
    WithOptCommutes(s1, "speed", speedText, "brightness_delta", delta);
    assert s1["brightness_delta" := delta]
        == map["action" := Str("brightness_step_" + name), "direction" := Str(name), "brightness_delta" := delta];
  }

  /** The fields of a fired dial event that the dial handler reads. */
  lemma DialData(dir: Direction, speed: Option<Speed>, delta: Value, absDelta: nat,
                 brightness: Option<Value>, d: string)
    ensures var data := Fire(DialEvent(dir, speed, delta, absDelta, brightness), d).data;
      && GetOr(data, "action", Str("")) == Str("brightness_step_" + DirectionName(dir))
      && "direction" in data && data["direction"] == Str(DirectionName(dir))
      && ("speed" in data <==> speed.Some?)
      && (speed.Some? ==> data["speed"] == Str(SpeedName(speed.value)))
      && ("brightness" in data <==> brightness.Some?)
      && (brightness.Some? ==> data["brightness"] == brightness.value)
      && GetOr(data, "brightness_delta", Int(0)) == delta
      && "step_size" !in data && "transition_time" !in data
      && "action_time" !in data && "action_type" !in data
  {
  }

  /** An optional entry and an update of another key commute. */
  lemma WithOptCommutes(m: map<string, Value>, k: string, v: Option<Value>, k2: string, x: Value)
    requires k != k2
    ensures WithOpt(m, k, v)[k2 := x] == WithOpt(m[k2 := x], k, v)
  {
  }

  /** A combined event fired by `d` triggers only the combined entity of
      `d` for the held button, with type `brightness_step_{direction}`. */
  lemma RoutedCombined(b: ButtonNum, dir: Direction, speed: Option<Speed>, delta: Value, absDelta: nat,
                       brightness: Option<Value>, d: string, x: Entity)
    ensures var e := CombinedEvent(b, dir, speed, delta, absDelta, brightness);
      && (Deliver(x, Fire(e, d)).Some? <==> x == Target(e, d))
      && Deliver(Target(e, d), Fire(e, d)) == Some(Expected(e))
  {
    var e := CombinedEvent(b, dir, speed, delta, absDelta, brightness);
    var data := Fire(e, d).data;
    assert Get(data, "held_button") == Some(Int(b));
    assert ForDevice(data, d);
    assert GetOr(data, "direction", Null) == Str(DirectionName(dir));
    StepTypeDeclared(DirectionName(dir));
  }

  /** An event fired by device `d` triggers its target entity, with the
      expected type and attributes, and no other entity of any device. */
  lemma RoutedToTarget(e: Event, d: string, x: Entity)
    ensures Deliver(x, Fire(e, d)).Some? <==> x == Target(e, d)
    ensures Deliver(Target(e, d), Fire(e, d)) == Some(Expected(e))
  {
    match e
    case ButtonEvent(b, t, duration) => RoutedButton(b, t, duration, d, x);
    case DialEvent(dir, speed, delta, absDelta, brightness) =>
      RoutedDial(dir, speed, delta, absDelta, brightness, d, x);
    case CombinedEvent(b, dir, speed, delta, absDelta, brightness) =>
      RoutedCombined(b, dir, speed, delta, absDelta, brightness, d, x);
  }

  /** Delivered to the entity list of `d`, an event fired by `d` triggers
      exactly one entity. */
  lemma ExactlyOneEntityReacts(e: Event, d: string)
    ensures Target(e, d) in EntityList(d)
    ensures forall x :: x in EntityList(d) ==> (Deliver(x, Fire(e, d)).Some? <==> x == Target(e, d))
  {
    EntityListContents(d);
    forall x | x in EntityList(d) ensures Deliver(x, Fire(e, d)).Some? <==> x == Target(e, d) {
      RoutedToTarget(e, d, x);
    }
  }
}
