# Hue Tap Dial (zigbee2mqtt) — a verified model of the gesture classifier

This project models the Home Assistant integration `hue_tap_dial_mqtt`.
The integration listens to the zigbee2mqtt messages of a Philips Hue Tap Dial
(four buttons and a rotary dial), turns each decoded record into at most one
Home Assistant event, and discovers new dials from the bridge's device list.

It has six modules:

- `Values` (values.dfy): a decoded JSON value, and the Python behaviour the
  integration relies on: `dict.get`, truthiness, `abs`/`int` on numbers and
  booleans, the `in` test on strings, `str.lower` on ASCII, `str()`, and
  hashability.
- `Actions` (actions.dfy): the action vocabulary. It has the button templates
  `button_{}_press`, `_press_release`, `_hold` and `_hold_release`, the four
  legacy `dial_rotate_*` names and the two `brightness_step_*` names.
  `ALL_ACTIONS` is built by its module-level loop. The module proves the
  equality and substring facts that the classifier's branches depend on.
- `Classifier` (classifier.dfy): `message_received`, the per-device state
  machine.
  - `Classify` is the reference definition of one record's effect. It covers
    the device record (last action and its time, stored metadata, four
    `down`/`rotated` button flags), the events fired on the bus, and the
    metadata notifications sent to the sensors.
  - The class `TapDial` holds the same state in fields and a four-slot array.
  - `TapDial.Step` runs the imperative classifier: the loop over buttons 1..4,
    the `down_buttons` loop, and the brightness-step and legacy-rotate
    branches. It is proved to agree with `Classify`.
- `Gestures` (gestures.dfy): what the classifier promises, stated over
  `Classify`:
  - the action check and the 100 ms duplicate filter;
  - press and release rules, with short/long split and rotation suppression;
  - the brightness-step filters;
  - the combined-versus-free dial rule for the lowest held button;
  - legacy rotate direction and speed;
  - at most one event per record;
  - the invariant "rotated only while down";
  - complete gestures: short press, long press, and press–turn–release.
- `Entities` (entities.dfy): the thirteen event entities set up per device and
  their handlers `handle_button_event`, `handle_dial_event` and
  `handle_combined`. It proves which event types and attributes the handlers
  produce. It also proves that every event the classifier fires reaches
  exactly one entity of the firing device.
- `Discovery` (discovery.dfy): `process_device`. This covers the Tap Dial
  detection test, the unique-id choice, the configured and discovered sets
  (the class `Discoverer`), the dispatch on the shape of the devices payload,
  and the topic filter of device announcements.

Time is an integer number of milliseconds passed to `Step`. The 0.1 s
duplicate window is therefore a strict 100 ms bound. An exception inside a
handler is modelled as "processing stops here". Effects already made by the
record stay in place: the dedup update, metadata, button flags and a rotation
mark.

A few behaviours of the code are worth stating plainly:

- Metadata notifications are produced only for a record that has a truthy
  `action` and is not a duplicate (__init__.py:112-171).
- A non-numeric brightness delta makes `abs()` raise (__init__.py:227) before
  the `int()` fallback at 233-236 is reached. No event follows, but the
  record's earlier effects stay.
- After a button transition the code does not stop. It runs the dial stage
  too, and that stage ignores button names: `ButtonNameIsNotDial` proves they
  never match.

## Model

| member | source | states |
|---|---|---|
| `Actions.Format` | custom_components/hue_tap_dial_mqtt/const.py:6-9 | definition mirrors `template.format(n)` for a one-digit button number; no contract (its facts are `FormatShape` and `ButtonNamesInjective`) |
| `Actions.AllActions` | custom_components/hue_tap_dial_mqtt/const.py:20-38 | definition mirrors the list; no contract (stated by `AllActionsLayout` and `AllActionsDistinct`) |
| `Actions.BuildAllActions` | custom_components/hue_tap_dial_mqtt/const.py:20-38 | the module-level loop produces exactly `AllActions()`: the six dial names, then each button's block of four |
| `Actions.AllActionsLayout` | custom_components/hue_tap_dial_mqtt/const.py:20-38 | `ALL_ACTIONS` has 22 entries; the first six are the dial names; entry 6+4(n-1)+k is template k formatted with button n |
| `Actions.AllActionsDistinct` | custom_components/hue_tap_dial_mqtt/const.py:20-38 | the 22 entries of `ALL_ACTIONS` are pairwise distinct |
| `Actions.ButtonNamesInjective` | custom_components/hue_tap_dial_mqtt/const.py:6-9 | two formatted button names are equal iff they have the same template and the same button number |
| `Actions.ButtonNameIsNotDial` | custom_components/hue_tap_dial_mqtt/const.py:6-17 | no button name equals a dial-rotate or brightness-step name |
| `Actions.DialActionsDistinct` | custom_components/hue_tap_dial_mqtt/const.py:11-17 | the six dial and brightness names are pairwise distinct |
| `Actions.ReleaseNamesSplit` | custom_components/hue_tap_dial_mqtt/const.py:7-9 | every press-release name contains "press_release"; no hold-release name does |
| `Actions.RotateNamesHaveNoStep` | custom_components/hue_tap_dial_mqtt/const.py:11-14 | no legacy rotate name contains "_step", so the classifier's "_step" rejection never fires |
| `Actions.RotateNameRight` | custom_components/hue_tap_dial_mqtt/const.py:11-14 | a rotate name contains "right" iff it is one of the two RIGHT names |
| `Actions.RotateNameFast` | custom_components/hue_tap_dial_mqtt/const.py:11-14 | a rotate name contains "fast" iff it is one of the two FAST names (the LEFT_SLOW name has every letter of "fast" but not the word) |
| `Classifier.Classify` | custom_components/hue_tap_dial_mqtt/__init__.py:108-345 | definition mirrors `message_received` stage by stage; its contract keeps four buttons; what it does is stated by the `Gestures` lemmas and it specifies `TapDial.Step` |
| `Classifier.IsDuplicate` | custom_components/hue_tap_dial_mqtt/__init__.py:119-122 | definition mirrors the duplicate test; no contract (stated by `Gestures.RepeatWithinWindow`) |
| `Classifier.Metadata` | custom_components/hue_tap_dial_mqtt/__init__.py:129-171 | definition mirrors the metadata dispatches in order; no contract (stated by `TapDial.RecordMetadata` and `Gestures.AcceptedUpdatesDedup`) |
| `Classifier.UpdateNotices` | custom_components/hue_tap_dial_mqtt/__init__.py:146-171 | definition mirrors the firmware-update block; no contract (stated by `TapDial.StoreUpdate`) |
| `Classifier.ButtonStep` | custom_components/hue_tap_dial_mqtt/__init__.py:175-217 | definition mirrors one iteration of the button loop; no contract (stated by `Gestures.PressRule` and `Gestures.ReleaseRule`) |
| `Classifier.Scan` | custom_components/hue_tap_dial_mqtt/__init__.py:174-217 | definition mirrors the loop over buttons 1..n; its contract keeps four buttons (stated by `Gestures.ScanOneButton`, `Gestures.ScanNoButton`) |
| `Classifier.Held` | custom_components/hue_tap_dial_mqtt/__init__.py:219-221 | definition mirrors `down_buttons`; no contract (stated by `HeldExactly` and `LowestHeld`) |
| `Classifier.BrightnessStep` | custom_components/hue_tap_dial_mqtt/__init__.py:224-286 | definition mirrors the brightness-step branch; its contract keeps four buttons (stated by `Gestures.StepFilteredIgnored`, `StepWhileHeld`, `StepFree`) |
| `Classifier.LegacyRotate` | custom_components/hue_tap_dial_mqtt/__init__.py:289-342 | definition mirrors the legacy rotate branch; its contract keeps four buttons (stated by `Gestures.LegacyRotateByName` and the `Rotate*` lemmas) |
| `Classifier.DialStage` | custom_components/hue_tap_dial_mqtt/__init__.py:223-342 | definition mirrors the dispatch on the action name after the loop; its contract keeps four buttons (stated by `Gestures.ClassifyStep`, `ClassifyRotate`, `DialStageKeepsConsistent`) |
| `Classifier.Fire` | custom_components/hue_tap_dial_mqtt/__init__.py:202-339 | definition mirrors the three `event_data` dictionaries (button at 202-209, combined at 249-262 and 312-324, dial at 271-283 and 328-339); no contract (stated by the `Entities.Routed*` lemmas) |
| `Classifier.TapDial.constructor` | custom_components/hue_tap_dial_mqtt/__init__.py:90-102 | the new device record has no last action, time 0, no metadata, and all four buttons up and not rotated |
| `Classifier.TapDial.Step` | custom_components/hue_tap_dial_mqtt/__init__.py:108-345 | the imperative classifier's new state, fired events and notifications are exactly those of the reference definition `Classify` |
| `Classifier.TapDial.RecordMetadata` | custom_components/hue_tap_dial_mqtt/__init__.py:129-171 | the notifications are battery, linkquality and then the `update` object's fields, each only when present; the stored metadata records them in that order; the dedup fields are unchanged |
| `Classifier.TapDial.Store` | custom_components/hue_tap_dial_mqtt/__init__.py:130-143 | one optional field is stored and dispatched exactly when the record has its key |
| `Classifier.TapDial.StoreUpdate` | custom_components/hue_tap_dial_mqtt/__init__.py:146-171 | for an `update` object: installed and latest version when present, then `update_available`, defaulting to whether `update.state` is "available"; nothing for any other `update` value |
| `Classifier.TapDial.ScanButtons` | custom_components/hue_tap_dial_mqtt/__init__.py:174-217 | the loop over buttons 1..4 leaves the table and the fired events of `Scan` |
| `Classifier.TapDial.DownButtons` | custom_components/hue_tap_dial_mqtt/__init__.py:219-221 | `down_buttons` is `Held`: the down buttons in ascending order |
| `Classifier.TapDial.StepBrightness` | custom_components/hue_tap_dial_mqtt/__init__.py:224-286 | the brightness-step branch leaves the table and the event of `BrightnessStep` |
| `Classifier.TapDial.StepLegacyRotate` | custom_components/hue_tap_dial_mqtt/__init__.py:289-342 | the legacy rotate branch leaves the table and the event of `LegacyRotate`, including a rotation mark made before `abs()` raises |
| `Classifier.TapDial.DialStageOf` | custom_components/hue_tap_dial_mqtt/__init__.py:223-342 | the dial part after the button loop agrees with `DialStage` |
| `Classifier.HeldExactly` | custom_components/hue_tap_dial_mqtt/__init__.py:219-221 | b is in `down_buttons` iff button b is down; the list is strictly ascending |
| `Classifier.LowestHeld` | custom_components/hue_tap_dial_mqtt/__init__.py:245-246 | `down_buttons` is empty iff no button is down; otherwise its head is down and no lower-numbered button is |
| `Classifier.ScanKeepsConsistent` | custom_components/hue_tap_dial_mqtt/__init__.py:174-217 | the button loop preserves "rotated only while down" |
| `Classifier.MarkHeldKeepsConsistent` | custom_components/hue_tap_dial_mqtt/__init__.py:245-248 | marking the lowest held button rotated preserves "rotated only while down" |
| `Classifier.DialStageKeepsConsistent` | custom_components/hue_tap_dial_mqtt/__init__.py:223-342 | the dial stage preserves "rotated only while down" |
| `Classifier.ClassifyKeepsConsistent` | custom_components/hue_tap_dial_mqtt/__init__.py:108-345 | after any record every button is rotated only while it is down, and there are still four buttons |
| `Gestures.RejectedChangesNothing` | custom_components/hue_tap_dial_mqtt/__init__.py:112-124 | a non-object payload, a missing or falsy action, or a duplicate changes nothing: no dedup update, no metadata, no event, no button change |
| `Gestures.AcceptedUpdatesDedup` | custom_components/hue_tap_dial_mqtt/__init__.py:126-171 | an accepted record becomes the last action at `now` and dispatches its metadata, whether or not an event follows |
| `Gestures.RepeatWithinWindow` | custom_components/hue_tap_dial_mqtt/__init__.py:117-127 | the same record again less than 100 ms later has no effect and does not refresh the stored time; 100 ms or later it is accepted |
| `Gestures.OtherButtonIdle` | custom_components/hue_tap_dial_mqtt/__init__.py:174-186 | a loop iteration ignores an action that names another button |
| `Gestures.ScanOneButton` | custom_components/hue_tap_dial_mqtt/__init__.py:174-217 | for a button action, the loop changes only the named button's slot and fires only that button's events |
| `Gestures.ScanNoButton` | custom_components/hue_tap_dial_mqtt/__init__.py:174-217 | an action naming no button leaves the table unchanged and fires nothing in the loop |
| `Gestures.DialNamesNoButton` | custom_components/hue_tap_dial_mqtt/const.py:6-17 | no dial or brightness name names a button transition |
| `Gestures.ClassifyButton` | custom_components/hue_tap_dial_mqtt/__init__.py:174-217 | a button action changes only its button's slot and fires that iteration's events; the dial stage adds nothing |
| `Gestures.PressRule` | custom_components/hue_tap_dial_mqtt/__init__.py:175-182 | press or hold marks the button down and not rotated if it was up; if it was down the table is unchanged; no event |
| `Gestures.ReleaseRule` | custom_components/hue_tap_dial_mqtt/__init__.py:183-217 | a release always leaves the button up and not rotated; a button event is fired iff the button was not rotated, short exactly for the press release, with the duration iff present |
| `Gestures.ClassifyDial` | custom_components/hue_tap_dial_mqtt/__init__.py:223-342 | for a dial or brightness name, the effect on the table and events is that of the dial stage alone |
| `Gestures.ClassifyStep` | custom_components/hue_tap_dial_mqtt/__init__.py:224-286 | an accepted brightness step has exactly the effect of the brightness-step branch on the table |
| `Gestures.StepFilteredIgnored` | custom_components/hue_tap_dial_mqtt/__init__.py:224-240 | a step with a non-numeric delta, the bogus ±255 with step size 255, or a zero delta fires nothing and leaves the table unchanged |
| `Gestures.StepWhileHeld` | custom_components/hue_tap_dial_mqtt/__init__.py:245-267 | a step that passes the filters while b is the lowest button down marks b rotated and fires one combined event for b, with abs delta = \|delta\| and the brightness iff present |
| `Gestures.StepFree` | custom_components/hue_tap_dial_mqtt/__init__.py:268-285 | a step that passes the filters with no button down fires one dial event without speed and leaves the table unchanged |
| `Gestures.LowestIsFirstHeld` | custom_components/hue_tap_dial_mqtt/__init__.py:245-246 | the head of `down_buttons` is the lowest-numbered down button |
| `Gestures.LegacyRotateByName` | custom_components/hue_tap_dial_mqtt/__init__.py:289-342 | with a delta present, a legacy rotate marks the lowest held button and fires a combined or dial event, with direction and speed from the name; a non-numeric delta fires nothing |
| `Gestures.ClassifyRotate` | custom_components/hue_tap_dial_mqtt/__init__.py:289-342 | an accepted legacy rotate has exactly the effect of the legacy rotate branch on the table |
| `Gestures.RotateWithoutDelta` | custom_components/hue_tap_dial_mqtt/__init__.py:300-301 | a legacy rotate without `action_brightness_delta` fires nothing and leaves the table unchanged |
| `Gestures.RotateWhileHeld` | custom_components/hue_tap_dial_mqtt/__init__.py:305-326 | with a numeric delta and b the lowest button down: b is marked rotated and one combined event is fired; up iff the name says right, fast iff it says fast |
| `Gestures.RotateFree` | custom_components/hue_tap_dial_mqtt/__init__.py:327-341 | with a numeric delta and no button down: one dial event with direction and speed from the name; the table is unchanged |
| `Gestures.RotateBadDeltaStillMarks` | custom_components/hue_tap_dial_mqtt/__init__.py:308-321 | with a non-numeric delta and b held: b is still marked rotated because `abs()` raises after the mark, and no event is fired |
| `Gestures.AtMostOneEvent` | custom_components/hue_tap_dial_mqtt/__init__.py:108-345 | every record fires at most one event |
| `Gestures.StaysConsistent` | custom_components/hue_tap_dial_mqtt/__init__.py:179-191 | "rotated only while down" holds after every record |
| `Gestures.ReleaseAfterPress` | custom_components/hue_tap_dial_mqtt/__init__.py:175-217 | press or hold of an up button, then its release: nothing on the first record; exactly one button event on the second (short iff press release); the button ends up and not rotated |
| `Gestures.ShortPress` | custom_components/hue_tap_dial_mqtt/__init__.py:175-217 | press then press-release fires exactly one short button event |
| `Gestures.LongPress` | custom_components/hue_tap_dial_mqtt/__init__.py:175-217 | hold then hold-release fires exactly one long button event |
| `Gestures.PressTurnRelease` | custom_components/hue_tap_dial_mqtt/__init__.py:175-267 | press b, turn the dial up, release b: the turn is one combined event for b; the release fires nothing; the table is as before the press |
| `Entities.HandleButton` | custom_components/hue_tap_dial_mqtt/event.py:143-158 | definition mirrors the handler; no contract (stated by `ButtonHandlerRule`) |
| `Entities.HandleDial` | custom_components/hue_tap_dial_mqtt/event.py:194-242 | definition mirrors the handler, with the entity's declared types at event.py:42-49; no contract (stated by `DialTypeRule` and `DialAttributesRule`) |
| `Entities.DialAttributes` | custom_components/hue_tap_dial_mqtt/event.py:215-239 | definition mirrors the attribute dictionary built by conditional insertion; no contract (stated by `DialAttributesRule`) |
| `Entities.HandleCombined` | custom_components/hue_tap_dial_mqtt/event.py:277-294 | definition mirrors the handler, with the declared types at event.py:253; no contract (stated by `CombinedHandlerRule`) |
| `Entities.UniqueId` | custom_components/hue_tap_dial_mqtt/event.py:127 | definition mirrors the three unique-id formats (event.py:127, 180, 265); no contract (stated by `UniqueIdsDistinct`) |
| `Entities.SetupEntities` | custom_components/hue_tap_dial_mqtt/event.py:62-105 | the two append loops around the dial entity produce `EntityList` |
| `Entities.EntityListSpelled` | custom_components/hue_tap_dial_mqtt/event.py:62-105 | the list is short/long for buttons 1..4, then the dial entity, then the combined entities 1..4 |
| `Entities.EntityListContents` | custom_components/hue_tap_dial_mqtt/event.py:62-105 | 13 entities, and an entity is in the list iff it belongs to the device |
| `Entities.SuffixInjective` | custom_components/hue_tap_dial_mqtt/event.py:127 | two entities share the unique-id suffix iff they are the same kind, button and press type |
| `Entities.UniqueIdsDistinct` | custom_components/hue_tap_dial_mqtt/event.py:127-265 | the 13 unique ids (`_button_{n}_{type}`, `_dial`, `_button_{n}_dial`) are pairwise distinct |
| `Entities.ButtonHandlerRule` | custom_components/hue_tap_dial_mqtt/event.py:143-158 | a press entity triggers iff button, device and press type all match; its event type is its press type; attributes are the button and the duration iff present |
| `Entities.DialTypeRule` | custom_components/hue_tap_dial_mqtt/event.py:194-241 | the event type is `brightness_step_{direction}` iff the action contains "brightness_step", speed is empty, or direction is up/down; otherwise `rotate_{direction}_{speed}`; the entity triggers iff that type is one it declares (a step type with direction up/down, a rotate type with left/right and slow/fast) |
| `Entities.StepTypeDeclared` | custom_components/hue_tap_dial_mqtt/event.py:42-49 | `brightness_step_{t}` is a declared type of the dial entity, and of a combined entity (event.py:253), iff t is "up" or "down" |
| `Entities.RotateTypeDeclared` | custom_components/hue_tap_dial_mqtt/event.py:42-49 | `rotate_{a}_{b}` is a declared dial type iff a is left or right and b is slow or fast |
| `Entities.DialAttributesRule` | custom_components/hue_tap_dial_mqtt/event.py:215-239 | always `action` and `brightness_delta` (0 when absent); each of direction, speed, brightness, step_size, transition_time, action_time and action_type iff present, with the data's value |
| `Entities.CopyPresentRule` | custom_components/hue_tap_dial_mqtt/event.py:221-239 | copying listed keys adds exactly the listed keys present in the data, with their values, and keeps the rest |
| `Entities.CombinedHandlerRule` | custom_components/hue_tap_dial_mqtt/event.py:277-294 | a combined entity triggers iff held button and device match and the direction is "up" or "down" (its declared types, event.py:253); event type `brightness_step_{direction}`; attributes are the direction, the delta (0 when absent) and the brightness iff present, with the data's values |
| `Entities.RoutedButton` | custom_components/hue_tap_dial_mqtt/event.py:143-158 | a fired button event triggers only the press entity of its button and press type, with the expected trigger |
| `Entities.RoutedDial` | custom_components/hue_tap_dial_mqtt/event.py:194-242 | a fired dial event triggers only the dial entity, with type `brightness_step_{direction}` |
| `Entities.DialFiredAttributes` | custom_components/hue_tap_dial_mqtt/event.py:215-239 | the dial entity reports the fired action, direction, delta, and speed and brightness iff the event had them |
| `Entities.RoutedCombined` | custom_components/hue_tap_dial_mqtt/event.py:277-294 | a fired combined event triggers only the combined entity of its held button |
| `Entities.RoutedToTarget` | custom_components/hue_tap_dial_mqtt/event.py:139-298 | any fired event triggers exactly its target entity, with the expected event type and attributes |
| `Entities.ExactlyOneEntityReacts` | custom_components/hue_tap_dial_mqtt/event.py:62-105 | the target is one of the device's 13 entities, and no other entity of the device reacts |
| `Discovery.IsTapDial` | custom_components/hue_tap_dial_mqtt/discovery.py:111-132 | definition mirrors the eight tests, all evaluated before `any`, with `None` where one raises; no contract (stated by `ModelNumberDetects`, `RejectedDevice`, `StartsExactlyWhen`) |
| `Discovery.UniqueIdOf` | custom_components/hue_tap_dial_mqtt/discovery.py:149 | definition mirrors the choice; no contract (stated by `UniqueIdChoice`) |
| `Discovery.ConfiguredCheck` | custom_components/hue_tap_dial_mqtt/discovery.py:152-156 | definition mirrors the short-circuit `or` of three set lookups; no contract (stated by `ConfiguredSkipped`, `StartsExactlyWhen`) |
| `Discovery.Process` | custom_components/hue_tap_dial_mqtt/discovery.py:94-189 | definition mirrors `process_device` as a verdict and the new discovered set; no contract (stated by `ProcessFrame`, `StartsExactlyWhen`, `DiscoveredAtMostOnce`; it specifies `Discoverer.ProcessDevice`) |
| `Discovery.ProcessList` | custom_components/hue_tap_dial_mqtt/discovery.py:36-44 | definition mirrors the device loop inside the `try`; no contract (stated by `ProcessListCounts`; it specifies `Discoverer.ProcessDevices`) |
| `Discovery.AnnounceRequest` | custom_components/hue_tap_dial_mqtt/discovery.py:67-90 | definition mirrors the announce filter and the requested topic; no contract (stated by `AnnounceOnlyForDevices` and `AnnounceForDevice`) |
| `Discovery.Discoverer.ProcessDevice` | custom_components/hue_tap_dial_mqtt/discovery.py:94-189 | the verdict and the new discovered set are those of `Process`; a flow is recorded exactly for a `Started` verdict; the configured set is unchanged |
| `Discovery.Discoverer.DevicesMessage` | custom_components/hue_tap_dial_mqtt/discovery.py:33-45 | a list is processed as `ProcessList`, an object once, anything else not at all; the flows are those started |
| `Discovery.Discoverer.ProcessDevices` | custom_components/hue_tap_dial_mqtt/discovery.py:36-39 | the loop processes devices in order and stops after the first one that raises, as `ProcessList` |
| `Discovery.Discoverer.BuildConfiguredIds` | custom_components/hue_tap_dial_mqtt/discovery.py:209-212 | each entry adds its device id ("" when absent) and its unique id when non-empty |
| `Discovery.ProcessFrame` | custom_components/hue_tap_dial_mqtt/discovery.py:162-189 | only a started flow changes the discovered set; it adds exactly the device's new unique id and carries its friendly name and device |
| `Discovery.RejectedDevice` | custom_components/hue_tap_dial_mqtt/discovery.py:119-146 | a device that fails the Tap Dial test or has no friendly name changes nothing and starts no flow |
| `Discovery.UniqueIdChoice` | custom_components/hue_tap_dial_mqtt/discovery.py:115-149 | the unique id is `ieee_address` if truthy; else, when that key is absent, `ieeeAddr` if truthy; else the friendly name |
| `Discovery.ConfiguredSkipped` | custom_components/hue_tap_dial_mqtt/discovery.py:152-160 | a named Tap Dial whose friendly name is configured, or whose hashable IEEE address or missing device id is, is skipped with no change (the friendly name short-circuits, so an unhashable IEEE address does not matter then) |
| `Discovery.StartsExactlyWhen` | custom_components/hue_tap_dial_mqtt/discovery.py:134-189 | a flow starts iff the device is a named Tap Dial that is neither configured nor already discovered |
| `Discovery.DiscoveredAtMostOnce` | custom_components/hue_tap_dial_mqtt/discovery.py:162-167 | processing a started device again yields "already discovered" and no change |
| `Discovery.SameIdNeverRestarts` | custom_components/hue_tap_dial_mqtt/discovery.py:162-165 | once a unique id is discovered, no device with that id starts a flow or changes the set |
| `Discovery.ProcessListCounts` | custom_components/hue_tap_dial_mqtt/discovery.py:36-39 | over a devices list the discovered set only grows, by exactly one id per started flow |
| `Discovery.ModelNumberDetects` | custom_components/hue_tap_dial_mqtt/discovery.py:119-132 | a model containing "RDM002" is detected as a Tap Dial whenever the test does not raise |
| `Discovery.EntryIdsHaveDeviceIds` | custom_components/hue_tap_dial_mqtt/discovery.py:209-212 | every entry's device id is among the configured ids |
| `Discovery.SplitJoin` | custom_components/hue_tap_dial_mqtt/discovery.py:67 | `split("/")` loses nothing: joining the pieces gives the topic back, and no piece holds a separator |
| `Discovery.AnnounceOnlyForDevices` | custom_components/hue_tap_dial_mqtt/discovery.py:67-90 | a device-info request is made only for a topic with at least two segments, the first "zigbee2mqtt", the second neither "bridge" nor "availability", and a payload with "action" or "battery"; it asks for that second segment |
| `Discovery.AnnounceForDevice` | custom_components/hue_tap_dial_mqtt/discovery.py:67-90 | topic "zigbee2mqtt/<name>" with an object payload carrying action or battery requests `zigbee2mqtt/bridge/devices/<name>` |

## Left out

- MQTT subscribe and publish, `asyncio.sleep`, the device registry, config entry forwarding and unloading are framework I/O. They are not modelled. `AnnounceRequest` returns the topic it would publish to.
- `json.loads` is not modelled. Payloads are already-decoded values (null, bool, int, string, list, object). A payload that fails to decode behaves like a dropped record.
- JSON floats are not modelled. A fractional delta or battery value is outside the model.
- `time.monotonic` is not modelled. Time is an integer number of milliseconds passed to `Step`.
- Logging is not modelled.
- `hass.bus.async_fire` and `async_dispatcher_send` are not modelled as side effects. The fired events and metadata notifications are returned as values; `Fire` gives the data dictionary of each event.
- Each handler's `_trigger_event` and state write are returned as a `Trigger` value.
- The `rotation` field and `last_brightness` are written but never read, so they are not modelled.
- sensor.py, config_flow.py, device_trigger.py and test_integration.py are not part of this model.
- The bridge log handler `async_bridge_log` only logs, so it is not modelled.
- `Classifier.IsDuplicate`, `Discovery.InSet` and `Discovery.ConfiguredCheck`: equality and set membership are structural on `Value`. Python's `True == 1` (and `False == 0`) is not modelled for the duplicate test or the configured and discovered sets.
- `Values.Lower`: only ASCII letters are lower-cased; other Unicode case mappings are not modelled.
- `Values.Text`: `str()` of a list or an object is rendered as "" rather than as Python's repr. This matters in three places: an event type built from such a direction or speed; the substring test of `definition.description` against "dial"; and the product-code test of `model_id`.
- `Discovery.IsTapDial`: a `model_id` that is a list or an object holding "8719514491069" is not detected. Python's `str()` would show the code inside the repr, so the source detects it.
- Home Assistant refuses an event type an entity did not declare by raising. This is modelled as "no trigger": the dial and combined handlers check their declared types (event.py:42-49, 253). The press entity always triggers its one declared type.
- The rotate_* event types of the dial entity are modelled. The classifier never produces them, because everything it fires to the dial entity has an action containing "brightness_step".
- `_configured_ids` is filled after the first device list is requested. `BuildConfiguredIds` models the loop, but not the timing between a device message and that loop.
- `EntryInfo` holds the two fields of a config entry that the loop reads. The rest of a config entry is not modelled.
