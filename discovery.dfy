/** Discovery of Tap Dials from zigbee2mqtt's device list: the detection
    predicate, the unique-id choice, the set of devices already discovered
    (so that each device starts at most one config flow), the dispatch on
    the shape of the devices payload, and the announce topic filter. */
module Discovery {
  import opened Values

  // ---------------------------------------------------------------------
  // Detection and identity

  /** `is_tap_dial`: the eight tests of the list are all evaluated before
      `any`, so the result is `None` (raised) when the model, manufacturer or
      type is not a string, when a truthy friendly name is not a string, or
      when `definition` is present and not an object. */
  function IsTapDial(dev: map<string, Value>, friendlyName: Value): Option<bool>
  {
    var model := GetOr(dev, "model", Str(""));
    var manufacturer := GetOr(dev, "manufacturer", Str(""));
    var deviceType := GetOr(dev, "type", Str(""));
    var definition := GetOr(dev, "definition", Obj(map[]));
    if !model.Str? || !manufacturer.Str? || !deviceType.Str? || !definition.Obj? then None
    else if Truthy(friendlyName) && !friendlyName.Str? then None
    else
      var m := model.s;
      var description := Text(GetOr(definition.fields, "description", Str("")));
      Some(
        || Contains(m, "RDM002")
        || Contains(Text(GetOr(dev, "model_id", Str(""))), "8719514491069")
        || Contains(m, "Tap Dial")
        || Contains(Lower(m), "tap dial")
        || (Truthy(friendlyName) && Contains(Lower(friendlyName.s), "tap_dial"))
        || Contains(Lower(deviceType.s), "dial")
        || (Lower(manufacturer.s) == "philips" && Contains(Lower(m), "dial"))
        || Contains(Lower(description), "dial"))
  }

  /** `friendly_name`, defaulting to the `device_id` argument, which every
      caller leaves as `None`. */
  function FriendlyName(dev: map<string, Value>): Value
  {
    GetOr(dev, "friendly_name", Null)
  }

  /** `ieee_address`, else `ieeeAddr`, else "". */
  function IeeeAddress(dev: map<string, Value>): Value
  {
    GetOr(dev, "ieee_address", GetOr(dev, "ieeeAddr", Str("")))
  }

  /** The IEEE address when it is truthy, else the friendly name. */
  function UniqueIdOf(dev: map<string, Value>): Value
  {
    if Truthy(IeeeAddress(dev)) then IeeeAddress(dev) else FriendlyName(dev)
  }

  /** `v in s` for a Python set: lists and dicts raise. */
  function InSet(v: Value, s: set<Value>): Option<bool>
  {
    if Hashable(v) then Some(v in s) else None
  }

  /** The data a started config flow receives. */
  datatype Flow = Flow(name: string, device: Value)

  /** How one call of `process_device` ends. */
  datatype Verdict =
    | Raised
    | NotTapDial
    | NoName
    | AlreadyConfigured
    | AlreadyDiscovered
    | Started(flow: Flow)

  /** The configured check, which short-circuits: the friendly name, then
      the IEEE address (raising when unhashable), then the `device_id`
      argument, `None`. */
  function ConfiguredCheck(name: Value, ieee: Value, configured: set<Value>): Option<bool>
  {
    if name in configured then Some(true)
    else match InSet(ieee, configured)
      case None => None
      case Some(hit) => Some(hit || Null in configured)
  }

  /** `process_device`: the verdict and the new discovered set. */
  function Process(discovered: set<Value>, configured: set<Value>, device: Value): (Verdict, set<Value>)
  {
    if !device.Obj? then (Raised, discovered)  // device.get raises
    else
      var dev := device.fields;
      var name := FriendlyName(dev);
      match IsTapDial(dev, name)
      case None => (Raised, discovered)
      case Some(isTapDial) =>
        if !isTapDial then (NotTapDial, discovered)
        else if !Truthy(name) then (NoName, discovered)
        else
          match ConfiguredCheck(name, IeeeAddress(dev), configured)
          case None => (Raised, discovered)
          case Some(hit) =>
            if hit then (AlreadyConfigured, discovered)
            else if UniqueIdOf(dev) in discovered then (AlreadyDiscovered, discovered)
            else (Started(Flow(name.s, device)), discovered + {UniqueIdOf(dev)})
  }

  /** The list case of the devices message: each device in order, until one
      raises; the exception abandons the rest. */
  function ProcessList(discovered: set<Value>, configured: set<Value>, devices: seq<Value>)
    : (seq<Verdict>, set<Value>)
    decreases |devices|
  {
    if devices == [] then ([], discovered)
    else
      var first := Process(discovered, configured, devices[0]);
      if first.0 == Raised then ([Raised], first.1)
      else
        var rest := ProcessList(first.1, configured, devices[1..]);
        ([first.0] + rest.0, rest.1)
  }

  /** The flows started by a run of verdicts, in order. */
  function StartedFlows(vs: seq<Verdict>): seq<Flow>
  {
    if vs == [] then []
    else (if vs[0].Started? then [vs[0].flow] else []) + StartedFlows(vs[1..])
  }

  /** A config entry of the integration: its `device_id` (absent counts as
      "") and its unique id. */
  datatype EntryInfo = EntryInfo(deviceId: Option<string>, uniqueId: Option<string>)

  /** The ids one config entry contributes to `_configured_ids`. */
  function IdsOf(e: EntryInfo): set<Value>
  {
    {Str(if e.deviceId.Some? then e.deviceId.value else "")}
    + (if e.uniqueId.Some? && e.uniqueId.value != "" then {Str(e.uniqueId.value)} else {})
  }

  /** The ids of all entries. */
  function EntryIds(entries: seq<EntryInfo>): set<Value>
  {
    if entries == [] then {} else EntryIds(entries[..|entries| - 1]) + IdsOf(entries[|entries| - 1])
  }

  // ---------------------------------------------------------------------
  // The module-level sets

  class Discoverer {
    /** `_discovered_devices` */
    var discovered: set<Value>
    /** `_configured_ids` */
    var configured: set<Value>
    /** The config flows started so far, in order. */
    var flows: seq<Flow>

    /** Every started flow accounts for exactly one discovered unique id. */
    ghost predicate Valid()
      reads this
    {
      |flows| == |discovered|
    }

    constructor ()
      ensures Valid() && discovered == {} && configured == {} && flows == []
    {
      discovered, configured, flows := {}, {}, [];
    }

    /** Process one device from the devices payload. */
    method ProcessDevice(device: Value) returns (v: Verdict)
      requires Valid()
      modifies this
      ensures Valid()
      ensures (v, discovered) == Process(old(discovered), configured, device)
      ensures configured == old(configured)
      ensures flows == old(flows) + StartedFlows([v])
    {
      v := Raised;
      if !device.Obj? {
        return;
      }
      var dev := device.fields;
      var name := FriendlyName(dev);
      var ieee := IeeeAddress(dev);
      var isTapDial := IsTapDial(dev, name);
      if isTapDial.None? {
        return;
      }
      if !isTapDial.value {
        v := NotTapDial;
        return;
      }
      if !Truthy(name) {
        v := NoName;
        return;
      }
      var uniqueId := if Truthy(ieee) then ieee else name;
      var hit := ConfiguredCheck(name, ieee, configured);
      if hit.None? {
        return;
      }
      if hit.value {
        v := AlreadyConfigured;
        return;
      }
      if uniqueId in discovered {
        v := AlreadyDiscovered;
        return;
      }
      discovered := discovered + {uniqueId};
      v := Started(Flow(name.s, device));
      flows := flows + [v.flow];
    }

    /** `async_device_discovered` after decoding: a list is processed device
        by device until one raises, an object once, anything else not at all. */
    method DevicesMessage(payload: Value) returns (vs: seq<Verdict>)
      requires Valid()
      modifies this
      ensures Valid() && configured == old(configured)
      ensures payload.Arr? ==> (vs, discovered) == ProcessList(old(discovered), configured, payload.items)
      ensures payload.Obj? ==> |vs| == 1 && (vs[0], discovered) == Process(old(discovered), configured, payload)
      ensures !payload.Arr? && !payload.Obj? ==> vs == [] && discovered == old(discovered)
      ensures flows == old(flows) + StartedFlows(vs)
    {
      vs := [];
      if payload.Arr? {
        vs := ProcessDevices(payload.items);
      } else if payload.Obj? {
        var v := ProcessDevice(payload);
        vs := [v];
      }
    }

    /** The `for device in devices` loop; an exception leaves it early. */
    method ProcessDevices(devices: seq<Value>) returns (vs: seq<Verdict>)
      requires Valid()
      modifies this
      ensures Valid() && configured == old(configured)
      ensures vs == ProcessList(old(discovered), configured, devices).0
      ensures discovered == ProcessList(old(discovered), configured, devices).1
      ensures flows == old(flows) + StartedFlows(vs)
    {
      ghost var total := ProcessList(discovered, configured, devices);
      vs := [];
      var i := 0;
      assert devices[0..] == devices;
      while i < |devices|
        invariant 0 <= i <= |devices| && Valid() && configured == old(configured)
        invariant flows == old(flows) + StartedFlows(vs)
        invariant vs + ProcessList(discovered, configured, devices[i..]).0 == total.0
        invariant ProcessList(discovered, configured, devices[i..]).1 == total.1
        decreases |devices| - i
      {
        var v := Visit(devices, i, vs, total, old(flows));
        vs := vs + [v];
        if v == Raised {
          return;
        }
        i := i + 1;
      }
      assert vs + [] == vs;
      assert devices[|devices|..] == [];
    }

    /** One turn of the device loop: the prefix of verdicts grows by one and
        the rest of the list remains to be processed. */
    method Visit(devices: seq<Value>, i: int, ghost done: seq<Verdict>,
                 ghost total: (seq<Verdict>, set<Value>), ghost start: seq<Flow>)
      returns (v: Verdict)
      requires Valid() && 0 <= i < |devices|
      requires flows == start + StartedFlows(done)
      requires done + ProcessList(discovered, configured, devices[i..]).0 == total.0
      requires ProcessList(discovered, configured, devices[i..]).1 == total.1
      modifies this
      ensures Valid() && configured == old(configured)
      ensures flows == start + StartedFlows(done + [v])
      ensures v == Raised ==> done + [v] == total.0 && discovered == total.1
      ensures v != Raised ==>
        (done + [v]) + ProcessList(discovered, configured, devices[i + 1..]).0 == total.0
      ensures v != Raised ==> ProcessList(discovered, configured, devices[i + 1..]).1 == total.1
    {
      ghost var d0, f0 := discovered, flows;
      v := ProcessDevice(devices[i]);
      ProcessListStep(d0, configured, devices, i, v, discovered, done, total);
      FlowsStep(start, f0, flows, done, v);
    }

    /** The loop filling `_configured_ids` from the config entries. */
    method BuildConfiguredIds(entries: seq<EntryInfo>)
      modifies this
      ensures configured == old(configured) + EntryIds(entries)
      ensures discovered == old(discovered) && flows == old(flows)
    {
      for i := 0 to |entries|
        invariant configured == old(configured) + EntryIds(entries[..i])
        invariant discovered == old(discovered) && flows == old(flows)
      {
        var e := entries[i];
        configured := configured + {Str(if e.deviceId.Some? then e.deviceId.value else "")};
        if e.uniqueId.Some? && e.uniqueId.value != "" {
          configured := configured + {Str(e.uniqueId.value)};
        }
        assert entries[..i + 1][..i] == entries[..i];
      }
      assert entries[..|entries|] == entries;
    }
  }

  /** One step of the list loop, given the outcome of its device: `done`
      are the verdicts so far and `total` the outcome of the whole list. */
  lemma ProcessListStep(discovered: set<Value>, configured: set<Value>, devices: seq<Value>, i: int,
                        v: Verdict, after: set<Value>,
                        done: seq<Verdict>, total: (seq<Verdict>, set<Value>))
    requires 0 <= i < |devices| && (v, after) == Process(discovered, configured, devices[i])
    requires done + ProcessList(discovered, configured, devices[i..]).0 == total.0
    requires ProcessList(discovered, configured, devices[i..]).1 == total.1
    ensures v == Raised ==> done + [v] == total.0 && after == total.1
    ensures v != Raised ==>
      (done + [v]) + ProcessList(after, configured, devices[i + 1..]).0 == total.0
    ensures v != Raised ==> ProcessList(after, configured, devices[i + 1..]).1 == total.1
  {
    assert devices[i..][1..] == devices[i + 1..];
    if v != Raised {
      var rest := ProcessList(after, configured, devices[i + 1..]);
      assert ProcessList(discovered, configured, devices[i..]).0 == [v] + rest.0;
      assert done + ([v] + rest.0) == (done + [v]) + rest.0;
    }
  }

  /** The flows after one more verdict. */
  lemma FlowsStep(start: seq<Flow>, f0: seq<Flow>, f1: seq<Flow>, before: seq<Verdict>, v: Verdict)
    requires f0 == start + StartedFlows(before) && f1 == f0 + StartedFlows([v])
    ensures f1 == start + StartedFlows(before + [v])
  {
    StartedFlowsAppend(before, [v]);
  }

  lemma {:induction false} StartedFlowsAppend(a: seq<Verdict>, b: seq<Verdict>)
    ensures StartedFlows(a + b) == StartedFlows(a) + StartedFlows(b)
    decreases |a|
  {
    if a != [] {
      assert (a + b)[1..] == a[1..] + b;
      StartedFlowsAppend(a[1..], b);
    } else {
      assert a + b == b;
    }
  }

  // ---------------------------------------------------------------------
  // What discovery promises

  /** Only a started flow changes the discovered set; it then adds exactly
      the device's unique id, which was not there before. */
  lemma ProcessFrame(discovered: set<Value>, configured: set<Value>, device: Value)
    ensures var r := Process(discovered, configured, device);
      && (!r.0.Started? ==> r.1 == discovered)
      && (r.0.Started? ==>
            device.Obj? && UniqueIdOf(device.fields) !in discovered
            && r.1 == discovered + {UniqueIdOf(device.fields)}
            && r.0.flow == Flow(FriendlyName(device.fields).s, device))
  {
  }

  /** A device that fails the Tap Dial test, or has no friendly name,
      changes nothing and starts no flow. */
  lemma RejectedDevice(discovered: set<Value>, configured: set<Value>, dev: map<string, Value>)
    requires IsTapDial(dev, FriendlyName(dev)) == Some(false) || !Truthy(FriendlyName(dev))
    requires IsTapDial(dev, FriendlyName(dev)).Some?
    ensures var r := Process(discovered, configured, Obj(dev));
      (r.0 == NotTapDial || r.0 == NoName) && r.1 == discovered
  {
  }

  /** The unique id is `ieee_address` when present and truthy; when
      `ieee_address` is absent, `ieeeAddr` when truthy; otherwise the
      friendly name. */
  lemma UniqueIdChoice(dev: map<string, Value>)
    ensures "ieee_address" in dev && Truthy(dev["ieee_address"]) ==> UniqueIdOf(dev) == dev["ieee_address"]
    ensures ("ieee_address" !in dev && "ieeeAddr" in dev && Truthy(dev["ieeeAddr"]))
              ==> UniqueIdOf(dev) == dev["ieeeAddr"]
    ensures !Truthy(IeeeAddress(dev)) ==> UniqueIdOf(dev) == FriendlyName(dev)
  {
  }

  /** A Tap Dial whose friendly name, IEEE address or the missing device id
      is configured is skipped without any change; the friendly name is
      tested first, so an unhashable IEEE address does not matter then. */
  lemma ConfiguredSkipped(discovered: set<Value>, configured: set<Value>, dev: map<string, Value>)
    requires IsTapDial(dev, FriendlyName(dev)) == Some(true) && Truthy(FriendlyName(dev))
    requires || FriendlyName(dev) in configured
             || (Hashable(IeeeAddress(dev)) && (IeeeAddress(dev) in configured || Null in configured))
    ensures Process(discovered, configured, Obj(dev)) == (AlreadyConfigured, discovered)
  {
  }

  /** A flow is started exactly for a named Tap Dial that is neither
      configured nor discovered yet. */
  lemma StartsExactlyWhen(discovered: set<Value>, configured: set<Value>, dev: map<string, Value>)
    ensures Process(discovered, configured, Obj(dev)).0.Started? <==>
      && IsTapDial(dev, FriendlyName(dev)) == Some(true) && Truthy(FriendlyName(dev))
      && ConfiguredCheck(FriendlyName(dev), IeeeAddress(dev), configured) == Some(false)
      && UniqueIdOf(dev) !in discovered
  {
  }

  /** Processing the same device again starts no second flow. */
  lemma DiscoveredAtMostOnce(discovered: set<Value>, configured: set<Value>, device: Value)
    requires Process(discovered, configured, device).0.Started?
    ensures var again := Process(Process(discovered, configured, device).1, configured, device);
      again == (AlreadyDiscovered, Process(discovered, configured, device).1)
  {
  }

  /** More generally: once a unique id is discovered, no device with that
      unique id starts a flow. */
  lemma SameIdNeverRestarts(discovered: set<Value>, configured: set<Value>, device: Value)
    requires device.Obj? && UniqueIdOf(device.fields) in discovered
    ensures !Process(discovered, configured, device).0.Started?
    ensures Process(discovered, configured, device).1 == discovered
  {
  }

  /** Over a whole devices list the discovered set only grows, and each
      started flow adds one new unique id. */
  lemma {:induction false} ProcessListCounts(discovered: set<Value>, configured: set<Value>, devices: seq<Value>)
    ensures var r := ProcessList(discovered, configured, devices);
      discovered <= r.1 && |r.1| == |discovered| + |StartedFlows(r.0)|
    decreases |devices|
  {
    if devices != [] {
      var first := Process(discovered, configured, devices[0]);
      ProcessFrame(discovered, configured, devices[0]);
      if first.0 != Raised {
        ProcessListCounts(first.1, configured, devices[1..]);
      }
    }
  }

  /** A device the model number "RDM002" identifies is a Tap Dial, whatever
      its other fields say, as long as none of them makes the test raise. */
  lemma ModelNumberDetects(dev: map<string, Value>, pre: string, post: string)
    requires GetOr(dev, "model", Str("")) == Str(pre + "RDM002" + post)
    requires IsTapDial(dev, FriendlyName(dev)).Some?
    ensures IsTapDial(dev, FriendlyName(dev)) == Some(true)
  {
    ContainsSplice(pre, "RDM002", post);
  }

  /** Entries with a device id make a device of that name "configured". */
  lemma {:induction false} EntryIdsHaveDeviceIds(entries: seq<EntryInfo>, k: int)
    requires 0 <= k < |entries| && entries[k].deviceId.Some?
    ensures Str(entries[k].deviceId.value) in EntryIds(entries)
    decreases |entries|
  {
    if k < |entries| - 1 {
      assert entries[..|entries| - 1][k] == entries[k];
      EntryIdsHaveDeviceIds(entries[..|entries| - 1], k);
    }
  }

  // ---------------------------------------------------------------------
  // The announce filter

  /** `s.split(sep)`: the pieces between separators, possibly empty. */
  function Split(s: string, sep: char): (parts: seq<string>)
    ensures |parts| >= 1
    decreases |s|
  {
    if s == [] then [""]
    else if s[0] == sep then [""] + Split(s[1..], sep)
    else var rest := Split(s[1..], sep); [[s[0]] + rest[0]] + rest[1..]
  }

  /** `sep.join(parts)` */
  function Join(parts: seq<string>, sep: char): string
    requires |parts| >= 1
    decreases |parts|
  {
    if |parts| == 1 then parts[0] else parts[0] + [sep] + Join(parts[1..], sep)
  }

  /** Splitting loses nothing: joining the pieces gives the string back, and
      no piece contains the separator. */
  lemma {:induction false} SplitJoin(s: string, sep: char)
    ensures Join(Split(s, sep), sep) == s
    ensures forall i :: 0 <= i < |Split(s, sep)| ==> sep !in Split(s, sep)[i]
    decreases |s|
  {
    if s != [] {
      SplitJoin(s[1..], sep);
      var rest := Split(s[1..], sep);
      if s[0] == sep {
        assert Split(s, sep)[1..] == rest;
      } else {
        var parts := Split(s, sep);
        assert parts[1..] == rest[1..];
        if |rest| > 1 {
          assert Join(rest, sep) == rest[0] + [sep] + Join(rest[1..], sep);
          assert Join(parts, sep) == ([s[0]] + rest[0]) + [sep] + Join(rest[1..], sep);
        }
        assert forall c :: c in [s[0]] + rest[0] ==> c == s[0] || c in rest[0];
      }
    }
  }

  /** A separator-free head comes out as the first piece. */
  lemma {:induction false} SplitHead(a: string, sep: char, b: string)
    requires sep !in a
    ensures Split(a + [sep] + b, sep) == [a] + Split(b, sep)
    decreases |a|
  {
    if a == [] {
      assert a + [sep] + b == [sep] + b;
      assert ([sep] + b)[1..] == b;
    } else {
      assert (a + [sep] + b)[1..] == a[1..] + [sep] + b;
      SplitHead(a[1..], sep, b);
      assert [a[0]] + a[1..] == a;
    }
  }

  /** `async_device_announce` after decoding the payload: the device list
      topic to request, if any. */
  function AnnounceRequest(topic: string, payload: Value): Option<string>
  {
    var parts := Split(topic, '/');
    if |parts| >= 2 && parts[0] == "zigbee2mqtt" && parts[1] != "bridge" && parts[1] != "availability" then
      match PyIn("action", payload)
      case None => None  // `in` raises on a number, bool or null payload
      case Some(hasAction) =>
        if hasAction || PyIn("battery", payload) == Some(true)
        then Some("zigbee2mqtt/bridge/devices/" + parts[1])
        else None
    else None
  }

  /** A request is made only for a topic "zigbee2mqtt/<name>..." whose
      second segment is neither "bridge" nor "availability", and it asks for
      that device. */
  lemma AnnounceOnlyForDevices(topic: string, payload: Value)
    requires AnnounceRequest(topic, payload).Some?
    ensures var parts := Split(topic, '/');
      && |parts| >= 2 && parts[0] == "zigbee2mqtt"
      && parts[1] != "bridge" && parts[1] != "availability"
      && AnnounceRequest(topic, payload) == Some("zigbee2mqtt/bridge/devices/" + parts[1])
      && (PyIn("action", payload) == Some(true) || PyIn("battery", payload) == Some(true))
  {
  }

  /** A device topic "zigbee2mqtt/<name>" with an object payload carrying
      `action` or `battery` asks for that device's info. */
  lemma AnnounceForDevice(name: string, payload: map<string, Value>)
    requires '/' !in name && name != "bridge" && name != "availability"
    requires "action" in payload || "battery" in payload
    ensures AnnounceRequest("zigbee2mqtt/" + name, Obj(payload)) == Some("zigbee2mqtt/bridge/devices/" + name)
  {
    var head := "zigbee2mqtt";
    assert '/' !in head;
    assert "zigbee2mqtt/" + name == head + ['/'] + name;
    SplitHead(head, '/', name);
    SplitJoin(name, '/');
    assert Split(name, '/') == [name] by {
      SplitNoSeparator(name, '/');
    }
  }

  lemma {:induction false} SplitNoSeparator(s: string, sep: char)
    requires sep !in s
    ensures Split(s, sep) == [s]
    decreases |s|
  {
    if s != [] {
      assert forall c :: c in s[1..] ==> c in s;
      SplitNoSeparator(s[1..], sep);
      assert [s[0]] + s[1..] == s;
    }
  }
}
