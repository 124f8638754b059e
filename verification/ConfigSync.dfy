/**
 The frame.json half of the sync (backend/app/api/frame_sync.py:801-833, 923-958, 1092-1124, 1211-1244):
 which settings are reported, and when applying the user's choices settles them. What is compared are
 normalised values of what `Frame.to_dict` hands out, and what is imported or pushed is a normalised
 value too, so everything turns on what comes back of it: of an import what `ConfigImport` says, of a
 push whether normalising it again changes it.
 */
module ConfigSync {
  import opened ConfigImport
  import opened FrameModel
  import opened Json
  import opened JsonDiff
  import opened Normalisers
  import opened Options
  import opened PyText
  import opened SceneMerge

  const CONFIG_DETAIL_LIMIT := 8

  datatype ConfigChange = ConfigChange(setting: string, details: seq<Detail>)

  /** The settings on the three sides: the backend's row, what the device reports, and the snapshot of
      the last deploy, with what the backend's host supplies. */
  datatype Configs = Configs(
    row: map<string, Json>, frame: map<string, Json>, deployed: map<string, Json>, host: Host) {

    function Device(): Json {
      Get(Obj(row), "device")
    }

    /** `frame.to_dict()[key]`. */
    function Backend(key: string): Json {
      HandedOut(host, key, Get(Obj(row), key), Device())
    }

    function Reported(key: string): Json {
      Get(Obj(frame), key)
    }

    function BackendValue(key: string): Json {
      FrameValue(key, Backend(key))
    }

    function DeviceValue(key: string): Json {
      FrameValue(key, Reported(key))
    }

    function BaselineValue(key: string): Json {
      if deployed == map[] then BackendValue(key) else FrameValue(key, Get(Obj(deployed), key))
    }

    predicate Conflict(key: string) {
      !PyEq(DeviceValue(key), BaselineValue(key)) && !PyEq(BackendValue(key), DeviceValue(key))
    }

    ghost function ChangeAt(key: string): ConfigChange {
      ConfigChange(key, Take(AllDiffs(BackendValue(key), DeviceValue(key), [Label(key)]), CONFIG_DETAIL_LIMIT))
    }

    ghost function Changes(keys: seq<string>): seq<ConfigChange> {
      if keys == [] then [] else
        Changes(keys[..|keys| - 1]) + if Conflict(keys[|keys| - 1]) then [ChangeAt(keys[|keys| - 1])] else []
    }

    /** The settings that are imported: choices count for reported settings only. */
    predicate Imports(choices: map<string, Choice>, key: string) {
      key in choices && choices[key].UseFrame? && Conflict(key)
    }

    /** An imported time zone whose lookup raises refuses the whole request. */
    predicate Refused(choices: map<string, Choice>) {
      Imports(choices, "timezone") && ZoneRefused(host, DeviceValue("timezone"))
    }

    /** The row with what is imported, in the form in which it is kept. */
    function Received(choices: map<string, Choice>): map<string, Json> {
      row + map k | k in choices && Imports(choices, k) :: Imported(host, k, DeviceValue(k))
    }

    /** `apply_frame_sync`: each side gets the other's normalised value, and after any import the
        device mode sets its defaults. */
    function Applied(choices: map<string, Choice>): Configs {
      if Refused(choices) then this else
        var received := Received(choices);
        var anyImport := exists k :: k in choices && Imports(choices, k);
        this.(row := if anyImport then WithModeDefaults(host, received) else received,
              frame := frame + map k | k in choices && choices[k].UseBackend? && Conflict(k) :: BackendValue(k))
    }
  }

  method BuildFrameSyncSection(c: Configs, keys: seq<string>) returns (changes: seq<ConfigChange>)
    ensures changes == c.Changes(keys)
  {
    hide FrameValue, PyEq, AllDiffs, Take;
    changes := [];
    for i := 0 to |keys|
      invariant changes == c.Changes(keys[..i])
    {
      assert keys[..i + 1][..i] == keys[..i];
      var key := keys[i];
      var backendValue, frameValue, baselineValue := c.BackendValue(key), c.DeviceValue(key), c.BaselineValue(key);
      if PyEq(frameValue, baselineValue) {
        continue;
      }
      if PyEq(backendValue, frameValue) {
        continue;
      }
      var details := JsonDiffDetails(backendValue, frameValue, [Label(key)], CONFIG_DETAIL_LIMIT);
      changes := changes + [ConfigChange(key, details)];
    }
    assert keys[..|keys|] == keys;
  }

  // ---- the section is exact ---------------------------------------------------------

  lemma FrameValueClean(key: string, value: Json)
    ensures Clean(FrameValue(key, value))
  {
    hide Prune, SyncBool, DroppedDeviceKeys;
    match key {
      case "https_proxy" => ProxyClean(value);
      case "network" => CompactClean(value, Some(NETWORK_KEYS));
      case "agent" => CompactClean(value, Some(AGENT_KEYS));
      case "device_config" =>
        if value.Obj? { CompactClean(Obj(Without(value.fields, DroppedDeviceKeys(value))), None); }
      case "schedule" => CompactClean(Obj(map["events" := Get(value, "events")]), None);
      case "gpio_buttons" => if value.List? { ButtonsClean(value.items); }
      case "reboot" => CompactClean(value, None);
      case "control_code" => CompactClean(value, None);
      case "mountpoints" => CompactClean(value, None);
      case "palette" => CompactClean(value, None);
      case "error_behavior" => ErrorBehaviorClean(value);
      case "frame_admin_auth" => PruneCleans(NormalizeFrameAdminAuth(value));
      case _ => PruneCleans(value);
    }
  }

  lemma CompactClean(value: Json, allowed: Option<set<string>>)
    ensures Clean(CompactMapping(value, allowed))
  {
    if value.Obj? {
      PruneCleans(Obj(Restricted(value, allowed)));
    }
  }

  lemma ErrorBehaviorClean(value: Json)
    ensures Clean(ErrorBehavior(value))
  {
    hide PyEq, PyIntOfFloat;
  }

  lemma ProxyClean(value: Json)
    ensures Clean(HttpsProxy(value))
  {
    hide Prune, SyncBool;
    if value.Obj? && SyncBool(Get(value, "enable"), false) {
      var certs := Get(value, "certs");
      PruneCleans(Obj(map[
        "enable" := Bool(true),
        "port" := SyncNumber(Or(Get(value, "port"), Int(8443))),
        "expose_only_port" := Bool(SyncBool(Get(value, "expose_only_port"), true)),
        "certs" := Obj(map["server" := Get(certs, "server"), "server_key" := Get(certs, "server_key")])]));
    }
  }

  lemma {:induction false} ButtonsClean(items: seq<Json>)
    ensures Clean(List(Buttons(items)))
  {
    if items != [] {
      ButtonsClean(items[1..]);
      ButtonClean(items[0]);
    }
  }

  lemma ButtonClean(raw: Json)
    ensures Button(raw).Some? ==> Clean(Button(raw).value) && !Empty(Button(raw).value)
  {
    hide PyStr;
    if Button(raw).Some? {
      assert "pin" in Button(raw).value.fields;
    }
  }

  /** The section lists exactly the settings in conflict, each with one to eight details. */
  lemma ConfigSectionIsExact(c: Configs, keys: seq<string>)
    ensures forall key :: key in keys && c.Conflict(key) <==> exists x | x in c.Changes(keys) :: x.setting == key
    ensures forall x | x in c.Changes(keys) :: x == c.ChangeAt(x.setting) && 0 < |x.details| <= 8
  {
    hide Configs.Conflict, Configs.ChangeAt, Configs.Changes;
    forall key ensures key in keys && c.Conflict(key) <==> exists x | x in c.Changes(keys) :: x.setting == key {
      ChangesHold(c, keys, c.ChangeAt(key));
      forall x | x in c.Changes(keys) && x.setting == key ensures key in keys && c.Conflict(key) {
        ChangesHold(c, keys, x);
      }
      assert c.ChangeAt(key).setting == key by { ChangeIsOf(c, key); }
    }
    forall x | x in c.Changes(keys) ensures x == c.ChangeAt(x.setting) && 0 < |x.details| <= 8 {
      ChangesHold(c, keys, x);
      ReportedHasDetails(c, x.setting);
    }
  }

  lemma ChangeIsOf(c: Configs, key: string)
    ensures c.ChangeAt(key).setting == key
  {}

  lemma {:induction false} ChangesHold(c: Configs, keys: seq<string>, x: ConfigChange)
    ensures x in c.Changes(keys) <==> x.setting in keys && c.Conflict(x.setting) && x == c.ChangeAt(x.setting)
  {
    hide Configs.Conflict, Configs.ChangeAt;
    if keys == [] {
      assert c.Changes(keys) == [];
    } else {
      var before, last := keys[..|keys| - 1], keys[|keys| - 1];
      ChangesHold(c, before, x);
      ChangeIsOf(c, last);
      var more := if c.Conflict(last) then [c.ChangeAt(last)] else [];
      assert c.Changes(keys) == c.Changes(before) + more;
      hide Configs.Changes;
      assert x in c.Changes(keys) <==> x in c.Changes(before) || x in more;
      assert x.setting in keys <==> x.setting in before || x.setting == last by {
        assert keys == before + [last];
      }
    }
  }

  /** A reported setting comes with the first eight of all its differences. */
  lemma FirstDetails(c: Configs, key: string)
    ensures var all := AllDiffs(c.BackendValue(key), c.DeviceValue(key), [Label(key)]);
            c.ChangeAt(key).setting == key && c.ChangeAt(key).details <= all &&
            |c.ChangeAt(key).details| == if |all| < 8 then |all| else 8
  {
    hide AllDiffs, FrameValue;
  }

  lemma ReportedHasDetails(c: Configs, key: string)
    requires c.Conflict(key)
    ensures 0 < |c.ChangeAt(key).details| <= CONFIG_DETAIL_LIMIT
  {
    hide FrameValue, AllDiffs, PyEq;
    FrameValueClean(key, c.Backend(key));
    FrameValueClean(key, c.Reported(key));
    DiffEmptyIffEqual(c.BackendValue(key), c.DeviceValue(key), [Label(key)]);
  }

  // ---- when a choice settles a setting ----------------------------------------------

  /** The device mode, as it is by then, leaves the setting alone. */
  ghost predicate LeftAlone(c: Configs, choices: map<string, Choice>, key: string) {
    key !in SetByMode(Get(Obj(c.Received(choices)), "mode"))
  }

  /** A setting that the device mode leaves alone is imported or stays. */
  lemma RowAfter(c: Configs, choices: map<string, Choice>, key: string)
    requires LeftAlone(c, choices, key) && !c.Refused(choices)
    ensures Get(Obj(c.Applied(choices).row), key) ==
            if c.Imports(choices, key) then Imported(c.host, key, c.DeviceValue(key)) else Get(Obj(c.row), key)
  {
    hide Configs.Imports, Imported, Configs.Refused, Configs.Received, WithModeDefaults, SetByMode;
    ReceivedIs(c, choices, key);
    DefaultsKeep(c.host, c.Received(choices), key);
  }

  lemma ReceivedIs(c: Configs, choices: map<string, Choice>, key: string)
    ensures Get(Obj(c.Received(choices)), key) ==
            if c.Imports(choices, key) then Imported(c.host, key, c.DeviceValue(key)) else Get(Obj(c.row), key)
  {
    assert c.Imports(choices, key) ==> key in choices;
    hide Configs.Imports, Imported;
  }

  lemma DefaultsKeep(host: Host, row: map<string, Json>, key: string)
    requires key !in SetByMode(Get(Obj(row), "mode"))
    ensures Get(Obj(WithModeDefaults(host, row)), key) == Get(Obj(row), key)
  {
    hide SetByMode;
  }

  /** A mode that leaves the buttons alone leaves the device alone. */
  lemma ButtonsGoWithDevice(c: Configs, choices: map<string, Choice>)
    requires LeftAlone(c, choices, "gpio_buttons")
    ensures LeftAlone(c, choices, "device")
  {
    hide Configs.Received;
  }

  lemma FrameAfter(c: Configs, choices: map<string, Choice>, key: string)
    requires !c.Refused(choices)
    ensures var after := c.Applied(choices);
            after.deployed == c.deployed && after.host == c.host &&
            after.Reported(key) ==
            if c.Conflict(key) && ChoiceOf(choices, key).UseBackend? then c.BackendValue(key) else c.Reported(key)
  {
    assert ChoiceOf(choices, key).UseBackend? ==> key in choices;
    hide Configs.Imports, Configs.Conflict, Configs.BackendValue, Configs.Refused, Configs.Received, WithModeDefaults;
  }

  /** Importing another device may bring its buttons along. */
  ghost predicate ButtonsStay(c: Configs, choices: map<string, Choice>) {
    DeviceButtons(c.Applied(choices).Device()) == DeviceButtons(c.Device())
  }

  /** The choice for a reported setting leaves nothing to report about it. */
  ghost predicate Settled(c: Configs, choice: Choice, key: string) {
    match choice
    case UseFrame => !LostOnImport(c.host, key, c.Reported(key), c.Device())
    case UseBackend => !Unstable(key, c.Backend(key)) ||
                       PyEq(FrameValue(key, c.BackendValue(key)), c.BaselineValue(key))
    case _ => false
  }

  function ChoiceOf(choices: map<string, Choice>, key: string): Choice {
    if key in choices then choices[key] else Unknown
  }

  /** What the choices do to one setting: it is reported again exactly if it was reported, and the
      request was refused or its choice does not settle it: there is none, or the value that was taken
      over is lost on import or changes when it is normalised again (and, on the frame, does not come to
      read as the deployed one). */
  lemma ConfigOutcome(c: Configs, choices: map<string, Choice>, key: string)
    requires LeftAlone(c, choices, key)
    requires key == "gpio_buttons" ==> ButtonsStay(c, choices)
    ensures c.Applied(choices).Conflict(key) <==>
            c.Conflict(key) && (c.Refused(choices) || !Settled(c, ChoiceOf(choices, key), key))
  {
    hide FrameValue, PyEq, Unstable, LostOnImport, Imported, HandedOut, DeviceButtons, ZoneRefused;
    var after := c.Applied(choices);
    if !c.Refused(choices) {
      RowAfter(c, choices, key);
      var b, f := c.Backend(key), c.Reported(key);
      UnstableDiffers(key, b);
      SameButtons(c.host, key, Get(Obj(after.row), key), after.Device(), c.Device());
      ImportReadsBack(c.host, key, f, c.Device());
      PyEqSymmetric(FrameValue(key, FrameValue(key, b)), FrameValue(key, b));
      PyEqSymmetric(after.BackendValue(key), FrameValue(key, f));
      PyEqReflexive(FrameValue(key, b));
      PyEqReflexive(FrameValue(key, f));
    }
  }

  /** The device matters to its buttons only. */
  lemma SameButtons(host: Host, key: string, value: Json, device: Json, other: Json)
    requires key == "gpio_buttons" ==> DeviceButtons(device) == DeviceButtons(other)
    ensures HandedOut(host, key, value, device) == HandedOut(host, key, value, other)
  {
    hide DeviceButtons;
  }

  /** The buttons of the backend after the choices: those of its device by then, or else the imported
      ones, or else its own. */
  function ButtonsAfter(c: Configs, choices: map<string, Choice>): Json {
    var device := if c.Imports(choices, "device") then c.DeviceValue("device") else c.Device();
    if !DeviceButtons(device).Null? then DeviceButtons(device)
    else if c.Imports(choices, "gpio_buttons") then c.DeviceValue("gpio_buttons")
    else GpioButtons(Get(Obj(c.row), "gpio_buttons"))
  }

  /** The buttons are reported after the choices, whichever device they bring, exactly if what the frame
      has by then differs from the backend's buttons and from those of the last deploy, if any. */
  lemma ButtonsOutcome(c: Configs, choices: map<string, Choice>)
    requires !c.Refused(choices) && LeftAlone(c, choices, "gpio_buttons")
    ensures var key := "gpio_buttons";
            var pushed := c.Conflict(key) && ChoiceOf(choices, key).UseBackend?;
            var onFrame := if pushed then c.BackendValue(key) else c.DeviceValue(key);
            c.Applied(choices).Conflict(key) <==>
            !PyEq(onFrame, ButtonsAfter(c, choices)) &&
            (c.deployed == map[] || !PyEq(onFrame, GpioButtons(Get(Obj(c.deployed), key))))
  {
    hide PyEq, GpioButtons, DeviceButtons, Prune, Truthy, Configs.Conflict, Configs.Refused, Configs.Imports,
         Configs.Received, Configs.Applied, WithModeDefaults, SetByMode, LeftAlone;
    var after := c.Applied(choices);
    RowAfter(c, choices, "gpio_buttons");
    ButtonsGoWithDevice(c, choices);
    RowAfter(c, choices, "device");
    FrameAfter(c, choices, "gpio_buttons");
    DeviceButtonsNormal(after.Device());
    ButtonsTwice(c.Backend("gpio_buttons"));
    ButtonsTwice(c.Reported("gpio_buttons"));
    ButtonsOrOwn(after.Device());
    ConflictIs(after, "gpio_buttons");
    PyEqSymmetric(after.DeviceValue("gpio_buttons"), after.BackendValue("gpio_buttons"));
  }

  lemma ButtonsTwice(value: Json)
    ensures GpioButtons(GpioButtons(value)) == GpioButtons(value)
  {
    hide Buttons;
    if value.List? { ButtonsStable(value.items); }
  }

  lemma ButtonsOrOwn(device: Json)
    ensures Truthy(DeviceButtons(device)) <==> !DeviceButtons(device).Null?
  {
    hide LabelledButton;
  }

  lemma ConflictIs(c: Configs, key: string)
    ensures c.Conflict(key) <==>
            !PyEq(c.DeviceValue(key), c.BaselineValue(key)) && !PyEq(c.BackendValue(key), c.DeviceValue(key))
  {}

  /** Config sync converges exactly if the request is not refused and every reported setting gets a
      choice that settles it. */
  lemma ConfigConverges(c: Configs, choices: map<string, Choice>, keys: seq<string>)
    requires forall key | key in keys :: LeftAlone(c, choices, key)
    requires "gpio_buttons" in keys ==> ButtonsStay(c, choices)
    ensures c.Applied(choices).Changes(keys) == [] <==>
            forall key | key in keys && c.Conflict(key) ::
              !c.Refused(choices) && Settled(c, ChoiceOf(choices, key), key)
  {
    hide Settled, ChoiceOf, Configs.Applied, Configs.Conflict, Configs.Changes, Configs.Refused, LeftAlone, ButtonsStay;
    var after := c.Applied(choices);
    forall key | key in keys
      ensures after.Conflict(key) <==>
              c.Conflict(key) && (c.Refused(choices) || !Settled(c, ChoiceOf(choices, key), key))
    {
      ConfigOutcome(c, choices, key);
    }
    NothingToReport(after, keys);
  }

  lemma {:induction false} NothingToReport(c: Configs, keys: seq<string>)
    ensures c.Changes(keys) == [] <==> forall key | key in keys :: !c.Conflict(key)
  {
    hide Configs.Conflict, Configs.ChangeAt;
    if keys != [] {
      var before, last := keys[..|keys| - 1], keys[|keys| - 1];
      NothingToReport(c, before);
      assert forall key :: key in keys <==> key in before || key == last by {
        assert keys == before + [last];
      }
    }
  }

  /** The settings that come back from the row in another form than they went in. */
  const REWRITTEN := {"reboot", "mountpoints", "gpio_buttons", "max_http_response_bytes", "timezone"}

  /** Settings with plain switches are settled by the backend's value, all but a proxy whose port is
      unstable and a login that reads as a number, and by the frame's value too unless the row
      rewrites them. */
  lemma PlainSettingsSettle(c: Configs, key: string, choice: Choice)
    requires choice.UseFrame? || choice.UseBackend?
    requires key !in {"https_proxy", "frame_admin_auth"}
    requires choice.UseFrame? ==> key !in REWRITTEN
    requires forall flag | flag in {"partial", "enabled", "agentEnabled"} ::
               PlainSwitch(Get(Get(Obj(c.row), key), flag)) && PlainSwitch(Get(c.Reported(key), flag))
    ensures Settled(c, choice, key)
  {
    hide FrameValue, PyEq, Unstable, PlainSwitch, HandedOut;
    HandedOutSwitches(c, key);
    PlainSwitchesAreStable(key, c.Backend(key));
    PlainSwitchesAreStable(key, c.Reported(key));
  }

  lemma HandedOutSwitches(c: Configs, key: string)
    requires key !in {"https_proxy", "frame_admin_auth"}
    requires forall flag | flag in {"partial", "enabled", "agentEnabled"} ::
               PlainSwitch(Get(Get(Obj(c.row), key), flag))
    ensures forall flag | flag in {"partial", "enabled", "agentEnabled"} :: PlainSwitch(Get(c.Backend(key), flag))
  {
    hide PlainSwitch, HandedOut;
    var value := Get(Obj(c.row), key);
    forall flag | flag in {"partial", "enabled", "agentEnabled"} ensures PlainSwitch(Get(c.Backend(key), flag)) {
      HandedOutSwitch(c.host, key, value, c.Device(), flag);
      PlainOnes();
    }
  }

  lemma PlainOnes()
    ensures PlainSwitch(Null) && forall b :: PlainSwitch(Bool(b))
  {}

  /** Handing out keeps a switch or makes it a boolean. */
  lemma HandedOutSwitch(host: Host, key: string, value: Json, device: Json, flag: string)
    requires key !in {"https_proxy", "frame_admin_auth"} && flag in {"partial", "enabled", "agentEnabled"}
    ensures var switch := Get(HandedOut(host, key, value, device), flag);
            switch == Get(value, flag) || switch.Null? || switch.Bool?
  {
    hide NormalizeReboot, NormalizeMountpoints, NormalizeErrorBehavior, Truthy, DeviceButtons;
    RebootSwitch(value, flag);
    OtherSwitches(host, value, device, flag);
  }

  lemma RebootSwitch(value: Json, flag: string)
    requires flag != "crontab"
    ensures Get(NormalizeReboot(value), flag) == Get(value, flag)
  {
    hide NormalizeRebootCrontab;
  }

  lemma OtherSwitches(host: Host, value: Json, device: Json, flag: string)
    requires flag in {"partial", "enabled", "agentEnabled"}
    ensures Get(NormalizeErrorBehavior(value), flag).Null? && Get(DeviceButtons(device), flag).Null?
    ensures Get(NormalizeMountpoints(host, value), flag).Null? || Get(NormalizeMountpoints(host, value), flag).Bool?
  {
    hide NormalizeItems, PositiveNumber, Truthy, LabelledButton;
  }

  // ---- instances --------------------------------------------------------------------

  /** A reboot that is merely switched on gets a crontab when it is stored, and is reported again. */
  lemma RebootWithoutCrontabComesBack(c: Configs, choices: map<string, Choice>)
    requires c.Reported("reboot") == Obj(map["enabled" := Bool(true)])
    requires ChoiceOf(choices, "reboot").UseFrame? && c.Conflict("reboot")
    ensures c.Applied(choices).Conflict("reboot")
  {
    hide Configs.Conflict, Configs.Applied, Configs.Refused, Configs.Received, LostOnImport, ButtonsStay;
    ConfigOutcome(c, choices, "reboot");
    MereRebootIsLost(c.host, c.Device());
  }

  lemma MereRebootIsLost(host: Host, device: Json)
    ensures LostOnImport(host, "reboot", Obj(map["enabled" := Bool(true)]), device)
  {
    hide Prune, SyncBool, Strip, LegacyHour;
    var value := Obj(map["enabled" := Bool(true)]);
    BoolIsOn(true);
    BoolRemains(true);
    NullRemains();
    NullPrunesToNull();
    CompactEntry(value, "crontab");
    CompactEntry(value, "enabled");
  }

  /** Importing a device alone can make its buttons a change that nobody reported before. */
  lemma ImportedDeviceBringsButtons(host: Host)
    ensures var c := Configs(map[], map["device" := Str("pimoroni.inky_impression_4")], map[], host);
            var choices := map["device" := UseFrame];
            !c.Conflict("gpio_buttons") && c.Applied(choices).Conflict("gpio_buttons")
  {
    hide PyEq, Prune, GpioButtons, DeviceButtons, Truthy, Configs.Applied, Configs.Conflict;
    var device := Str("pimoroni.inky_impression_4");
    var c := Configs(map[], map["device" := device], map[], host);
    NoButtons();
    DeviceConflicts(c, device);
    ButtonsDoNotConflict(c);
    InkyHasButtons(device);
    NullIsNoDict(DeviceButtons(device));
    ButtonsOutcome(c, map["device" := UseFrame]);
  }

  lemma DeviceConflicts(c: Configs, device: Json)
    requires c.row == map[] && c.deployed == map[] && c.Reported("device") == device
    requires device == Str("pimoroni.inky_impression_4")
    ensures c.Conflict("device") && c.DeviceValue("device") == device
  {
    hide PyEq, Prune;
    DeviceNamePrunes();
    NullPrunesToNull();
    NullIsNoDict(device);
    PyEqSymmetric(Null, device);
  }

  lemma ButtonsDoNotConflict(c: Configs)
    requires c.row == map[] && c.deployed == map[] && c.Reported("gpio_buttons") == Null
    ensures !c.Conflict("gpio_buttons")
  {
    hide PyEq, GpioButtons, DeviceButtons;
    NoButtons();
    PyEqReflexive(Null);
  }

  lemma NoButtons()
    ensures GpioButtons(Null) == Null && DeviceButtons(Null) == Null
  {}

  lemma InkyHasButtons(device: Json)
    requires device == Str("pimoroni.inky_impression_4")
    ensures DeviceButtons(device).List? && Truthy(DeviceButtons(device))
  {}

  lemma DeviceNamePrunes()
    ensures var device := Str("pimoroni.inky_impression_4"); Prune(device) == device
  {
    var name := "pimoroni.inky_impression_4";
    hide Numeral;
    StripsToItself(name);
    if Numeral(name).Some? { NumeralStart(name); }
  }
}
