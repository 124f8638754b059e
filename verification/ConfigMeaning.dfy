/**
 What the comparison of settings comes to, in terms of the settings themselves
 (backend/app/api/frame_sync.py:146-161, 199-378; backend/app/models/frame.py:134-148, 206-249): when
 two values of a setting count as equal.
 */
module ConfigMeaning {
  import opened ConfigImport
  import opened FrameModel
  import opened Json
  import opened JsonDiff
  import opened Normalisers
  import opened Options
  import opened PyText

  /** How a switch reads: as it stands, by a word for on or off, or else by its truth; unset it has a
      default. */
  predicate ReadsAsOn(value: Json, default: bool) {
    match value
    case Bool(b) => b
    case Null => default
    case Str(s) =>
      var word := Lower(Strip(s));
      word in {"true", "1", "yes", "on", "enabled"} ||
      (s != "" && word !in {"false", "0", "no", "off", "disabled", ""})
    case _ => Truthy(value)
  }

  /** Nothing, or a zero, also one written as a text. */
  predicate NothingOrZero(value: Json) {
    value.Null? || value == Str("") || Scalar(value) == Some(0.0) ||
    (value.Str? && Numeral(value.s).Some? && Scalar(Numeral(value.s).value) == Some(0.0))
  }

  // ---- settings that are dicts ------------------------------------------------------

  const DICT_SETTINGS := {"network", "agent", "device_config", "reboot", "control_code", "mountpoints", "palette",
                          "schedule"}

  /** What counts of a setting under one of its fields: nothing while the setting is switched off, and
      nothing of fields that backend and frame keep to themselves. */
  function Counts(key: string, value: Json, field: string): Json {
    var entry := Get(value, field);
    match key
    case "network" =>
      if field in {"networkCheck", "networkCheckTimeoutSeconds", "networkCheckUrl", "wifiHotspot", "wifiHotspotSsid",
                   "wifiHotspotPassword", "wifiHotspotTimeoutSeconds"} then entry else Null
    case "agent" =>
      if field in {"agentEnabled", "agentRunCommands", "agentSharedSecret"} &&
         ReadsAsOn(Get(value, "agentEnabled"), false) then entry else Null
    case "device_config" =>
      if field in {"queryParam", "uploadMethod"} then Null
      else if field == "partial" && !ReadsAsOn(entry, false) then Null
      else if field in {"partialMaxAreaPercent", "partialMaxRefreshesBeforeFull", "vcom"} && NothingOrZero(entry) then
        Null
      else entry
    case "schedule" => if field == "events" && entry.List? then entry else Null
    case "palette" => entry
    case _ => if ReadsAsOn(Get(value, "enabled"), false) then entry else Null
  }

  /** Of a setting that is a dict, two values compare equal exactly if what counts of them is kept
      alike, field by field. */
  lemma DictSettingsComparedBy(key: string, x: Json, y: Json)
    requires key in DICT_SETTINGS
    ensures PyEq(FrameValue(key, x), FrameValue(key, y)) <==>
            forall field :: KeptAlike(Counts(key, x, field), Counts(key, y, field))
  {
    hide PyEq, KeptAlike, Counts, FrameValue, CompactMapping;
    var m := CountedFields(key, x);
    var n := CountedFields(key, y);
    CompactedAlike(m, n);
    forall field ensures Get(Obj(m), field) == Counts(key, x, field) && Get(Obj(n), field) == Counts(key, y, field) {}
  }

  /** The fields that count, as the dict that is compacted. */
  lemma CountedFields(key: string, value: Json) returns (m: map<string, Json>)
    requires key in DICT_SETTINGS
    ensures FrameValue(key, value) == CompactMapping(Obj(m), None)
    ensures forall field :: Get(Obj(m), field) == Counts(key, value, field)
  {
    hide Prune, Numeral, Strip, Lower, Truthy;
    ReadsAsSwitch(Get(value, "agentEnabled"));
    ReadsAsSwitch(Get(value, "enabled"));
    ReadsAsSwitch(Get(value, "partial"));
    NothingCompacts();
    m := map[];
    if value.Obj? {
      hide SyncBool, ReadsAsOn;
      match key {
        case "network" =>
          m := Restricted(value, Some(NETWORK_KEYS));
          assert Restricted(Obj(m), None) == m;
        case "agent" =>
          if SyncBool(Get(value, "agentEnabled"), false) {
            m := Restricted(value, Some(AGENT_KEYS));
            assert Restricted(Obj(m), None) == m;
          }
        case "device_config" =>
          m := Without(value.fields, DroppedDeviceKeys(value));
          ZeroesDropped(value);
          assert Restricted(Obj(m), None) == m;
        case "schedule" =>
          var events := Get(value, "events");
          if events.List? && events.items != [] {
            m := map["events" := events];
          } else if events.List? {
            m := map["events" := EMPTY_LIST];
            EmptyCompacts();
          }
        case "palette" => m := value.fields;
        case _ => if SyncBool(Get(value, "enabled"), false) { m := value.fields; }
      }
    } else {
      hide CompactMapping;
      assert forall field :: Get(value, field) == Null;
    }
  }

  lemma ReadsAsSwitch(value: Json)
    ensures ReadsAsOn(value, false) == SyncBool(value, false) && ReadsAsOn(value, true) == SyncBool(value, true)
  {
    hide Lower, Strip, Truthy;
  }

  lemma NothingCompacts()
    ensures CompactMapping(Obj(map[]), None) == Null && CompactMapping(Null, None) == Null
  {
    assert Prune(Obj(map[])).fields == map[];
  }

  lemma EmptyCompacts()
    ensures CompactMapping(Obj(map["events" := EMPTY_LIST]), None) == Null
  {
    assert Prune(Obj(Restricted(Obj(map["events" := EMPTY_LIST]), None))).fields == map[];
  }

  lemma ZeroesDropped(value: Json)
    ensures forall k :: NoNumber(SyncNumber(Get(value, k))) <==> NothingOrZero(Get(value, k))
  {
    EmptyWord();
    hide Numeral;
  }

  lemma CompactedAlike(m: map<string, Json>, n: map<string, Json>)
    ensures PyEq(CompactMapping(Obj(m), None), CompactMapping(Obj(n), None)) <==>
            forall field :: KeptAlike(Get(Obj(m), field), Get(Obj(n), field))
  {
    hide PyEq, KeptAlike, Prune, Remainder;
    var x, y := CompactMapping(Obj(m), None), CompactMapping(Obj(n), None);
    CompactedShape(m);
    CompactedShape(n);
    forall field ensures PyEq(Get(x, field), Get(y, field)) <==> KeptAlike(Get(Obj(m), field), Get(Obj(n), field)) {
      CompactEntry(Obj(m), field);
      CompactEntry(Obj(n), field);
      RemaindersAlike(Get(Obj(m), field), Get(Obj(n), field));
    }
    hide CompactMapping;
    if PyEq(x, y) {
      forall field ensures PyEq(Get(x, field), Get(y, field)) { EqualEntriesAt(x, y, field, 0); }
    }
    if forall field :: PyEq(Get(x, field), Get(y, field)) {
      if x.Obj? && y.Obj? {
        EqualEntriesMakeEqual(x, y);
      } else if x.Obj? != y.Obj? {
        var k :| k in (if x.Obj? then x else y).fields;
        OnlyNullEqualsNull(Get(x, k), Get(y, k));
      } else {
        PyEqReflexive(Null);
      }
    }
  }

  lemma CompactedShape(m: map<string, Json>)
    ensures var x := CompactMapping(Obj(m), None);
            x.Null? || (x.Obj? && x.fields != map[] && forall k | k in x.fields :: !x.fields[k].Null?)
  {
    hide Prune, Remainder;
    PrunedKeys(m);
    assert Restricted(Obj(m), None) == m;
  }

  // ---- the proxy --------------------------------------------------------------------

  predicate ProxyIsOn(value: Json) {
    value.Obj? && ReadsAsOn(Get(value, "enable"), false)
  }

  /** Two proxies compare equal exactly if both are off, or both are on with the same port, or none,
      which is 8443, the same exposure and the same server certificate and key. */
  lemma ProxiesComparedBy(x: Json, y: Json)
    ensures PyEq(FrameValue("https_proxy", x), FrameValue("https_proxy", y)) <==>
            (!ProxyIsOn(x) && !ProxyIsOn(y)) ||
            (ProxyIsOn(x) && ProxyIsOn(y) &&
             KeptAlike(Or(Get(x, "port"), Int(8443)), Or(Get(y, "port"), Int(8443))) &&
             (ReadsAsOn(Get(x, "expose_only_port"), true) <==> ReadsAsOn(Get(y, "expose_only_port"), true)) &&
             KeptAlike(Get(Get(x, "certs"), "server"), Get(Get(y, "certs"), "server")) &&
             KeptAlike(Get(Get(x, "certs"), "server_key"), Get(Get(y, "certs"), "server_key")))
  {
    hide PyEq, KeptAlike, HttpsProxy, PortEntry, CertsEntry, SyncBool, ReadsAsOn, Truthy;
    ReadsAsSwitch(Get(x, "enable"));
    ReadsAsSwitch(Get(y, "enable"));
    PyEqReflexive(Null);
    if ProxyIsOn(x) && ProxyIsOn(y) {
      BothOn(x, y);
    } else {
      ProxyShape(x);
      ProxyShape(y);
      DictIsNotNull(HttpsProxy(x), HttpsProxy(y));
    }
  }

  lemma DictIsNotNull(x: Json, y: Json)
    ensures x.Obj? && y.Null? ==> !PyEq(x, y) && !PyEq(y, x)
    ensures y.Obj? && x.Null? ==> !PyEq(x, y) && !PyEq(y, x)
  {}

  lemma ProxyShape(x: Json)
    ensures if x.Obj? && SyncBool(Get(x, "enable"), false) then HttpsProxy(x).Obj? else HttpsProxy(x).Null?
  {
    if x.Obj? && SyncBool(Get(x, "enable"), false) { HttpsProxyEntries(x); }
  }

  lemma BothOn(x: Json, y: Json)
    requires ProxyIsOn(x) && ProxyIsOn(y)
    ensures PyEq(HttpsProxy(x), HttpsProxy(y)) <==>
            KeptAlike(Or(Get(x, "port"), Int(8443)), Or(Get(y, "port"), Int(8443))) &&
            (ReadsAsOn(Get(x, "expose_only_port"), true) <==> ReadsAsOn(Get(y, "expose_only_port"), true)) &&
            KeptAlike(Get(Get(x, "certs"), "server"), Get(Get(y, "certs"), "server")) &&
            KeptAlike(Get(Get(x, "certs"), "server_key"), Get(Get(y, "certs"), "server_key"))
  {
    hide PyEq, KeptAlike, HttpsProxy, PortEntry, CertsEntry, SyncBool, ReadsAsOn, Truthy;
    ReadsAsSwitch(Get(x, "enable"));
    ReadsAsSwitch(Get(y, "enable"));
    ReadsAsSwitch(Get(x, "expose_only_port"));
    ReadsAsSwitch(Get(y, "expose_only_port"));
    HttpsProxyEntries(x);
    HttpsProxyEntries(y);
    PortsAlike(Get(x, "port"), Get(y, "port"));
    CertsAlike(Get(x, "certs"), Get(y, "certs"));
    var p, q := HttpsProxy(x), HttpsProxy(y);
    BoolsAlike(SyncBool(Get(x, "expose_only_port"), true), SyncBool(Get(y, "expose_only_port"), true));
    BoolsAlike(true, true);
    if PyEq(p, q) {
      EqualEntriesAt(p, q, "port", 0);
      EqualEntriesAt(p, q, "expose_only_port", 0);
      EqualEntriesAt(p, q, "certs", 0);
    }
    if PyEq(Get(p, "port"), Get(q, "port")) && PyEq(Get(p, "expose_only_port"), Get(q, "expose_only_port")) &&
       PyEq(Get(p, "certs"), Get(q, "certs")) {
      PyEqReflexive(Null);
      forall k ensures PyEq(Get(p, k), Get(q, k)) {
        if k !in {"enable", "port", "expose_only_port", "certs"} { assert k !in p.fields && k !in q.fields; }
      }
      EqualEntriesMakeEqual(p, q);
    }
  }

  lemma BoolsAlike(b: bool, c: bool)
    ensures PyEq(Bool(b), Bool(c)) <==> b == c
  {}

  lemma PortsAlike(x: Json, y: Json)
    ensures PyEq(PortEntry(x), PortEntry(y)) <==> KeptAlike(Or(x, Int(8443)), Or(y, Int(8443)))
  {
    RemaindersAlike(Or(x, Int(8443)), Or(y, Int(8443)));
    NumbersPruneAlike(Or(x, Int(8443)));
    NumbersPruneAlike(Or(y, Int(8443)));
    hide PyEq, KeptAlike, Remainder, SyncNumber, Truthy;
  }

  lemma NumbersPruneAlike(value: Json)
    ensures Remainder(SyncNumber(value)) == Remainder(value)
  {
    EmptyWord();
    hide Numeral;
  }

  lemma CertsAlike(x: Json, y: Json)
    ensures PyEq(CertsEntry(x), CertsEntry(y)) <==>
            KeptAlike(Get(x, "server"), Get(y, "server")) && KeptAlike(Get(x, "server_key"), Get(y, "server_key"))
  {
    hide PyEq, KeptAlike, Prune;
    var m := map["server" := Get(x, "server"), "server_key" := Get(x, "server_key")];
    var n := map["server" := Get(y, "server"), "server_key" := Get(y, "server_key")];
    CompactedAlike(m, n);
    CompactIsRemainder(m);
    CompactIsRemainder(n);
    assert Get(Obj(m), "server") == Get(x, "server") && Get(Obj(m), "server_key") == Get(x, "server_key");
    assert Get(Obj(n), "server") == Get(y, "server") && Get(Obj(n), "server_key") == Get(y, "server_key");
    assert forall field | field !in {"server", "server_key"} :: Get(Obj(m), field) == Get(Obj(n), field) == Null;
    NullsAlike();
  }

  lemma NullsAlike()
    ensures KeptAlike(Null, Null)
  {
    NullPrunesToNull();
  }

  lemma CompactIsRemainder(m: map<string, Json>)
    ensures CompactMapping(Obj(m), None) == Remainder(Obj(m))
  {
    hide Prune;
    CompactsWhole(m);
    PrunedKeys(m);
  }

  // ---- buttons ----------------------------------------------------------------------

  /** A button counts by its pin, a number above zero, and by its label unless it just repeats the pin. */
  function PinsAndLabels(items: seq<Json>): seq<(real, string)> {
    if items == [] then [] else
      var pin := SyncNumber(Get(items[0], "pin"));
      var text := Strip(PyStr(Or(Get(items[0], "label"), Str(""))));
      (if items[0].Obj? && (pin == Bool(true) || (pin.Int? && pin.i > 0)) then
         [(Scalar(pin).value, if text == "Pin " + PyStr(pin) then "" else text)]
       else []) + PinsAndLabels(items[1..])
  }

  /** Two lists of buttons compare equal exactly if their pins and labels are the same, in order. */
  lemma ButtonsComparedBy(x: Json, y: Json)
    ensures PyEq(FrameValue("gpio_buttons", x), FrameValue("gpio_buttons", y)) <==>
            PinsAndLabels(if x.List? then x.items else []) == PinsAndLabels(if y.List? then y.items else [])
  {
    hide PyEq, PinsAndLabels, Buttons;
    var xs, ys := if x.List? then x.items else [], if y.List? then y.items else [];
    ButtonsTold(xs);
    ButtonsTold(ys);
    assert Buttons([]) == [] by { NoButtonsOfNone(); }
    var p, q := Buttons(xs), Buttons(ys);
    ListsEqualIff(p, q);
    PyEqReflexive(Null);
    ListIsNotNull(List(p), List(q));
    forall i | 0 <= i < |p| == |q| ensures PyEq(p[i], q[i]) <==> Told(p[i]) == Told(q[i]) {
      ButtonsEqual(p[i], q[i]);
    }
    if PinsAndLabels(xs) == PinsAndLabels(ys) {
      forall i | 0 <= i < |p| ensures Told(p[i]) == Told(q[i]) {}
    }
    if |p| == |q| && forall i | 0 <= i < |p| :: Told(p[i]) == Told(q[i]) {
      assert PinsAndLabels(xs) == PinsAndLabels(ys);
    }
  }

  lemma NoButtonsOfNone()
    ensures Buttons([]) == []
  {}

  lemma ListIsNotNull(x: Json, y: Json)
    ensures x.List? ==> !PyEq(x, Null) && !PyEq(Null, x)
    ensures y.List? ==> !PyEq(y, Null) && !PyEq(Null, y)
  {}

  predicate IsButton(button: Json) {
    button.Obj? && "pin" in button.fields && Scalar(button.fields["pin"]).Some? &&
    button.fields.Keys <= {"pin", "label"} &&
    ("label" in button.fields ==> button.fields["label"].Str? && button.fields["label"].s != "")
  }

  function Told(button: Json): (real, string)
    requires IsButton(button)
  {
    (Scalar(button.fields["pin"]).value, if "label" in button.fields then button.fields["label"].s else "")
  }

  lemma {:induction false} ButtonsTold(items: seq<Json>)
    ensures |Buttons(items)| == |PinsAndLabels(items)|
    ensures forall i | 0 <= i < |Buttons(items)| ::
              IsButton(Buttons(items)[i]) && Told(Buttons(items)[i]) == PinsAndLabels(items)[i]
  {
    if items != [] {
      ButtonsTold(items[1..]);
      ButtonTold(items[0]);
      hide Button, Told, IsButton, Strip, PyStr, SyncNumber;
    }
  }

  lemma ButtonTold(raw: Json)
    ensures var pin := SyncNumber(Get(raw, "pin"));
            var text := Strip(PyStr(Or(Get(raw, "label"), Str(""))));
            Button(raw).Some? == (raw.Obj? && (pin == Bool(true) || (pin.Int? && pin.i > 0))) &&
            (Button(raw).Some? ==>
               IsButton(Button(raw).value) &&
               Told(Button(raw).value) == (Scalar(pin).value, if text == "Pin " + PyStr(pin) then "" else text))
  {
    hide Strip, PyStr, SyncNumber, Or;
  }

  lemma ButtonsEqual(x: Json, y: Json)
    requires IsButton(x) && IsButton(y)
    ensures PyEq(x, y) <==> Told(x) == Told(y)
  {}

  // ---- error behaviour and login ----------------------------------------------------

  function ModeOf(value: Json): string {
    var mode := Get(value, "mode");
    if mode.Str? && mode.s in {"safe_mode", "show_error_retry", "silent_retry"} then mode.s else "show_error_retry"
  }

  /** A whole number above zero, or else the default. */
  function SecondsOf(value: Json, default: int): int {
    var number := PyIntOfFloat(value);
    if number.Some? && number.value > 0 then number.value else default
  }

  /** Two error behaviours compare equal exactly if mode, switch and times are, unset ones by their
      defaults; the silent window also goes by its old name. */
  lemma ErrorBehavioursComparedBy(x: Json, y: Json)
    ensures PyEq(FrameValue("error_behavior", x), FrameValue("error_behavior", y)) <==>
            ModeOf(x) == ModeOf(y) &&
            SecondsOf(Get(x, "retry_seconds"), 60) == SecondsOf(Get(y, "retry_seconds"), 60) &&
            SecondsOf(Get(x, "silent_retry_seconds"), 60) == SecondsOf(Get(y, "silent_retry_seconds"), 60) &&
            SecondsOf(Get(x, "show_error_retry_seconds"), 60) == SecondsOf(Get(y, "show_error_retry_seconds"), 60) &&
            Truthy(Get(x, "silent_retry_forever")) == Truthy(Get(y, "silent_retry_forever")) &&
            SecondsOf(GetOr(x, "silent_window_minutes", Get(x, "silent_retry_minutes")), 10) ==
              SecondsOf(GetOr(y, "silent_window_minutes", Get(y, "silent_retry_minutes")), 10)
  {
    hide PyEq, NormalizeErrorBehavior, SecondsOf, Truthy, ModeOf;
    var p, q, d := NormalizeErrorBehavior(x), NormalizeErrorBehavior(y), NormalizeErrorBehavior(Null);
    BehavioursEqual(x, y);
    PyEqSymmetric(d, q);
    PyEqReflexive(Null);
    PyEqIsCanonEq(p, q);
    PyEqIsCanonEq(p, d);
    PyEqIsCanonEq(d, q);
    hide Canon;
    BehaviourIsDict(x);
    BehaviourIsDict(y);
    DictIsNotNull(p, Null);
    DictIsNotNull(Null, q);
  }

  lemma BehaviourIsDict(x: Json)
    ensures NormalizeErrorBehavior(x).Obj?
  {}

  lemma BehavioursEqual(x: Json, y: Json)
    ensures PyEq(NormalizeErrorBehavior(x), NormalizeErrorBehavior(y)) <==>
            ModeOf(x) == ModeOf(y) &&
            SecondsOf(Get(x, "retry_seconds"), 60) == SecondsOf(Get(y, "retry_seconds"), 60) &&
            SecondsOf(Get(x, "silent_retry_seconds"), 60) == SecondsOf(Get(y, "silent_retry_seconds"), 60) &&
            SecondsOf(Get(x, "show_error_retry_seconds"), 60) == SecondsOf(Get(y, "show_error_retry_seconds"), 60) &&
            Truthy(Get(x, "silent_retry_forever")) == Truthy(Get(y, "silent_retry_forever")) &&
            SecondsOf(GetOr(x, "silent_window_minutes", Get(x, "silent_retry_minutes")), 10) ==
              SecondsOf(GetOr(y, "silent_window_minutes", Get(y, "silent_retry_minutes")), 10)
  {
    hide PyEq, PositiveNumber, SecondsOf, ModeOf, Truthy, GetOr;
    var p, q := NormalizeErrorBehavior(x), NormalizeErrorBehavior(y);
    EqualIffEntries(p, q);
    ModeEntry(x);
    ModeEntry(y);
    TextsEqual(ModeOf(x), ModeOf(y));
    BoolsAlike(Truthy(Get(x, "silent_retry_forever")), Truthy(Get(y, "silent_retry_forever")));
    SecondsEntries(Get(x, "retry_seconds"), Get(y, "retry_seconds"), 60);
    SecondsEntries(Get(x, "silent_retry_seconds"), Get(y, "silent_retry_seconds"), 60);
    SecondsEntries(Get(x, "show_error_retry_seconds"), Get(y, "show_error_retry_seconds"), 60);
    SecondsEntries(GetOr(x, "silent_window_minutes", Get(x, "silent_retry_minutes")),
                   GetOr(y, "silent_window_minutes", Get(y, "silent_retry_minutes")), 10);
    BehaviourKeys(x);
    BehaviourKeys(y);
    hide NormalizeErrorBehavior;
    assert forall k | k in p.fields :: k in BEHAVIOUR_KEYS;
  }

  const BEHAVIOUR_KEYS := {"mode", "retry_seconds", "silent_retry_seconds", "silent_retry_forever",
                           "silent_window_minutes", "show_error_retry_seconds"}

  lemma BehaviourKeys(x: Json)
    ensures var p := NormalizeErrorBehavior(x);
            p.Obj? && p.fields.Keys == BEHAVIOUR_KEYS && p.fields["mode"] == Str(ModeOf(x)) &&
            p.fields["retry_seconds"] == PositiveNumber(Get(x, "retry_seconds"), 60) &&
            p.fields["silent_retry_seconds"] == PositiveNumber(Get(x, "silent_retry_seconds"), 60) &&
            p.fields["show_error_retry_seconds"] == PositiveNumber(Get(x, "show_error_retry_seconds"), 60) &&
            p.fields["silent_retry_forever"] == Bool(Truthy(Get(x, "silent_retry_forever"))) &&
            p.fields["silent_window_minutes"] ==
              PositiveNumber(GetOr(x, "silent_window_minutes", Get(x, "silent_retry_minutes")), 10)
  {
    hide PositiveNumber, ModeOf, Truthy, GetOr;
    ModeEntry(x);
  }

  lemma ModeEntry(x: Json)
    ensures Get(NormalizeErrorBehavior(x), "mode") == Str(ModeOf(x))
  {
    hide PositiveNumber, Truthy, GetOr;
  }

  lemma TextsEqual(s: string, t: string)
    ensures PyEq(Str(s), Str(t)) <==> s == t
  {}

  lemma SecondsEntries(x: Json, y: Json, default: int)
    ensures PyEq(PositiveNumber(x, default), PositiveNumber(y, default)) <==>
            SecondsOf(x, default) == SecondsOf(y, default)
  {
    hide PyIntOfFloat;
  }

  /** Two logins compare equal exactly if they are both on or both off, with the same user, up to
      outer spaces, and the same password, each up to how pruning reads a text. */
  lemma LoginsComparedBy(x: Json, y: Json)
    ensures PyEq(FrameValue("frame_admin_auth", x), FrameValue("frame_admin_auth", y)) <==>
            Truthy(Get(x, "enabled")) == Truthy(Get(y, "enabled")) &&
            KeptAlike(Str(Strip(TextOf(Get(x, "user")))), Str(Strip(TextOf(Get(y, "user"))))) &&
            KeptAlike(Str(TextOf(Get(x, "pass"))), Str(TextOf(Get(y, "pass"))))
  {
    hide PyEq, KeptAlike, Strip, Truthy, TextEntry, FrameAdminAuth, Remainder;
    AdminAuthEntries(x);
    AdminAuthEntries(y);
    var p, q := FrameAdminAuth(x), FrameAdminAuth(y);
    TextsAlike(Strip(TextOf(Get(x, "user"))), Strip(TextOf(Get(y, "user"))));
    TextsAlike(TextOf(Get(x, "pass")), TextOf(Get(y, "pass")));
    BoolsAlike(Truthy(Get(x, "enabled")), Truthy(Get(y, "enabled")));
    if PyEq(p, q) {
      EqualEntriesAt(p, q, "enabled", 0);
      EqualEntriesAt(p, q, "user", 0);
      EqualEntriesAt(p, q, "pass", 0);
    }
    if PyEq(Get(p, "enabled"), Get(q, "enabled")) && PyEq(Get(p, "user"), Get(q, "user")) &&
       PyEq(Get(p, "pass"), Get(q, "pass")) {
      PyEqReflexive(Null);
      forall k ensures PyEq(Get(p, k), Get(q, k)) {
        if k !in {"enabled", "user", "pass"} { assert k !in p.fields && k !in q.fields; }
      }
      EqualEntriesMakeEqual(p, q);
    }
  }

  lemma TextsAlike(s: string, t: string)
    ensures PyEq(TextEntry(s), TextEntry(t)) <==> KeptAlike(Str(s), Str(t))
  {
    hide PyEq, KeptAlike, TextEntry, Remainder;
    TextRemains(s);
    TextRemains(t);
    RemaindersAlike(Str(s), Str(t));
  }

  /** Every other setting is compared as pruning leaves it. */
  lemma OthersComparedBy(key: string, x: Json, y: Json)
    requires key !in DICT_SETTINGS && key !in {"https_proxy", "gpio_buttons", "error_behavior", "frame_admin_auth"}
    ensures PyEq(FrameValue(key, x), FrameValue(key, y)) <==> PyEq(Prune(x), Prune(y))
  {
    hide Prune, PyEq;
  }
}
