/**
 The per-setting normalisers that config values go through before backend and frame are compared
 (backend/app/api/frame_sync.py:199-344, 353-378), and exactly when normalising twice is the same
 as normalising once. It matters because a value imported from the frame is stored normalised and
 normalised again by the next comparison.
 */
module Normalisers {
  import opened FrameModel
  import opened Json
  import opened Options
  import opened PyText

  const ON_WORDS := {"true", "1", "yes", "on", "enabled"}
  const OFF_WORDS := {"false", "0", "no", "off", "disabled", ""}

  /** `_sync_bool`. */
  function SyncBool(value: Json, default: bool): bool {
    match value
    case Bool(b) => b
    case Null => default
    case Str(s) =>
      var word := Lower(Strip(s));
      if word in ON_WORDS then true else if word in OFF_WORDS then false else s != ""
    case _ => Truthy(value)
  }

  const NETWORK_KEYS := {"networkCheck", "networkCheckTimeoutSeconds", "networkCheckUrl", "wifiHotspot",
                         "wifiHotspotSsid", "wifiHotspotPassword", "wifiHotspotTimeoutSeconds"}
  const AGENT_KEYS := {"agentEnabled", "agentRunCommands", "agentSharedSecret"}

  function Without(m: map<string, Json>, dropped: set<string>): map<string, Json> {
    map k | k in m && k !in dropped :: m[k]
  }

  function Restricted(value: Json, allowed: Option<set<string>>): map<string, Json>
    requires value.Obj?
  {
    map k | k in value.fields && (allowed.None? || k in allowed.value) :: value.fields[k]
  }

  /** `_sync_compact_mapping`. */
  function CompactMapping(value: Json, allowed: Option<set<string>>): Json {
    if !value.Obj? then Null else
      var compact := Prune(Obj(Restricted(value, allowed)));
      if compact == EMPTY_OBJ then Null else compact
  }

  /** The agent, reboot, control code and mountpoint normalisers: nothing unless switched on. */
  function SwitchedMapping(value: Json, flag: string, allowed: Option<set<string>>): Json {
    if !value.Obj? || !SyncBool(Get(value, flag), false) then Null else CompactMapping(value, allowed)
  }

  const ZERO_KEYS := {"partialMaxAreaPercent", "partialMaxRefreshesBeforeFull", "vcom"}

  /** `value in (None, "", 0, 0.0)`; False is 0 to Python. */
  predicate NoNumber(j: Json) {
    j.Null? || j == Str("") || Scalar(j) == Some(0.0)
  }

  function DroppedDeviceKeys(value: Json): set<string> {
    {"queryParam", "uploadMethod"}
    + (if SyncBool(Get(value, "partial"), false) then {} else {"partial"})
    + (set k | k in ZERO_KEYS && NoNumber(SyncNumber(Get(value, k))))
  }

  function DeviceConfig(value: Json): Json {
    if !value.Obj? then Null else
      CompactMapping(Obj(Without(value.fields, DroppedDeviceKeys(value))), None)
  }

  function HttpsProxy(value: Json): Json {
    if !value.Obj? || !SyncBool(Get(value, "enable"), false) then Null else
      var certs := Get(value, "certs");
      Prune(Obj(map[
        "enable" := Bool(true),
        "port" := SyncNumber(Or(Get(value, "port"), Int(8443))),
        "expose_only_port" := Bool(SyncBool(Get(value, "expose_only_port"), true)),
        "certs" := Obj(map["server" := Get(certs, "server"), "server_key" := Get(certs, "server_key")])
      ]))
  }

  function Schedule(value: Json): Json {
    var events := Get(value, "events");
    if !events.List? || events.items == [] then Null else CompactMapping(Obj(map["events" := events]), None)
  }

  /** One button: `isinstance(pin, int)` also holds of True. */
  function Button(raw: Json): Option<Json> {
    var pin := SyncNumber(Get(raw, "pin"));
    var text := Strip(PyStr(Or(Get(raw, "label"), Str(""))));
    if !raw.Obj? || !(pin == Bool(true) || (pin.Int? && pin.i > 0)) then None
    else if text != "" && text != "Pin " + PyStr(pin) then Some(Obj(map["pin" := pin, "label" := Str(text)]))
    else Some(Obj(map["pin" := pin]))
  }

  function Buttons(items: seq<Json>): seq<Json> {
    if items == [] then [] else
      (match Button(items[0]) case Some(button) => [button] case None => []) + Buttons(items[1..])
  }

  function GpioButtons(value: Json): Json {
    if !value.List? || Buttons(value.items) == [] then Null else List(Buttons(value.items))
  }

  /** `_sync_error_behavior`. */
  function ErrorBehavior(value: Json): Json {
    var normal := NormalizeErrorBehavior(value);
    if PyEq(normal, NormalizeErrorBehavior(Null)) then Null else normal
  }

  function FrameAdminAuth(value: Json): Json {
    Prune(NormalizeFrameAdminAuth(value))
  }

  /** `_sync_frame_value`. */
  function FrameValue(key: string, value: Json): Json {
    match key
    case "https_proxy" => HttpsProxy(value)
    case "network" => CompactMapping(value, Some(NETWORK_KEYS))
    case "agent" => SwitchedMapping(value, "agentEnabled", Some(AGENT_KEYS))
    case "device_config" => DeviceConfig(value)
    case "reboot" => SwitchedMapping(value, "enabled", None)
    case "control_code" => SwitchedMapping(value, "enabled", None)
    case "schedule" => Schedule(value)
    case "gpio_buttons" => GpioButtons(value)
    case "mountpoints" => SwitchedMapping(value, "enabled", None)
    case "palette" => CompactMapping(value, None)
    case "error_behavior" => ErrorBehavior(value)
    case "frame_admin_auth" => FrameAdminAuth(value)
    case _ => Prune(value)
  }

  // ---- switches that turn themselves off --------------------------------------------

  /** A numeral for zero. */
  predicate ZeroText(j: Json) {
    j.Str? && Numeral(j.s).Some? && !Truthy(Numeral(j.s).value)
  }

  /** A container holding nothing but blanks. */
  ghost predicate HollowContainer(j: Json) {
    (j.List? || j.Obj?) && Truthy(j) && Blank(j)
  }

  /** On when read, off once pruned: "00" or "0.0", or a container of blanks. The text "0" is
      among the words for off. */
  ghost predicate Misleading(flag: Json) {
    (ZeroText(flag) && Lower(Strip(flag.s)) !in OFF_WORDS) || HollowContainer(flag)
  }

  lemma NumeralStart(s: string)
    requires Numeral(s).Some?
    ensures Strip(s) != "" && (IsDigit(Strip(s)[0]) || Strip(s)[0] == '-')
  {
    var t := Strip(s);
    var dot := IndexOf('.', t);
    assert 0 < dot <= |t| ==> t[..dot][0] == t[0];
  }

  /** Of the listed words only "1" and "0" are numerals. */
  lemma NumeralWords(s: string)
    requires Numeral(s).Some? && Lower(Strip(s)) in ON_WORDS + OFF_WORDS
    ensures Lower(Strip(s)) == Strip(s) && Strip(s) in {"0", "1"}
    ensures Numeral(s) == Some(Int(if Strip(s) == "1" then 1 else 0))
  {
    hide Strip, Numeral;
    var t := Strip(s);
    NumeralStart(s);
    assert Lower(t)[0] == LowerChar(t[0]) == t[0];
    assert Lower(t) in {"0", "1"};
    assert t == [t[0]];
    OneDigit(s);
  }

  lemma OneDigit(s: string)
    requires Strip(s) in {"0", "1"}
    ensures Numeral(s) == Some(Int(if Strip(s) == "1" then 1 else 0))
  {
    assert Strip(s)[..0] == "";
  }

  lemma EmptyWord()
    ensures Lower(Strip("")) == Strip("") == "" && Numeral("").None?
  {}

  /** A switch survives pruning unless it is misleading. */
  lemma SwitchSurvives(flag: Json)
    ensures SyncBool(Remainder(flag), false) <==> SyncBool(flag, false) && !Misleading(flag)
  {
    EmptyWord();
    hide Lower, Strip, Numeral, PruneItems;
    PruneEmptyIffBlank(flag);
    if flag.Str? && Numeral(flag.s).Some? && Lower(Strip(flag.s)) in ON_WORDS + OFF_WORDS {
      NumeralWords(flag.s);
    }
  }

  // ---- each normaliser --------------------------------------------------------------

  lemma CompactMappingStable(value: Json, allowed: Option<set<string>>)
    ensures CompactMapping(CompactMapping(value, allowed), allowed) == CompactMapping(value, allowed)
    ensures value.Obj? ==>
              (CompactMapping(value, allowed).Null? <==>
               forall k | k in value.fields && (allowed.None? || k in allowed.value) :: Blank(value.fields[k]))
  {
    if value.Obj? {
      var source := Obj(Restricted(value, allowed));
      var once := CompactMapping(value, allowed);
      PruneIdempotent(source);
      PruneEmptyIffBlank(source);
      assert forall k | k in value.fields && (allowed.None? || k in allowed.value) :: k in source.fields;
      if once.Obj? {
        assert Restricted(once, allowed) == once.fields;
      }
    }
  }

  /** A switched mapping is stable unless its switch is misleading and something else is kept. */
  lemma SwitchedMappingStable(value: Json, flag: string, allowed: Option<set<string>>)
    requires allowed.None? || flag in allowed.value
    ensures var once := SwitchedMapping(value, flag, allowed);
            SwitchedMapping(once, flag, allowed) == once <==>
            !(value.Obj? && SyncBool(Get(value, flag), false) && Misleading(Get(value, flag)) &&
              exists k | k in value.fields && (allowed.None? || k in allowed.value) :: !Blank(value.fields[k]))
  {
    var once := SwitchedMapping(value, flag, allowed);
    CompactMappingStable(value, allowed);
    if once.Obj? {
      PrunedEntry(Restricted(value, allowed), flag);
      SwitchSurvives(Get(value, flag));
    }
  }

  lemma ZeroTextSwitch(flag: Json)
    requires Misleading(flag)
    ensures ZeroText(flag) ==> SyncBool(flag, false)
    ensures Empty(Prune(flag)) <==> !ZeroText(flag)
    ensures !flag.Null?
  {
    EmptyWord();
    hide Lower, Strip, Numeral;
    PruneEmptyIffBlank(flag);
  }

  lemma KeptNumber(j: Json)
    requires !NoNumber(SyncNumber(j)) && !Remainder(j).Null?
    ensures !NoNumber(SyncNumber(Remainder(j)))
  {}

  /** Only the partial-refresh switch can destabilise the device config, and only as a text. */
  lemma DeviceConfigStable(value: Json)
    ensures DeviceConfig(DeviceConfig(value)) == DeviceConfig(value) <==>
            !(value.Obj? && ZeroText(Get(value, "partial")) && Misleading(Get(value, "partial")))
  {
    hide SyncBool, Numeral, Misleading, ZeroText, NoNumber, SyncNumber, Prune;
    if value.Obj? {
      var once := DeviceConfig(value);
      var source := Without(value.fields, DroppedDeviceKeys(value));
      var flag := Get(value, "partial");
      SwitchSurvives(flag);
      PruneIdempotent(Obj(source));
      PrunedKeys(source);
      CompactsWhole(source);
      if Misleading(flag) { ZeroTextSwitch(flag); }
      if once.Obj? {
        CompactsWhole(Without(once.fields, DroppedDeviceKeys(once)));
        forall k | k in ZERO_KEYS && k in once.fields ensures !NoNumber(SyncNumber(once.fields[k])) {
          KeptNumber(Get(value, k));
        }
        if "partial" in once.fields && Misleading(flag) {
          assert "partial" in DroppedDeviceKeys(once);
          PrunedKeys(Without(once.fields, DroppedDeviceKeys(once)));
        } else {
          assert Without(once.fields, DroppedDeviceKeys(once)) == once.fields;
        }
      } else {
        assert "partial" !in Prune(Obj(source)).fields;
      }
    }
  }

  lemma CompactsWhole(m: map<string, Json>)
    ensures CompactMapping(Obj(m), None) == if Prune(Obj(m)) == EMPTY_OBJ then Null else Prune(Obj(m))
  {
    assert Restricted(Obj(m), None) == m;
  }

  /** A port that is there when read and gone once pruned. */
  ghost predicate VanishingPort(port: Json) {
    ZeroText(port) || HollowContainer(port)
  }

  function PortEntry(port: Json): Json {
    Remainder(SyncNumber(Or(port, Int(8443))))
  }

  lemma PortStable(port: Json)
    ensures PortEntry(PortEntry(port)) == PortEntry(port) <==> !VanishingPort(port)
  {
    EmptyWord();
    hide Numeral, PruneItems;
    PruneEmptyIffBlank(port);
    PruneIdempotent(port);
    var once := PortEntry(port);
    assert PortEntry(Null) == Int(8443) == PortEntry(Int(8443));
    if !Truthy(port) {
      assert once == Int(8443) && !VanishingPort(port);
    } else if port.Str? {
      assert once == SyncNumber(port) && (once.Int? || once.Float? || once == port);
      assert Remainder(once) == once;
    } else if Blank(port) {
      assert once == Null && HollowContainer(port);
    } else {
      assert Truthy(once) && SyncNumber(once) == once && Remainder(once) == once;
      assert !VanishingPort(port);
    }
  }

  function CertsEntry(certs: Json): Json {
    Remainder(Obj(map["server" := Get(certs, "server"), "server_key" := Get(certs, "server_key")]))
  }

  lemma CertsStable(certs: Json)
    ensures CertsEntry(CertsEntry(certs)) == CertsEntry(certs)
  {
    hide Prune, SyncNumber;
    var source := map["server" := Get(certs, "server"), "server_key" := Get(certs, "server_key")];
    var once := CertsEntry(certs);
    PrunedKeys(source);
    PrunedKeys(map["server" := Null, "server_key" := Null]);
    if once.Obj? {
      var again := map["server" := Get(once, "server"), "server_key" := Get(once, "server_key")];
      PrunedKeys(again);
      PruneIdempotent(Get(certs, "server"));
      PruneIdempotent(Get(certs, "server_key"));
      assert Prune(Null) == Null by { NullPrunesToNull(); }
      assert Prune(Obj(again)).fields == once.fields;
    } else {
      NullPrunesToNull();
      assert Prune(Obj(map["server" := Null, "server_key" := Null])).fields == map[];
    }
  }

  /** Only what pruning keeps of the two certificates counts. */
  lemma SameCerts(certs: Json, others: Json)
    requires Remainder(Get(certs, "server")) == Remainder(Get(others, "server"))
    requires Remainder(Get(certs, "server_key")) == Remainder(Get(others, "server_key"))
    ensures CertsEntry(certs) == CertsEntry(others)
  {
    hide Prune;
    SamePruned(map["server" := Get(certs, "server"), "server_key" := Get(certs, "server_key")],
               map["server" := Get(others, "server"), "server_key" := Get(others, "server_key")]);
  }

  lemma SamePruned(one: map<string, Json>, other: map<string, Json>)
    requires one.Keys == other.Keys && forall k | k in one :: Remainder(one[k]) == Remainder(other[k])
    ensures Prune(Obj(one)) == Prune(Obj(other))
  {
    PrunedKeys(one);
    PrunedKeys(other);
    hide Prune, Remainder, Empty;
    forall k | k in one ensures Empty(Prune(one[k])) <==> Empty(Prune(other[k])) {
      KeptRemainder(one[k]);
      KeptRemainder(other[k]);
    }
    assert Prune(Obj(one)).fields.Keys == Prune(Obj(other)).fields.Keys;
    assert Prune(Obj(one)).fields == Prune(Obj(other)).fields;
  }

  lemma KeptRemainder(j: Json)
    ensures Empty(Prune(j)) <==> Remainder(j).Null?
  {
    hide Prune;
  }

  lemma NullPrunesToNull()
    ensures Prune(Null) == Null
  {}

  /** The entries of a switched-on proxy. */
  lemma HttpsProxyEntries(value: Json)
    requires value.Obj? && SyncBool(Get(value, "enable"), false)
    ensures var once := HttpsProxy(value);
            once.Obj? && once.fields.Keys <= {"enable", "port", "expose_only_port", "certs"} &&
            Get(once, "enable") == Bool(true) &&
            Get(once, "port") == PortEntry(Get(value, "port")) &&
            Get(once, "expose_only_port") == Bool(SyncBool(Get(value, "expose_only_port"), true)) &&
            Get(once, "certs") == CertsEntry(Get(value, "certs")) &&
            forall k | k in once.fields :: !once.fields[k].Null?
  {
    hide SyncBool, SyncNumber, Prune, Truthy;
    var certs := Get(value, "certs");
    PrunedKeys(map[
      "enable" := Bool(true),
      "port" := SyncNumber(Or(Get(value, "port"), Int(8443))),
      "expose_only_port" := Bool(SyncBool(Get(value, "expose_only_port"), true)),
      "certs" := Obj(map["server" := Get(certs, "server"), "server_key" := Get(certs, "server_key")])
    ]);
    assert Prune(Bool(true)) == Bool(true) && Prune(Bool(false)) == Bool(false) by { BoolsPrune(); }
  }

  lemma BoolsPrune()
    ensures Prune(Bool(true)) == Bool(true) && Prune(Bool(false)) == Bool(false)
  {}

  /** The proxy's port falls back to 8443 only on the second pass when it is written as a zero
      text: also the plain "0", which no switch is confused by. */
  lemma HttpsProxyStable(value: Json)
    ensures HttpsProxy(HttpsProxy(value)) == HttpsProxy(value) <==>
            !(value.Obj? && SyncBool(Get(value, "enable"), false) && VanishingPort(Get(value, "port")))
  {
    hide PortEntry, CertsEntry, VanishingPort, HttpsProxy;
    if value.Obj? && SyncBool(Get(value, "enable"), false) {
      var once := HttpsProxy(value);
      HttpsProxyEntries(value);
      HttpsProxyEntries(once);
      var twice := HttpsProxy(once);
      PortStable(Get(value, "port"));
      CertsStable(Get(value, "certs"));
      if !VanishingPort(Get(value, "port")) {
        assert forall k :: Get(twice, k) == Get(once, k) by {
          forall k ensures Get(twice, k) == Get(once, k) {
            if k !in {"enable", "port", "expose_only_port", "certs"} { assert k !in once.fields && k !in twice.fields; }
          }
        }
        SameDict(once, twice);
      }
    } else {
      OffProxy(value);
    }
  }

  lemma OffProxy(value: Json)
    requires !(value.Obj? && SyncBool(Get(value, "enable"), false))
    ensures HttpsProxy(HttpsProxy(value)) == HttpsProxy(value)
  {}

  lemma SameDict(a: Json, b: Json)
    requires a.Obj? && b.Obj? && forall k :: Get(a, k) == Get(b, k)
    requires forall k | k in a.fields :: !a.fields[k].Null?
    requires forall k | k in b.fields :: !b.fields[k].Null?
    ensures a == b
  {
    assert forall k :: k in a.fields <==> !Get(a, k).Null?;
    assert forall k :: k in b.fields <==> !Get(b, k).Null?;
    assert a.fields == b.fields;
  }

  lemma ScheduleStable(value: Json)
    ensures Schedule(Schedule(value)) == Schedule(value)
  {
    var events := Get(value, "events");
    var once := Schedule(value);
    if once.Obj? {
      var source := map["events" := events];
      PrunedEntry(source, "events");
      PruneIdempotent(Obj(source));
      assert once.fields.Keys == {"events"};
      assert Obj(map["events" := Get(once, "events")]) == once;
      PruneFixes(events);
    }
  }

  lemma ButtonStable(raw: Json)
    ensures Button(raw).Some? ==> Button(Button(raw).value) == Button(raw)
  {
    EmptyWord();
    hide Strip;
    StripIdempotent(PyStr(Or(Get(raw, "label"), Str(""))));
  }

  lemma {:induction false} ButtonsStable(items: seq<Json>)
    ensures Buttons(Buttons(items)) == Buttons(items)
  {
    hide Button;
    if items != [] {
      ButtonStable(items[0]);
      ButtonsStable(items[1..]);
      match Button(items[0]) {
        case Some(button) =>
          assert Buttons(items) == [button] + Buttons(items[1..]);
          assert Buttons(items)[1..] == Buttons(items[1..]);
        case None =>
          assert Buttons(items) == Buttons(items[1..]);
      }
    }
  }

  lemma ErrorBehaviorStable(value: Json)
    ensures ErrorBehavior(ErrorBehavior(value)) == ErrorBehavior(value)
  {
    hide NormalizeErrorBehavior, PyEq;
    ErrorBehaviorStays(value);
    PyEqReflexive(NormalizeErrorBehavior(Null));
  }

  /** A user name or password that reads as a number. */
  predicate NumericLogin(value: Json) {
    Numeral(TextOf(Get(value, "user"))).Some? || Numeral(TextOf(Get(value, "pass"))).Some?
  }

  /** What pruning leaves of a text. */
  function TextEntry(text: string): Json {
    if text == "" then Null else SyncNumber(Str(text))
  }

  lemma AdminAuthEntries(value: Json)
    ensures var once := FrameAdminAuth(value);
            once.Obj? && once.fields.Keys <= {"enabled", "user", "pass"} &&
            Get(once, "enabled") == Bool(Truthy(Get(value, "enabled"))) &&
            Get(once, "user") == TextEntry(Strip(TextOf(Get(value, "user")))) &&
            Get(once, "pass") == TextEntry(TextOf(Get(value, "pass"))) &&
            forall k | k in once.fields :: !once.fields[k].Null?
  {
    hide Prune, Strip, Truthy, Numeral, Empty, SyncNumber, Remainder, TextEntry;
    var user, pass := Strip(TextOf(Get(value, "user"))), TextOf(Get(value, "pass"));
    PrunedKeys(map["enabled" := Bool(Truthy(Get(value, "enabled"))), "user" := Str(user), "pass" := Str(pass)]);
    BoolRemains(Truthy(Get(value, "enabled")));
    NullRemains();
    TextRemains(user);
    TextRemains(pass);
  }

  lemma BoolRemains(b: bool)
    ensures Remainder(Bool(b)) == Bool(b) && !Empty(Prune(Bool(b)))
  {}

  lemma NullRemains()
    ensures Remainder(Null) == Null && Empty(Null)
    ensures forall j | Empty(Prune(j)) :: Remainder(j) == Null
  {
    hide Prune;
    NullPrunesToNull();
  }

  lemma TextRemains(text: string)
    ensures Remainder(Str(text)) == TextEntry(text)
  {
    hide Strip, Numeral;
    EmptyWord();
  }

  /** A text entry reads back as itself unless it was taken for a number. */
  lemma TextEntryStable(text: string)
    ensures TextEntry(TextOf(TextEntry(text))) == TextEntry(text) <==> Numeral(text).None?
    ensures Numeral(text).Some? ==> TextOf(TextEntry(text)) == "" && !TextEntry(text).Null?
    ensures Numeral(text).None? ==> TextOf(TextEntry(text)) == text
  {
    EmptyWord();
    hide Strip, Numeral;
  }

  /** A login is stable exactly unless its user name or password reads as a number: the first pass
      stores the number, the second drops it. */
  lemma FrameAdminAuthStable(value: Json)
    ensures FrameAdminAuth(FrameAdminAuth(value)) == FrameAdminAuth(value) <==> !NumericLogin(value)
    ensures PyEq(FrameAdminAuth(FrameAdminAuth(value)), FrameAdminAuth(value)) <==> !NumericLogin(value)
  {
    hide FrameAdminAuth, TextEntry, Strip, Numeral, PyEq, Truthy;
    var once := FrameAdminAuth(value);
    var twice := FrameAdminAuth(once);
    var user, pass := Strip(TextOf(Get(value, "user"))), TextOf(Get(value, "pass"));
    AdminAuthEntries(value);
    AdminAuthEntries(once);
    TextEntryStable(user);
    TextEntryStable(pass);
    StripIdempotent(TextOf(Get(value, "user")));
    NumeralStrips(TextOf(Get(value, "user")));
    PyEqReflexive(once);
    if NumericLogin(value) {
      var key := if Numeral(user).Some? then "user" else "pass";
      StrippedEmpty();
      assert Get(twice, key).Null? && !Get(once, key).Null?;
      EntriesTellApart(twice, once, key);
    } else {
      assert TextOf(Get(once, "user")) == user && TextOf(Get(once, "pass")) == pass;
      BoolStays(Truthy(Get(value, "enabled")));
      forall k ensures Get(twice, k) == Get(once, k) {
        if k !in {"enabled", "user", "pass"} { assert k !in once.fields && k !in twice.fields; }
      }
      SameDict(once, twice);
    }
  }

  lemma StrippedEmpty()
    ensures Strip("") == "" && TextEntry("") == Null
  {}

  lemma NumeralStrips(s: string)
    ensures Numeral(Strip(s)) == Numeral(s)
  {
    StripIdempotent(s);
  }

  lemma EntriesTellApart(a: Json, b: Json, key: string)
    requires Get(a, key).Null? && !Get(b, key).Null?
    ensures !PyEq(a, b)
  {}

  /** When normalising a setting twice differs from normalising it once. */
  ghost predicate Unstable(key: string, value: Json) {
    value.Obj? &&
    match key
    case "https_proxy" => SyncBool(Get(value, "enable"), false) && VanishingPort(Get(value, "port"))
    case "frame_admin_auth" => NumericLogin(value)
    case "device_config" => ZeroText(Get(value, "partial")) && Misleading(Get(value, "partial"))
    case "agent" => MisleadingIn(value, "agentEnabled", Some(AGENT_KEYS))
    case "reboot" => MisleadingIn(value, "enabled", None)
    case "control_code" => MisleadingIn(value, "enabled", None)
    case "mountpoints" => MisleadingIn(value, "enabled", None)
    case _ => false
  }

  ghost predicate MisleadingIn(value: Json, flag: string, allowed: Option<set<string>>)
    requires value.Obj?
  {
    SyncBool(Get(value, flag), false) && Misleading(Get(value, flag)) &&
    exists k | k in value.fields && (allowed.None? || k in allowed.value) :: !Blank(value.fields[k])
  }

  /** The exact condition, setting by setting: stable unless a zero is written as a text, or a
      container of blanks stands, where a switch or the proxy's port is expected. */
  lemma FrameValueStable(key: string, value: Json)
    ensures FrameValue(key, FrameValue(key, value)) == FrameValue(key, value) <==> !Unstable(key, value)
  {
    match key {
      case "https_proxy" => HttpsProxyStable(value);
      case "network" => CompactMappingStable(value, Some(NETWORK_KEYS));
      case "agent" => SwitchedMappingStable(value, "agentEnabled", Some(AGENT_KEYS));
      case "device_config" => DeviceConfigStable(value);
      case "reboot" => SwitchedMappingStable(value, "enabled", None);
      case "control_code" => SwitchedMappingStable(value, "enabled", None);
      case "schedule" => ScheduleStable(value);
      case "gpio_buttons" => if value.List? { ButtonsStable(value.items); }
      case "mountpoints" => SwitchedMappingStable(value, "enabled", None);
      case "palette" => CompactMappingStable(value, None);
      case "error_behavior" => ErrorBehaviorStable(value);
      case "frame_admin_auth" => LoginStable(value);
      case _ => PruneIdempotent(value);
    }
  }

  lemma LoginStable(value: Json)
    ensures FrameAdminAuth(FrameAdminAuth(value)) == FrameAdminAuth(value) <==> !Unstable("frame_admin_auth", value)
  {
    FrameAdminAuthStable(value);
    EmptyWord();
    hide FrameAdminAuth, Strip, Numeral;
  }

  /** A switch set the way the UI and the device set one. */
  predicate PlainSwitch(flag: Json) {
    flag.Null? || flag.Bool? || (flag.Str? && Lower(Strip(flag.s)) in ON_WORDS + OFF_WORDS)
  }

  /** With every switch a boolean or a listed word, only the proxy's port and the login can still do
      harm. */
  lemma PlainSwitchesAreStable(key: string, value: Json)
    requires forall flag | flag in {"partial", "enabled", "agentEnabled"} :: PlainSwitch(Get(value, flag))
    ensures Unstable(key, value) ==> key in {"https_proxy", "frame_admin_auth"}
  {
    hide Strip, Numeral, Lower;
    PlainSwitchNotMisleading(Get(value, "partial"));
    PlainSwitchNotMisleading(Get(value, "enabled"));
    PlainSwitchNotMisleading(Get(value, "agentEnabled"));
    if Misleading(Get(value, "partial")) { ZeroTextSwitch(Get(value, "partial")); }
  }

  lemma PlainSwitchNotMisleading(flag: Json)
    requires PlainSwitch(flag)
    ensures !(SyncBool(flag, false) && Misleading(flag))
  {
    if flag.Str? && Numeral(flag.s).Some? {
      NumeralWords(flag.s);
    }
  }

  /** And it does: a switched-on proxy on port "0" normalises to port 0, then to port 8443. */
  lemma ZeroPortIsUnstable()
    ensures var value := Obj(map["enable" := Bool(true), "port" := Str("0")]);
            Get(FrameValue("https_proxy", value), "port") == Int(0) &&
            Get(FrameValue("https_proxy", FrameValue("https_proxy", value)), "port") == Int(8443)
  {
    hide HttpsProxy, Numeral;
    var value := Obj(map["enable" := Bool(true), "port" := Str("0")]);
    OneDigit("0");
    HttpsProxyEntries(value);
    assert PortEntry(Str("0")) == Int(0) && PortEntry(Int(0)) == Int(8443);
    HttpsProxyEntries(HttpsProxy(value));
  }
}
