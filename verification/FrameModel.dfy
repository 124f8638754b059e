/**
 The normal forms in which the frame row keeps some of its settings, and in which `Frame.to_dict` hands
 them out (backend/app/models/frame.py:91-249, 362-424).
 */
module FrameModel {
  import opened Json
  import opened Options
  import opened PyText

  const DEFAULT_PORT := 8443

  /** `int(value)` of a JSON value, where it does not raise. */
  function PyInt(value: Json): Option<int> {
    match value
    case Bool(b) => Some(if b then 1 else 0)
    case Int(i) => Some(i)
    case Float(r) => Some(Truncated(r))
    case Str(s) => IntText(Strip(s))
    case _ => None
  }

  /** What `int()` reads a text without outer spaces as: a sign, and digits with single underscores
      between them. */
  function IntText(t: string): Option<int> {
    var signed := t != "" && t[0] in {'+', '-'};
    var digits := Joined(if signed then t[1..] else t);
    if digits.None? || |digits.value| > INT_MAX_STR_DIGITS then None
    else Some(if signed && t[0] == '-' then -(NatOf(digits.value) as int) else NatOf(digits.value))
  }

  /** The digits of a run of digits with single underscores between them. */
  function Joined(t: string): (digits: Option<string>)
    ensures digits.Some? ==> AllDigits(digits.value)
  {
    if t == "" || !IsDigit(t[0]) then None
    else if |t| == 1 then Some(t)
    else
      var rest := Joined(if t[1] == '_' then t[2..] else t[1..]);
      if rest.None? then None else Some([t[0]] + rest.value)
  }

  function Truncated(r: real): int {
    if r >= 0.0 then r.Floor else -((-r).Floor)
  }

  /** `int(float(value))`, where it does not raise; texts in plain decimals only. */
  function PyIntOfFloat(value: Json): Option<int> {
    if value.Str? then if Numeral(value.s).Some? then PyInt(Numeral(value.s).value) else None
    else PyInt(value)
  }

  // ---- error behaviour --------------------------------------------------------------

  const ERROR_BEHAVIOR_MODES := {"safe_mode", "show_error_retry", "silent_retry"}

  /** `_positive_number`. */
  function PositiveNumber(value: Json, default: int): Json {
    var number := PyIntOfFloat(value);
    Int(if number.Some? && number.value > 0 then number.value else default)
  }

  function GetOr(j: Json, key: string, default: Json): Json {
    if j.Obj? && key in j.fields then j.fields[key] else default
  }

  /** `normalize_error_behavior`. */
  function NormalizeErrorBehavior(value: Json): Json {
    var mode := Get(value, "mode");
    var window := GetOr(value, "silent_window_minutes", Get(value, "silent_retry_minutes"));
    Obj(map[
      "mode" := if mode.Str? && mode.s in ERROR_BEHAVIOR_MODES then mode else Str("show_error_retry"),
      "retry_seconds" := PositiveNumber(Get(value, "retry_seconds"), 60),
      "silent_retry_seconds" := PositiveNumber(Get(value, "silent_retry_seconds"), 60),
      "silent_retry_forever" := Bool(Truthy(Get(value, "silent_retry_forever"))),
      "silent_window_minutes" := PositiveNumber(window, 10),
      "show_error_retry_seconds" := PositiveNumber(Get(value, "show_error_retry_seconds"), 60)])
  }

  lemma PositiveStays(value: Json, default: int)
    requires default > 0
    ensures PositiveNumber(PositiveNumber(value, default), default) == PositiveNumber(value, default)
  {
    hide PyIntOfFloat;
    var n := PositiveNumber(value, default);
    assert n.i > 0 && PyIntOfFloat(n) == Some(n.i) by { IntOfInt(n.i); }
  }

  lemma IntOfInt(i: int)
    ensures PyIntOfFloat(Int(i)) == Some(i)
  {}

  lemma BoolStays(b: bool)
    ensures Truthy(Bool(b)) == b
  {}

  /** Normalising an error behaviour twice is normalising it once. */
  lemma ErrorBehaviorStays(value: Json)
    ensures NormalizeErrorBehavior(NormalizeErrorBehavior(value)) == NormalizeErrorBehavior(value)
  {
    hide PositiveNumber, Truthy;
    BoolStays(Truthy(Get(value, "silent_retry_forever")));
    PositiveStays(Get(value, "retry_seconds"), 60);
    PositiveStays(Get(value, "silent_retry_seconds"), 60);
    PositiveStays(GetOr(value, "silent_window_minutes", Get(value, "silent_retry_minutes")), 10);
    PositiveStays(Get(value, "show_error_retry_seconds"), 60);
  }

  // ---- admin login ------------------------------------------------------------------

  /** `value or ""`, and the empty text if that is no text. */
  function TextOf(value: Json): string {
    if value.Str? then value.s else ""
  }

  /** `normalize_frame_admin_auth` of a dict or nothing. */
  function NormalizeFrameAdminAuth(value: Json): Json {
    Obj(map[
      "enabled" := Bool(Truthy(Get(value, "enabled"))),
      "user" := Str(Strip(TextOf(Get(value, "user")))),
      "pass" := Str(TextOf(Get(value, "pass")))])
  }

  // ---- HTTPS proxy ------------------------------------------------------------------

  /** The port that `normalize_https_proxy` keeps. */
  function StoredPort(port: Json): int {
    var number := PyInt(Or(port, Int(DEFAULT_PORT)));
    if number.Some? && 1 <= number.value <= 65535 then number.value else DEFAULT_PORT
  }

  function FieldsOf(j: Json): map<string, Json> {
    if j.Obj? then j.fields else map[]
  }

  function StoredCerts(certs: Json): Json {
    Obj(map["server" := GetOr(certs, "server", Str("")),
            "server_key" := GetOr(certs, "server_key", Str("")),
            "client_ca" := GetOr(certs, "client_ca", Str(""))])
  }

  /** `normalize_https_proxy` of a dict or nothing. */
  function NormalizeHttpsProxy(value: Json): Json {
    Obj(FieldsOf(value)["port" := Int(StoredPort(Get(value, "port")))]["certs" := StoredCerts(Get(value, "certs"))])
  }

  /** `_serialize_https_proxy`; the dates of certificates, which no comparison looks at, are left out. */
  function SerializeHttpsProxy(value: Json): Json {
    var proxy := NormalizeHttpsProxy(value);
    Obj(map[
      "enable" := Bool(Truthy(Get(proxy, "enable"))),
      "port" := Get(proxy, "port"),
      "expose_only_port" := Bool(Truthy(GetOr(proxy, "expose_only_port", Bool(true)))),
      "certs" := Get(proxy, "certs")])
  }

  lemma PortStays(port: Json)
    ensures StoredPort(Int(StoredPort(port))) == StoredPort(port)
  {
    hide IntText, Truncated;
  }

  /** A proxy is normalised when it is stored and again when it is handed out; once would do. */
  lemma ProxyStays(value: Json)
    ensures NormalizeHttpsProxy(NormalizeHttpsProxy(value)) == NormalizeHttpsProxy(value)
  {
    hide StoredPort;
    var once := NormalizeHttpsProxy(value);
    PortStays(Get(value, "port"));
    assert NormalizeHttpsProxy(once).fields == once.fields;
  }

  /** A number in the range of ports. */
  predicate PortFits(port: Json) {
    match port
    case Bool(b) => b
    case Int(i) => 1 <= i <= 65535
    case Float(r) => 1.0 <= r <= 65535.0 && r.Floor as real == r
    case _ => false
  }

  /** What is no number in the range of ports is stored as 8443. */
  lemma StoredPortIs(port: Json)
    ensures var number := PyInt(if Truthy(port) then port else Int(8443));
            StoredPort(port) == if number.Some? && 0 < number.value < 65536 then number.value else 8443
  {
    hide PyInt, Truthy;
  }

  /** A port is stored as it was exactly if it fits. */
  lemma PortStoredIffFits(port: Json)
    ensures PyEq(Int(StoredPort(port)), port) <==> PortFits(port)
  {
    hide Numeral;
  }

  // ---- reboot -----------------------------------------------------------------------

  const DEFAULT_CRONTAB := "0 0 * * *"

  /** `text.split()`. */
  function Words(s: string): seq<string> {
    if s == "" then []
    else if IsSpace(s[0]) then Words(s[1..])
    else [s[..WordEnd(s)]] + Words(s[WordEnd(s)..])
  }

  function WordEnd(s: string): (n: nat)
    ensures n <= |s| && (forall i | 0 <= i < n :: !IsSpace(s[i]))
    ensures n < |s| ==> IsSpace(s[n])
    ensures s != "" && !IsSpace(s[0]) ==> n > 0
  {
    if s == "" || IsSpace(s[0]) then 0 else 1 + WordEnd(s[1..])
  }

  /** A crontab of the old form, with the hour in the place of the minute. */
  function LegacyHour(cron: string): (hour: Option<int>)
    ensures hour.Some? ==> 1 <= hour.value <= 23
  {
    var parts := Words(cron);
    if |parts| == 5 && parts[1..] == ["0", "*", "*", "*"] then
      match IntText(parts[0])
      case Some(h) => if 1 <= h <= 23 then Some(h) else None
      case None => None
    else None
  }

  /** `normalize_reboot_crontab`. */
  function NormalizeRebootCrontab(crontab: Json): string {
    if !crontab.Str? || Strip(crontab.s) == "" then DEFAULT_CRONTAB else
      match LegacyHour(Strip(crontab.s))
      case Some(hour) => HourlyCrontab(hour)
      case None => Strip(crontab.s)
  }

  function HourlyCrontab(hour: nat): string {
    "0 " + Decimal(hour) + " * * *"
  }

  /** `normalize_reboot_config`. */
  function NormalizeReboot(reboot: Json): Json {
    if !reboot.Obj? then reboot else
      Obj(reboot.fields["crontab" := Str(NormalizeRebootCrontab(GetOr(reboot, "crontab", Str(DEFAULT_CRONTAB))))])
  }

  lemma WordThenSpace(word: string, rest: string)
    requires word != "" && forall c | c in word :: !IsSpace(c)
    ensures Words(word + " " + rest) == [word] + Words(rest)
  {
    var s := word + " " + rest;
    var n := WordEnd(s);
    assert forall i | 0 <= i < |word| :: s[i] == word[i] && word[i] in word;
    assert s[|word|] == ' ';
    assert s[..n] == word && s[n..] == " " + rest;
    assert (" " + rest)[1..] == rest;
  }

  lemma LastWord(word: string)
    requires word != "" && forall c | c in word :: !IsSpace(c)
    ensures Words(word) == [word]
  {
    var n := WordEnd(word);
    assert forall i | 0 <= i < |word| :: word[i] in word;
    assert word[..n] == word && word[n..] == "";
  }

  lemma HourlyWords(hour: nat)
    ensures Words(HourlyCrontab(hour)) == ["0", Decimal(hour), "*", "*", "*"]
  {
    DecimalReadsBack(hour);
    var text := Decimal(hour);
    hide Decimal, Words;
    forall c | c in text ensures !IsSpace(c) {
      assert IsDigit(c);
    }
    LastWord("*");
    WordThenSpace("*", "*");
    WordThenSpace("*", "* *");
    WordThenSpace(text, "* * *");
    WordThenSpace("0", text + " * * *");
    assert "0" + " " + (text + " * * *") == HourlyCrontab(hour);
    assert text + " " + "* * *" == text + " * * *";
    assert "*" + " " + "* *" == "* * *" && "*" + " " + "*" == "* *";
  }

  lemma HourlyIsNotLegacy(hour: nat)
    ensures LegacyHour(HourlyCrontab(hour)).None? && Strip(HourlyCrontab(hour)) == HourlyCrontab(hour) != ""
  {
    HourlyWords(hour);
    ZeroDigit();
    var s := HourlyCrontab(hour);
    assert s[0] == '0' && s[|s| - 1] == '*';
  }

  lemma ZeroDigit()
    ensures IntText("0") == Some(0)
  {
    assert "0"[..0] == "";
  }

  lemma DefaultCrontab()
    ensures Decimal(0) == "0" && HourlyCrontab(0) == DEFAULT_CRONTAB
  {
    assert Decimal(0) == [DigitChar(0)] == "0";
  }

  /** A crontab is in its normal form exactly if it has no outer spaces and is not of the old form. */
  lemma CrontabFixedIff(s: string)
    ensures NormalizeRebootCrontab(Str(s)) == s <==> s != "" && Strip(s) == s && LegacyHour(s).None?
  {
    hide Strip, LegacyHour, HourlyCrontab;
    DefaultCrontab();
    HourlyIsNotLegacy(0);
    if LegacyHour(Strip(s)).Some? {
      HourlyIsNotLegacy(LegacyHour(Strip(s)).value);
    }
  }

  /** A crontab of the old form gets its hour where the hour belongs. */
  lemma OldCrontabIsRewritten(hour: nat)
    requires 1 <= hour <= 23
    ensures NormalizeRebootCrontab(Str(Decimal(hour) + " 0 * * *")) == "0 " + Decimal(hour) + " * * *"
  {
    var text := Decimal(hour) + " 0 * * *";
    DecimalReadsBack(hour);
    DigitsJoin(Decimal(hour));
    OldWords(hour);
    assert IsDigit(text[0]) && text[|text| - 1] == '*' && Strip(text) == text;
    hide Words, Strip, Decimal, Joined, NatOf;
    assert |Decimal(hour)| <= INT_MAX_STR_DIGITS by { ShortDecimal(hour); }
    assert IntText(Decimal(hour)) == Some(hour);
  }

  lemma ShortDecimal(hour: nat)
    requires hour <= 23
    ensures |Decimal(hour)| <= 2
  {}

  lemma {:induction false} DigitsJoin(t: string)
    requires t != "" && AllDigits(t)
    ensures Joined(t) == Some(t)
  {
    if |t| > 1 {
      DigitsJoin(t[1..]);
      assert [t[0]] + t[1..] == t && IsDigit(t[1]);
    }
  }

  lemma OldWords(hour: nat)
    ensures Words(Decimal(hour) + " 0 * * *") == [Decimal(hour), "0", "*", "*", "*"]
  {
    DecimalReadsBack(hour);
    var text := Decimal(hour);
    hide Decimal, Words;
    forall c | c in text ensures !IsSpace(c) {
      assert IsDigit(c);
    }
    LastWord("*");
    WordThenSpace("*", "*");
    WordThenSpace("*", "* *");
    WordThenSpace("0", "* * *");
    WordThenSpace(text, "0 * * *");
    assert text + " " + "0 * * *" == text + " 0 * * *" && "0" + " " + "* * *" == "0 * * *";
    assert "*" + " " + "* *" == "* * *" && "*" + " " + "*" == "* *";
  }

  /** Normalising a crontab twice is normalising it once. */
  lemma CrontabStays(crontab: Json)
    ensures NormalizeRebootCrontab(Str(NormalizeRebootCrontab(crontab))) == NormalizeRebootCrontab(crontab)
  {
    hide Strip, LegacyHour, HourlyCrontab;
    DefaultCrontab();
    HourlyIsNotLegacy(0);
    CrontabFixedIff(NormalizeRebootCrontab(crontab));
    if crontab.Str? {
      StripIdempotent(crontab.s);
      if LegacyHour(Strip(crontab.s)).Some? {
        HourlyIsNotLegacy(LegacyHour(Strip(crontab.s)).value);
      }
    }
  }

  // ---- what the host supplies -------------------------------------------------------

  /** What looking up the name of a time zone comes to: it may also raise. */
  datatype Zone = ZoneFound | ZoneMissing | ZoneRaises

  /** Python's texts of floats and containers, the table of time zones, and what the defaults of a
      device mode make of a row. */
  datatype Host = Host(
    text: Json -> string, zone: string -> Zone, modeDefaults: map<string, Json> -> map<string, Json>) {

    /** `str(value or "")`. */
    function TextOr(value: Json): string {
      if !Truthy(value) then ""
      else if value.Float? || value.List? || value.Obj? then text(value)
      else PyStr(value)
    }
  }

  // ---- mountpoints ------------------------------------------------------------------

  /** The texts of a mountpoint that lose their outer spaces, and those that keep them. */
  const STRIPPED_TEXTS := {"source", "target", "options"}
  const KEPT_TEXTS := {"username", "password", "domain"}
  const ITEM_KEYS := {"enabled"} + STRIPPED_TEXTS + KEPT_TEXTS

  function ItemText(host: Host, key: string, value: Json): string {
    if key in STRIPPED_TEXTS then Strip(host.TextOr(value)) else host.TextOr(value)
  }

  function NormalizeItem(host: Host, item: Json): Json {
    Obj(map key | key in ITEM_KEYS ::
      if key == "enabled" then Bool(Truthy(GetOr(item, "enabled", Bool(true))))
      else Str(ItemText(host, key, Get(item, key))))
  }

  function NormalizeItems(host: Host, items: seq<Json>): seq<Json> {
    if items == [] then [] else
      (if items[0].Obj? then [NormalizeItem(host, items[0])] else []) + NormalizeItems(host, items[1..])
  }

  /** `normalize_mountpoints`. */
  function NormalizeMountpoints(host: Host, mountpoints: Json): Json {
    var items := Get(mountpoints, "items");
    Obj(map["enabled" := Bool(Truthy(Get(mountpoints, "enabled"))),
            "items" := List(if items.List? then NormalizeItems(host, items.items) else [])])
  }

  /** What is handed out of mountpoints: each dict among the items, in order, with every text as a text,
      on unless it says otherwise. */
  lemma {:induction false} ItemsHandedOut(host: Host, a: seq<Json>, item: Json, b: seq<Json>)
    ensures NormalizeItems(host, a + [item] + b) ==
            NormalizeItems(host, a) + (if item.Obj? then [NormalizeItem(host, item)] else []) + NormalizeItems(host, b)
    ensures var normal := NormalizeItem(host, item);
            normal.fields.Keys == {"enabled", "source", "target", "username", "password", "domain", "options"} &&
            Get(normal, "enabled") ==
              Bool(if item.Obj? && "enabled" in item.fields then Truthy(item.fields["enabled"]) else true) &&
            (forall key | key in {"source", "target", "options"} ::
               Get(normal, key) == Str(Strip(host.TextOr(Get(item, key))))) &&
            (forall key | key in {"username", "password", "domain"} ::
               Get(normal, key) == Str(host.TextOr(Get(item, key))))
  {
    BoolStays(true);
    hide NormalizeItem, Strip, Truthy, Host.TextOr;
    if a == [] {
      assert a + [item] + b == [item] + b;
      assert ([item] + b)[1..] == b;
    } else {
      ItemsHandedOut(host, a[1..], item, b);
      assert (a + [item] + b)[1..] == a[1..] + [item] + b;
    }
    ItemHandedOut(host, item);
  }

  lemma ItemHandedOut(host: Host, item: Json)
    ensures var normal := NormalizeItem(host, item);
            normal.fields.Keys == {"enabled", "source", "target", "username", "password", "domain", "options"} &&
            Get(normal, "enabled") ==
              Bool(if item.Obj? && "enabled" in item.fields then Truthy(item.fields["enabled"]) else true) &&
            (forall key | key in {"source", "target", "options"} ::
               Get(normal, key) == Str(Strip(host.TextOr(Get(item, key))))) &&
            (forall key | key in {"username", "password", "domain"} ::
               Get(normal, key) == Str(host.TextOr(Get(item, key))))
  {
    BoolStays(true);
    hide Strip, Truthy, Host.TextOr;
  }

  // ---- time zone --------------------------------------------------------------------

  function Split(separator: char, s: string): (parts: seq<string>)
    ensures |parts| > 0
  {
    if s == "" then [""] else
      var parts := Split(separator, s[1..]);
      if s[0] == separator then [""] + parts else [[s[0]] + parts[0]] + parts[1..]
  }

  function Glued(separator: char, parts: seq<string>): string
    requires |parts| > 0
  {
    if |parts| == 1 then parts[0] else parts[0] + [separator] + Glued(separator, parts[1..])
  }

  /** The parts have no separator in them and make up the text. */
  lemma {:induction false} SplitParts(separator: char, s: string)
    ensures Glued(separator, Split(separator, s)) == s
    ensures forall part | part in Split(separator, s) :: separator !in part
  {
    if s != "" {
      SplitParts(separator, s[1..]);
      var parts := Split(separator, s[1..]);
      if s[0] == separator {
        assert ([""] + parts)[1..] == parts;
      } else if |parts| > 1 {
        assert ([[s[0]] + parts[0]] + parts[1..])[1..] == parts[1..];
      }
    }
  }

  predicate IsAlphanumeric(c: char) {
    IsDigit(c) || 'A' <= c <= 'Z' || 'a' <= c <= 'z'
  }

  /** A name that may be a time zone of a newer table: letters, digits and `._+-`, in parts. */
  predicate ZoneName(t: string) {
    0 < |t| <= 128 && IsAlphanumeric(t[0]) &&
    (forall c | c in t :: IsAlphanumeric(c) || c in "._+-/") &&
    forall part | part in Split('/', t) :: part !in {"", ".", ".."}
  }

  predicate ZoneAccepted(host: Host, t: string) {
    t != "" && (host.zone(t).ZoneFound? || ZoneName(t))
  }

  /** `stored_timezone(value) or None`, unless the lookup raises. */
  function StoredTimezone(host: Host, value: Json): Json {
    var t := Strip(host.TextOr(value));
    if ZoneAccepted(host, t) then Str(t) else Null
  }

  predicate ZoneRefused(host: Host, value: Json) {
    var t := Strip(host.TextOr(value));
    t != "" && host.zone(t).ZoneRaises?
  }

  // ---- GPIO buttons -----------------------------------------------------------------

  const LARGE_INKY_DEVICES := {"pimoroni.inky_impression_13", "pimoroni.inky_impression_13_2025"}
  const INKY_BUTTON_DEVICES := LARGE_INKY_DEVICES + {
    "pimoroni.inky_impression", "pimoroni.inky_impression_7_3", "pimoroni.inky_impression_7_color",
    "pimoroni.inky_impression_5_7", "pimoroni.inky_impression_5_7_color", "pimoroni.inky_impression_4_7_color",
    "pimoroni.inky_impression_4", "pimoroni.inky_impression_4_2025", "pimoroni.inky_impression_4_spectra6",
    "pimoroni.inky_impression_7", "pimoroni.inky_impression_7_2025"}

  function LabelledButton(pin: int, name: string): Json {
    Obj(map["pin" := Int(pin), "label" := Str(name)])
  }

  /** `device_gpio_button_defaults`, and nothing for a device without buttons of its own. */
  function DeviceButtons(device: Json): Json {
    if device.Str? && device.s in INKY_BUTTON_DEVICES then
      List([LabelledButton(5, "A"), LabelledButton(6, "B"),
            LabelledButton(if device.s in LARGE_INKY_DEVICES then 25 else 16, "C"), LabelledButton(24, "D")])
    else Null
  }

  // ---- what is handed out -----------------------------------------------------------

  const DEFAULT_MAX_HTTP_RESPONSE_BYTES := 64 * 1024 * 1024

  /** A setting as `Frame.to_dict` hands it out. */
  function HandedOut(host: Host, key: string, value: Json, device: Json): Json {
    match key
    case "frame_admin_auth" => NormalizeFrameAdminAuth(value)
    case "https_proxy" => SerializeHttpsProxy(value)
    case "max_http_response_bytes" => Or(value, Int(DEFAULT_MAX_HTTP_RESPONSE_BYTES))
    case "reboot" => NormalizeReboot(value)
    case "gpio_buttons" => Or(DeviceButtons(device), value)
    case "mountpoints" => NormalizeMountpoints(host, value)
    case "error_behavior" => NormalizeErrorBehavior(value)
    case _ => value
  }

  /** A setting as an import stores it. */
  function Imported(host: Host, key: string, value: Json): Json {
    match key
    case "https_proxy" => NormalizeHttpsProxy(value)
    case "error_behavior" => NormalizeErrorBehavior(value)
    case "timezone" => StoredTimezone(host, value)
    case _ => value
  }

  /** The settings that the defaults of a device mode may set after an import. */
  function SetByMode(mode: Json): set<string> {
    if mode == Str("buildroot") then {"assets_path", "https_proxy", "agent", "network"}
    else if mode == Str("embedded") then
      {"https_proxy", "agent", "frame_admin_auth", "device", "device_config", "gpio_buttons", "max_http_response_bytes"}
    else {}
  }

  function WithModeDefaults(host: Host, row: map<string, Json>): map<string, Json> {
    row + map k | k in SetByMode(Get(Obj(row), "mode")) && k in host.modeDefaults(row) :: host.modeDefaults(row)[k]
  }

  /** The rest of what is handed out: defaults, the buttons a device brings along, and what is kept. */
  lemma HandedOutRest(host: Host, key: string, value: Json, device: Json)
    ensures HandedOut(host, "max_http_response_bytes", value, device) == if Truthy(value) then value else Int(67108864)
    ensures device == Str("pimoroni.inky_impression_7") ==>
              HandedOut(host, "gpio_buttons", value, device) ==
              List([LabelledButton(5, "A"), LabelledButton(6, "B"), LabelledButton(16, "C"), LabelledButton(24, "D")])
    ensures device == Str("pimoroni.inky_impression_13") ==>
              HandedOut(host, "gpio_buttons", value, device) ==
              List([LabelledButton(5, "A"), LabelledButton(6, "B"), LabelledButton(25, "C"), LabelledButton(24, "D")])
    ensures device.Null? ==> HandedOut(host, "gpio_buttons", value, device) == value
    ensures key in {"frame_admin_auth", "https_proxy", "max_http_response_bytes", "reboot", "gpio_buttons",
                    "mountpoints", "error_behavior"} || HandedOut(host, key, value, device) == value
    ensures !value.Obj? ==> HandedOut(host, "reboot", value, device) == value
    ensures value.Obj? ==>
              forall k :: Get(HandedOut(host, "reboot", value, device), k) ==
                          if k == "crontab" then Str(NormalizeRebootCrontab(GetOr(value, k, Str("0 0 * * *"))))
                          else Get(value, k)
  {
    hide LabelledButton, NormalizeRebootCrontab, NormalizeErrorBehavior, NormalizeMountpoints, SerializeHttpsProxy,
         NormalizeFrameAdminAuth;
  }
}
