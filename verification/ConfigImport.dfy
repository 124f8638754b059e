/**
 What becomes of a setting that is imported from the frame (backend/app/api/frame_sync.py:1092-1112,
 1205-1222): it is stored in one form, handed out in another, and normalised again by the next
 comparison. Setting by setting, the exact condition under which it reads back as it was imported.
 */
module ConfigImport {
  import opened FrameModel
  import opened Json
  import opened JsonDiff
  import opened Normalisers
  import opened Options
  import opened PyText

  // ---- normalising once more --------------------------------------------------------

  /** An unstable value is visibly different once it is normalised again. */
  lemma UnstableDiffers(key: string, value: Json)
    ensures PyEq(FrameValue(key, FrameValue(key, value)), FrameValue(key, value)) <==> !Unstable(key, value)
  {
    hide Prune, SyncBool, Misleading, ZeroText, PyEq, HttpsProxy, FrameAdminAuth, VanishingPort, NumericLogin;
    FrameValueStable(key, value);
    var once := FrameValue(key, value);
    PyEqReflexive(once);
    if Unstable(key, value) {
      match key {
        case "agent" => SwitchedOffDiffers(value, "agentEnabled", Some(AGENT_KEYS));
        case "reboot" => SwitchedOffDiffers(value, "enabled", None);
        case "control_code" => SwitchedOffDiffers(value, "enabled", None);
        case "mountpoints" => SwitchedOffDiffers(value, "enabled", None);
        case "device_config" => PartialDropped(value);
        case "frame_admin_auth" => FrameAdminAuthStable(value);
        case "https_proxy" => PortChanges(value);
      }
    }
  }

  /** A port that vanishes is 8443 the second time, and no number or another one the first time. */
  lemma PortChanges(value: Json)
    requires value.Obj? && SyncBool(Get(value, "enable"), false) && VanishingPort(Get(value, "port"))
    ensures !PyEq(HttpsProxy(HttpsProxy(value)), HttpsProxy(value))
  {
    var once := HttpsProxy(value);
    HttpsProxyEntries(value);
    hide HttpsProxy, CertsEntry, PyEq;
    HttpsProxyEntries(once);
    VanishingPortChanges(Get(value, "port"));
    if PyEq(HttpsProxy(once), once) {
      EqualEntriesAt(HttpsProxy(once), once, "port", 0);
    }
  }

  lemma VanishingPortChanges(port: Json)
    requires VanishingPort(port)
    ensures !PyEq(PortEntry(PortEntry(port)), PortEntry(port))
  {
    EmptyWord();
    hide Numeral, PruneItems, Strip;
    PruneEmptyIffBlank(port);
    assert PortEntry(Null) == Int(8443);
    if ZeroText(port) {
      assert Truthy(port) && !Truthy(PortEntry(port));
      assert PortEntry(PortEntry(port)) == Int(8443);
    }
  }

  lemma SwitchedOffDiffers(value: Json, flag: string, allowed: Option<set<string>>)
    requires var once := SwitchedMapping(value, flag, allowed); SwitchedMapping(once, flag, allowed) != once
    ensures var once := SwitchedMapping(value, flag, allowed); !PyEq(SwitchedMapping(once, flag, allowed), once)
  {
    hide Prune, SyncBool;
    CompactMappingStable(value, allowed);
    var once := SwitchedMapping(value, flag, allowed);
    OnlyNullEqualsNull(SwitchedMapping(once, flag, allowed), once);
  }

  /** The partial-refresh switch is in the device config once normalised, and gone the second time. */
  lemma PartialDropped(value: Json)
    requires Unstable("device_config", value)
    ensures !PyEq(DeviceConfig(DeviceConfig(value)), DeviceConfig(value))
  {
    var once := DeviceConfig(value);
    PartialKept(value);
    hide Prune, SyncBool, Misleading, ZeroText, NoNumber, SyncNumber, PyEq, Empty, DeviceConfig, Remainder;
    var kept := Obj(Without(once.fields, DroppedDeviceKeys(once)));
    CompactEntry(kept, "partial");
    NullIsEmpty();
    assert DeviceConfig(once) == CompactMapping(kept, None) by { TwiceIs(once); }
    DifferentEntry(DeviceConfig(once), once, "partial");
  }

  lemma TwiceIs(once: Json)
    requires once.Obj?
    ensures DeviceConfig(once) == CompactMapping(Obj(Without(once.fields, DroppedDeviceKeys(once))), None)
  {}

  lemma PartialKept(value: Json)
    requires Unstable("device_config", value)
    ensures var once := DeviceConfig(value);
            once.Obj? && !Get(once, "partial").Null? && "partial" in DroppedDeviceKeys(once)
  {
    var flag := Get(value, "partial");
    ZeroTextSwitch(flag);
    SwitchSurvives(flag);
    hide Prune, SyncBool, Misleading, ZeroText, NoNumber, SyncNumber, Empty;
    var kept := Obj(Without(value.fields, DroppedDeviceKeys(value)));
    assert Get(kept, "partial") == flag;
    CompactEntry(kept, "partial");
  }

  lemma NullIsEmpty()
    ensures Remainder(Null) == Null
  {}

  lemma CompactEntry(value: Json, key: string)
    requires value.Obj?
    ensures Get(CompactMapping(value, None), key) == Remainder(Get(value, key))
  {
    hide Prune;
    PrunedEntry(value.fields, key);
    assert Restricted(value, None) == value.fields;
  }

  lemma DifferentEntry(a: Json, b: Json, key: string)
    requires b.Obj? && Get(a, key).Null? && !Get(b, key).Null? && (key in FieldsOf(a) ==> !Get(a, key).Null?)
    ensures !PyEq(a, b)
  {}

  // ---- the proxy ----------------------------------------------------

  /** An imported proxy reads back as it was imported exactly if it is off or its port fits. */
  lemma StoredProxyReadsBack(value: Json)
    ensures PyEq(HttpsProxy(SerializeHttpsProxy(HttpsProxy(value))), HttpsProxy(value)) <==>
            !(value.Obj? && SyncBool(Get(value, "enable"), false) && !PortFits(PortEntry(Get(value, "port"))))
  {
    var once := HttpsProxy(value);
    if value.Obj? && SyncBool(Get(value, "enable"), false) {
      HttpsProxyEntries(value);
      StoredProxyEntries(value);
      hide HttpsProxy, PortEntry, CertsEntry, PyEq, StoredPort, PortFits, SerializeHttpsProxy, SyncBool, ProxyShaped;
      var port := Get(once, "port");
      PortStoredIffFits(port);
      EqualButForPort(HttpsProxy(SerializeHttpsProxy(once)), once);
    } else {
      PyEqReflexive(Null);
    }
  }

  ghost predicate ProxyShaped(j: Json) {
    j.Obj? && j.fields.Keys <= {"enable", "port", "expose_only_port", "certs"} &&
    forall k | k in j.fields :: !j.fields[k].Null?
  }

  lemma EqualButForPort(a: Json, b: Json)
    requires ProxyShaped(a) && ProxyShaped(b)
    requires forall k | k in {"enable", "expose_only_port", "certs"} :: Get(a, k) == Get(b, k)
    ensures PyEq(a, b) <==> PyEq(Get(a, "port"), Get(b, "port"))
  {
    hide PyEq;
    if PyEq(a, b) {
      EqualEntriesAt(a, b, "port", 0);
    }
    if PyEq(Get(a, "port"), Get(b, "port")) {
      forall k ensures PyEq(Get(a, k), Get(b, k)) {
        PyEqReflexive(Get(b, k));
        if k !in {"enable", "port", "expose_only_port", "certs"} { assert k !in a.fields && k !in b.fields; }
      }
      EqualEntriesMakeEqual(a, b);
    }
  }

  /** All but the port is read back as it was imported. */
  lemma StoredProxyEntries(value: Json)
    requires value.Obj? && SyncBool(Get(value, "enable"), false)
    ensures var once := HttpsProxy(value);
            var again := HttpsProxy(SerializeHttpsProxy(once));
            ProxyShaped(once) && ProxyShaped(again) && Get(again, "port") == Int(StoredPort(Get(once, "port"))) &&
            forall k | k in {"enable", "expose_only_port", "certs"} :: Get(again, k) == Get(once, k)
  {
    var once := HttpsProxy(value);
    HttpsProxyEntries(value);
    hide HttpsProxy, PortEntry, CertsEntry, StoredPort, SerializeHttpsProxy, SyncBool;
    StoredGets(once);
    HttpsProxyEntries(SerializeHttpsProxy(once));
    StoredPortEntry(Get(once, "port"));
    CertsStable(Get(value, "certs"));
  }

  lemma StoredGets(proxy: Json)
    requires proxy.Obj? && Get(proxy, "enable") == Bool(true) && Get(proxy, "expose_only_port").Bool?
    ensures var stored := SerializeHttpsProxy(proxy);
            stored.Obj? && SyncBool(Get(stored, "enable"), false) &&
            Get(stored, "port") == Int(StoredPort(Get(proxy, "port"))) &&
            SyncBool(Get(stored, "expose_only_port"), true) == Get(proxy, "expose_only_port").b &&
            CertsEntry(Get(stored, "certs")) == CertsEntry(Get(proxy, "certs"))
  {
    hide StoredPort, CertsEntry;
    SameStoredCerts(Get(proxy, "certs"));
  }

  lemma StoredPortEntry(port: Json)
    ensures PortEntry(Int(StoredPort(port))) == Int(StoredPort(port))
  {
    hide PyInt;
  }

  lemma SameStoredCerts(certs: Json)
    ensures CertsEntry(StoredCerts(certs)) == CertsEntry(certs)
  {
    hide CertsEntry;
    assert Remainder(Str("")) == Remainder(Null) == Null;
    SameCerts(StoredCerts(certs), certs);
  }

  /** A proxy is normalised when it is stored and when it is handed out. */
  lemma StoredProxyHandedOut(value: Json)
    ensures SerializeHttpsProxy(NormalizeHttpsProxy(value)) == SerializeHttpsProxy(value)
  {
    hide NormalizeHttpsProxy;
    ProxyStays(value);
  }

  // ---- texts ------------------------------------------------------------------------

  /** What a field that is read with `str(value or "")` gives back as it was. */
  predicate TextKept(host: Host, value: Json, stripped: bool) {
    match value
    case Null => true
    case Str(s) => stripped ==> Strip(s) == s
    case Int(i) => i != 0 && |Decimal(if i < 0 then -i else i)| <= INT_MAX_STR_DIGITS
    case Float(r) => r != 0.0 && Numeral(host.text(value)).Some? && PyEq(Numeral(host.text(value)).value, value)
    case _ => false
  }

  lemma TextReadsBack(host: Host, value: Json, stripped: bool)
    requires Prune(value) == value
    ensures var text := host.TextOr(value);
            PyEq(TextEntry(if stripped then Strip(text) else text), value) <==> TextKept(host, value, stripped)
  {
    var text := host.TextOr(value);
    EntryOf(text, stripped);
    StrippedEmpty();
    hide Strip, Numeral, Decimal, TextEntry, Prune;
    match value {
      case Str(s) => PrunedText(s);
      case Int(i) => NumeralOfInt(i);
      case Bool(_) => TrueIsNoNumeral();
      case _ =>
    }
  }

  lemma PrunedText(s: string)
    requires Prune(Str(s)) == Str(s)
    ensures s != "" && Numeral(s).None?
  {
    hide Numeral;
  }

  lemma EntryOf(text: string, stripped: bool)
    ensures var t := if stripped then Strip(text) else text;
            TextEntry(t) ==
            if Numeral(text).Some? then Numeral(text).value else if t == "" then Null else Str(t)
  {
    EmptyWord();
    NumeralStrips(text);
    hide Strip, Numeral;
  }

  lemma TrueIsNoNumeral()
    ensures Numeral("True").None?
  {
    hide UnsignedNumeral;
    if Numeral("True").Some? { NumeralStart("True"); }
  }

  lemma NumeralOfInt(i: int)
    ensures Numeral(PyStr(Int(i))) ==
            if |Decimal(if i < 0 then -i else i)| <= INT_MAX_STR_DIGITS then Some(Int(i)) else None
  {
    hide Strip, UnsignedNumeral, IsSpace, NatOf, Decimal;
    var n := if i < 0 then -i else i;
    var digits, text := Decimal(n), PyStr(Int(i));
    DecimalReadsBack(n);
    UnsignedDigits(digits, i < 0);
    assert ("-" + digits)[1..] == digits;
    NoSpace(digits[0]);
    NoSpace(digits[|digits| - 1]);
    NoSpace('-');
    StripsToItself(text);
  }

  lemma NoSpace(c: char)
    requires IsDigit(c) || c == '-'
    ensures !IsSpace(c)
  {}

  lemma UnsignedDigits(digits: string, negative: bool)
    requires digits != "" && AllDigits(digits)
    ensures UnsignedNumeral(digits, negative) ==
            if |digits| > INT_MAX_STR_DIGITS then None
            else Some(Int(if negative then -(NatOf(digits) as int) else NatOf(digits)))
  {
    hide NatOf, IndexOf, DecimalFraction;
  }

  lemma StripsToItself(s: string)
    requires s != "" && !IsSpace(s[0]) && !IsSpace(s[|s| - 1])
    ensures Strip(s) == s
  {}

  // ---- reboot -----------------------------------------------------------------------

  /** A switched-on mapping is equal to a pruned one exactly if what remains of its entries is. */
  lemma SwitchedEqualsIff(value: Json, flag: string, v: Json)
    requires value.Obj? && SyncBool(Get(value, flag), false)
    requires v.Obj? && v.fields != map[] && forall k | k in v.fields :: !v.fields[k].Null?
    ensures PyEq(SwitchedMapping(value, flag, None), v) <==> forall k :: PyEq(Remainder(Get(value, k)), Get(v, k))
  {
    hide PyEq, Prune, SyncBool, Remainder;
    var result := CompactMapping(value, None);
    assert Restricted(value, None) == value.fields;
    PrunedKeys(value.fields);
    forall k ensures Get(result, k) == Remainder(Get(value, k)) { CompactEntry(value, k); }
    if PyEq(result, v) {
      forall k ensures PyEq(Get(result, k), Get(v, k)) { EqualEntriesAt(result, v, k, 0); }
    }
    if forall k :: PyEq(Remainder(Get(value, k)), Get(v, k)) {
      var k :| k in v.fields;
      OnlyNullEqualsNull(Get(result, k), Get(v, k));
      EqualEntriesMakeEqual(result, v);
    }
  }

  lemma PrunedRemains(v: Json, key: string)
    requires v.Obj? && Prune(v) == v
    ensures Remainder(Get(v, key)) == Get(v, key)
  {
    hide Prune;
    PrunedEntry(v.fields, key);
  }

  lemma PrunedHasNoNulls(v: Json)
    requires v.Obj? && Prune(v) == v
    ensures forall k | k in v.fields :: !v.fields[k].Null?
  {
    hide Prune;
    PrunedKeys(v.fields);
  }

  lemma MappingIsPruned(value: Json, flag: string)
    ensures var v := SwitchedMapping(value, flag, None); Prune(v) == v && (v.Null? || (v.Obj? && v.fields != map[]))
  {
    hide SyncBool, Prune;
    NullPrunesToNull();
    if value.Obj? {
      PruneIdempotent(Obj(Restricted(value, None)));
      PrunedKeys(Restricted(value, None));
    }
  }

  predicate CrontabKept(crontab: Json) {
    crontab.Str? && Strip(crontab.s) == crontab.s && LegacyHour(crontab.s).None?
  }

  predicate RebootKept(v: Json) {
    v.Null? || (SyncBool(Get(v, "enabled"), false) && CrontabKept(Get(v, "crontab")))
  }

  /** A reboot schedule reads back exactly if it still reads as switched on and has a crontab in its
      normal form. */
  lemma RebootReadsBack(value: Json)
    ensures var v := SwitchedMapping(value, "enabled", None);
            PyEq(SwitchedMapping(NormalizeReboot(v), "enabled", None), v) <==> RebootKept(v)
  {
    hide SyncBool, Prune, PyEq, CrontabKept, NormalizeRebootCrontab, Remainder;
    var v := SwitchedMapping(value, "enabled", None);
    MappingIsPruned(value, "enabled");
    hide SwitchedMapping;
    PyEqReflexive(Null);
    if v.Null? {
      assert SwitchedMapping(Null, "enabled", None) == Null by { OffMapping(Null, "enabled"); }
    } else {
      var handed := NormalizeReboot(v);
      assert forall k | k != "crontab" :: Get(handed, k) == Get(v, k);
      PrunedHasNoNulls(v);
      if SyncBool(Get(v, "enabled"), false) {
        SwitchedEqualsIff(handed, "enabled", v);
        CrontabReadsBack(v);
        forall k | k != "crontab" ensures PyEq(Remainder(Get(handed, k)), Get(v, k)) {
          PrunedRemains(v, k);
          PyEqReflexive(Get(v, k));
        }
      } else {
        OffMapping(handed, "enabled");
        NullIsNoDict(v);
      }
    }
  }

  lemma OffMapping(value: Json, flag: string)
    requires !(value.Obj? && SyncBool(Get(value, flag), false))
    ensures SwitchedMapping(value, flag, None) == Null
  {}

  lemma NullIsNoDict(v: Json)
    requires !v.Null?
    ensures !PyEq(Null, v)
  {}

  lemma CrontabReadsBack(v: Json)
    requires v.Obj? && Prune(v) == v
    ensures PyEq(Remainder(Get(NormalizeReboot(v), "crontab")), Get(v, "crontab")) <==> CrontabKept(Get(v, "crontab"))
  {
    hide Prune, NormalizeRebootCrontab, LegacyHour, Strip, Numeral, PyEq;
    var crontab := Get(v, "crontab");
    var normal := NormalizeRebootCrontab(GetOr(v, "crontab", Str(DEFAULT_CRONTAB)));
    PrunedEntryIs(v, "crontab");
    TextRemains(normal);
    if crontab.Str? {
      CrontabFixedIff(crontab.s);
      TextsEqualIff(normal, crontab.s);
    } else {
      DefaultForOthers(GetOr(v, "crontab", Str(DEFAULT_CRONTAB)));
      DefaultIsNoNumeral();
      NoTextEqual(DEFAULT_CRONTAB, crontab);
    }
  }

  lemma PrunedEntryIs(v: Json, key: string)
    requires v.Obj? && Prune(v) == v
    ensures NumbersRead(Get(v, key)) && Get(v, key) != Str("")
  {
    PruneFixes(v);
  }

  lemma TextsEqualIff(text: string, s: string)
    requires Numeral(s).None? && s != ""
    ensures PyEq(TextEntry(text), Str(s)) <==> text == s
  {
    hide Numeral;
  }

  lemma NoTextEqual(text: string, j: Json)
    requires Numeral(text).None? && text != "" && !j.Str?
    ensures !PyEq(TextEntry(text), j)
  {
    hide Numeral;
  }

  lemma DefaultForOthers(crontab: Json)
    requires !crontab.Str? || crontab.s == DEFAULT_CRONTAB
    ensures NormalizeRebootCrontab(crontab) == DEFAULT_CRONTAB
  {
    DefaultCrontab();
    HourlyIsNotLegacy(0);
    hide LegacyHour, Strip, HourlyCrontab;
  }

  lemma DefaultIsNoNumeral()
    ensures Numeral(DEFAULT_CRONTAB).None?
  {
    var s := DEFAULT_CRONTAB;
    StripsToItself(s);
    assert !IsDigit(s[1]);
    NoDot(s);
    hide Strip, IndexOf;
  }

  lemma NoDot(s: string)
    requires '.' !in s
    ensures IndexOf('.', s) == |s|
  {}

  // ---- mountpoints ------------------------------------------------------------------

  predicate ItemKept(host: Host, item: Json) {
    item.Obj? && item.fields.Keys <= ITEM_KEYS && "enabled" in item.fields &&
    PyEq(Bool(Truthy(item.fields["enabled"])), item.fields["enabled"]) &&
    forall key | key in ITEM_KEYS && key != "enabled" :: TextKept(host, Get(item, key), key in STRIPPED_TEXTS)
  }

  predicate MountpointsKept(host: Host, v: Json) {
    v.Null? ||
    (v.Obj? && v.fields.Keys <= {"enabled", "items"} && PyEq(Bool(true), Get(v, "enabled")) &&
     ("items" in v.fields ==>
        v.fields["items"].List? && forall i | 0 <= i < |v.fields["items"].items| ::
                                     ItemKept(host, v.fields["items"].items[i])))
  }

  lemma ItemEntries(host: Host, item: Json)
    ensures var once := Prune(NormalizeItem(host, item));
            once.Obj? && once.fields.Keys <= ITEM_KEYS && once.fields != map[] &&
            (forall k | k in once.fields :: !once.fields[k].Null?) &&
            Get(once, "enabled") == Bool(Truthy(GetOr(item, "enabled", Bool(true)))) &&
            forall k | k in ITEM_KEYS && k != "enabled" :: Get(once, k) == TextEntry(ItemText(host, k, Get(item, k)))
  {
    hide Prune, ItemText, TextEntry, Truthy, Remainder;
    var normal := NormalizeItem(host, item);
    var once := Prune(normal);
    PrunedKeys(normal.fields);
    PrunedEntry(normal.fields, "enabled");
    BoolRemains(Truthy(GetOr(item, "enabled", Bool(true))));
    forall k | k in ITEM_KEYS && k != "enabled" ensures Get(once, k) == TextEntry(ItemText(host, k, Get(item, k))) {
      PrunedEntry(normal.fields, k);
      TextRemains(ItemText(host, k, Get(item, k)));
    }
    assert "enabled" in once.fields;
  }

  lemma ItemReadsBack(host: Host, item: Json)
    requires item.Obj? && Prune(item) == item
    ensures PyEq(Prune(NormalizeItem(host, item)), item) <==> ItemKept(host, item)
  {
    hide Prune, NormalizeItem, PyEq, TextKept, TextEntry, Truthy, Host.TextOr;
    var once := Prune(NormalizeItem(host, item));
    ItemEntries(host, item);
    PrunedHasNoNulls(item);
    forall k | k in ITEM_KEYS && k != "enabled"
      ensures PyEq(Get(once, k), Get(item, k)) <==> TextKept(host, Get(item, k), k in STRIPPED_TEXTS)
    {
      PrunedEntryFixed(item, k);
      TextReadsBack(host, Get(item, k), k in STRIPPED_TEXTS);
    }
    if PyEq(once, item) {
      forall k ensures PyEq(Get(once, k), Get(item, k)) { EqualEntriesAt(once, item, k, 0); }
      forall k | k in item.fields ensures k in ITEM_KEYS { OnlyNullEqualsNull(Get(once, k), Get(item, k)); }
      OnlyNullEqualsNull(Get(once, "enabled"), Get(item, "enabled"));
    }
    if ItemKept(host, item) {
      PyEqReflexive(Null);
      forall k ensures PyEq(Get(once, k), Get(item, k)) {
        if k !in ITEM_KEYS { assert k !in once.fields && k !in item.fields; }
      }
      EqualEntriesMakeEqual(once, item);
    }
  }

  lemma PrunedEntryFixed(v: Json, key: string)
    requires v.Obj? && Prune(v) == v
    ensures Prune(Get(v, key)) == Get(v, key)
  {
    PruneFixes(v);
    NullPrunesToNull();
    PruneFixes(Get(v, key));
  }

  lemma {:induction false} ItemsReadBack(host: Host, items: seq<Json>)
    requires Clean(List(items)) && NumbersRead(List(items))
    ensures |PruneItems(NormalizeItems(host, items))| <= |items|
    ensures PyEq(List(PruneItems(NormalizeItems(host, items))), List(items)) <==>
            forall i | 0 <= i < |items| :: ItemKept(host, items[i])
  {
    hide Prune, NormalizeItem, ItemKept;
    if items != [] {
      var item, rest := items[0], items[1..];
      assert forall i | 0 <= i < |rest| :: rest[i] == items[i + 1];
      ItemsReadBack(host, rest);
      assert items == [item] + rest;
      if item.Obj? {
        var once, others := Prune(NormalizeItem(host, item)), PruneItems(NormalizeItems(host, rest));
        PruneFixes(item);
        ItemReadsBack(host, item);
        NormalItemFirst(host, item, rest);
        ConsEqualIff(once, others, item, rest);
      } else {
        NoItemKept(host, item);
        assert NormalizeItems(host, items) == NormalizeItems(host, rest);
      }
      hide PyEq, PruneItems, NormalizeItems;
      AllOfCons(host, item, rest);
    }
  }

  lemma AllOfCons(host: Host, item: Json, rest: seq<Json>)
    ensures (forall i | 0 <= i < |[item] + rest| :: ItemKept(host, ([item] + rest)[i])) <==>
            ItemKept(host, item) && forall i | 0 <= i < |rest| :: ItemKept(host, rest[i])
  {
    hide ItemKept;
    var items := [item] + rest;
    assert items[0] == item && forall i | 0 <= i < |rest| :: items[i + 1] == rest[i];
    if (forall i | 0 <= i < |items| :: ItemKept(host, items[i])) {
      forall i | 0 <= i < |rest| ensures ItemKept(host, rest[i]) {
        assert ItemKept(host, items[i + 1]);
      }
    }
  }

  lemma NormalItemFirst(host: Host, item: Json, rest: seq<Json>)
    requires item.Obj?
    ensures PruneItems(NormalizeItems(host, [item] + rest)) ==
            [Prune(NormalizeItem(host, item))] + PruneItems(NormalizeItems(host, rest))
  {
    hide Prune, NormalizeItem;
    ItemEntries(host, item);
    var items := [item] + rest;
    assert items[1..] == rest;
    var normal := NormalizeItems(host, items);
    assert normal[0] == NormalizeItem(host, item) && normal[1..] == NormalizeItems(host, rest);
  }

  lemma NoItemKept(host: Host, item: Json)
    requires !item.Obj?
    ensures !ItemKept(host, item)
  {}

  lemma ConsEqualIff(x: Json, xs: seq<Json>, y: Json, ys: seq<Json>)
    ensures PyEq(List([x] + xs), List([y] + ys)) <==> PyEq(x, y) && PyEq(List(xs), List(ys))
  {
    var a, b := [x] + xs, [y] + ys;
    ListsEqualIff(a, b);
    ListsEqualIff(xs, ys);
    hide PyEq;
    assert a[0] == x && b[0] == y;
    forall i | 0 <= i < |xs| == |ys| ensures PyEq(xs[i], ys[i]) <==> PyEq(a[i + 1], b[i + 1]) {
      assert a[i + 1] == xs[i] && b[i + 1] == ys[i];
    }
    if PyEq(x, y) && PyEq(List(xs), List(ys)) {
      forall i | 0 <= i < |a| ensures PyEq(a[i], b[i]) {
        if i > 0 { assert PyEq(xs[i - 1], ys[i - 1]); }
      }
    }
  }

  lemma ListsEqualIff(a: seq<Json>, b: seq<Json>)
    ensures PyEq(List(a), List(b)) <==> |a| == |b| && forall i | 0 <= i < |a| :: PyEq(a[i], b[i])
  {}

  /** Mountpoints read back exactly if the switch is a true and every item is a dict of the known keys,
      with its own switch written out and its texts as they are stored. */
  lemma MountpointsReadBack(host: Host, value: Json)
    ensures var v := SwitchedMapping(value, "enabled", None);
            PyEq(SwitchedMapping(NormalizeMountpoints(host, v), "enabled", None), v) <==> MountpointsKept(host, v)
  {
    hide SyncBool, Prune, PyEq, Remainder, ItemKept, Truthy;
    var v := SwitchedMapping(value, "enabled", None);
    MappingIsPruned(value, "enabled");
    hide SwitchedMapping;
    var handed := NormalizeMountpoints(host, v);
    BoolIsOn(Truthy(Get(v, "enabled")));
    if !Truthy(Get(v, "enabled")) {
      OffMapping(handed, "enabled");
      FalseIsNotTrue(Get(v, "enabled"));
      PyEqReflexive(Null);
      if !v.Null? { NullIsNoDict(v); }
    } else {
      assert v.Obj? by { TruthyEntry(v, "enabled"); }
      PrunedHasNoNulls(v);
      SwitchedEqualsIff(handed, "enabled", v);
      BoolRemains(true);
      ItemsEntryReadsBack(host, v);
      PyEqReflexive(Null);
      NullRemains();
      forall k | k !in {"enabled", "items"}
        ensures PyEq(Remainder(Get(handed, k)), Get(v, k)) <==> k !in v.fields
      {
        NullPrunesToNull();
        OnlyNullEqualsNull(Null, Get(v, k));
      }
    }
  }

  lemma TruthyEntry(j: Json, key: string)
    requires Truthy(Get(j, key))
    ensures j.Obj?
  {}

  lemma BoolIsOn(b: bool)
    ensures SyncBool(Bool(b), false) == b
  {}

  lemma FalseIsNotTrue(j: Json)
    requires !Truthy(j)
    ensures !PyEq(Bool(true), j)
  {}

  lemma ItemsEntryReadsBack(host: Host, v: Json)
    requires v.Obj? && Prune(v) == v
    ensures PyEq(Remainder(Get(NormalizeMountpoints(host, v), "items")), Get(v, "items")) <==>
            ("items" in v.fields ==>
               v.fields["items"].List? && forall i | 0 <= i < |v.fields["items"].items| ::
                                            ItemKept(host, v.fields["items"].items[i]))
  {
    hide ItemKept, PyEq, NormalizeItems;
    var items := Get(v, "items");
    PruneFixes(v);
    PrunedHasNoNulls(v);
    PyEqReflexive(Null);
    if items.List? {
      ItemsReadBack(host, items.items);
      ListRemains(NormalizeItems(host, items.items), items);
    } else {
      EmptyListRemains();
      if !items.Null? { NullIsNoDict(items); }
    }
  }

  lemma EmptyListRemains()
    ensures Remainder(List([])) == Null
  {}

  lemma ListRemains(list: seq<Json>, items: Json)
    requires items.List? && items.items != []
    ensures PyEq(Remainder(List(list)), items) <==> PyEq(List(PruneItems(list)), items)
  {}

  // ---- every setting ----------------------------------------------------------------

  /** When an imported value, as `FrameValue` made it, reads back differently. */
  ghost predicate LostOnImport(host: Host, key: string, value: Json, device: Json) {
    var v := FrameValue(key, value);
    match key
    case "https_proxy" => v.Obj? && !PortFits(Get(v, "port"))
    case "error_behavior" => false
    case "reboot" => !RebootKept(v)
    case "mountpoints" => !MountpointsKept(host, v)
    case "max_http_response_bytes" => !Truthy(v)
    case "gpio_buttons" => !DeviceButtons(device).Null? && !PyEq(DeviceButtons(device), v)
    case "timezone" =>
      !v.Null? && !(TextKept(host, v, true) && ZoneAccepted(host, Strip(host.TextOr(v))))
    case _ => Unstable(key, value)
  }

  /** Of every setting: an import reads back, after it was stored and handed out, exactly unless its
      condition holds. */
  lemma ImportReadsBack(host: Host, key: string, value: Json, device: Json)
    ensures var v := FrameValue(key, value);
            PyEq(FrameValue(key, HandedOut(host, key, Imported(host, key, v), device)), v) <==>
            !LostOnImport(host, key, value, device)
  {
    hide PyEq, Unstable, HttpsProxy, PortFits, SerializeHttpsProxy, NormalizeHttpsProxy, NormalizeErrorBehavior,
         FrameAdminAuth, Prune, StoredTimezone, ZoneAccepted, TextKept, NormalizeReboot, NormalizeMountpoints,
         SwitchedMapping, DeviceButtons, GpioButtons, RebootKept, MountpointsKept, ErrorBehavior, Truthy,
         CompactMapping, Schedule, DeviceConfig, Strip, Host.TextOr, NormalizeFrameAdminAuth, PortEntry, SyncBool, Get;
    match key {
      case "https_proxy" =>
        StoredProxyHandedOut(HttpsProxy(value));
        StoredProxyReadsBack(value);
        OnIffDict(value);
      case "error_behavior" =>
        ErrorBehaviorStays(ErrorBehavior(value));
        ErrorBehaviorReadsBack(value);
      case "frame_admin_auth" =>
        UnstableDiffers(key, value);
        LoginReadsBack(FrameAdminAuth(value));
      case "reboot" => RebootReadsBack(value);
      case "mountpoints" => MountpointsReadBack(host, value);
      case "max_http_response_bytes" => ResponseLimitReadsBack(value);
      case "gpio_buttons" => ButtonsReadBack(value, device);
      case "timezone" => TimezoneReadsBack(host, value);
      case _ => UnstableDiffers(key, value);
    }
  }

  lemma OnIffDict(value: Json)
    ensures HttpsProxy(value).Obj? <==> value.Obj? && SyncBool(Get(value, "enable"), false)
    ensures HttpsProxy(value).Obj? ==> Get(HttpsProxy(value), "port") == PortEntry(Get(value, "port"))
  {
    if value.Obj? && SyncBool(Get(value, "enable"), false) { HttpsProxyEntries(value); }
  }

  lemma LoginReadsBack(value: Json)
    ensures FrameAdminAuth(NormalizeFrameAdminAuth(value)) == FrameAdminAuth(value)
  {
    hide Prune, Strip, Truthy;
    StripIdempotent(TextOf(Get(value, "user")));
    BoolStays(Truthy(Get(value, "enabled")));
    assert NormalizeFrameAdminAuth(NormalizeFrameAdminAuth(value)) == NormalizeFrameAdminAuth(value);
  }

  lemma ErrorBehaviorReadsBack(value: Json)
    ensures var v := ErrorBehavior(value); PyEq(ErrorBehavior(NormalizeErrorBehavior(v)), v)
  {
    hide NormalizeErrorBehavior, PyEq;
    ErrorBehaviorStays(ErrorBehavior(value));
    ErrorBehaviorStable(value);
    PyEqReflexive(ErrorBehavior(value));
  }

  lemma ResponseLimitReadsBack(value: Json)
    ensures var v := Prune(value);
            PyEq(Prune(Or(v, Int(DEFAULT_MAX_HTTP_RESPONSE_BYTES))), v) <==> Truthy(v)
  {
    PruneIdempotent(value);
    var v := Prune(value);
    hide Prune;
    if Truthy(v) {
      PyEqReflexive(v);
    } else {
      IntPrunes(DEFAULT_MAX_HTTP_RESPONSE_BYTES);
    }
  }

  lemma IntPrunes(i: int)
    ensures Prune(Int(i)) == Int(i)
  {}

  lemma ButtonsReadBack(value: Json, device: Json)
    ensures var v := GpioButtons(value);
            PyEq(GpioButtons(Or(DeviceButtons(device), v)), v) <==>
            DeviceButtons(device).Null? || PyEq(DeviceButtons(device), v)
  {
    hide PyEq, Buttons, LabelledButton;
    var v := GpioButtons(value);
    DeviceButtonsNormal(device);
    PyEqReflexive(v);
    if value.List? { ButtonsStable(value.items); }
  }

  /** A device's own buttons are in normal form. */
  lemma DeviceButtonsNormal(device: Json)
    ensures GpioButtons(DeviceButtons(device)) == DeviceButtons(device)
  {
    hide Button, Buttons, LabelledButton;
    if !DeviceButtons(device).Null? {
      var third := if device.s in LARGE_INKY_DEVICES then 25 else 16;
      LabelledNormal(5, "A");
      LabelledNormal(6, "B");
      LabelledNormal(third, "C");
      LabelledNormal(24, "D");
      FourButtons(LabelledButton(5, "A"), LabelledButton(6, "B"), LabelledButton(third, "C"), LabelledButton(24, "D"));
    }
  }

  lemma FourButtons(a: Json, b: Json, c: Json, d: Json)
    requires Button(a) == Some(a) && Button(b) == Some(b) && Button(c) == Some(c) && Button(d) == Some(d)
    ensures Buttons([a, b, c, d]) == [a, b, c, d]
  {
    hide Button;
    assert [a, b, c, d][1..] == [b, c, d] && [b, c, d][1..] == [c, d] && [c, d][1..] == [d] && [d][1..] == [];
    assert Buttons([d]) == [d];
    assert Buttons([c, d]) == [c, d];
    assert Buttons([b, c, d]) == [b, c, d];
  }

  lemma LabelledNormal(pin: nat, name: string)
    requires pin > 0 && |name| == 1 && !IsSpace(name[0])
    ensures Button(LabelledButton(pin, name)) == Some(LabelledButton(pin, name))
  {
    assert Strip(name) == name;
    hide Strip, Decimal;
  }

  lemma TimezoneReadsBack(host: Host, value: Json)
    ensures var v := Prune(value);
            PyEq(Prune(StoredTimezone(host, v)), v) <==>
            v.Null? || (TextKept(host, v, true) && ZoneAccepted(host, Strip(host.TextOr(v))))
  {
    PruneIdempotent(value);
    NullPrunesToNull();
    var v := Prune(value);
    var t := Strip(host.TextOr(v));
    TextReadsBack(host, v, true);
    TextPrunes(t);
    hide Prune, Strip, TextKept, TextEntry, Host.TextOr, PyEq;
    PyEqReflexive(Null);
    if !v.Null? { NullIsNoDict(v); }
    if v.Null? { NothingIsNoZone(host); }
  }

  lemma TextPrunes(t: string)
    ensures t != "" ==> Prune(Str(t)) == TextEntry(t)
  {
    hide Numeral;
  }

  lemma NothingIsNoZone(host: Host)
    ensures !ZoneAccepted(host, Strip(host.TextOr(Null)))
  {}
}
