/**
 Reading back the JSON that a generated module holds (frameos/tools/generate_apps_asset_nim.py:31-42):
 what `json.dumps` writes without spaces is read as the value it was written for, so the app configs
 that a device finds in the module are the configs it was made from.
 */
module JsonReading {
  import opened Json
  import opened NimLiterals
  import opened PyText

  // ---- a reader of JSON -------------------------------------------------------------

  datatype TextRead = TextRead(text: string, rest: string) | NoText {
    function Prepend(c: char): TextRead {
      if TextRead? then TextRead([c] + text, rest) else NoText
    }
  }

  /** Four hex digits. */
  function Hex4Value(t: string): nat
    requires |t| == 4 && forall c | c in t :: IsHex(c)
  {
    HexValue(t[0]) * 0x1000 + HexValue(t[1]) * 0x100 + HexValue(t[2]) * 0x10 + HexValue(t[3])
  }

  /** `\\u` and four hex digits stand at the start. */
  predicate UnicodeEscape(t: string) {
    |t| >= 6 && t[0] == '\\' && t[1] == 'u' && forall c | c in t[2..6] :: IsHex(c)
  }

  /** The text after an opening quote, up to the closing one; two escapes may make one character. */
  function ReadText(t: string): (r: TextRead)
    ensures r.TextRead? ==> |r.rest| < |t|
  {
    if t == "" then NoText
    else if t[0] == '"' then TextRead("", t[1..])
    else if t[0] != '\\' then ReadText(t[1..]).Prepend(t[0])
    else if UnicodeEscape(t) then
      var n := Hex4Value(t[2..6]);
      if n < 0xD800 || 0xE000 <= n then ReadText(t[6..]).Prepend(n as char)
      else if n < 0xDC00 && UnicodeEscape(t[6..]) && 0xDC00 <= Hex4Value(t[8..12]) < 0xE000 then
        ReadText(t[12..]).Prepend((0x10000 + (n - 0xD800) * 0x400 + (Hex4Value(t[8..12]) - 0xDC00)) as char)
      else NoText
    else if |t| < 2 then NoText
    else
      match t[1]
      case '\\' => ReadText(t[2..]).Prepend('\\')
      case '"' => ReadText(t[2..]).Prepend('"')
      case 'n' => ReadText(t[2..]).Prepend('\n')
      case 'r' => ReadText(t[2..]).Prepend('\r')
      case 't' => ReadText(t[2..]).Prepend('\t')
      case 'b' => ReadText(t[2..]).Prepend(8 as char)
      case 'f' => ReadText(t[2..]).Prepend(12 as char)
      case _ => NoText
  }

  datatype ValueRead = Got(value: Json, rest: string) | NoValue

  /** How many digits the text begins with. */
  function DigitsAhead(t: string): (n: nat)
    ensures n <= |t| && AllDigits(t[..n])
  {
    if t == "" || !IsDigit(t[0]) then 0 else 1 + DigitsAhead(t[1..])
  }

  function ReadInt(t: string): (r: ValueRead)
    ensures r.Got? ==> |r.rest| < |t|
  {
    var sign := if t != "" && t[0] == '-' then 1 else 0;
    var n := DigitsAhead(t[sign..]);
    if n == 0 then NoValue else
      var i: int := NatOf(t[sign..][..n]);
      Got(Int(if sign == 1 then -i else i), t[sign..][n..])
  }

  function ReadValue(t: string): (r: ValueRead)
    ensures r.Got? ==> |r.rest| < |t|
    decreases |t|, 1
  {
    if "null" <= t then Got(Null, t[4..])
    else if "true" <= t then Got(Bool(true), t[4..])
    else if "false" <= t then Got(Bool(false), t[5..])
    else if t == "" then NoValue
    else
      match t[0]
      case '"' => (match ReadText(t[1..]) case TextRead(s, rest) => Got(Str(s), rest) case NoText => NoValue)
      case '[' => if |t| > 1 && t[1] == ']' then Got(List([]), t[2..]) else ReadItems(t[1..])
      case '{' => if |t| > 1 && t[1] == '}' then Got(Obj(map[]), t[2..]) else ReadFields(t[1..])
      case _ => ReadInt(t)
  }

  /** The items of a list, up to the closing bracket. */
  function ReadItems(t: string): (r: ValueRead)
    ensures r.Got? ==> |r.rest| < |t| && r.value.List?
    decreases |t|, 2
  {
    match ReadValue(t)
    case NoValue => NoValue
    case Got(value, rest) =>
      if rest == "" then NoValue
      else if rest[0] == ']' then Got(List([value]), rest[1..])
      else if rest[0] == ',' then
        match ReadItems(rest[1..])
        case NoValue => NoValue
        case Got(others, end) => Got(List([value] + others.items), end)
      else NoValue
  }

  /** The fields of a dict, up to the closing brace; of a repeated key the last one counts. */
  function ReadFields(t: string): (r: ValueRead)
    ensures r.Got? ==> |r.rest| < |t| && r.value.Obj?
    decreases |t|, 2
  {
    if t == "" || t[0] != '"' then NoValue else
      match ReadText(t[1..])
      case NoText => NoValue
      case TextRead(key, after) =>
        if after == "" || after[0] != ':' then NoValue else
          match ReadValue(after[1..])
          case NoValue => NoValue
          case Got(value, rest) =>
            if rest == "" then NoValue
            else if rest[0] == '}' then Got(Obj(map[key := value]), rest[1..])
            else if rest[0] == ',' then
              match ReadFields(rest[1..])
              case NoValue => NoValue
              case Got(others, end) => Got(Obj(map[key := value] + others.fields), end)
            else NoValue
  }

  // ---- texts read back --------------------------------------------------------------

  lemma HexReadsBack(d: nat)
    requires d < 16
    ensures IsHex(LowerHex(d)) && HexValue(LowerHex(d)) == d
  {}

  lemma Hex4ReadsBack(n: nat, after: string)
    requires n < 0x10000
    ensures UnicodeEscape(Hex4(n) + after) && Hex4Value((Hex4(n) + after)[2..6]) == n
    ensures (Hex4(n) + after)[6..] == after
  {
    var a, b, c, d := n / 0x1000, n / 0x100 % 0x10, n / 0x10 % 0x10, n % 0x10;
    HexReadsBack(a);
    HexReadsBack(b);
    HexReadsBack(c);
    HexReadsBack(d);
    DigitsMakeUp(n);
    FourHex(LowerHex(a), LowerHex(b), LowerHex(c), LowerHex(d), after);
    hide LowerHex, HexValue, IsHex, UnicodeEscape, Hex4Value;
  }

  lemma DigitsMakeUp(n: nat)
    requires n < 0x10000
    ensures n / 0x1000 * 0x1000 + n / 0x100 % 0x10 * 0x100 + n / 0x10 % 0x10 * 0x10 + n % 0x10 == n
    ensures n / 0x1000 < 16
  {
    assert n / 0x1000 == n / 0x100 / 0x10 && n / 0x100 == n / 0x10 / 0x10;
  }

  lemma FourHex(a: char, b: char, c: char, d: char, after: string)
    requires IsHex(a) && IsHex(b) && IsHex(c) && IsHex(d)
    ensures var t := ['\\', 'u', a, b, c, d] + after;
            UnicodeEscape(t) && t[6..] == after &&
            Hex4Value(t[2..6]) == HexValue(a) * 0x1000 + HexValue(b) * 0x100 + HexValue(c) * 0x10 + HexValue(d)
  {
    hide IsHex, HexValue;
    var t := ['\\', 'u', a, b, c, d] + after;
    assert t[2..6] == [a, b, c, d];
  }

  lemma CharReadsBack(c: char, after: string)
    ensures ReadText(JsonChar(c) + after) == ReadText(after).Prepend(c)
  {
    hide Hex4, UnicodeEscape, Hex4Value;
    var n := c as nat;
    var t := JsonChar(c) + after;
    if n >= 0x10000 {
      PairReadsBack(c, after);
    } else if c !in {'\\', '"', '\n', '\r', '\t'} && !(' ' <= c <= '~') && n != 8 && n != 12 {
      Hex4ReadsBack(n, after);
      EscapeBegins(n, after);
    } else {
      ShortEscapes(c, after);
    }
  }

  lemma EscapeBegins(n: nat, after: string)
    requires n < 0x10000
    ensures var t := Hex4(n) + after; t != "" && t[0] == '\\'
  {}

  lemma ShortEscapes(c: char, after: string)
    requires c as nat < 0x10000
    requires c in {'\\', '"', '\n', '\r', '\t'} || ' ' <= c <= '~' || c as nat == 8 || c as nat == 12
    ensures ReadText(JsonChar(c) + after) == ReadText(after).Prepend(c)
  {
    hide Hex4, ReadText;
    if |JsonChar(c)| == 1 {
      PlainReadsBack(c, after);
    } else {
      EscapeReadsBack(JsonChar(c)[1], after);
      assert JsonChar(c) == ['\\', JsonChar(c)[1]];
    }
  }

  lemma PlainReadsBack(c: char, after: string)
    requires c !in {'\\', '"'}
    ensures ReadText([c] + after) == ReadText(after).Prepend(c)
  {
    assert ([c] + after)[1..] == after;
  }

  lemma EscapeReadsBack(e: char, after: string)
    requires e in {'\\', '"', 'n', 'r', 't', 'b', 'f'}
    ensures ReadText(['\\', e] + after) == ReadText(after).Prepend(
              if e == 'n' then '\n' else if e == 'r' then '\r' else if e == 't' then '\t'
              else if e == 'b' then 8 as char else if e == 'f' then 12 as char else e)
  {
    var t := ['\\', e] + after;
    assert t[2..] == after && !UnicodeEscape(t);
    hide UnicodeEscape, Hex4Value;
  }

  lemma PairReadsBack(c: char, after: string)
    requires c as nat >= 0x10000
    ensures ReadText(JsonChar(c) + after) == ReadText(after).Prepend(c)
  {
    hide Hex4, UnicodeEscape, Hex4Value;
    var n := c as nat;
    var high, low := 0xD800 + (n - 0x10000) / 0x400, 0xDC00 + (n - 0x10000) % 0x400;
    Hex4ReadsBack(high, Hex4(low) + after);
    Hex4ReadsBack(low, after);
    EscapeBegins(high, Hex4(low) + after);
    var t := JsonChar(c) + after;
    LongEnough(high);
    LongEnough(low);
    assert t == Hex4(high) + (Hex4(low) + after);
    assert t[6..] == Hex4(low) + after;
    assert t[8..12] == t[6..][2..6] && t[12..] == t[6..][6..];
  }

  lemma LongEnough(n: nat)
    requires n < 0x10000
    ensures |Hex4(n)| == 6
  {}

  /** What is written for a text, quotes included, is read as the text. */
  lemma {:induction false} TextReadsBack(s: string, rest: string)
    ensures ReadText(JsonBody(s) + "\"" + rest) == TextRead(s, rest)
  {
    if s == "" {
      assert (JsonBody(s) + "\"" + rest)[1..] == rest;
    } else {
      hide JsonChar, ReadText;
      TextReadsBack(s[1..], rest);
      Reassociate(JsonChar(s[0]), JsonBody(s[1..]), "\"", rest);
      CharReadsBack(s[0], JsonBody(s[1..]) + "\"" + rest);
      assert s == [s[0]] + s[1..];
    }
  }

  // ---- values read back -------------------------------------------------------------

  /** Whole numbers only: the text of a float is not part of this model. */
  ghost predicate WithoutFloats(j: Json) {
    match j
    case Float(_) => false
    case List(items) => forall i | 0 <= i < |items| :: WithoutFloats(items[i])
    case Obj(m) => forall k | k in m :: WithoutFloats(m[k])
    case _ => true
  }

  /** What may follow a value. */
  predicate Ends(rest: string) {
    rest == "" || rest[0] in {',', ']', '}'}
  }

  lemma {:induction false} DigitsEnd(digits: string, rest: string)
    requires AllDigits(digits) && (rest == "" || !IsDigit(rest[0]))
    ensures DigitsAhead(digits + rest) == |digits|
  {
    if digits == "" {
      assert digits + rest == rest;
    } else {
      DigitsEnd(digits[1..], rest);
      assert (digits + rest)[1..] == digits[1..] + rest;
    }
  }

  lemma IntReadsBack(i: int, rest: string)
    requires Ends(rest)
    ensures ReadInt((if i >= 0 then Decimal(i) else "-" + Decimal(-i)) + rest) == Got(Int(i), rest)
  {
    var digits := Decimal(if i < 0 then -i else i);
    DecimalReadsBack(if i < 0 then -i else i);
    DigitsEnd(digits, rest);
    hide Decimal, DigitsAhead, NatOf;
    var t := (if i >= 0 then digits else "-" + digits) + rest;
    assert IsDigit(digits[0]);
    assert t[if i < 0 then 1 else 0..] == digits + rest;
    assert (digits + rest)[..|digits|] == digits && (digits + rest)[|digits|..] == rest;
  }

  /** The items from the i-th on, as they are written. */
  function ItemsText(j: Json, i: nat, floatText: real -> string): string
    requires j.List? && i < |j.items|
    decreases |j.items| - i
  {
    Dumps(j.items[i], floatText) + if i + 1 < |j.items| then [','] + ItemsText(j, i + 1, floatText) else ""
  }

  lemma {:induction false} ItemsFromTheFront(j: Json, n: nat, floatText: real -> string)
    requires j.List? && 0 < n <= |j.items|
    ensures ItemsText(j, 0, floatText) ==
            DumpItems(j, n, floatText) + if n < |j.items| then [','] + ItemsText(j, n, floatText) else ""
  {
    hide Dumps;
    if n > 1 {
      ItemsFromTheFront(j, n - 1, floatText);
      var rest := if n < |j.items| then [','] + ItemsText(j, n, floatText) else "";
      Grouped(DumpItems(j, n - 1, floatText), [','], Dumps(j.items[n - 1], floatText), rest);
    }
  }

  lemma Grouped(a: string, b: string, c: string, d: string)
    ensures a + (b + (c + d)) == a + b + c + d
  {}

  function FieldText(j: Json, k: string, floatText: real -> string): string
    requires j.Obj? && k in j.fields
  {
    JsonString(k) + [':'] + Dumps(j.fields[k], floatText)
  }

  /** The fields from the i-th key on, as they are written. */
  function FieldsText(j: Json, keys: seq<string>, i: nat, floatText: real -> string): string
    requires j.Obj? && (forall k | k in keys :: k in j.fields) && i < |keys|
    decreases |keys| - i
  {
    FieldText(j, keys[i], floatText) + if i + 1 < |keys| then [','] + FieldsText(j, keys, i + 1, floatText) else ""
  }

  lemma {:induction false} FieldsFromTheFront(j: Json, keys: seq<string>, n: nat, floatText: real -> string)
    requires j.Obj? && (forall k | k in keys :: k in j.fields) && 0 < n <= |keys|
    ensures FieldsText(j, keys, 0, floatText) ==
            DumpFields(j, keys[..n], floatText) + if n < |keys| then [','] + FieldsText(j, keys, n, floatText) else ""
  {
    hide Dumps, JsonString;
    assert keys[..n][..n - 1] == keys[..n - 1];
    if n > 1 {
      FieldsFromTheFront(j, keys, n - 1, floatText);
      var rest := if n < |keys| then [','] + FieldsText(j, keys, n, floatText) else "";
      Grouped(DumpFields(j, keys[..n - 1], floatText), [','], FieldText(j, keys[n - 1], floatText), rest);
    }
  }

  /** What is written for a value is read as the value. */
  lemma {:induction false} DumpsReadBack(j: Json, floatText: real -> string, rest: string)
    requires WithoutFloats(j) && Ends(rest)
    ensures ReadValue(Dumps(j, floatText) + rest) == Got(j, rest)
    decreases Height(j), 2
  {
    hide ReadInt, ReadText, ReadItems, ReadFields, JsonBody, Height;
    match j {
      case Int(i) => NumberReadsBack(i, rest);
      case Str(s) => StringReadsBack(s, rest);
      case List(items) =>
        if items == [] {
          EmptiesReadBack(rest);
        } else {
          ListReadsBack(j, floatText, rest);
        }
      case Obj(m) =>
        if m == map[] {
          NoKeys(j, floatText);
          EmptiesReadBack(rest);
        } else {
          DictReadsBack(j, floatText, rest);
        }
      case _ => WordsReadBack(rest);
    }
  }

  lemma EmptiesReadBack(rest: string)
    ensures ReadValue("[" + "" + "]" + rest) == Got(List([]), rest) && ReadValue("{}" + rest) == Got(Obj(map[]), rest)
  {
    hide ReadInt, ReadText, ReadItems, ReadFields;
    assert ("[" + "" + "]" + rest)[2..] == rest && ("{}" + rest)[2..] == rest;
  }

  lemma StringReadsBack(s: string, rest: string)
    ensures ReadValue(JsonString(s) + rest) == Got(Str(s), rest)
  {
    TextReadsBack(s, rest);
    hide ReadInt, ReadText, ReadItems, ReadFields, JsonBody;
    var t := JsonString(s) + rest;
    assert t[0] == '"' && t[1..] == JsonBody(s) + "\"" + rest;
  }

  lemma WordsReadBack(rest: string)
    ensures ReadValue("null" + rest) == Got(Null, rest)
    ensures ReadValue("true" + rest) == Got(Bool(true), rest) && ReadValue("false" + rest) == Got(Bool(false), rest)
  {
    hide ReadInt, ReadText, ReadItems, ReadFields;
    assert ("null" + rest)[4..] == rest && ("true" + rest)[4..] == rest && ("false" + rest)[5..] == rest;
    assert "true"[0] != 'n' && "false"[0] !in {'n', 't'};
  }

  lemma NoKeys(j: Json, floatText: real -> string)
    requires j.Obj? && j.fields == map[]
    ensures Dumps(j, floatText) == "{}"
  {
    assert j.fields.Keys == {};
  }

  lemma NumberReadsBack(i: int, rest: string)
    requires Ends(rest)
    ensures ReadValue((if i >= 0 then Decimal(i) else "-" + Decimal(-i)) + rest) == Got(Int(i), rest)
  {
    IntReadsBack(i, rest);
    DecimalReadsBack(if i < 0 then -i else i);
    hide ReadInt, Decimal, ReadValue;
    var t := (if i >= 0 then Decimal(i) else "-" + Decimal(-i)) + rest;
    assert t[0] == '-' || IsDigit(t[0]);
    NumberBegins(t);
  }

  lemma NumberBegins(t: string)
    requires t != "" && (t[0] == '-' || IsDigit(t[0]))
    ensures ReadValue(t) == ReadInt(t)
  {
    hide ReadInt, ReadText, ReadItems, ReadFields;
    assert !("null" <= t) && !("true" <= t) && !("false" <= t);
  }

  lemma ListReadsBack(j: Json, floatText: real -> string, rest: string)
    requires WithoutFloats(j) && Ends(rest) && j.List? && j.items != []
    ensures ReadValue(Dumps(j, floatText) + rest) == Got(j, rest)
    decreases Height(j), 1
  {
    hide ReadValue, ReadItems, DumpItems, ItemsText, Dumps, Height, WithoutFloats;
    ItemsReadBack(j, 0, floatText, rest);
    DumpedItems(j, floatText);
    ItemsBegin(j, floatText);
    BracketedReadsBack(ItemsText(j, 0, floatText), rest);
    assert j.items[0..] == j.items;
  }

  lemma DumpedItems(j: Json, floatText: real -> string)
    requires j.List? && j.items != []
    ensures Dumps(j, floatText) == "[" + ItemsText(j, 0, floatText) + "]"
  {
    hide DumpItems, ItemsText;
    ItemsFromTheFront(j, |j.items|, floatText);
    var text := ItemsText(j, 0, floatText);
    assert text + "" == text;
  }

  lemma BracketedReadsBack(text: string, rest: string)
    requires text != "" && text[0] != ']'
    ensures ReadValue("[" + text + "]" + rest) == ReadItems(text + "]" + rest)
  {
    hide ReadInt, ReadText, ReadItems, ReadFields;
    var t := "[" + text + "]" + rest;
    assert t[1..] == text + "]" + rest && t[0] == '[' && t[1] == text[0];
  }

  lemma ItemsBegin(j: Json, floatText: real -> string)
    requires j.List? && j.items != [] && WithoutFloats(j)
    ensures var t := ItemsText(j, 0, floatText); t != "" && t[0] != ']'
  {
    ValueBegins(j.items[0], floatText);
    hide Dumps;
  }

  lemma ValueBegins(j: Json, floatText: real -> string)
    requires WithoutFloats(j)
    ensures Dumps(j, floatText) != "" && Dumps(j, floatText)[0] !in {',', ']', '}'}
  {
    if j.Int? {
      var n := if j.i < 0 then -j.i else j.i;
      DecimalReadsBack(n);
      assert IsDigit(Decimal(n)[0]);
    }
    hide Decimal, JsonBody, DumpItems, DumpFields;
  }

  lemma {:induction false} ItemsReadBack(j: Json, i: nat, floatText: real -> string, rest: string)
    requires WithoutFloats(j) && j.List? && i < |j.items|
    ensures ReadItems(ItemsText(j, i, floatText) + "]" + rest) == Got(List(j.items[i..]), rest)
    decreases Height(j), 0, |j.items| - i
  {
    hide ReadValue, Dumps, ReadItems, Height;
    var value := Dumps(j.items[i], floatText);
    if i + 1 < |j.items| {
      var others := ItemsText(j, i + 1, floatText);
      var after := [','] + (others + "]" + rest);
      DumpsReadBack(j.items[i], floatText, after);
      ItemsReadBack(j, i + 1, floatText, rest);
      FieldsGrouped("", value, [','], others, "]", rest);
      OneMoreItem(value + after, j.items[i], others + "]" + rest);
      assert j.items[i..] == [j.items[i]] + j.items[i + 1..];
    } else {
      DumpsReadBack(j.items[i], floatText, "]" + rest);
      FieldsGrouped("", value, "", "", "]", rest);
      LastItem(value + ("]" + rest), j.items[i], rest);
      assert j.items[i..] == [j.items[i]];
    }
  }

  lemma OneMoreItem(t: string, value: Json, more: string)
    requires ReadValue(t) == Got(value, [','] + more)
    ensures ReadItems(t) == match ReadItems(more)
                            case NoValue => NoValue
                            case Got(others, end) => Got(List([value] + others.items), end)
  {
    hide ReadValue;
    assert ([','] + more)[1..] == more;
  }

  lemma LastItem(t: string, value: Json, rest: string)
    requires ReadValue(t) == Got(value, "]" + rest)
    ensures ReadItems(t) == Got(List([value]), rest)
  {
    hide ReadValue;
    assert ("]" + rest)[1..] == rest;
  }

  lemma DictReadsBack(j: Json, floatText: real -> string, rest: string)
    requires WithoutFloats(j) && Ends(rest) && j.Obj? && j.fields != map[]
    ensures ReadValue(Dumps(j, floatText) + rest) == Got(j, rest)
    decreases Height(j), 1
  {
    hide ReadValue, ReadFields, DumpFields, Sorted, FieldsText, Dumps, Height, WithoutFloats;
    var keys := Sorted(j.fields.Keys);
    SortedDistinct(j.fields.Keys);
    assert j.fields.Keys != {} && |keys| == |j.fields.Keys|;
    FieldsReadBack(j, keys, 0, floatText, rest);
    DumpedFields(j, floatText);
    FieldsBegin(j, keys, floatText);
    BracedReadsBack(FieldsText(j, keys, 0, floatText), rest);
    WholeMap(j.fields, keys);
  }

  lemma DumpedFields(j: Json, floatText: real -> string)
    requires j.Obj? && j.fields != map[] && Sorted(j.fields.Keys) != []
    ensures Dumps(j, floatText) == "{" + FieldsText(j, Sorted(j.fields.Keys), 0, floatText) + "}"
  {
    hide DumpFields, Sorted, FieldsText;
    var keys := Sorted(j.fields.Keys);
    FieldsFromTheFront(j, keys, |keys|, floatText);
    assert keys[..|keys|] == keys;
    var text := FieldsText(j, keys, 0, floatText);
    assert text + "" == text;
  }

  lemma WholeMap(m: map<string, Json>, keys: seq<string>)
    requires forall k :: k in keys <==> k in m
    ensures (map k | k in keys[0..] :: m[k]) == m
  {
    assert keys[0..] == keys;
  }

  lemma BracedReadsBack(text: string, rest: string)
    requires text != "" && text[0] == '"'
    ensures ReadValue("{" + text + "}" + rest) == ReadFields(text + "}" + rest)
  {
    hide ReadInt, ReadText, ReadItems, ReadFields;
    var t := "{" + text + "}" + rest;
    assert t[1..] == text + "}" + rest && t[0] == '{' && t[1] == text[0];
  }

  lemma FieldsBegin(j: Json, keys: seq<string>, floatText: real -> string)
    requires j.Obj? && (forall k | k in keys :: k in j.fields) && keys != []
    ensures var t := FieldsText(j, keys, 0, floatText); t != "" && t[0] == '"'
  {
    hide Dumps, JsonBody;
  }

  lemma SortedDistinct(s: set<string>)
    ensures forall i, k | 0 <= i < k < |Sorted(s)| :: Sorted(s)[i] != Sorted(s)[k]
  {
    forall i, k | 0 <= i < k < |Sorted(s)| ensures Sorted(s)[i] != Sorted(s)[k] { SortedInOrder(s, i, k); }
  }

  lemma {:induction false} FieldsReadBack(j: Json, keys: seq<string>, i: nat, floatText: real -> string, rest: string)
    requires WithoutFloats(j) && j.Obj? && (forall k | k in keys :: k in j.fields) && i < |keys|
    requires forall a, b | 0 <= a < b < |keys| :: keys[a] != keys[b]
    ensures ReadFields(FieldsText(j, keys, i, floatText) + "}" + rest) ==
            Got(Obj(map k | k in keys[i..] :: j.fields[k]), rest)
    decreases Height(j), 0, |keys| - i
  {
    hide ReadValue, ReadFields, Dumps, JsonString;
    var k := keys[i];
    var name, value := JsonString(k) + [':'], Dumps(j.fields[k], floatText);
    if i + 1 < |keys| {
      var others := FieldsText(j, keys, i + 1, floatText);
      var after := [','] + (others + "}" + rest);
      DumpsReadBack(j.fields[k], floatText, after);
      FieldsReadBack(j, keys, i + 1, floatText, rest);
      OneMoreField(k, value + after, j.fields[k], others + "}" + rest);
      FieldsGrouped(name, value, [','], others, "}", rest);
      FieldMap(j.fields, keys, i);
    } else {
      DumpsReadBack(j.fields[k], floatText, "}" + rest);
      LastField(k, value + ("}" + rest), j.fields[k], rest);
      FieldsGrouped(name, value, "", "", "}", rest);
      assert keys[i..] == [k];
      assert (map x | x in keys[i..] :: j.fields[x]) == map[k := j.fields[k]];
    }
  }

  lemma FieldsGrouped(name: string, value: string, c: string, others: string, d: string, rest: string)
    ensures name + value + (c + others) + d + rest == name + (value + (c + (others + d + rest)))
    ensures name + value + "" + d + rest == name + (value + (d + rest))
    ensures value + (c + others) + d + rest == value + (c + (others + d + rest))
    ensures value + "" + d + rest == value + (d + rest)
  {}

  lemma FieldMap(m: map<string, Json>, keys: seq<string>, i: nat)
    requires (forall k | k in keys :: k in m) && i + 1 < |keys|
    requires forall a, b | 0 <= a < b < |keys| :: keys[a] != keys[b]
    ensures (map x | x in keys[i..] :: m[x]) == map[keys[i] := m[keys[i]]] + map x | x in keys[i + 1..] :: m[x]
  {
    assert keys[i..] == [keys[i]] + keys[i + 1..];
    assert keys[i] !in keys[i + 1..];
  }

  lemma KeyReadsBack(k: string, t: string)
    ensures var text := JsonString(k) + [':'] + t;
            text != "" && text[0] == '"' && ReadText(text[1..]) == TextRead(k, [':'] + t)
  {
    TextReadsBack(k, [':'] + t);
    hide JsonBody, ReadText;
    var text := JsonString(k) + [':'] + t;
    assert text[1..] == JsonBody(k) + "\"" + ([':'] + t);
  }

  lemma OneMoreField(k: string, t: string, value: Json, more: string)
    requires ReadValue(t) == Got(value, [','] + more)
    ensures ReadFields(JsonString(k) + [':'] + t) ==
            match ReadFields(more)
            case NoValue => NoValue
            case Got(others, end) => Got(Obj(map[k := value] + others.fields), end)
  {
    hide ReadValue, ReadText, JsonString;
    KeyReadsBack(k, t);
    assert ([':'] + t)[1..] == t && ([','] + more)[1..] == more;
  }

  lemma LastField(k: string, t: string, value: Json, rest: string)
    requires ReadValue(t) == Got(value, "}" + rest)
    ensures ReadFields(JsonString(k) + [':'] + t) == Got(Obj(map[k := value]), rest)
  {
    hide ReadValue, ReadText, JsonString;
    KeyReadsBack(k, t);
    assert ([':'] + t)[1..] == t && ("}" + rest)[1..] == rest;
  }

  /** The configs can be read back from the generated module, whatever texts they contain. */
  lemma ModuleReadsBack(configs: map<string, Json>, floatText: real -> string)
    requires PlainNumbers(floatText) && WithoutFloats(Obj(configs))
    ensures var literal := LexLong(RenderAppsAssetNim(configs, floatText)[|APPS_HEADER|..]);
            APPS_HEADER <= RenderAppsAssetNim(configs, floatText) && literal.Closed? &&
            ReadValue(literal.value) == Got(Obj(map["apps" := Obj(configs)]), "")
  {
    var payload := Obj(map["apps" := Obj(configs)]);
    AppsModuleHoldsTheJson(configs, floatText);
    DumpsReadBack(payload, floatText, "");
    hide ReadValue, Dumps, LexLong;
    assert Dumps(payload, floatText) + "" == Dumps(payload, floatText);
  }
}
