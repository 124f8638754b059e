/**
 Text that ends up in generated Nim source: user strings (backend/app/codegen/utils.py:3-13),
 compressed assets as byte literals (frameos/tools/generate_compressed_asset_nim.py:21-32) and the
 app configs as JSON between triple quotes (frameos/tools/generate_apps_asset_nim.py:31-42). Each has
 to be read back by Nim's lexer as what it was, whatever source text follows.
 */
module NimLiterals {
  import opened Json
  import opened PyText

  // ---- how Nim reads a string literal -----------------------------------------------

  datatype Lexed = Closed(value: string, rest: string) | Broken {
    function Prepend(c: char): Lexed {
      if Closed? then Closed([c] + value, rest) else Broken
    }
  }

  predicate IsHex(c: char) {
    '0' <= c <= '9' || 'A' <= c <= 'F' || 'a' <= c <= 'f'
  }

  function HexValue(c: char): (v: nat)
    requires IsHex(c)
    ensures v < 16
  {
    if '0' <= c <= '9' then (c - '0') as nat
    else if 'A' <= c <= 'F' then (c - 'A') as nat + 10
    else (c - 'a') as nat + 10
  }

  // What stands for the end of the source, also in the middle of it.
  const END_OF_FILE := '\0'

  /** The text after an opening quote. A line break or the end of the source breaks the literal off with
      an error; so do, here, the escapes that no generator writes. */
  function LexBody(t: string): Lexed {
    if t == "" || t[0] in {'\n', '\r', END_OF_FILE} then Broken
    else if t[0] == '"' then Closed("", t[1..])
    else if t[0] != '\\' then LexBody(t[1..]).Prepend(t[0])
    else if |t| >= 2 && t[1] == '\\' then LexBody(t[2..]).Prepend('\\')
    else if |t| >= 2 && t[1] == '"' then LexBody(t[2..]).Prepend('"')
    else if |t| >= 2 && t[1] == 'r' then LexBody(t[2..]).Prepend('\r')
    else if |t| >= 2 && t[1] == 'n' then LexBody(t[2..]).Prepend('\n')
    else if |t| >= 4 && t[1] == 'x' && IsHex(t[2]) && IsHex(t[3]) then
      LexBody(t[4..]).Prepend((HexValue(t[2]) * 16 + HexValue(t[3])) as char)
    else Broken
  }

  function LexString(t: string): Lexed {
    if t != "" && t[0] == '"' then LexBody(t[1..]) else Broken
  }

  const TRIPLE := "\"\"\""

  /** The text after an opening triple quote: no escapes, every kind of line break is a line feed, and
      it ends at three quotes that no fourth one follows. */
  function LexLongBody(t: string): Lexed {
    if t == "" || t[0] == END_OF_FILE then Broken
    else if TRIPLE <= t && !(|t| > 3 && t[3] == '"') then Closed("", t[3..])
    else if t[0] == '\r' then LexLongBody(if |t| > 1 && t[1] == '\n' then t[2..] else t[1..]).Prepend('\n')
    else LexLongBody(t[1..]).Prepend(t[0])
  }

  /** A line break right after the opening quotes is not part of the literal. */
  function LexLong(t: string): Lexed {
    if !(TRIPLE <= t) then Broken
    else if |t| > 3 && t[3] == '\n' then LexLongBody(t[4..])
    else if |t| > 3 && t[3] == '\r' then LexLongBody(if |t| > 4 && t[4] == '\n' then t[5..] else t[4..])
    else LexLongBody(t[3..])
  }

  // ---- user strings -----------------------------------------------------------------

  /** `s.replace(c, sub)`. */
  function Replace(s: string, c: char, sub: string): string {
    if s == "" then "" else (if s[0] == c then sub else [s[0]]) + Replace(s[1..], c, sub)
  }

  function SanitizeNimString(s: string): string {
    Replace(Replace(Replace(Replace(s, '\\', "\\\\"), '"', "\\\""), '\r', "\\r"), '\n', "\\n")
  }

  function EscapeChar(c: char): string {
    if c == '\\' then "\\\\" else if c == '"' then "\\\"" else if c == '\r' then "\\r"
    else if c == '\n' then "\\n" else [c]
  }

  /** Every character escaped by itself, in one pass. */
  function Escape(s: string): string {
    if s == "" then "" else EscapeChar(s[0]) + Escape(s[1..])
  }

  lemma {:induction false} ReplaceAppend(a: string, b: string, c: char, sub: string)
    ensures Replace(a + b, c, sub) == Replace(a, c, sub) + Replace(b, c, sub)
  {
    if a == "" {
      assert a + b == b;
    } else {
      var head := if a[0] == c then sub else [a[0]];
      ReplaceAppend(a[1..], b, c, sub);
      assert (a + b)[1..] == a[1..] + b && (a + b)[0] == a[0];
      var x, y := Replace(a[1..], c, sub), Replace(b, c, sub);
      assert Replace(a + b, c, sub) == head + (x + y);
      assert head + (x + y) == (head + x) + y;
    }
  }

  lemma ReplaceShort(a: string, c: char, sub: string)
    ensures |a| == 1 ==> Replace(a, c, sub) == if a[0] == c then sub else a
    ensures |a| == 2 ==> Replace(a, c, sub) == (if a[0] == c then sub else [a[0]]) + (if a[1] == c then sub else [a[1]])
  {
    if |a| == 1 {
      assert a[1..] == "" && a == [a[0]];
    } else if |a| == 2 {
      assert a[1..] == [a[1]] && a[1..][1..] == "";
    }
  }

  /** The four chained replaces never touch each other's output. */
  lemma {:induction false} SanitizeIsOnePass(s: string)
    ensures SanitizeNimString(s) == Escape(s)
  {
    if s != "" {
      var c, s1 := s[0], s[1..];
      SanitizeIsOnePass(s1);
      SanitizeOne(c);
      SanitizeAppend([c], s1);
      assert s == [c] + s1;
    }
  }

  lemma SanitizeAppend(a: string, b: string)
    ensures SanitizeNimString(a + b) == SanitizeNimString(a) + SanitizeNimString(b)
  {
    hide Replace;
    var a1, b1 := Replace(a, '\\', "\\\\"), Replace(b, '\\', "\\\\");
    var a2, b2 := Replace(a1, '"', "\\\""), Replace(b1, '"', "\\\"");
    var a3, b3 := Replace(a2, '\r', "\\r"), Replace(b2, '\r', "\\r");
    ReplaceAppend(a, b, '\\', "\\\\");
    ReplaceAppend(a1, b1, '"', "\\\"");
    ReplaceAppend(a2, b2, '\r', "\\r");
    ReplaceAppend(a3, b3, '\n', "\\n");
  }

  lemma SanitizeOne(c: char)
    ensures SanitizeNimString([c]) == EscapeChar(c)
  {
    hide Replace;
    var s1 := Replace([c], '\\', "\\\\");
    ReplaceShort([c], '\\', "\\\\");
    ReplaceShort(s1, '"', "\\\"");
    var s2 := Replace(s1, '"', "\\\"");
    ReplaceShort(s2, '\r', "\\r");
    var s3 := Replace(s2, '\r', "\\r");
    ReplaceShort(s3, '\n', "\\n");
  }

  lemma EscapedCharLexesBack(c: char, after: string)
    ensures LexBody(EscapeChar(c) + after) == if c == END_OF_FILE then Broken else LexBody(after).Prepend(c)
  {
    assert (EscapeChar(c) + after)[|EscapeChar(c)|..] == after;
  }

  lemma Reassociate(a: string, b: string, c: string, d: string)
    ensures a + b + c + d == a + (b + c + d)
  {}

  lemma {:induction false} EscapeLexesBack(s: string, rest: string)
    ensures LexBody(Escape(s) + "\"" + rest) == if END_OF_FILE in s then Broken else Closed(s, rest)
  {
    if s == "" {
      assert (Escape(s) + "\"" + rest)[1..] == rest;
    } else {
      hide LexBody, EscapeChar;
      EscapeLexesBack(s[1..], rest);
      assert Escape(s) == EscapeChar(s[0]) + Escape(s[1..]);
      hide Escape;
      Reassociate(EscapeChar(s[0]), Escape(s[1..]), "\"", rest);
      EscapedCharLexesBack(s[0], Escape(s[1..]) + "\"" + rest);
      assert s == [s[0]] + s[1..];
    }
  }

  /** The quoted form of a string is read as that string, and closes at its own last quote, exactly
      unless the string holds a NUL: that breaks the literal off. */
  lemma SanitizedLexesBack(s: string, rest: string)
    ensures LexString("\"" + SanitizeNimString(s) + "\"" + rest) == if END_OF_FILE in s then Broken else Closed(s, rest)
  {
    SanitizeIsOnePass(s);
    EscapeLexesBack(s, rest);
    hide Escape, SanitizeNimString, LexBody;
    var t := "\"" + SanitizeNimString(s) + "\"" + rest;
    assert t[1..] == SanitizeNimString(s) + "\"" + rest;
  }

  /** A scene may say "\u0000" in its JSON; the Nim made of it does not compile. */
  lemma NulBreaksTheLiteral(before: string, after: string, rest: string)
    ensures LexString("\"" + SanitizeNimString(before + [END_OF_FILE] + after) + "\"" + rest) == Broken
  {
    hide LexString, SanitizeNimString;
    SanitizedLexesBack(before + [END_OF_FILE] + after, rest);
    assert (before + [END_OF_FILE] + after)[|before|] == END_OF_FILE;
  }

  // ---- byte literals ----------------------------------------------------------------

  type Byte = b: nat | b < 256

  function HexDigit(d: nat): (c: char)
    requires d < 16
    ensures IsHex(c) && HexValue(c) == d
  {
    if d < 10 then '0' + d as char else 'A' + (d - 10) as char
  }

  function ByteText(b: Byte): string {
    if 0x20 <= b <= 0x7E && b != 0x22 && b != 0x5C then [b as char] else ['\\', 'x', HexDigit(b / 16), HexDigit(b % 16)]
  }

  function BytesText(data: seq<Byte>): string {
    if data == [] then "" else BytesText(data[..|data| - 1]) + ByteText(data[|data| - 1])
  }

  /** The string a Nim program gets to hold the bytes. */
  function Chars(data: seq<Byte>): string {
    seq(|data|, i requires 0 <= i < |data| => data[i] as char)
  }

  /** The literal of an asset's compressed bytes. */
  method CompressedNimLiteral(data: seq<Byte>) returns (literal: string)
    ensures forall rest :: LexString(literal + rest) == Closed(Chars(data), rest)
  {
    hide LexString, Chars;
    var parts := "";
    for i := 0 to |data|
      invariant parts == BytesText(data[..i])
    {
      assert data[..i + 1][..i] == data[..i];
      var byte := data[i];
      if 0x20 <= byte <= 0x7E && byte !in {0x22, 0x5C} {
        parts := parts + [byte as char];
      } else {
        parts := parts + ['\\', 'x', HexDigit(byte / 16), HexDigit(byte % 16)];
      }
    }
    assert data[..|data|] == data;
    literal := "\"" + parts + "\"";
    forall rest ensures LexString(literal + rest) == Closed(Chars(data), rest) {
      QuotedBytesLexBack(data, rest);
    }
  }

  lemma QuotedBytesLexBack(data: seq<Byte>, rest: string)
    ensures LexString("\"" + BytesText(data) + "\"" + rest) == Closed(Chars(data), rest)
  {
    hide BytesText, Chars;
    BytesLexBack(data, "\"" + rest);
    assert ("\"" + BytesText(data) + "\"" + rest)[1..] == BytesText(data) + ("\"" + rest);
    assert ("\"" + rest)[1..] == rest;
  }

  /** The text of the bytes is read as the bytes, and then whatever follows. */
  lemma {:induction false} BytesLexBack(data: seq<Byte>, after: string)
    ensures LexBody(BytesText(data) + after) ==
            if LexBody(after).Closed? then Closed(Chars(data) + LexBody(after).value, LexBody(after).rest) else Broken
    decreases |data|
  {
    hide LexBody, ByteText;
    if data == [] {
      assert BytesText(data) + after == after;
      assert Chars(data) == "";
    } else {
      var before, b := data[..|data| - 1], data[|data| - 1];
      BytesLexBack(before, ByteText(b) + after);
      assert BytesText(data) + after == BytesText(before) + (ByteText(b) + after);
      ByteLexesBack(b, after);
      assert Chars(data) == Chars(before) + [b as char];
      hide Chars;
      if LexBody(after).Closed? {
        assert Chars(before) + ([b as char] + LexBody(after).value) == Chars(data) + LexBody(after).value;
      }
    }
  }

  lemma ByteLexesBack(b: Byte, after: string)
    ensures LexBody(ByteText(b) + after) == LexBody(after).Prepend(b as char)
  {
    var t := ByteText(b) + after;
    assert t[|ByteText(b)|..] == after;
  }

  // ---- JSON between triple quotes ---------------------------------------------------

  predicate TripleAt(t: string, i: nat) {
    i + 2 < |t| && t[i] == '"' && t[i + 1] == '"' && t[i + 2] == '"'
  }

  /** No three quotes in a row, and no control characters. */
  ghost predicate LongSafe(t: string) {
    (forall i :: !TripleAt(t, i)) && forall i | 0 <= i < |t| :: t[i] >= ' '
  }

  function LowerHex(d: nat): char
    requires d < 16
  {
    if d < 10 then '0' + d as char else 'a' + (d - 10) as char
  }

  function Hex4(n: nat): string
    requires n < 0x10000
  {
    ['\\', 'u', LowerHex(n / 0x1000), LowerHex(n / 0x100 % 0x10), LowerHex(n / 0x10 % 0x10), LowerHex(n % 0x10)]
  }

  /** A character as json.dumps writes it, everything outside printable ASCII escaped. */
  function JsonChar(c: char): string {
    var n := c as nat;
    if c == '\\' then "\\\\" else if c == '"' then "\\\""
    else if ' ' <= c <= '~' then [c]
    else if c == '\n' then "\\n" else if c == '\r' then "\\r" else if c == '\t' then "\\t"
    else if n == 8 then "\\b" else if n == 12 then "\\f"
    else if n < 0x10000 then Hex4(n)
    else Hex4(0xD800 + (n - 0x10000) / 0x400) + Hex4(0xDC00 + (n - 0x10000) % 0x400)
  }

  function JsonBody(s: string): string {
    if s == "" then "" else JsonChar(s[0]) + JsonBody(s[1..])
  }

  function JsonString(s: string): string {
    "\"" + JsonBody(s) + "\""
  }

  /** json.dumps with separators "," and ":" and sorted keys; the text of floats is a parameter. */
  function Dumps(j: Json, floatText: real -> string): string
    decreases Height(j), 0
  {
    match j
    case Null => "null"
    case Bool(b) => if b then "true" else "false"
    case Int(i) => if i >= 0 then Decimal(i) else "-" + Decimal(-i)
    case Float(r) => floatText(r)
    case Str(s) => JsonString(s)
    case List(items) => "[" + DumpItems(j, |items|, floatText) + "]"
    case Obj(m) => "{" + DumpFields(j, Sorted(m.Keys), floatText) + "}"
  }

  function DumpItems(j: Json, n: nat, floatText: real -> string): string
    requires j.List? && n <= |j.items|
    decreases Height(j), 0, n
  {
    if n == 0 then ""
    else if n == 1 then Dumps(j.items[0], floatText)
    else DumpItems(j, n - 1, floatText) + [','] + Dumps(j.items[n - 1], floatText)
  }

  function DumpFields(j: Json, keys: seq<string>, floatText: real -> string): string
    requires j.Obj? && forall k | k in keys :: k in j.fields
    decreases Height(j), 0, |keys|
  {
    if keys == [] then "" else
      var k := keys[|keys| - 1];
      var field := JsonString(k) + [':'] + Dumps(j.fields[k], floatText);
      if |keys| == 1 then field else DumpFields(j, keys[..|keys| - 1], floatText) + [','] + field
  }

  /** Pieces with no three quotes in a row still have none when joined by anything but a quote. */
  lemma LongSafeJoined(a: string, c: char, b: string)
    requires LongSafe(a) && LongSafe(b) && c != '"' && c >= ' '
    ensures LongSafe(a + [c] + b)
  {
    NoControlJoined(a, c, b);
    forall i: nat ensures !TripleAt(a + [c] + b, i) {
      if i < |a| {
        assert !TripleAt(a, i);
      } else if i > |a| {
        assert !TripleAt(b, i - |a| - 1);
      }
    }
  }

  lemma NoControlJoined(a: string, c: char, b: string)
    requires c >= ' ' && (forall i | 0 <= i < |a| :: a[i] >= ' ') && forall i | 0 <= i < |b| :: b[i] >= ' '
    ensures forall i | 0 <= i < |a + [c] + b| :: (a + [c] + b)[i] >= ' '
  {
    assert forall i | |a| < i < |a + [c] + b| :: (a + [c] + b)[i] == b[i - |a| - 1];
  }

  /** Inside a printed string every quote follows a backslash, and there are no control characters. */
  ghost predicate QuotesEscaped(t: string) {
    (forall i | 0 <= i < |t| && t[i] == '"' :: i > 0 && t[i - 1] == '\\') &&
    forall i | 0 <= i < |t| :: t[i] >= ' '
  }

  lemma {:induction false} JsonBodyEscapes(s: string)
    ensures QuotesEscaped(JsonBody(s))
  {
    if s != "" {
      JsonBodyEscapes(s[1..]);
      JsonCharEscapes(s[0]);
      hide JsonChar;
      var first, rest := JsonChar(s[0]), JsonBody(s[1..]);
      forall i | 0 <= i < |first + rest| && (first + rest)[i] == '"' ensures i > 0 && (first + rest)[i - 1] == '\\' {
        if i < |first| {
          assert first[i] == '"';
        } else {
          assert rest[i - |first|] == '"';
        }
      }
    }
  }

  lemma JsonCharEscapes(c: char)
    ensures QuotesEscaped(JsonChar(c))
  {}

  lemma JsonStringIsLongSafe(s: string)
    ensures LongSafe(JsonString(s))
  {
    JsonBodyEscapes(s);
    hide JsonBody;
    var body := JsonBody(s);
    var t := JsonString(s);
    NoControlJoined("", '"', body);
    NoControlJoined("" + ['"'] + body, '"', "");
    assert "" + ['"'] + body + ['"'] + "" == t;
    forall i: nat ensures !TripleAt(t, i) {
      if i + 2 < |t| {
        assert t[i + 1] == body[i];
        assert i > 0 ==> t[i] == body[i - 1];
      }
    }
  }

  lemma DigitsAreLongSafe(n: nat)
    ensures LongSafe(Decimal(n)) && LongSafe("-" + Decimal(n))
  {
    DecimalReadsBack(n);
    assert forall i | 0 <= i < |Decimal(n)| :: IsDigit(Decimal(n)[i]);
  }

  ghost predicate PlainNumbers(floatText: real -> string) {
    forall r :: LongSafe(floatText(r))
  }

  lemma {:induction false} DumpsAreLongSafe(j: Json, floatText: real -> string)
    requires PlainNumbers(floatText)
    ensures LongSafe(Dumps(j, floatText))
    decreases Height(j), 0
  {
    hide LongSafe;
    match j
    case Int(i) => DigitsAreLongSafe(if i >= 0 then i else -i);
    case Str(s) => JsonStringIsLongSafe(s);
    case List(items) =>
      DumpItemsAreLongSafe(j, |items|, floatText);
      Wrapped('[', DumpItems(j, |items|, floatText), ']');
    case Obj(m) =>
      DumpFieldsAreLongSafe(j, Sorted(m.Keys), floatText);
      Wrapped('{', DumpFields(j, Sorted(m.Keys), floatText), '}');
    case Float(_) =>
    case _ => WordsAreLongSafe();
  }

  lemma WordsAreLongSafe()
    ensures LongSafe("") && LongSafe("null") && LongSafe("true") && LongSafe("false")
  {}

  lemma Wrapped(open: char, t: string, close: char)
    requires LongSafe(t) && open != '"' && close != '"' && open >= ' ' && close >= ' '
    ensures LongSafe([open] + t + [close])
  {
    hide LongSafe;
    WordsAreLongSafe();
    LongSafeJoined("", open, t);
    assert "" + [open] + t == [open] + t;
    LongSafeJoined([open] + t, close, "");
    assert [open] + t + [close] + "" == [open] + t + [close];
  }

  lemma {:induction false} DumpItemsAreLongSafe(j: Json, n: nat, floatText: real -> string)
    requires PlainNumbers(floatText) && j.List? && n <= |j.items|
    ensures LongSafe(DumpItems(j, n, floatText))
    decreases Height(j), 0, n
  {
    hide LongSafe, PlainNumbers;
    WordsAreLongSafe();
    if n > 0 {
      DumpsAreLongSafe(j.items[n - 1], floatText);
      DumpItemsAreLongSafe(j, n - 1, floatText);
      if n > 1 {
        hide Dumps;
        LongSafeJoined(DumpItems(j, n - 1, floatText), ',', Dumps(j.items[n - 1], floatText));
      }
    }
  }

  lemma {:induction false} DumpFieldsAreLongSafe(j: Json, keys: seq<string>, floatText: real -> string)
    requires PlainNumbers(floatText) && j.Obj? && forall k | k in keys :: k in j.fields
    ensures LongSafe(DumpFields(j, keys, floatText))
    decreases Height(j), 0, |keys|
  {
    hide LongSafe, PlainNumbers, JsonString;
    WordsAreLongSafe();
    if keys != [] {
      var k, rest := keys[|keys| - 1], keys[..|keys| - 1];
      var name, value := JsonString(k), Dumps(j.fields[k], floatText);
      JsonStringIsLongSafe(k);
      DumpsAreLongSafe(j.fields[k], floatText);
      LongSafeJoined(name, ':', value);
      DumpFieldsAreLongSafe(j, rest, floatText);
      if |keys| > 1 {
        hide Dumps;
        LongSafeJoined(DumpFields(j, rest, floatText), ',', name + [':'] + value);
      }
    }
  }

  lemma TripleAtStart(t: string)
    ensures TRIPLE <= t <==> TripleAt(t, 0)
  {
    assert TRIPLE[0] == TRIPLE[1] == TRIPLE[2] == '"';
  }

  lemma {:induction false} LongBodyLexesBack(t: string, rest: string)
    requires LongSafe(t) && (t == "" || t[|t| - 1] != '"') && (rest == "" || rest[0] != '"')
    ensures LexLongBody(t + TRIPLE + rest) == Closed(t, rest)
  {
    var all := t + TRIPLE + rest;
    if t == "" {
      assert all[3..] == rest;
    } else {
      assert !TripleAt(t, 0);
      assert all[1..] == t[1..] + TRIPLE + rest;
      forall i: nat ensures !TripleAt(t[1..], i) {
        assert !TripleAt(t, i + 1);
      }
      assert t[|t| - 1] == all[|t| - 1];
      assert !TripleAt(all, 0);
      TripleAtStart(all);
      LongBodyLexesBack(t[1..], rest);
      assert t == [t[0]] + t[1..];
    }
  }

  const APPS_HEADER := "# Auto-generated by tools/generate_apps_asset_nim.py\n\nconst appsJson* = "

  const APPS_FOOTER := "\n\nproc getAppsJson*(): string =\n  appsJson\n"

  /** The module of the app configs, by keyword. */
  function RenderAppsAssetNim(configs: map<string, Json>, floatText: real -> string): string {
    APPS_HEADER + (TRIPLE + Dumps(AppsPayload(configs), floatText) + TRIPLE + APPS_FOOTER)
  }

  function AppsPayload(configs: map<string, Json>): Json {
    Obj(map["apps" := Obj(configs)])
  }

  /** The constant of the generated module is exactly the JSON, whatever the configs contain. */
  lemma AppsModuleHoldsTheJson(configs: map<string, Json>, floatText: real -> string)
    requires PlainNumbers(floatText)
    ensures APPS_HEADER <= RenderAppsAssetNim(configs, floatText)
    ensures LexLong(RenderAppsAssetNim(configs, floatText)[|APPS_HEADER|..]) ==
            Closed(Dumps(Obj(map["apps" := Obj(configs)]), floatText),
                   "\n\nproc getAppsJson*(): string =\n  appsJson\n")
  {
    var payload := AppsPayload(configs);
    var json := Dumps(payload, floatText);
    DumpsAreLongSafe(payload, floatText);
    DumpedObject(payload, floatText);
    assert APPS_FOOTER[0] == '\n';
    hide LexLong, Dumps, LongSafe, PlainNumbers, AppsPayload;
    LongLexesBack(json, APPS_FOOTER);
    SplitOff(APPS_HEADER, TRIPLE + json + TRIPLE + APPS_FOOTER);
  }

  lemma SplitOff(a: string, b: string)
    ensures a <= a + b && (a + b)[|a|..] == b
  {}

  lemma LongLexesBack(t: string, rest: string)
    requires LongSafe(t) && t != "" && t[|t| - 1] != '"' && (rest == "" || rest[0] != '"')
    ensures LexLong(TRIPLE + t + TRIPLE + rest) == Closed(t, rest)
  {
    hide LexLongBody;
    LongBodyLexesBack(t, rest);
    var literal := TRIPLE + t + TRIPLE + rest;
    assert literal[3..] == t + TRIPLE + rest && literal[3] == t[0];
  }

  lemma DumpedObject(j: Json, floatText: real -> string)
    requires j.Obj?
    ensures var json := Dumps(j, floatText); |json| >= 2 && json[0] == '{' && json[|json| - 1] == '}'
  {}
}
