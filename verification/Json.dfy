/**
 JSON values as the backend sees them, Python's `==` on them, and the pruning that every
 comparison of the frame sync starts with (backend/app/api/frame_sync.py).
 */
module Json {
  import opened Options
  import opened PyText

  /** A decoded JSON value. Floats are exact reals; a dict is a map, because Python compares dicts
      regardless of insertion order. */
  datatype Json =
    | Null
    | Bool(b: bool)
    | Int(i: int)
    | Float(r: real)
    | Str(s: string)
    | List(items: seq<Json>)
    | Obj(fields: map<string, Json>)

  const EMPTY_OBJ := Obj(map[])
  const EMPTY_LIST := List([])

  /** `value.get(key)` on a dict: an absent key reads as null. */
  function Get(j: Json, key: string): Json {
    if j.Obj? && key in j.fields then j.fields[key] else Null
  }

  predicate Truthy(j: Json) {
    match j
    case Null => false
    case Bool(b) => b
    case Int(i) => i != 0
    case Float(r) => r != 0.0
    case Str(s) => s != ""
    case List(items) => items != []
    case Obj(m) => m != map[]
  }

  /** `first or second`. */
  function Or(first: Json, second: Json): Json {
    if Truthy(first) then first else second
  }

  /** `str(value)`. Floats and containers get a stand-in text: no id or label relies on theirs. */
  function PyStr(j: Json): string {
    match j
    case Null => "None"
    case Bool(b) => if b then "True" else "False"
    case Str(s) => s
    case Int(i) => if i >= 0 then Decimal(i) else "-" + Decimal(-i)
    case Float(_) => "<float>"
    case List(_) => "<list>"
    case Obj(_) => "<dict>"
  }

  // ---- nesting depth, the measure of every recursion that walks two values at once ----

  function MaxOf(s: set<nat>): (m: nat)
    ensures forall x | x in s :: x <= m
    decreases |s|
  {
    if s == {} then 0 else
      assert exists x :: x in s && forall y | y in s :: y <= x by { MaxExists(s); }
      var x :| x in s && forall y | y in s :: y <= x;
      x
  }

  lemma {:induction false} MaxExists(s: set<nat>)
    requires s != {}
    ensures exists x :: x in s && forall y | y in s :: y <= x
  {
    var x :| x in s;
    if s != {x} {
      var rest := s - {x};
      MaxExists(rest);
      var y :| y in rest && forall z | z in rest :: z <= y;
      var m := if x <= y then y else x;
      forall z | z in s ensures z <= m { assert z == x || z in rest; }
      assert m in s;
    }
  }

  ghost function Height(j: Json): (h: nat)
    ensures j.List? ==> forall i | 0 <= i < |j.items| :: Height(j.items[i]) < h
    ensures j.Obj? ==> forall k | k in j.fields :: Height(j.fields[k]) < h
    ensures j.List? || j.Obj? ==> h > 0
  {
    match j
    case List(items) =>
      var below := set i | 0 <= i < |items| :: Height(items[i]);
      assert forall i | 0 <= i < |items| :: Height(items[i]) in below;
      1 + MaxOf(below)
    case Obj(m) =>
      var below := set k | k in m :: Height(m[k]);
      assert forall k | k in m :: Height(m[k]) in below;
      1 + MaxOf(below)
    case _ => 0
  }

  lemma GetIsLower(j: Json, key: string)
    requires j.Obj?
    ensures Height(Get(j, key)) < Height(j)
  {}

  /** `items[index] if index < len(items) else None`. */
  function At(j: Json, index: nat): Json {
    if j.List? && index < |j.items| then j.items[index] else Null
  }

  lemma AtIsLower(j: Json, index: nat)
    requires j.List?
    ensures Height(At(j, index)) < Height(j)
  {}

  // ---- Python equality --------------------------------------------------------------

  /** `first == second` in Python: containers by content, 1 is 1.0, and True is 1. */
  predicate PyEq(a: Json, b: Json) {
    match a
    case Null => b.Null?
    case Str(s) => b == a
    case Bool(_) => Scalar(a) == Scalar(b)
    case Int(_) => Scalar(a) == Scalar(b)
    case Float(_) => Scalar(a) == Scalar(b)
    case List(xs) => b.List? && |xs| == |b.items| && forall i | 0 <= i < |xs| :: PyEq(xs[i], b.items[i])
    case Obj(m) => b.Obj? && m.Keys == b.fields.Keys && forall k | k in m :: PyEq(m[k], b.fields[k])
  }

  function Scalar(j: Json): Option<real> {
    match j
    case Bool(b) => Some(if b then 1.0 else 0.0)
    case Int(i) => Some(i as real)
    case Float(r) => Some(r)
    case _ => None
  }

  /** A value with its booleans and integers read as floats. */
  function Canon(j: Json): Json {
    match j
    case Bool(b) => Float(if b then 1.0 else 0.0)
    case Int(i) => Float(i as real)
    case List(items) => List(seq(|items|, i requires 0 <= i < |items| => Canon(items[i])))
    case Obj(m) => Obj(map k | k in m :: Canon(m[k]))
    case _ => j
  }

  lemma CanonOfLists(a: Json, b: Json)
    requires a.List? && b.List?
    ensures Canon(a) == Canon(b) <==>
            |a.items| == |b.items| && forall i | 0 <= i < |a.items| :: Canon(a.items[i]) == Canon(b.items[i])
  {
    assert |Canon(a).items| == |a.items| && |Canon(b).items| == |b.items|;
    assert forall i | 0 <= i < |a.items| :: Canon(a).items[i] == Canon(a.items[i]);
    assert forall i | 0 <= i < |b.items| :: Canon(b).items[i] == Canon(b.items[i]);
  }

  lemma CanonOfDicts(a: Json, b: Json)
    requires a.Obj? && b.Obj?
    ensures Canon(a) == Canon(b) <==>
            a.fields.Keys == b.fields.Keys && forall k | k in a.fields :: Canon(a.fields[k]) == Canon(b.fields[k])
  {
    CanonOfDict(a);
    CanonOfDict(b);
    hide Canon;
    if a.fields.Keys == b.fields.Keys && forall k | k in a.fields :: Canon(a.fields[k]) == Canon(b.fields[k]) {
      assert Canon(a).fields == Canon(b).fields;
    }
  }

  lemma CanonOfDict(a: Json)
    requires a.Obj?
    ensures Canon(a).Obj? && Canon(a).fields.Keys == a.fields.Keys
    ensures forall k | k in a.fields :: Canon(a).fields[k] == Canon(a.fields[k])
  {}

  /** Python's equality is equality of canonical forms, hence an equivalence. */
  lemma {:induction false} PyEqIsCanonEq(a: Json, b: Json)
    ensures PyEq(a, b) <==> Canon(a) == Canon(b)
  {
    if a.List? && b.List? {
      hide Canon;
      CanonOfLists(a, b);
      forall i | 0 <= i < |a.items| == |b.items|
        ensures PyEq(a.items[i], b.items[i]) <==> Canon(a.items[i]) == Canon(b.items[i])
      {
        PyEqIsCanonEq(a.items[i], b.items[i]);
      }
    } else if a.Obj? && b.Obj? {
      hide Canon;
      CanonOfDicts(a, b);
      forall k | k in a.fields && k in b.fields
        ensures PyEq(a.fields[k], b.fields[k]) <==> Canon(a.fields[k]) == Canon(b.fields[k])
      {
        PyEqIsCanonEq(a.fields[k], b.fields[k]);
      }
    }
  }

  lemma DictsEqual(a: Json, b: Json)
    requires a.Obj? && b.Obj? && a.fields.Keys == b.fields.Keys
    requires forall k | k in a.fields :: PyEq(a.fields[k], b.fields[k])
    ensures PyEq(a, b)
  {}

  lemma PyEqReflexive(a: Json)
    ensures PyEq(a, a)
  {
    PyEqIsCanonEq(a, a);
  }

  lemma PyEqSymmetric(a: Json, b: Json)
    ensures PyEq(a, b) <==> PyEq(b, a)
  {
    PyEqIsCanonEq(a, b);
    PyEqIsCanonEq(b, a);
  }

  // ---- numbers written as strings ---------------------------------------------------

  // CPython refuses to convert longer runs of digits to int with a ValueError.
  const INT_MAX_STR_DIGITS := 4300

  predicate IsSpace(c: char) {
    c in {'\t', '\n', '\r', ' '} || '\U{0B}' <= c <= '\U{0C}' || '\U{1C}' <= c <= '\U{1F}' ||
    c in {'\U{85}', '\U{A0}', '\U{1680}', '\U{2028}', '\U{2029}', '\U{202F}', '\U{205F}', '\U{3000}'} ||
    '\U{2000}' <= c <= '\U{200A}'
  }

  function Strip(s: string): string {
    if s != "" && IsSpace(s[0]) then Strip(s[1..])
    else if s != "" && IsSpace(s[|s| - 1]) then Strip(s[..|s| - 1])
    else s
  }

  lemma {:induction false} StripIdempotent(s: string)
    ensures Strip(Strip(s)) == Strip(s)
  {
    if s != "" && IsSpace(s[0]) {
      StripIdempotent(s[1..]);
    } else if s != "" && IsSpace(s[|s| - 1]) {
      StripIdempotent(s[..|s| - 1]);
    }
  }

  function PowerOfTen(n: nat): (r: real)
    ensures r > 0.0
  {
    if n == 0 then 1.0 else 10.0 * PowerOfTen(n - 1)
  }

  function IndexOf(c: char, s: string): (i: nat)
    ensures i <= |s| && (i < |s| ==> s[i] == c)
  {
    if s == "" || s[0] == c then 0 else 1 + IndexOf(c, s[1..])
  }

  function DecimalFraction(whole: string, fraction: string): real
    requires AllDigits(whole + fraction)
  {
    NatOf(whole + fraction) as real / PowerOfTen(|fraction|)
  }

  /** The number a numeral `-?\d+` or `-?\d+\.\d+` stands for; `t` is the part after the sign. */
  function UnsignedNumeral(t: string, negative: bool): Option<Json> {
    var dot := IndexOf('.', t);
    if t != "" && AllDigits(t) then
      if |t| > INT_MAX_STR_DIGITS then None else
        var n: int := NatOf(t);
        Some(Int(if negative then -n else n))
    else if 0 < dot < |t| - 1 && AllDigits(t[..dot]) && AllDigits(t[dot + 1..]) then
      var r := DecimalFraction(t[..dot], t[dot + 1..]);
      Some(Float(if negative then -r else r))
    else None
  }

  /** What `_sync_number` reads a string as, if it reads it as a number at all. */
  function Numeral(s: string): (n: Option<Json>)
    ensures n.Some? ==> n.value.Int? || n.value.Float?
  {
    var t := Strip(s);
    if t != "" && t[0] == '-' then UnsignedNumeral(t[1..], true) else UnsignedNumeral(t, false)
  }

  function SyncNumber(j: Json): Json {
    if j.Str? && Numeral(j.s).Some? then Numeral(j.s).value else j
  }

  // ---- pruning ----------------------------------------------------------------------

  /** `value in (None, "", [], {})`. */
  predicate Empty(j: Json) {
    j in {Null, Str(""), EMPTY_LIST, EMPTY_OBJ}
  }

  /** `_sync_prune_empty`: drops nested empty values, reads numerals as numbers. */
  function Prune(j: Json): Json
    decreases j, 1
  {
    match j
    case Obj(m) => Obj(map k | k in m && !Empty(Prune(m[k])) :: Prune(m[k]))
    case List(items) => List(PruneItems(items))
    case _ => if Empty(j) then Null else SyncNumber(j)
  }

  function PruneItems(items: seq<Json>): seq<Json>
    decreases items, 0
  {
    if items == [] then [] else
      (if Empty(Prune(items[0])) then [] else [Prune(items[0])]) + PruneItems(items[1..])
  }

  /** No empty value anywhere below the top. */
  ghost predicate Clean(j: Json) {
    match j
    case List(items) => forall i | 0 <= i < |items| :: Clean(items[i]) && !Empty(items[i])
    case Obj(m) => forall k | k in m :: Clean(m[k]) && !Empty(m[k])
    case _ => true
  }

  /** No number left written as a string. */
  ghost predicate NumbersRead(j: Json) {
    match j
    case Str(s) => Numeral(s).None?
    case List(items) => forall i | 0 <= i < |items| :: NumbersRead(items[i])
    case Obj(m) => forall k | k in m :: NumbersRead(m[k])
    case _ => true
  }

  lemma {:induction false} PruneCleans(j: Json)
    ensures Clean(Prune(j)) && NumbersRead(Prune(j)) && Prune(j) != Str("")
    decreases j, 1
  {
    match j {
      case Obj(m) => forall k | k in m ensures Clean(Prune(m[k])) && NumbersRead(Prune(m[k])) { PruneCleans(m[k]); }
      case List(items) => PruneItemsCleans(items);
      case _ =>
    }
  }

  lemma {:induction false} PruneItemsCleans(items: seq<Json>)
    ensures Clean(List(PruneItems(items))) && NumbersRead(List(PruneItems(items)))
    decreases items, 0
  {
    if items != [] {
      PruneCleans(items[0]);
      PruneItemsCleans(items[1..]);
    }
  }

  /** Pruning changes nothing exactly when there is nothing to prune. */
  lemma {:induction false} PruneFixes(j: Json)
    ensures Prune(j) == j <==> Clean(j) && NumbersRead(j) && j != Str("")
    decreases j, 1
  {
    PruneCleans(j);
    if Clean(j) && NumbersRead(j) && j != Str("") {
      match j {
        case Obj(m) =>
          forall k | k in m ensures Prune(m[k]) == m[k] { PruneFixes(m[k]); }
          assert Prune(j).fields == m;
        case List(items) => PruneItemsFixes(items);
        case _ =>
      }
    }
  }

  lemma {:induction false} PruneItemsFixes(items: seq<Json>)
    requires Clean(List(items)) && NumbersRead(List(items))
    ensures PruneItems(items) == items
    decreases items, 0
  {
    if items != [] {
      PruneFixes(items[0]);
      assert forall i | 0 <= i < |items[1..]| :: items[1..][i] == items[i + 1];
      PruneItemsFixes(items[1..]);
    }
  }

  lemma PruneIdempotent(j: Json)
    ensures Prune(Prune(j)) == Prune(j)
  {
    PruneCleans(j);
    PruneFixes(Prune(j));
  }

  /** Made of nothing but nulls, empty strings and empty containers. */
  ghost predicate Blank(j: Json) {
    match j
    case Null => true
    case Str(s) => s == ""
    case List(items) => forall i | 0 <= i < |items| :: Blank(items[i])
    case Obj(m) => forall k | k in m :: Blank(m[k])
    case _ => false
  }

  /** Pruning leaves nothing exactly of the blank values. */
  lemma {:induction false} PruneEmptyIffBlank(j: Json)
    ensures Empty(Prune(j)) <==> Blank(j)
    decreases j, 1
  {
    match j {
      case Obj(m) =>
        forall k | k in m ensures Empty(Prune(m[k])) <==> Blank(m[k]) { PruneEmptyIffBlank(m[k]); }
        if k :| k in m && !Blank(m[k]) {
          assert k in Prune(j).fields;
        } else {
          assert Prune(j).fields == map[];
        }
      case List(items) => PruneItemsEmptyIffBlank(items);
      case _ =>
    }
  }

  lemma {:induction false} PruneItemsEmptyIffBlank(items: seq<Json>)
    ensures PruneItems(items) == [] <==> forall i | 0 <= i < |items| :: Blank(items[i])
    decreases items, 0
  {
    if items != [] {
      PruneEmptyIffBlank(items[0]);
      PruneItemsEmptyIffBlank(items[1..]);
      assert forall i | 1 <= i < |items| :: items[i] == items[1..][i - 1];
    }
  }

  /** What is left of a dict entry after pruning the dict. */
  function Remainder(j: Json): Json {
    if Empty(Prune(j)) then Null else Prune(j)
  }

  /** Entry by entry, what pruning a dict keeps. */
  lemma PrunedEntry(m: map<string, Json>, key: string)
    ensures Get(Prune(Obj(m)), key) == Remainder(Get(Obj(m), key))
  {}

  /** Key by key, what pruning a dict keeps. */
  lemma PrunedKeys(m: map<string, Json>)
    ensures Prune(Obj(m)).Obj?
    ensures forall k :: k in Prune(Obj(m)).fields <==> k in m && !Empty(Prune(m[k]))
    ensures forall k | k in Prune(Obj(m)).fields :: Prune(Obj(m)).fields[k] == Remainder(m[k]) && !Remainder(m[k]).Null?
  {
    forall k | k in m ensures Prune(m[k]) != Str("") { PruneCleans(m[k]); }
  }

  /** Key by key and item by item: of a dict and of a list pruning drops exactly what is blank, and
      prunes the rest where it stands. */
  lemma PruneDropsTheBlank(m: map<string, Json>, a: seq<Json>, item: Json, b: seq<Json>)
    ensures Prune(Obj(m)).Obj? && forall k :: k in Prune(Obj(m)).fields <==> k in m && !Blank(m[k])
    ensures forall k | k in Prune(Obj(m)).fields :: Prune(Obj(m)).fields[k] == Prune(m[k])
    ensures Prune(List(a + [item] + b)) ==
            List(Prune(List(a)).items + (if Blank(item) then [] else [Prune(item)]) + Prune(List(b)).items)
  {
    PrunedKeys(m);
    forall k | k in m ensures Empty(Prune(m[k])) <==> Blank(m[k]) {
      PruneEmptyIffBlank(m[k]);
    }
    PruneEmptyIffBlank(item);
    PruneItemsConcat(a + [item], b);
    PruneItemsConcat(a, [item]);
    assert [item][1..] == [];
    hide Blank;
  }

  lemma {:induction false} PruneItemsConcat(a: seq<Json>, b: seq<Json>)
    ensures PruneItems(a + b) == PruneItems(a) + PruneItems(b)
  {
    hide Prune;
    if a == [] {
      assert a + b == b;
    } else {
      PruneItemsConcat(a[1..], b);
      assert (a + b)[1..] == a[1..] + b && (a + b)[0] == a[0];
    }
  }

  // ---- what counts of a value once it is pruned ---------------------------------------

  /** Equal once pruned, or nothing is left of either. */
  ghost predicate KeptAlike(x: Json, y: Json) {
    PyEq(Prune(x), Prune(y)) || (Blank(x) && Blank(y))
  }

  lemma NullRemainder()
    ensures Remainder(Null) == Null
  {}

  lemma RemaindersAlike(x: Json, y: Json)
    ensures PyEq(Remainder(x), Remainder(y)) <==> KeptAlike(x, y)
  {
    PruneEmptyIffBlank(x);
    PruneEmptyIffBlank(y);
    PruneCleans(x);
    PruneCleans(y);
    hide Prune, Blank;
    PyEqReflexive(Null);
    if Empty(Prune(x)) != Empty(Prune(y)) {
      EmptyAlone(Prune(x), Prune(y));
    }
    hide PyEq;
  }

  lemma EmptyAlone(x: Json, y: Json)
    requires Empty(x) != Empty(y)
    ensures !PyEq(x, y)
    ensures !PyEq(if Empty(x) then Null else x, if Empty(y) then Null else y)
  {
    assert x.Obj? ==> (x.fields == map[] <==> x.fields.Keys == {});
    assert y.Obj? ==> (y.fields == map[] <==> y.fields.Keys == {});
  }

  lemma EqualIffEntries(x: Json, y: Json)
    requires x.Obj? && y.Obj?
    ensures PyEq(x, y) <==> x.fields.Keys == y.fields.Keys && forall k | k in x.fields :: PyEq(x.fields[k], y.fields[k])
  {}
}
