/** Canonical JSON (section 3.2 of RFC 8785): normalising a JavaScript value and rendering it. Strings are
    sequences of UTF-16 code units, and a finite number is represented by its JSON text. */
module Jcs {
  import opened Order
  import opened Results

  type Unit = u: int | 0 <= u < 0x10000
  type Str = seq<Unit>

  const QUOTE: Unit := 34
  const BACKSLASH: Unit := 92
  const COMMA: Unit := 44
  const COLON: Unit := 58
  const OPEN_BRACKET: Unit := 91
  const CLOSE_BRACKET: Unit := 93
  const OPEN_BRACE: Unit := 123
  const CLOSE_BRACE: Unit := 125
  const NULL_TEXT: Str := [110, 117, 108, 108]
  const TRUE_TEXT: Str := [116, 114, 117, 101]
  const FALSE_TEXT: Str := [102, 97, 108, 115, 101]
  const ZERO_TEXT: Str := [48]

  predicate UnitLt(a: Unit, b: Unit) { a < b }

  predicate StrLt(a: Str, b: Str) { Lex(UnitLt, a, b) }

  predicate StrLe(a: Str, b: Str) { a == b || StrLt(a, b) }

  lemma StrTotal()
    ensures StrictTotal(StrLt)
  {
    LexStrictTotal(UnitLt);
  }

  predicate Digit(u: Unit) { 48 <= u <= 57 }

  /** The characters of a JSON number: digits, sign, point and exponent. */
  predicate NumUnit(u: Unit) { Digit(u) || u == 45 || u == 43 || u == 46 || u == 69 || u == 101 }

  predicate NumText(t: Str) { |t| > 0 && (Digit(t[0]) || t[0] == 45) && forall i | 0 <= i < |t| :: NumUnit(t[i]) }

  type NumberText = t: Str | NumText(t) witness [48]

  // ---------- values ----------

  datatype Num = Finite(text: NumberText) | NegativeZero | NotFinite

  /** What a caller may pass. An object lists its own keys in insertion order. */
  datatype Raw =
    | RNull | RBool(b: bool) | RNum(n: Num) | RStr(s: Str)
    | RArray(items: seq<RawElem>)
    | RObject(plain: bool, order: seq<Str>, values: map<Str, Raw>)
    | RUndefined
    | ROther

  /** An array position may be a hole, which `map` skips. */
  datatype RawElem = RHole | RItem(raw: Raw)

  datatype Json =
    | JNull | JBool(b: bool) | JNum(text: NumberText) | JStr(s: Str)
    | JArr(items: seq<Elem>)
    | JObj(values: map<Str, Json>)

  datatype Elem = Hole | Item(json: Json)

  datatype JcsError = LoneSurrogate | NonFinite | NonPlain | UndefinedMember | Unsupported

  predicate High(u: Unit) { 0xd800 <= u <= 0xdbff }

  predicate Low(u: Unit) { 0xdc00 <= u <= 0xdfff }

  /** Every surrogate is half of a pair. */
  predicate ValidUnicode(s: Str) {
    forall i | 0 <= i < |s| :: PairedAt(s, i)
  }

  predicate PairedAt(s: Str, i: nat)
    requires i < |s|
  {
    (High(s[i]) ==> i + 1 < |s| && Low(s[i + 1])) && (Low(s[i]) ==> i > 0 && High(s[i - 1]))
  }

  /** Object.keys lists every key once. */
  ghost predicate Proper(v: Raw)
    decreases v
  {
    match v
    case RArray(items) => forall i | 0 <= i < |items| && items[i].RItem? :: Proper(items[i].raw)
    case RObject(_, order, values) =>
      && (forall k :: k in order <==> k in values)
      && (forall i, j | 0 <= i < j < |order| :: order[i] != order[j])
      && (forall k | k in values :: Proper(values[k]))
    case _ => true
  }

  function SortedKeys(keys: set<Str>): (r: seq<Str>)
    ensures forall k :: k in r <==> k in keys
  {
    assert StrictTotal(StrLt) by { StrTotal(); }
    Ascending(StrLt, keys)
  }

  // ---------- normalising ----------

  /** The normal form: surrogates paired, -0 turned to 0, undefined members dropped when asked for. */
  function Normalized(v: Raw, omit: bool): Result<Json, JcsError>
    decreases v, 1, 0
  {
    match v
    case RNull => Ok(JNull)
    case RBool(b) => Ok(JBool(b))
    case RNum(NotFinite) => Err(NonFinite)
    case RNum(NegativeZero) => Ok(JNum(ZERO_TEXT))
    case RNum(Finite(text)) => Ok(JNum(text))
    case RStr(s) => if ValidUnicode(s) then Ok(JStr(s)) else Err(LoneSurrogate)
    case RArray(items) =>
      var r := NormalizedItems(v, omit, |items|);
      if r.Ok? then Ok(JArr(r.value)) else Err(r.error)
    case RObject(plain, _, values) =>
      if !plain then Err(NonPlain)
      else
        var r := NormalizedMembers(v, omit, SortedKeys(values.Keys), |SortedKeys(values.Keys)|);
        if r.Ok? then Ok(JObj(r.value)) else Err(r.error)
    case RUndefined => Err(Unsupported)
    case ROther => Err(Unsupported)
  }

  /** The first `n` positions, or the first error among them. */
  function NormalizedItems(v: Raw, omit: bool, n: nat): Result<seq<Elem>, JcsError>
    requires v.RArray? && n <= |v.items|
    decreases v, 0, n
  {
    if n == 0 then Ok([])
    else
      var before := NormalizedItems(v, omit, n - 1);
      if before.Err? then before
      else match v.items[n - 1]
        case RHole => Ok(before.value + [Hole])
        case RItem(raw) =>
          var json := Normalized(raw, omit);
          if json.Ok? then Ok(before.value + [Item(json.value)]) else Err(json.error)
  }

  /** The members under the first `n` keys. */
  function NormalizedMembers(v: Raw, omit: bool, keys: seq<Str>, n: nat): Result<map<Str, Json>, JcsError>
    requires v.RObject? && n <= |keys| && forall k | k in keys :: k in v.values
    decreases v, 0, n
  {
    if n == 0 then Ok(map[])
    else
      var before := NormalizedMembers(v, omit, keys, n - 1);
      var key := keys[n - 1];
      if before.Err? then before
      else match NormalizedMember(v, omit, key)
        case Err(e) => Err(e)
        case Ok(None) => before
        case Ok(Some(json)) => Ok(before.value[key := json])
  }

  /** The member under `key`; None when it is dropped. */
  function NormalizedMember(v: Raw, omit: bool, key: Str): Result<Option<Json>, JcsError>
    requires v.RObject? && key in v.values
    decreases v, 0, 0
  {
    if !ValidUnicode(key) then Err(LoneSurrogate)
    else if v.values[key].RUndefined? then (if omit then Ok(None) else Err(UndefinedMember))
    else
      var json := Normalized(v.values[key], omit);
      if json.Ok? then Ok(Some(json.value)) else Err(json.error)
  }

  /** The scan for lone surrogates, which steps over pairs. */
  method AssertValidUnicode(s: Str) returns (ok: bool)
    ensures ok <==> ValidUnicode(s)
  {
    var index := 0;
    while index < |s|
      invariant 0 <= index <= |s|
      invariant forall i | 0 <= i < index :: PairedAt(s, i)
      invariant index > 0 ==> !High(s[index - 1])
    {
      if High(s[index]) {
        if index + 1 >= |s| || !Low(s[index + 1]) {
          assert !PairedAt(s, index);
          return false;
        }
        index := index + 1;
      } else if Low(s[index]) {
        assert !PairedAt(s, index);
        return false;
      }
      index := index + 1;
    }
    ok := true;
  }

  /** `Object.keys(value).sort()` depends on the keys only. */
  lemma SortedOrder(order: seq<Str>, keys: set<Str>)
    requires (forall k :: k in order <==> k in keys) && forall i, j | 0 <= i < j < |order| :: order[i] != order[j]
    ensures SortBy(StrLe, order) == SortedKeys(keys)
  {
    hide StrLt;
    StrTotal();
    var sorted := SortBy(StrLe, order);
    assert TotalPreorder(StrLe) by { StrLePreorder(); }
    SortBySorted(StrLe, order);
    SameMembers(order, sorted);
    DistinctReordered(order, sorted);
    AscendingUnique(StrLt, keys, sorted);
  }

  lemma StrLePreorder()
    ensures TotalPreorder(StrLe)
  {
    hide StrLt;
    StrTotal();
    forall x, y ensures StrLe(x, y) || StrLe(y, x) { TotalAt(StrLt, x, y, y); }
    forall x, y, z | StrLe(x, y) && StrLe(y, z) ensures StrLe(x, z) { TotalAt(StrLt, x, y, z); }
  }

  /** `normalize`. */
  method Normalize(v: Raw, omit: bool) returns (r: Result<Json, JcsError>)
    requires Proper(v)
    ensures r == Normalized(v, omit)
    decreases v, 1
  {
    match v
    case RNull => r := Ok(JNull);
    case RBool(b) => r := Ok(JBool(b));
    case RNum(n) =>
      match n {
        case NotFinite => r := Err(NonFinite);
        case NegativeZero => r := Ok(JNum(ZERO_TEXT));
        case Finite(text) => r := Ok(JNum(text));
      }
    case RStr(s) =>
      var ok := AssertValidUnicode(s);
      r := if ok then Ok(JStr(s)) else Err(LoneSurrogate);
    case RArray(_) =>
      var items := NormalizeItems(v, omit);
      r := if items.Ok? then Ok(JArr(items.value)) else Err(items.error);
    case RObject(plain, _, _) =>
      if !plain { return Err(NonPlain); }
      var members := NormalizeMembers(v, omit);
      r := if members.Ok? then Ok(JObj(members.value)) else Err(members.error);
    case RUndefined => r := Err(Unsupported);
    case ROther => r := Err(Unsupported);
  }

  /** `value.map(...)`: holes stay holes. */
  method NormalizeItems(v: Raw, omit: bool) returns (r: Result<seq<Elem>, JcsError>)
    requires Proper(v) && v.RArray?
    ensures r == NormalizedItems(v, omit, |v.items|)
    decreases v, 0
  {
    hide Normalized;
    var output: seq<Elem> := [];
    for i := 0 to |v.items|
      invariant NormalizedItems(v, omit, i) == Ok(output)
    {
      match v.items[i] {
        case RHole => output := output + [Hole];
        case RItem(raw) =>
          var item := Normalize(raw, omit);
          if item.Err? {
            ItemErrorStays(v, omit, i + 1, |v.items|);
            return Err(item.error);
          }
          output := output + [Item(item.value)];
      }
    }
    r := Ok(output);
  }

  /** The loop over the sorted keys that fills the output object. */
  method NormalizeMembers(v: Raw, omit: bool) returns (r: Result<map<Str, Json>, JcsError>)
    requires Proper(v) && v.RObject?
    ensures r == NormalizedMembers(v, omit, SortedKeys(v.values.Keys), |SortedKeys(v.values.Keys)|)
    decreases v, 0, 1
  {
    hide *;
    var keys := SortBy(StrLe, v.order);
    OwnKeys(v);
    var output: map<Str, Json> := map[];
    NoMembers(v, omit, keys);
    for i := 0 to |keys|
      invariant NormalizedMembers(v, omit, keys, i) == Ok(output)
    {
      assert keys[i] in keys;
      MembersNext(v, omit, keys, i);
      var member := NormalizeMember(v, omit, keys[i]);
      if member.Err? {
        MemberErrorStays(v, omit, keys, i + 1, |keys|);
        return Err(member.error);
      }
      if member.value.Some? { output := output[keys[i] := member.value.value]; }
    }
    r := Ok(output);
  }

  lemma OwnKeys(v: Raw)
    requires Proper(v) && v.RObject?
    ensures SortBy(StrLe, v.order) == SortedKeys(v.values.Keys)
    ensures forall k | k in SortBy(StrLe, v.order) :: k in v.values
  {
    SortedOrder(v.order, v.values.Keys);
  }

  lemma NoMembers(v: Raw, omit: bool, keys: seq<Str>)
    requires v.RObject? && forall k | k in keys :: k in v.values
    ensures NormalizedMembers(v, omit, keys, 0) == Ok(map[])
  {}

  lemma MembersNext(v: Raw, omit: bool, keys: seq<Str>, i: nat)
    requires v.RObject? && i < |keys| && (forall k | k in keys :: k in v.values) && NormalizedMembers(v, omit, keys, i).Ok?
    ensures NormalizedMembers(v, omit, keys, i + 1) ==
            match NormalizedMember(v, omit, keys[i])
            case Err(e) => Err(e)
            case Ok(None) => NormalizedMembers(v, omit, keys, i)
            case Ok(Some(json)) => Ok(NormalizedMembers(v, omit, keys, i).value[keys[i] := json])
  {}

  method NormalizeMember(v: Raw, omit: bool, key: Str) returns (r: Result<Option<Json>, JcsError>)
    requires Proper(v) && v.RObject? && key in v.values
    ensures r == NormalizedMember(v, omit, key)
    decreases v, 0, 0
  {
    var ok := AssertValidUnicode(key);
    if !ok { return Err(LoneSurrogate); }
    var child := v.values[key];
    if child.RUndefined? { return if omit then Ok(None) else Err(UndefinedMember); }
    var json := Normalize(child, omit);
    r := if json.Ok? then Ok(Some(json.value)) else Err(json.error);
  }

  lemma {:induction false} ItemErrorStays(v: Raw, omit: bool, n: nat, m: nat)
    requires v.RArray? && n <= m <= |v.items| && NormalizedItems(v, omit, n).Err?
    ensures NormalizedItems(v, omit, m) == NormalizedItems(v, omit, n)
  {
    if n < m { ItemErrorStays(v, omit, n, m - 1); }
  }

  lemma {:induction false} MemberErrorStays(v: Raw, omit: bool, keys: seq<Str>, n: nat, m: nat)
    requires v.RObject? && n <= m <= |keys| && (forall k | k in keys :: k in v.values) && NormalizedMembers(v, omit, keys, n).Err?
    ensures NormalizedMembers(v, omit, keys, m) == NormalizedMembers(v, omit, keys, n)
  {
    if n < m { MemberErrorStays(v, omit, keys, n, m - 1); }
  }
}
