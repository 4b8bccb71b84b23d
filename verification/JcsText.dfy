/** Rendering the normal form, reading the text back, and what the text therefore stands for. */
module JcsText {
  import opened Order
  import opened Results
  import opened Jcs

  // ---------- strings ----------

  function HexDigit(h: int): Unit
    requires 0 <= h < 16
  {
    if h < 10 then 48 + h else 87 + h
  }

  function UnHex(u: Unit): Option<int> {
    if Digit(u) then Some(u - 48) else if 97 <= u <= 102 then Some(u - 87) else None
  }

  /** JSON.stringify of one code unit inside a string. */
  function Escape(u: Unit): Str {
    if u == QUOTE || u == BACKSLASH then [BACKSLASH, u]
    else if u == 8 then [BACKSLASH, 98]
    else if u == 9 then [BACKSLASH, 116]
    else if u == 10 then [BACKSLASH, 110]
    else if u == 12 then [BACKSLASH, 102]
    else if u == 13 then [BACKSLASH, 114]
    else if u < 32 then [BACKSLASH, 117, 48, 48, HexDigit(u / 16), HexDigit(u % 16)]
    else [u]
  }

  function EscapeAll(s: Str): Str {
    if |s| == 0 then [] else Escape(s[0]) + EscapeAll(s[1..])
  }

  function Quote(s: Str): Str { [QUOTE] + EscapeAll(s) + [QUOTE] }

  /** The code unit an escape stands for, with what follows it. */
  function ReadEscape(t: Str): Option<(Unit, Str)> {
    if |t| == 0 then None
    else if t[0] == QUOTE || t[0] == BACKSLASH || t[0] == 47 then Some((t[0], t[1..]))
    else if t[0] == 98 then Some((8, t[1..]))
    else if t[0] == 116 then Some((9, t[1..]))
    else if t[0] == 110 then Some((10, t[1..]))
    else if t[0] == 102 then Some((12, t[1..]))
    else if t[0] == 114 then Some((13, t[1..]))
    else if t[0] == 117 && |t| >= 5 && UnHex(t[1]).Some? && UnHex(t[2]).Some? && UnHex(t[3]).Some? && UnHex(t[4]).Some? then
      Some((((UnHex(t[1]).value * 16 + UnHex(t[2]).value) * 16 + UnHex(t[3]).value) * 16 + UnHex(t[4]).value, t[5..]))
    else None
  }

  /** The string up to the closing quote, with what follows it. */
  function ReadString(t: Str): (r: Option<(Str, Str)>)
    ensures r.Some? ==> |r.value.1| < |t|
  {
    if |t| == 0 then None
    else if t[0] == QUOTE then Some(([], t[1..]))
    else if t[0] == BACKSLASH then
      var e := ReadEscape(t[1..]);
      if e.None? then None
      else
        var rest := ReadString(e.value.1);
        if rest.None? then None else Some(([e.value.0] + rest.value.0, rest.value.1))
    else if t[0] < 32 then None
    else
      var rest := ReadString(t[1..]);
      if rest.None? then None else Some(([t[0]] + rest.value.0, rest.value.1))
  }

  lemma ReadBack(u: Unit, rest: Str)
    ensures Escape(u)[0] == BACKSLASH ==> ReadEscape((Escape(u) + rest)[1..]) == Some((u, rest))
    ensures Escape(u)[0] != BACKSLASH ==> Escape(u) == [u] && u != QUOTE && u >= 32
  {}

  lemma OneUnit(u: Unit, tail: Str, s: Str, rest: Str)
    requires ReadString(tail) == Some((s, rest))
    ensures ReadString(Escape(u) + tail) == Some(([u] + s, rest))
  {
    ReadBack(u, tail);
    hide ReadEscape;
    if Escape(u)[0] != BACKSLASH { assert (Escape(u) + tail)[1..] == tail; }
  }

  lemma Regroup(a: Str, b: Str, c: Str, d: Str)
    ensures a + b + c + d == a + (b + c + d)
  {}

  lemma {:induction false} StringReadBack(s: Str, rest: Str)
    ensures ReadString(EscapeAll(s) + [QUOTE] + rest) == Some((s, rest))
  {
    var t := EscapeAll(s) + [QUOTE] + rest;
    if |s| == 0 {
      assert t == [QUOTE] + rest;
    } else {
      hide ReadString, Escape;
      var tail := EscapeAll(s[1..]) + [QUOTE] + rest;
      assert EscapeAll(s) == Escape(s[0]) + EscapeAll(s[1..]);
      Regroup(Escape(s[0]), EscapeAll(s[1..]), [QUOTE], rest);
      hide EscapeAll;
      StringReadBack(s[1..], rest);
      OneUnit(s[0], tail, s[1..], rest);
      assert s == [s[0]] + s[1..];
    }
  }

  // ---------- rendering ----------

  /** `render`. */
  function Render(v: Json): Str
    decreases v, 1, 0
  {
    match v
    case JNull => NULL_TEXT
    case JBool(b) => if b then TRUE_TEXT else FALSE_TEXT
    case JNum(text) => text
    case JStr(s) => Quote(s)
    case JArr(items) => [OPEN_BRACKET] + RenderItems(v, 0) + [CLOSE_BRACKET]
    case JObj(values) => [OPEN_BRACE] + RenderMembers(v, SortedKeys(values.Keys), 0) + [CLOSE_BRACE]
  }

  /** The text of one position; a hole is the empty string. */
  function ItemText(e: Elem): Str
    decreases e, 2, 0
  {
    if e.Hole? then [] else Render(e.json)
  }

  /** The positions from `i` on, joined by commas. */
  function RenderItems(v: Json, i: nat): Str
    requires v.JArr? && i <= |v.items|
    decreases v, 0, |v.items| - i
  {
    if i == |v.items| then []
    else
      var item := ItemText(v.items[i]);
      if i + 1 == |v.items| then item else item + [COMMA] + RenderItems(v, i + 1)
  }

  function RenderMembers(v: Json, keys: seq<Str>, i: nat): Str
    requires v.JObj? && i <= |keys| && forall k | k in keys :: k in v.values
    decreases v, 0, |keys| - i
  {
    if i == |keys| then []
    else
      var member := Quote(keys[i]) + [COLON] + Render(v.values[keys[i]]);
      if i + 1 == |keys| then member else member + [COMMA] + RenderMembers(v, keys, i + 1)
  }

  // ---------- reading ----------

  function NumLength(t: Str): (n: nat)
    ensures n <= |t| && (forall i | 0 <= i < n :: NumUnit(t[i])) && (n < |t| ==> !NumUnit(t[n]))
  {
    if |t| == 0 || !NumUnit(t[0]) then 0 else 1 + NumLength(t[1..])
  }

  // ---------- holes ----------

  /** Which positions of an array are holes. */
  type Shape = seq<bool>

  predicate NoneMissing(shape: Shape) { true !in shape }

  predicate NotOneHole(shape: Shape) { shape != [true] }

  predicate Tellable(shape: Shape) { shape != [true] && shape != [] }

  function ShapeOf(items: seq<Elem>): Shape {
    seq(|items|, i requires 0 <= i < |items| => items[i].Hole?)
  }

  /** Every array, at any depth, has a shape that passes. */
  predicate EachArray(v: Json, ok: Shape -> bool)
    decreases v
  {
    match v
    case JArr(items) => ok(ShapeOf(items)) && forall i | 0 <= i < |items| && items[i].Item? :: EachArray(items[i].json, ok)
    case JObj(values) => forall k | k in values :: EachArray(values[k], ok)
    case _ => true
  }

  /** No hole anywhere. */
  predicate Dense(v: Json) { EachArray(v, NoneMissing) }

  /** No array of a single hole anywhere. */
  predicate NoLoneHole(v: Json) { EachArray(v, NotOneHole) }

  /** Every array of a single hole made the empty array. */
  function Collapse(v: Json): Json
    decreases v
  {
    match v
    case JArr(items) =>
      if ShapeOf(items) == [true] then JArr([])
      else JArr(seq(|items|, i requires 0 <= i < |items| => if items[i].Hole? then Hole else Item(Collapse(items[i].json))))
    case JObj(values) => JObj(map k | k in values :: Collapse(values[k]))
    case _ => v
  }

  /** Every empty array made an array of a single hole. */
  function Fill(v: Json): Json
    decreases v
  {
    match v
    case JArr(items) =>
      if |items| == 0 then JArr([Hole])
      else JArr(seq(|items|, i requires 0 <= i < |items| => if items[i].Hole? then Hole else Item(Fill(items[i].json))))
    case JObj(values) => JObj(map k | k in values :: Fill(values[k]))
    case _ => v
  }

  // ---------- what a text says, in its own order ----------

  /** A JSON text as it is written: the members of an object in text order. */
  datatype Doc =
    | DNull | DBool(b: bool) | DNum(text: NumberText) | DStr(s: Str)
    | DArr(spots: seq<Spot>)
    | DObj(members: seq<Member>)

  datatype Spot = Gap | Filled(doc: Doc)

  datatype Member = Member(name: Str, value: Doc)

  /** The value without the order of its members; of members with the same name the last counts. */
  function Forget(d: Doc): Json
    decreases d, 1
  {
    match d
    case DNull => JNull
    case DBool(b) => JBool(b)
    case DNum(text) => JNum(text)
    case DStr(s) => JStr(s)
    case DArr(spots) => JArr(seq(|spots|, i requires 0 <= i < |spots| => if spots[i].Gap? then Hole else Item(Forget(spots[i].doc))))
    case DObj(members) => JObj(ForgetMembers(d, 0))
  }

  function ForgetMembers(d: Doc, i: nat): map<Str, Json>
    requires d.DObj? && i <= |d.members|
    decreases d, 0, |d.members| - i
  {
    if i == |d.members| then map[]
    else map[d.members[i].name := Forget(d.members[i].value)] + ForgetMembers(d, i + 1)
  }

  /** At the first unit in which the two differ the first has the smaller code; a proper prefix comes first. */
  predicate Before(a: Str, b: Str) {
    exists n | 0 <= n <= |a| && n <= |b| ::
      a[..n] == b[..n] && n < |b| && (n == |a| || a[n] < b[n])
  }

  /** The names of every object, at any depth, strictly ascend in text order. */
  predicate InOrder(d: Doc)
    decreases d
  {
    match d
    case DArr(spots) => forall i | 0 <= i < |spots| && spots[i].Filled? :: InOrder(spots[i].doc)
    case DObj(members) =>
      && (forall i, j | 0 <= i < j < |members| :: Before(members[i].name, members[j].name))
      && (forall i | 0 <= i < |members| :: InOrder(members[i].value))
    case _ => true
  }

  /** What the rendered text says. */
  function DocOf(v: Json): Doc
    decreases v, 1
  {
    match v
    case JNull => DNull
    case JBool(b) => DBool(b)
    case JNum(text) => DNum(text)
    case JStr(s) => DStr(s)
    case JArr(items) => DArr(SpotsOf(v))
    case JObj(values) => DObj(MembersOf(v, SortedKeys(values.Keys)))
  }

  function SpotsOf(v: Json): (r: seq<Spot>)
    requires v.JArr?
    ensures |r| == |v.items|
    decreases v, 0
  {
    seq(|v.items|, i requires 0 <= i < |v.items| => if v.items[i].Hole? then Gap else Filled(DocOf(v.items[i].json)))
  }

  function MembersOf(v: Json, keys: seq<Str>): (r: seq<Member>)
    requires v.JObj? && forall k | k in keys :: k in v.values
    ensures |r| == |keys|
    decreases v, 0
  {
    seq(|keys|, i requires 0 <= i < |keys| => Member(keys[i], DocOf(v.values[keys[i]])))
  }

  /** A reader for compact JSON in which an array position may be left empty, independent of the renderer: a value
      with what follows it. */
  function Read(t: Str): (r: Option<(Doc, Str)>)
    ensures r.Some? ==> |r.value.1| < |t|
    decreases |t|, 1
  {
    if |t| == 0 then None
    else if NULL_TEXT <= t then Some((DNull, t[4..]))
    else if TRUE_TEXT <= t then Some((DBool(true), t[4..]))
    else if FALSE_TEXT <= t then Some((DBool(false), t[5..]))
    else if t[0] == QUOTE then
      var s := ReadString(t[1..]);
      if s.None? then None else Some((DStr(s.value.0), s.value.1))
    else if t[0] == OPEN_BRACKET then
      if |t| > 1 && t[1] == CLOSE_BRACKET then Some((DArr([]), t[2..]))
      else
        var items := ReadItems(t[1..]);
        if items.None? then None else Some((DArr(items.value.0), items.value.1))
    else if t[0] == OPEN_BRACE then
      if |t| > 1 && t[1] == CLOSE_BRACE then Some((DObj([]), t[2..]))
      else
        var members := ReadMembers(t[1..]);
        if members.None? then None else Some((DObj(members.value.0), members.value.1))
    else if NumText(t[..NumLength(t)]) then Some((DNum(t[..NumLength(t)]), t[NumLength(t)..]))
    else None
  }

  /** A position and what follows it: nothing before a comma or the closing bracket is a hole. */
  function ReadItem(t: Str): (r: Option<(Spot, Str)>)
    ensures r.Some? ==> |r.value.1| <= |t|
    decreases |t|, 2
  {
    if |t| > 0 && (t[0] == COMMA || t[0] == CLOSE_BRACKET) then Some((Gap, t))
    else
      var r := Read(t);
      if r.None? then None else Some((Filled(r.value.0), r.value.1))
  }

  function ReadItems(t: Str): (r: Option<(seq<Spot>, Str)>)
    ensures r.Some? ==> |r.value.1| < |t|
    decreases |t|, 3
  {
    var first := ReadItem(t);
    if first.None? || |first.value.1| == 0 then None
    else
      var after := first.value.1;
      if after[0] == CLOSE_BRACKET then Some(([first.value.0], after[1..]))
      else if after[0] == COMMA then
        var rest := ReadItems(after[1..]);
        if rest.None? then None else Some(([first.value.0] + rest.value.0, rest.value.1))
      else None
  }

  function ReadMembers(t: Str): (r: Option<(seq<Member>, Str)>)
    ensures r.Some? ==> |r.value.1| < |t|
    decreases |t|, 2
  {
    if |t| == 0 || t[0] != QUOTE then None
    else
      var key := ReadString(t[1..]);
      if key.None? || |key.value.1| == 0 || key.value.1[0] != COLON then None
      else
        var value := Read(key.value.1[1..]);
        if value.None? || |value.value.1| == 0 then None
        else
          var after := value.value.1;
          var one := [Member(key.value.0, value.value.0)];
          if after[0] == CLOSE_BRACE then Some((one, after[1..]))
          else if after[0] == COMMA then
            var rest := ReadMembers(after[1..]);
            if rest.None? then None else Some((one + rest.value.0, rest.value.1))
          else None
  }

  /** A whole text, member order and all; empty array positions allowed. */
  function ReadAll(t: Str): Option<Doc> {
    var r := Read(t);
    if r.Some? && r.value.1 == [] then Some(r.value.0) else None
  }

  /** The value a whole text stands for. */
  function Decode(t: Str): Option<Json> {
    var doc := ReadAll(t);
    if doc.Some? then Some(Forget(doc.value)) else None
  }

  /** A whole text in which no array position is empty: a JSON text. */
  function DecodeStrict(t: Str): Option<Json> {
    var r := Decode(t);
    if r.Some? && Dense(r.value) then r else None
  }

  // ---------- reading back what was rendered ----------

  /** What follows does not continue a number. */
  predicate Boundary(rest: Str) { |rest| > 0 ==> !NumUnit(rest[0]) }

  lemma {:induction false} NumLengthIs(text: Str, rest: Str)
    requires (forall i | 0 <= i < |text| :: NumUnit(text[i])) && Boundary(rest)
    ensures NumLength(text + rest) == |text|
  {
    if |text| == 0 {
      assert text + rest == rest;
    } else {
      assert (text + rest)[1..] == text[1..] + rest;
      NumLengthIs(text[1..], rest);
    }
  }

  /** The first unit of a rendered value tells what kind it is. */
  lemma Starts(v: Json)
    ensures |Render(v)| > 0
    ensures match v
            case JNull => Render(v)[0] == 110
            case JBool(b) => Render(v)[0] == if b then 116 else 102
            case JNum(text) => Digit(Render(v)[0]) || Render(v)[0] == 45
            case JStr(_) => Render(v)[0] == QUOTE
            case JArr(_) => Render(v)[0] == OPEN_BRACKET
            case JObj(_) => Render(v)[0] == OPEN_BRACE
  {}

  lemma {:induction false} ReadBackValue(v: Json, rest: Str)
    requires NoLoneHole(v) && Boundary(rest)
    ensures Read(Render(v) + rest) == Some((DocOf(v), rest))
    decreases v, 1, 0
  {
    hide Read, NumLength, ReadString;
    match v
    case JNull => ReadWord(NULL_TEXT, v, rest);
    case JBool(b) => ReadWord(if b then TRUE_TEXT else FALSE_TEXT, v, rest);
    case JNum(text) => ReadNumber(text, rest);
    case JStr(s) => ReadQuoted(s, rest);
    case JArr(items) => ReadBackArray(v, rest);
    case JObj(values) => ReadBackObject(v, rest);
  }

  lemma ReadWord(word: Str, v: Json, rest: Str)
    requires (v == JNull && word == NULL_TEXT) || (v == JBool(true) && word == TRUE_TEXT) || (v == JBool(false) && word == FALSE_TEXT)
    ensures Read(word + rest) == Some((DocOf(v), rest))
  {
    var t := word + rest;
    assert word <= t && t[0] == word[0] && t[|word|..] == rest;
    assert TRUE_TEXT[0] == 116 && FALSE_TEXT[0] == 102 && NULL_TEXT[0] == 110;
  }

  /** A text that starts like no word is not one. */
  lemma NotAWord(t: Str)
    requires |t| > 0 && t[0] != 110 && t[0] != 116 && t[0] != 102
    ensures !(NULL_TEXT <= t) && !(TRUE_TEXT <= t) && !(FALSE_TEXT <= t)
  {}

  lemma ReadNumber(text: NumberText, rest: Str)
    requires Boundary(rest)
    ensures Read(text + rest) == Some((DNum(text), rest))
  {
    var t := text + rest;
    NumLengthIs(text, rest);
    hide NumLength;
    assert t[..|text|] == text && t[|text|..] == rest && t[0] == text[0];
    NotAWord(t);
  }

  lemma ReadQuoted(s: Str, rest: Str)
    ensures Read(Quote(s) + rest) == Some((DStr(s), rest))
  {
    hide ReadString, EscapeAll;
    var t := Quote(s) + rest;
    assert t[0] == QUOTE && t[1..] == EscapeAll(s) + [QUOTE] + rest;
    StringReadBack(s, rest);
    NotAWord(t);
  }

  lemma ReadArray(t: Str, items: seq<Spot>, rest: Str)
    requires |t| > 1 && t[0] == OPEN_BRACKET && t[1] != CLOSE_BRACKET && ReadItems(t[1..]) == Some((items, rest))
    ensures Read(t) == Some((DArr(items), rest))
  {}

  lemma ReadEmptyArray(rest: Str)
    ensures Read([OPEN_BRACKET, CLOSE_BRACKET] + rest) == Some((DArr([]), rest))
  {
    var t := [OPEN_BRACKET, CLOSE_BRACKET] + rest;
    NotAWord(t);
    assert t[2..] == rest;
  }

  lemma {:induction false} ReadBackArray(v: Json, rest: Str)
    requires v.JArr? && NoLoneHole(v) && Boundary(rest)
    ensures Read(Render(v) + rest) == Some((DocOf(v), rest))
    decreases v, 0, |v.items| + 1
  {
    hide Read, ReadItems, RenderItems, EachArray, Boundary;
    var t := Render(v) + rest;
    if |v.items| == 0 {
      NoItems(v);
      assert t == [OPEN_BRACKET, CLOSE_BRACKET] + rest;
      ReadEmptyArray(rest);
    } else {
      assert t[1..] == RenderItems(v, 0) + [CLOSE_BRACKET] + rest;
      LoneHoleFree(v);
      ItemsStart(v);
      ReadBackItems(v, 0, rest);
      assert SpotsOf(v)[0..] == SpotsOf(v);
      ReadArray(t, SpotsOf(v), rest);
    }
  }

  lemma NoItems(v: Json)
    requires v.JArr? && |v.items| == 0
    ensures RenderItems(v, 0) == []
  {}

  lemma LoneHoleFree(v: Json)
    requires v.JArr? && NoLoneHole(v)
    ensures ShapeOf(v.items) != [true] && forall k | 0 <= k < |v.items| && v.items[k].Item? :: NoLoneHole(v.items[k].json)
  {}

  /** The positions of an array that is neither empty nor a single hole do not start by closing it. */
  lemma ItemsStart(v: Json)
    requires v.JArr? && Tellable(ShapeOf(v.items))
    ensures |RenderItems(v, 0)| > 0 && RenderItems(v, 0)[0] != CLOSE_BRACKET
  {
    assert |v.items| == 1 ==> ShapeOf(v.items) == [v.items[0].Hole?];
    if v.items[0].Item? {
      Starts(v.items[0].json);
      hide Render;
    }
  }

  lemma LastItem(t: Str, e: Spot, rest: Str)
    requires ReadItem(t) == Some((e, [CLOSE_BRACKET] + rest))
    ensures ReadItems(t) == Some(([e], rest))
  {}

  lemma OneMoreItem(t: Str, e: Spot, tail: Str, items: seq<Spot>, rest: Str)
    requires ReadItem(t) == Some((e, [COMMA] + tail)) && ReadItems(tail) == Some((items, rest))
    ensures ReadItems(t) == Some(([e] + items, rest))
  {}

  /** One position at the front of a text, before the mark that ends it. */
  lemma {:induction false} ReadBackItem(v: Json, i: nat, after: Str)
    requires v.JArr? && i < |v.items| && (v.items[i].Item? ==> NoLoneHole(v.items[i].json))
    requires |after| > 0 && (after[0] == COMMA || after[0] == CLOSE_BRACKET)
    ensures ReadItem(ItemText(v.items[i]) + after) == Some((SpotsOf(v)[i], after))
    decreases v, 0, 0
  {
    hide Read, Render, EachArray;
    if v.items[i].Hole? {
      assert [] + after == after;
    } else {
      ReadBackValue(v.items[i].json, after);
      Starts(v.items[i].json);
    }
  }

  lemma ItemsSplit(v: Json, i: nat, rest: Str)
    requires v.JArr? && i < |v.items|
    ensures RenderItems(v, i) + [CLOSE_BRACKET] + rest
            == ItemText(v.items[i])
               + if i + 1 == |v.items| then [CLOSE_BRACKET] + rest else [COMMA] + (RenderItems(v, i + 1) + [CLOSE_BRACKET] + rest)
  {
    hide Render, ItemText;
    var item := ItemText(v.items[i]);
    if i + 1 == |v.items| {
      assert item + [CLOSE_BRACKET] + rest == item + ([CLOSE_BRACKET] + rest);
    } else {
      var more := RenderItems(v, i + 1);
      assert RenderItems(v, i) == item + [COMMA] + more;
      hide RenderItems;
      assert item + [COMMA] + more + [CLOSE_BRACKET] + rest == item + ([COMMA] + (more + [CLOSE_BRACKET] + rest));
    }
  }

  lemma {:induction false} ReadBackItems(v: Json, i: nat, rest: Str)
    requires v.JArr? && i < |v.items| && forall k | i <= k < |v.items| && v.items[k].Item? :: NoLoneHole(v.items[k].json)
    ensures ReadItems(RenderItems(v, i) + [CLOSE_BRACKET] + rest) == Some((SpotsOf(v)[i..], rest))
    decreases v, 0, |v.items| - i
  {
    hide Read, ReadItem, ReadItems, Render, NoLoneHole, RenderItems, ItemText, SpotsOf;
    var t := RenderItems(v, i) + [CLOSE_BRACKET] + rest;
    ItemsSplit(v, i, rest);
    if i + 1 == |v.items| {
      ReadBackItem(v, i, [CLOSE_BRACKET] + rest);
      LastItem(t, SpotsOf(v)[i], rest);
      assert SpotsOf(v)[i..] == [SpotsOf(v)[i]];
    } else {
      var tail := RenderItems(v, i + 1) + [CLOSE_BRACKET] + rest;
      ReadBackItem(v, i, [COMMA] + tail);
      ReadBackItems(v, i + 1, rest);
      OneMoreItem(t, SpotsOf(v)[i], tail, SpotsOf(v)[i + 1..], rest);
      assert SpotsOf(v)[i..] == [SpotsOf(v)[i]] + SpotsOf(v)[i + 1..];
    }
  }

  lemma ReadObject(t: Str, members: seq<Member>, rest: Str)
    requires |t| > 1 && t[0] == OPEN_BRACE && t[1] == QUOTE && ReadMembers(t[1..]) == Some((members, rest))
    ensures Read(t) == Some((DObj(members), rest))
  {}

  lemma ReadEmptyObject(rest: Str)
    ensures Read([OPEN_BRACE, CLOSE_BRACE] + rest) == Some((DObj([]), rest))
  {
    var t := [OPEN_BRACE, CLOSE_BRACE] + rest;
    NotAWord(t);
    assert t[2..] == rest;
  }

  lemma {:induction false} ReadBackObject(v: Json, rest: Str)
    requires v.JObj? && NoLoneHole(v) && Boundary(rest)
    ensures Read(Render(v) + rest) == Some((DocOf(v), rest))
    decreases v, 0, |SortedKeys(v.values.Keys)| + 1
  {
    hide Read, ReadMembers, SortedKeys, RenderMembers;
    var keys := SortedKeys(v.values.Keys);
    var t := Render(v) + rest;
    if |keys| == 0 {
      NoneRendered(v, keys);
      assert t == [OPEN_BRACE, CLOSE_BRACE] + rest;
      ReadEmptyObject(rest);
    } else {
      assert t[1..] == RenderMembers(v, keys, 0) + [CLOSE_BRACE] + rest;
      MembersStart(v, keys, 0);
      ReadBackMembers(v, keys, 0, rest);
      var members := MembersOf(v, keys);
      assert members[0..] == members;
      ReadObject(t, members, rest);
    }
  }

  lemma NoneRendered(v: Json, keys: seq<Str>)
    requires v.JObj? && |keys| == 0
    ensures RenderMembers(v, keys, 0) == []
  {}

  lemma MembersStart(v: Json, keys: seq<Str>, i: nat)
    requires v.JObj? && i < |keys| && forall k | k in keys :: k in v.values
    ensures |RenderMembers(v, keys, i)| > 0 && RenderMembers(v, keys, i)[0] == QUOTE
  {}

  /** The members under the listed keys. */
  function Under(values: map<Str, Json>, keys: seq<Str>): map<Str, Json> {
    map k | k in values && k in keys :: values[k]
  }

  /** A rendered member at the front of a text. */
  ghost predicate MemberAt(t: Str, key: Str, value: Json, after: Str) {
    && |t| > 0 && t[0] == QUOTE
    && ReadString(t[1..]).Some? && ReadString(t[1..]).value.0 == key
    && var colon := ReadString(t[1..]).value.1;
       |colon| > 0 && colon[0] == COLON && Read(colon[1..]) == Some((DocOf(value), after))
  }

  lemma LastMember(t: Str, key: Str, value: Json, rest: Str)
    requires MemberAt(t, key, value, [CLOSE_BRACE] + rest)
    ensures ReadMembers(t) == Some(([Member(key, DocOf(value))], rest))
  {}

  lemma OneMoreMember(t: Str, key: Str, value: Json, tail: Str, members: seq<Member>, rest: Str)
    requires MemberAt(t, key, value, [COMMA] + tail) && ReadMembers(tail) == Some((members, rest))
    ensures ReadMembers(t) == Some(([Member(key, DocOf(value))] + members, rest))
  {}

  lemma {:induction false} ReadBackMembers(v: Json, keys: seq<Str>, i: nat, rest: Str)
    requires v.JObj? && NoLoneHole(v) && i < |keys| && forall k | k in keys :: k in v.values
    ensures ReadMembers(RenderMembers(v, keys, i) + [CLOSE_BRACE] + rest) == Some((MembersOf(v, keys)[i..], rest))
    decreases v, 0, |keys| - i
  {
    hide Read, ReadMembers, Render, MemberAt, Quote, DocOf;
    var members := MembersOf(v, keys);
    var t := RenderMembers(v, keys, i) + [CLOSE_BRACE] + rest;
    var key, value := keys[i], v.values[keys[i]];
    var member := Quote(key) + [COLON] + Render(value);
    if i + 1 == |keys| {
      assert t == member + ([CLOSE_BRACE] + rest);
      ReadBackMember(key, value, [CLOSE_BRACE] + rest);
      LastMember(t, key, value, rest);
      assert members[i..] == [Member(key, DocOf(value))];
    } else {
      var tail := RenderMembers(v, keys, i + 1) + [CLOSE_BRACE] + rest;
      assert t == member + ([COMMA] + tail);
      ReadBackMember(key, value, [COMMA] + tail);
      ReadBackMembers(v, keys, i + 1, rest);
      OneMoreMember(t, key, value, tail, members[i + 1..], rest);
      assert members[i..] == [Member(key, DocOf(value))] + members[i + 1..];
    }
  }

  lemma {:induction false} ReadBackMember(key: Str, value: Json, after: Str)
    requires NoLoneHole(value) && Boundary(after)
    ensures MemberAt(Quote(key) + [COLON] + Render(value) + after, key, value, after)
    decreases value, 2
  {
    hide Read, Render, Quote;
    MemberReadBack(Quote(key) + [COLON] + Render(value) + after, key, value, after);
    ReadBackValue(value, after);
  }

  /** The key of a rendered member is read back up to its colon. */
  lemma MemberReadBack(t: Str, key: Str, value: Json, after: Str)
    requires t == Quote(key) + [COLON] + Render(value) + after
    ensures |t| > 0 && t[0] == QUOTE && ReadString(t[1..]) == Some((key, [COLON] + (Render(value) + after)))
    ensures ([COLON] + (Render(value) + after))[1..] == Render(value) + after
  {
    hide EscapeAll, Render, ReadString;
    assert t[1..] == EscapeAll(key) + [QUOTE] + ([COLON] + (Render(value) + after));
    StringReadBack(key, [COLON] + (Render(value) + after));
  }

  // ---------- order of names ----------

  /** Taking the rendered text apart loses nothing but the order. */
  lemma {:induction false} ForgetDoc(v: Json)
    ensures Forget(DocOf(v)) == v
    decreases v, 1
  {
    match v
    case JArr(items) =>
      forall i | 0 <= i < |items| && items[i].Item? ensures Forget(DocOf(items[i].json)) == items[i].json { ForgetDoc(items[i].json); }
    case JObj(values) =>
      var keys := SortedKeys(values.Keys);
      ForgetNamed(v, keys, 0);
      assert keys[0..] == keys && Under(values, keys) == values;
    case _ =>
  }

  lemma {:induction false} ForgetNamed(v: Json, keys: seq<Str>, i: nat)
    requires v.JObj? && i <= |keys| && forall k | k in keys :: k in v.values
    ensures ForgetMembers(DObj(MembersOf(v, keys)), i) == Under(v.values, keys[i..])
    decreases v, 0, |keys| - i
  {
    if i < |keys| {
      ForgetNamed(v, keys, i + 1);
      assert keys[i] in v.values;
      ForgetDoc(v.values[keys[i]]);
      hide DocOf, Forget;
      assert keys[i..] == [keys[i]] + keys[i + 1..];
      assert Under(v.values, keys[i..]) == map[keys[i] := v.values[keys[i]]] + Under(v.values, keys[i + 1..]);
    }
  }

  lemma {:induction false} LexIsBefore(a: Str, b: Str)
    requires StrLt(a, b)
    ensures Before(a, b)
  {
    if |a| == 0 || UnitLt(a[0], b[0]) {
      assert a[..0] == b[..0];
    } else {
      LexIsBefore(a[1..], b[1..]);
      var n :| 0 <= n <= |a| - 1 && n <= |b| - 1 && a[1..][..n] == b[1..][..n] && n < |b| - 1 && (n == |a| - 1 || a[1..][n] < b[1..][n]);
      assert a[..n + 1] == [a[0]] + a[1..][..n] && b[..n + 1] == [b[0]] + b[1..][..n];
    }
  }

  lemma {:induction false} RenderedInOrder(v: Json)
    ensures InOrder(DocOf(v))
    decreases v
  {
    match v
    case JArr(items) =>
      forall i | 0 <= i < |items| && items[i].Item? ensures InOrder(DocOf(items[i].json)) { RenderedInOrder(items[i].json); }
    case JObj(values) =>
      var keys := SortedKeys(values.Keys);
      KeysAscend(values.Keys);
      forall i | 0 <= i < |keys| ensures InOrder(DocOf(values[keys[i]])) {
        assert keys[i] in values;
        RenderedInOrder(values[keys[i]]);
      }
    case _ =>
  }

  lemma KeysAscend(names: set<Str>)
    ensures forall i, j | 0 <= i < j < |SortedKeys(names)| :: Before(SortedKeys(names)[i], SortedKeys(names)[j])
  {
    hide StrLt;
    StrTotal();
    AscendingAscends(StrLt, names);
    forall i, j | 0 <= i < j < |SortedKeys(names)| ensures Before(SortedKeys(names)[i], SortedKeys(names)[j]) {
      LexIsBefore(SortedKeys(names)[i], SortedKeys(names)[j]);
    }
  }

  // ---------- what the canonical text stands for ----------

  lemma {:induction false} CollapseRenders(v: Json)
    ensures Render(Collapse(v)) == Render(v)
    decreases v, 1
  {
    match v
    case JArr(items) =>
      if ShapeOf(items) == [true] {
        assert |items| == |ShapeOf(items)| == 1;
        assert items[0].Hole? == ShapeOf(items)[0] == true;
        assert ItemText(items[0]) == [];
      } else {
        CollapsedItemsRender(v, 0);
      }
    case JObj(values) =>
      assert Collapse(v).values.Keys == values.Keys;
      CollapsedMembersRender(v, SortedKeys(values.Keys), 0);
    case _ =>
  }

  lemma {:induction false} CollapsedItemsRender(v: Json, i: nat)
    requires v.JArr? && ShapeOf(v.items) != [true] && i <= |v.items|
    ensures |Collapse(v).items| == |v.items| && RenderItems(Collapse(v), i) == RenderItems(v, i)
    decreases v, 0, |v.items| - i
  {
    if i < |v.items| {
      CollapsedItemsRender(v, i + 1);
      if v.items[i].Item? { CollapseRenders(v.items[i].json); }
    }
  }

  lemma {:induction false} CollapsedMembersRender(v: Json, keys: seq<Str>, i: nat)
    requires v.JObj? && i <= |keys| && forall k | k in keys :: k in v.values
    ensures RenderMembers(Collapse(v), keys, i) == RenderMembers(v, keys, i)
    decreases v, 0, |keys| - i
  {
    if i < |keys| {
      CollapsedMembersRender(v, keys, i + 1);
      assert keys[i] in v.values;
      CollapseRenders(v.values[keys[i]]);
    }
  }

  /** Collapsing leaves no lone hole, and changes nothing exactly where there was none. */
  lemma {:induction false} CollapseMeans(v: Json)
    ensures NoLoneHole(Collapse(v))
    ensures Collapse(v) == v <==> NoLoneHole(v)
    decreases v
  {
    match v
    case JArr(items) =>
      var shape := ShapeOf(items);
      forall i | 0 <= i < |items| && items[i].Item?
        ensures NoLoneHole(Collapse(items[i].json)) && (Collapse(items[i].json) == items[i].json <==> NoLoneHole(items[i].json))
      {
        CollapseMeans(items[i].json);
      }
      if shape != [true] {
        assert ShapeOf(Collapse(v).items) == shape;
        assert Collapse(v) == v ==> forall i | 0 <= i < |items| :: Collapse(v).items[i] == items[i];
      }
    case JObj(values) =>
      forall k | k in values
        ensures NoLoneHole(Collapse(values[k])) && (Collapse(values[k]) == values[k] <==> NoLoneHole(values[k]))
      {
        CollapseMeans(values[k]);
      }
      assert Collapse(v) == v ==> forall k | k in values :: Collapse(v).values[k] == values[k];
    case _ =>
  }

  /** The rendered text reads back to the value with its lone holes gone. It is a JSON text exactly when that has no
      hole, and then stands for it. */
  lemma DecodesCollapsed(v: Json)
    ensures ReadAll(Render(v)) == Some(DocOf(Collapse(v)))
    ensures Decode(Render(v)) == Some(Collapse(v))
    ensures DecodeStrict(Render(v)) == if Dense(Collapse(v)) then Some(Collapse(v)) else None
  {
    CollapseMeans(v);
    CollapseRenders(v);
    ReadBackValue(Collapse(v), []);
    ForgetDoc(Collapse(v));
    assert Render(v) + [] == Render(v);
  }

  lemma {:induction false} Weaken(v: Json, strong: Shape -> bool, weak: Shape -> bool)
    requires EachArray(v, strong) && forall shape :: strong(shape) ==> weak(shape)
    ensures EachArray(v, weak)
    decreases v
  {
    match v
    case JArr(items) =>
      forall i | 0 <= i < |items| && items[i].Item? ensures EachArray(items[i].json, weak) { Weaken(items[i].json, strong, weak); }
    case JObj(values) =>
      forall k | k in values ensures EachArray(values[k], weak) { Weaken(values[k], strong, weak); }
    case _ =>
  }

  /** The text reads back to the value itself exactly when no array in it is a lone hole, and as a JSON text exactly
      when it has no hole at all. */
  lemma DecodesExactly(v: Json)
    ensures Decode(Render(v)) == Some(v) <==> NoLoneHole(v)
    ensures DecodeStrict(Render(v)) == Some(v) <==> Dense(v)
  {
    hide Decode, Render, EachArray, Collapse;
    DecodesCollapsed(v);
    CollapseMeans(v);
    if Dense(v) { Weaken(v, NoneMissing, NotOneHole); }
  }

  /** Two values have the same text exactly when they differ at most in lone holes against empty arrays. */
  lemma SameText(v: Json, w: Json)
    ensures Render(v) == Render(w) <==> Collapse(v) == Collapse(w)
  {
    DecodesCollapsed(v);
    DecodesCollapsed(w);
    CollapseRenders(v);
    CollapseRenders(w);
  }

  /** Values in which no array is a lone hole have the same text only if they are the same value. */
  lemma RenderInjective(v: Json, w: Json)
    requires NoLoneHole(v) && NoLoneHole(w) && Render(v) == Render(w)
    ensures v == w
  {
    SameText(v, w);
    CollapseMeans(v);
    CollapseMeans(w);
  }

  lemma {:induction false} FillCollapses(v: Json)
    ensures Collapse(Fill(v)) == Collapse(v)
    decreases v
  {
    match v
    case JArr(items) =>
      if |items| == 0 {
        assert ShapeOf([Hole]) == [true];
      } else {
        assert ShapeOf(Fill(v).items) == ShapeOf(items);
        forall i | 0 <= i < |items| && items[i].Item? ensures Collapse(Fill(items[i].json)) == Collapse(items[i].json) {
          FillCollapses(items[i].json);
        }
      }
    case JObj(values) =>
      forall k | k in values ensures Collapse(Fill(values[k])) == Collapse(values[k]) { FillCollapses(values[k]); }
    case _ =>
  }

  /** An empty array anywhere is changed by filling. */
  lemma {:induction false} FillChanges(v: Json)
    requires NoLoneHole(v) && Fill(v) == v
    ensures EachArray(v, Tellable)
    decreases v
  {
    match v
    case JArr(items) =>
      assert |items| > 0;
      forall i | 0 <= i < |items| && items[i].Item? ensures EachArray(items[i].json, Tellable) {
        assert Fill(v).items[i] == items[i];
        FillChanges(items[i].json);
      }
    case JObj(values) =>
      forall k | k in values ensures EachArray(values[k], Tellable) {
        assert Fill(v).values[k] == values[k];
        FillChanges(values[k]);
      }
    case _ =>
  }

  lemma {:induction false} TellableFixed(v: Json, w: Json)
    requires EachArray(v, Tellable) && Collapse(w) == v
    ensures w == v
    decreases v
  {
    match v
    case JArr(items) =>
      assert w.JArr? && ShapeOf(w.items) != [true] && |w.items| == |items|;
      forall i | 0 <= i < |items| ensures w.items[i] == items[i] {
        assert Collapse(w).items[i] == items[i];
        if items[i].Item? { TellableFixed(items[i].json, w.items[i].json); }
      }
    case JObj(values) =>
      assert w.JObj?;
      assert w.values.Keys == Collapse(w).values.Keys;
      forall k | k in values ensures w.values[k] == values[k] { TellableFixed(values[k], w.values[k]); }
    case _ =>
  }

  /** A text is one value's alone exactly when no array in that value is empty or a lone hole. */
  lemma TextIsItsOwn(v: Json)
    ensures (forall w :: Render(w) == Render(v) ==> w == v) <==> EachArray(v, Tellable)
  {
    hide EachArray, Collapse, Fill, Render;
    if EachArray(v, Tellable) {
      Weaken(v, Tellable, NotOneHole);
      CollapseMeans(v);
      forall w | Render(w) == Render(v) ensures w == v {
        SameText(w, v);
        TellableFixed(v, w);
      }
    } else if !NoLoneHole(v) {
      CollapseMeans(v);
      CollapseRenders(v);
    } else {
      FillCollapses(v);
      SameText(Fill(v), v);
      if Fill(v) == v { FillChanges(v); }
    }
  }

  /** The two inputs the texts cannot tell apart: an empty array and an array of one hole are both "[]". */
  lemma HolesCollide()
    ensures Normalized(RArray([]), false) == Ok(JArr([])) && Normalized(RArray([RHole]), false) == Ok(JArr([Hole]))
    ensures JArr([]) != JArr([Hole]) && Render(JArr([])) == Render(JArr([Hole])) == [OPEN_BRACKET, CLOSE_BRACKET]
  {
    assert NormalizedItems(RArray([RHole]), false, 0) == Ok([]);
    assert [] + [Hole] == [Hole];
    assert NormalizedItems(RArray([RHole]), false, 1) == Ok([Hole]);
    assert RenderItems(JArr([Hole]), 0) == [];
  }

  function RawShapeOf(items: seq<RawElem>): Shape {
    seq(|items|, i requires 0 <= i < |items| => items[i].RHole?)
  }

  /** Every array of the value passed, at any depth, has a shape that passes. */
  predicate EachRawArray(v: Raw, ok: Shape -> bool)
    decreases v
  {
    match v
    case RArray(items) => ok(RawShapeOf(items)) && forall i | 0 <= i < |items| && items[i].RItem? :: EachRawArray(items[i].raw, ok)
    case RObject(_, _, values) => forall k | k in values :: EachRawArray(values[k], ok)
    case _ => true
  }

  predicate NoHoles(v: Raw) { EachRawArray(v, NoneMissing) }

  predicate NoLoneRawHole(v: Raw) { EachRawArray(v, NotOneHole) }

  /** Normalising keeps the shape of every array: no hole appears, moves or goes away. */
  lemma {:induction false} NormalizedShapes(v: Raw, omit: bool, ok: Shape -> bool)
    requires Normalized(v, omit).Ok?
    ensures EachArray(Normalized(v, omit).value, ok) <==> EachRawArray(v, ok)
    decreases v, 1, 0
  {
    match v
    case RArray(items) =>
      ItemShapes(v, omit, ok, |items|);
      assert ShapeOf(Normalized(v, omit).value.items) == RawShapeOf(items);
    case RObject(_, _, values) => MemberShapes(v, omit, ok, SortedKeys(values.Keys), |SortedKeys(values.Keys)|);
    case _ =>
  }

  predicate ItemPasses(e: Elem, ok: Shape -> bool) { e.Item? ==> EachArray(e.json, ok) }

  predicate RawItemPasses(e: RawElem, ok: Shape -> bool) { e.RItem? ==> EachRawArray(e.raw, ok) }

  lemma {:induction false} ItemShapes(v: Raw, omit: bool, ok: Shape -> bool, n: nat)
    requires v.RArray? && n <= |v.items| && NormalizedItems(v, omit, n).Ok?
    ensures |NormalizedItems(v, omit, n).value| == n
    ensures forall i | 0 <= i < n ::
              && (NormalizedItems(v, omit, n).value[i].Hole? <==> v.items[i].RHole?)
              && (ItemPasses(NormalizedItems(v, omit, n).value[i], ok) <==> RawItemPasses(v.items[i], ok))
    decreases v, 0, n
  {
    if n > 0 {
      ItemShapes(v, omit, ok, n - 1);
      if v.items[n - 1].RItem? { NormalizedShapes(v.items[n - 1].raw, omit, ok); }
    }
  }

  lemma {:induction false} MemberShapes(v: Raw, omit: bool, ok: Shape -> bool, keys: seq<Str>, n: nat)
    requires v.RObject? && n <= |keys| && (forall k | k in keys :: k in v.values) && NormalizedMembers(v, omit, keys, n).Ok?
    ensures forall k | k in NormalizedMembers(v, omit, keys, n).value :: k in v.values
              && (EachArray(NormalizedMembers(v, omit, keys, n).value[k], ok) <==> EachRawArray(v.values[k], ok))
    ensures forall k | k in keys[..n] :: k in NormalizedMembers(v, omit, keys, n).value || EachRawArray(v.values[k], ok)
    decreases v, 0, n
  {
    if n > 0 {
      var key := keys[n - 1];
      MemberShapes(v, omit, ok, keys, n - 1);
      assert keys[..n] == keys[..n - 1] + [key];
      assert key in v.values;
      MembersNext(v, omit, keys, n - 1);
      if Normalized(v.values[key], omit).Ok? { NormalizedShapes(v.values[key], omit, ok); }
    } else {
      assert keys[..0] == [];
    }
  }

  /** Two inputs that are the same up to the order in which objects list their keys. */
  predicate SameUpToOrder(a: Raw, b: Raw)
    decreases a
  {
    match a
    case RArray(items) =>
      && b.RArray? && |b.items| == |items|
      && forall i | 0 <= i < |items| ::
           if items[i].RHole? then b.items[i].RHole? else b.items[i].RItem? && SameUpToOrder(items[i].raw, b.items[i].raw)
    case RObject(plain, _, values) =>
      && b.RObject? && b.plain == plain && b.values.Keys == values.Keys
      && forall k | k in values :: SameUpToOrder(values[k], b.values[k])
    case _ => a == b
  }

  /** Key order plays no part in the normal form, nor in which error is reported. */
  lemma {:induction false} OrderIrrelevant(a: Raw, b: Raw, omit: bool)
    requires SameUpToOrder(a, b)
    ensures Normalized(a, omit) == Normalized(b, omit)
    decreases a, 1, 0
  {
    match a
    case RArray(items) => ItemsAlike(a, b, omit, |items|);
    case RObject(_, _, values) => MembersAlike(a, b, omit, SortedKeys(values.Keys), |SortedKeys(values.Keys)|);
    case _ =>
  }

  lemma {:induction false} ItemsAlike(a: Raw, b: Raw, omit: bool, n: nat)
    requires a.RArray? && SameUpToOrder(a, b) && n <= |a.items|
    ensures NormalizedItems(a, omit, n) == NormalizedItems(b, omit, n)
    decreases a, 0, n
  {
    if n > 0 {
      ItemsAlike(a, b, omit, n - 1);
      if a.items[n - 1].RItem? { OrderIrrelevant(a.items[n - 1].raw, b.items[n - 1].raw, omit); }
    }
  }

  lemma {:induction false} MembersAlike(a: Raw, b: Raw, omit: bool, keys: seq<Str>, n: nat)
    requires a.RObject? && SameUpToOrder(a, b) && n <= |keys| && forall k | k in keys :: k in a.values
    ensures NormalizedMembers(a, omit, keys, n) == NormalizedMembers(b, omit, keys, n)
    decreases a, 0, n
  {
    if n > 0 {
      var key := keys[n - 1];
      MembersAlike(a, b, omit, keys, n - 1);
      assert key in a.values;
      OrderIrrelevant(a.values[key], b.values[key], omit);
      assert NormalizedMember(a, omit, key) == NormalizedMember(b, omit, key);
    }
  }

  // ---------- normalising twice ----------

  /** The normal form as a value to normalise again. */
  function Embed(v: Json): Raw
    decreases v
  {
    match v
    case JNull => RNull
    case JBool(b) => RBool(b)
    case JNum(text) => RNum(Finite(text))
    case JStr(s) => RStr(s)
    case JArr(items) =>
      RArray(seq(|items|, i requires 0 <= i < |items| => if items[i].Hole? then RHole else RItem(Embed(items[i].json))))
    case JObj(values) => RObject(true, SortedKeys(values.Keys), map k | k in values :: Embed(values[k]))
  }

  predicate AllValid(v: Json)
    decreases v
  {
    match v
    case JStr(s) => ValidUnicode(s)
    case JArr(items) => forall i | 0 <= i < |items| && items[i].Item? :: AllValid(items[i].json)
    case JObj(values) => forall k | k in values :: ValidUnicode(k) && AllValid(values[k])
    case _ => true
  }

  lemma {:induction false} NormalizedValid(v: Raw, omit: bool)
    requires Normalized(v, omit).Ok?
    ensures AllValid(Normalized(v, omit).value)
    decreases v, 1, 0
  {
    match v
    case RArray(items) => ItemsValid(v, omit, |items|);
    case RObject(_, _, values) => MembersValid(v, omit, SortedKeys(values.Keys), |SortedKeys(values.Keys)|);
    case _ =>
  }

  lemma {:induction false} ItemsValid(v: Raw, omit: bool, n: nat)
    requires v.RArray? && n <= |v.items| && NormalizedItems(v, omit, n).Ok?
    ensures forall e | e in NormalizedItems(v, omit, n).value && e.Item? :: AllValid(e.json)
    decreases v, 0, n
  {
    if n > 0 {
      ItemsValid(v, omit, n - 1);
      if v.items[n - 1].RItem? { NormalizedValid(v.items[n - 1].raw, omit); }
    }
  }

  lemma {:induction false} MembersValid(v: Raw, omit: bool, keys: seq<Str>, n: nat)
    requires v.RObject? && n <= |keys| && (forall k | k in keys :: k in v.values) && NormalizedMembers(v, omit, keys, n).Ok?
    ensures forall k | k in NormalizedMembers(v, omit, keys, n).value :: ValidUnicode(k) && AllValid(NormalizedMembers(v, omit, keys, n).value[k])
    decreases v, 0, n
  {
    if n > 0 {
      var key := keys[n - 1];
      MembersValid(v, omit, keys, n - 1);
      assert key in v.values;
      MembersNext(v, omit, keys, n - 1);
      if Normalized(v.values[key], omit).Ok? { NormalizedValid(v.values[key], omit); }
    }
  }

  lemma {:induction false} EmbedNormalizes(v: Json, omit: bool)
    requires AllValid(v)
    ensures Normalized(Embed(v), omit) == Ok(v)
    decreases v, 1, 0
  {
    match v
    case JArr(items) =>
      EmbedItems(v, omit, |items|);
      assert items[..|items|] == items;
    case JObj(values) =>
      var keys := SortedKeys(values.Keys);
      assert Embed(v).values.Keys == values.Keys;
      EmbedMembers(v, omit, keys, |keys|);
      assert keys[..|keys|] == keys;
      assert Under(values, keys) == values;
    case _ =>
  }

  lemma {:induction false} EmbedItems(v: Json, omit: bool, n: nat)
    requires v.JArr? && AllValid(v) && n <= |v.items|
    ensures NormalizedItems(Embed(v), omit, n) == Ok(v.items[..n])
    decreases v, 0, n
  {
    if n > 0 {
      var item := v.items[n - 1];
      EmbedItems(v, omit, n - 1);
      assert Embed(v).items[n - 1] == if item.Hole? then RHole else RItem(Embed(item.json));
      if item.Item? { EmbedNormalizes(item.json, omit); }
      hide Embed, AllValid, Normalized;
      assert v.items[..n] == v.items[..n - 1] + [item];
    }
  }

  lemma EmbedShape(v: Json)
    requires v.JObj?
    ensures Embed(v).RObject? && Embed(v).values.Keys == v.values.Keys
  {}

  lemma {:induction false} EmbedMember(v: Json, omit: bool, key: Str)
    requires v.JObj? && AllValid(v) && key in v.values
    ensures Embed(v).RObject? && key in Embed(v).values && NormalizedMember(Embed(v), omit, key) == Ok(Some(v.values[key]))
    decreases v, 0, 0
  {
    EmbedNormalizes(v.values[key], omit);
    assert !Embed(v.values[key]).RUndefined?;
  }

  lemma {:induction false} EmbedMembers(v: Json, omit: bool, keys: seq<Str>, n: nat)
    requires v.JObj? && AllValid(v) && n <= |keys| && forall k | k in keys :: k in v.values
    ensures NormalizedMembers(Embed(v), omit, keys, n) == Ok(Under(v.values, keys[..n]))
    decreases v, 0, n + 1
  {
    hide Embed, NormalizedMember, NormalizedMembers, AllValid;
    EmbedShape(v);
    if n == 0 {
      assert Under(v.values, keys[..0]) == map[];
      NoMembers(Embed(v), omit, keys);
    } else {
      var key := keys[n - 1];
      EmbedMembers(v, omit, keys, n - 1);
      assert key in v.values;
      EmbedMember(v, omit, key);
      MembersNext(Embed(v), omit, keys, n - 1);
      assert keys[..n] == keys[..n - 1] + [key];
      assert Under(v.values, keys[..n]) == Under(v.values, keys[..n - 1])[key := v.values[key]];
    }
  }

  /** Normalising twice is normalising once. */
  lemma NormalizeIdempotent(v: Raw, omit: bool, again: bool)
    requires Normalized(v, omit).Ok?
    ensures Normalized(Embed(Normalized(v, omit).value), again) == Normalized(v, omit)
  {
    NormalizedValid(v, omit);
    EmbedNormalizes(Normalized(v, omit).value, again);
  }

  // ---------- which inputs, and what becomes of them ----------

  /** What may be canonicalised: paired surrogates, finite numbers, plain objects, and nothing undefined. */
  predicate Acceptable(v: Raw)
    decreases v
  {
    match v
    case RNull => true
    case RBool(_) => true
    case RNum(n) => !n.NotFinite?
    case RStr(s) => ValidUnicode(s)
    case RArray(items) => forall i | 0 <= i < |items| && items[i].RItem? :: Acceptable(items[i].raw)
    case RObject(plain, _, values) => plain && forall k | k in values :: ValidUnicode(k) && Acceptable(values[k])
    case RUndefined => false
    case ROther => false
  }

  /** The JSON value is the input, but for -0 and the order of keys. */
  predicate Denotes(v: Raw, j: Json)
    decreases v
  {
    match v
    case RNull => j == JNull
    case RBool(b) => j == JBool(b)
    case RNum(Finite(text)) => j == JNum(text)
    case RNum(NegativeZero) => j.JNum? && j.text == [48]
    case RStr(s) => j == JStr(s)
    case RArray(items) =>
      && j.JArr? && |j.items| == |items|
      && forall i | 0 <= i < |items| ::
           if items[i].RHole? then j.items[i].Hole? else j.items[i].Item? && Denotes(items[i].raw, j.items[i].json)
    case RObject(_, _, values) => j.JObj? && j.values.Keys == values.Keys && forall k | k in values :: Denotes(values[k], j.values[k])
    case _ => false
  }

  /** Canonicalising succeeds exactly for acceptable inputs, and keeps their value. */
  lemma {:induction false} NormalizedExactly(v: Raw)
    ensures Normalized(v, false).Ok? <==> Acceptable(v)
    ensures Acceptable(v) ==> Denotes(v, Normalized(v, false).value)
    decreases v, 1, 0
  {
    match v
    case RArray(items) => ItemsExactly(v, |items|);
    case RObject(plain, _, values) =>
      var keys := SortedKeys(values.Keys);
      MembersExactly(v, keys, |keys|);
      assert keys[..|keys|] == keys;
    case _ =>
  }

  lemma {:induction false} ItemsExactly(v: Raw, n: nat)
    requires v.RArray? && n <= |v.items|
    ensures NormalizedItems(v, false, n).Ok? <==> forall i | 0 <= i < n && v.items[i].RItem? :: Acceptable(v.items[i].raw)
    ensures NormalizedItems(v, false, n).Ok? ==>
              && |NormalizedItems(v, false, n).value| == n
              && forall i | 0 <= i < n ::
                   if v.items[i].RHole? then NormalizedItems(v, false, n).value[i].Hole?
                   else NormalizedItems(v, false, n).value[i].Item? && Denotes(v.items[i].raw, NormalizedItems(v, false, n).value[i].json)
    decreases v, 0, n
  {
    if n > 0 {
      ItemsExactly(v, n - 1);
      if v.items[n - 1].RItem? { NormalizedExactly(v.items[n - 1].raw); }
    }
  }

  lemma {:induction false} MembersExactly(v: Raw, keys: seq<Str>, n: nat)
    requires v.RObject? && n <= |keys| && forall k | k in keys :: k in v.values
    ensures NormalizedMembers(v, false, keys, n).Ok? <==> forall k | k in keys[..n] :: ValidUnicode(k) && Acceptable(v.values[k])
    ensures NormalizedMembers(v, false, keys, n).Ok? ==>
              && (forall k :: k in NormalizedMembers(v, false, keys, n).value <==> k in keys[..n])
              && forall k | k in keys[..n] :: Denotes(v.values[k], NormalizedMembers(v, false, keys, n).value[k])
    decreases v, 0, n
  {
    hide ValidUnicode;
    if n == 0 {
      assert keys[..0] == [];
    } else {
      var key := keys[n - 1];
      MembersExactly(v, keys, n - 1);
      assert keys[..n] == keys[..n - 1] + [key];
      assert key in v.values;
      NormalizedExactly(v.values[key]);
      if NormalizedMembers(v, false, keys, n - 1).Ok? { MembersNext(v, false, keys, n - 1); }
    }
  }

  /** No text that stands for a unit inside a string is shorter than the one that is written. */
  lemma EscapeIsShortest(u: Unit, t: Str)
    requires |t| > 0
    ensures t[0] == BACKSLASH && ReadEscape(t[1..]).Some? && ReadEscape(t[1..]).value.0 == u ==>
              |Escape(u)| <= |t| - |ReadEscape(t[1..]).value.1|
  {}

  // ---------- canonicalizeJcs ----------

  /** `canonicalizeJcs`. The text is a JSON text of the normal form exactly when the input has no hole. */
  method CanonicalizeJcs(v: Raw) returns (r: Result<Str, JcsError>)
    requires Proper(v)
    ensures r.Ok? <==> Acceptable(v)
    ensures r.Ok? <==> Normalized(v, false).Ok?
    ensures r.Ok? && NoLoneRawHole(v) ==> Decode(r.value).Some? && Denotes(v, Decode(r.value).value)
    ensures r.Err? ==> r.error == Normalized(v, false).error
    ensures r.Ok? ==> (DecodeStrict(r.value) == Some(Normalized(v, false).value) <==> NoHoles(v))
    ensures r.Ok? ==> (Decode(r.value) == Some(Normalized(v, false).value) <==> NoLoneRawHole(v))
    ensures r.Ok? ==> Decode(r.value) == Some(Collapse(Normalized(v, false).value))
    ensures r.Ok? ==> r.value == Render(Normalized(v, false).value)
    ensures r.Ok? ==> ReadAll(r.value).Some? && InOrder(ReadAll(r.value).value)
  {
    NormalizedExactly(v);
    hide Acceptable, Denotes;
    var normal := Normalize(v, false);
    if normal.Err? { return Err(normal.error); }
    hide EachArray, EachRawArray, ReadAll, Decode, Collapse, Render;
    NormalizedShapes(v, false, NoneMissing);
    NormalizedShapes(v, false, NotOneHole);
    DecodesExactly(normal.value);
    DecodesCollapsed(normal.value);
    RenderedInOrder(Collapse(normal.value));
    r := Ok(Render(normal.value));
  }

  /** For any two inputs the text is the same exactly when the normal forms differ at most in lone holes against empty
      arrays; when neither input has an array of a single hole, exactly when the normal forms are the same. */
  lemma SameTextSameValue(v: Raw, w: Raw)
    requires Normalized(v, false).Ok? && Normalized(w, false).Ok?
    ensures Render(Normalized(v, false).value) == Render(Normalized(w, false).value)
            <==> Collapse(Normalized(v, false).value) == Collapse(Normalized(w, false).value)
    ensures NoLoneRawHole(v) && NoLoneRawHole(w) ==>
              (Render(Normalized(v, false).value) == Render(Normalized(w, false).value) <==> Normalized(v, false) == Normalized(w, false))
  {
    hide EachArray, EachRawArray, Collapse, Render;
    SameText(Normalized(v, false).value, Normalized(w, false).value);
    NormalizedShapes(v, false, NotOneHole);
    NormalizedShapes(w, false, NotOneHole);
    CollapseMeans(Normalized(v, false).value);
    CollapseMeans(Normalized(w, false).value);
  }
}
