/** Canonical JSON text (src/lib/audit-ledger.ts:85-100): JSON values as the
    runtime holds them, `JSON.stringify` / `JSON.parse` over UTF-16 code units,
    and the recursive key sort that makes the ledger's digest input stable.
    The grammar is that of RFC 8259, sections 4, 5 and 7. */
module CanonicalJson {
  import opened Options

  newtype CodeUnit = u: int | 0 <= u < 0x1_0000
  type Text = seq<CodeUnit>

  /** A finite number is identified with the decimal text that the runtime
      prints for it, which is one-to-one on numbers (with -0 read as 0). */
  type NumText = t: Text | IsNumText(t) witness [48]

  datatype Json =
    | Null
    | Bool(b: bool)
    | Num(num: NumText)
    | Str(s: Text)
    | Arr(items: seq<Json>)
    | Obj(members: seq<Member>)

  /** One own property; an object lists its properties in enumeration order. */
  datatype Member = Member(key: Text, value: Json)

  /** A JSON value up to the order of the members of its objects. */
  datatype Meaning =
    | NullMeaning
    | BoolMeaning(b: bool)
    | NumMeaning(num: NumText)
    | StrMeaning(s: Text)
    | ArrMeaning(items: seq<Meaning>)
    | ObjMeaning(fields: map<Text, Meaning>)

  const QUOTE: CodeUnit := 34
  const COMMA: CodeUnit := 44
  const COLON: CodeUnit := 58
  const BACKSLASH: CodeUnit := 92
  const OPEN_BRACKET: CodeUnit := 91
  const CLOSE_BRACKET: CodeUnit := 93
  const OPEN_BRACE: CodeUnit := 123
  const CLOSE_BRACE: CodeUnit := 125
  const NULL_TEXT: Text := [110, 117, 108, 108]
  const TRUE_TEXT: Text := [116, 114, 117, 101]
  const FALSE_TEXT: Text := [102, 97, 108, 115, 101]
  /** The key `__proto__`: assigning to it does not create an own property. */
  const PROTO: Text := [95, 95, 112, 114, 111, 116, 111, 95, 95]

  predicate IsDigit(u: CodeUnit) { 48 <= u <= 57 }

  predicate IsNumUnit(u: CodeUnit) {
    IsDigit(u) || u == 45 || u == 43 || u == 46 || u == 101
  }

  predicate IsNumText(t: Text) {
    |t| > 0 && (IsDigit(t[0]) || t[0] == 45) && forall i :: 0 <= i < |t| ==> IsNumUnit(t[i])
  }

  /** The keys of every object in the value are distinct. */
  ghost predicate WellFormed(v: Json) {
    match v
    case Arr(items) => forall i :: 0 <= i < |items| ==> WellFormed(items[i])
    case Obj(ms) => DistinctKeys(ms) && forall i :: 0 <= i < |ms| ==> WellFormed(ms[i].value)
    case _ => true
  }

  predicate DistinctKeys(ms: seq<Member>) {
    forall i, j :: 0 <= i < j < |ms| ==> ms[i].key != ms[j].key
  }

  /** What the value means when members named in `drop` do not count;
      `MeaningOf(v, {})` is the plain meaning. */
  function MeaningOf(v: Json, drop: set<Text>): Meaning
    decreases v, 1
  {
    match v
    case Null => NullMeaning
    case Bool(b) => BoolMeaning(b)
    case Num(n) => NumMeaning(n)
    case Str(s) => StrMeaning(s)
    case Arr(items) => ArrMeaning(ItemMeanings(items, drop))
    case Obj(ms) => ObjMeaning(MemberMeanings(ms, drop))
  }

  function ItemMeanings(items: seq<Json>, drop: set<Text>): seq<Meaning>
    decreases items, 0
  {
    if items == [] then [] else [MeaningOf(items[0], drop)] + ItemMeanings(items[1..], drop)
  }

  function MemberMeanings(ms: seq<Member>, drop: set<Text>): map<Text, Meaning>
    decreases ms, 0
  {
    if ms == [] then map[]
    else
      var rest := MemberMeanings(ms[1..], drop);
      if ms[0].key in drop then rest else rest[ms[0].key := MeaningOf(ms[0].value, drop)]
  }

  /** No object in the value has a member named in `drop`. */
  ghost predicate Avoids(v: Json, drop: set<Text>) {
    match v
    case Arr(items) => forall i :: 0 <= i < |items| ==> Avoids(items[i], drop)
    case Obj(ms) => forall i :: 0 <= i < |ms| ==> ms[i].key !in drop && Avoids(ms[i].value, drop)
    case _ => true
  }

  // ---------------------------------------------------------------- printing

  predicate IsHigh(u: CodeUnit) { 0xD800 <= u < 0xDC00 }
  predicate IsLow(u: CodeUnit) { 0xDC00 <= u < 0xE000 }

  function HexDigit(n: int): CodeUnit
    requires 0 <= n < 16
  {
    (if n < 10 then 48 + n else 87 + n) as CodeUnit
  }

  function Escape(u: CodeUnit): Text {
    if u == 8 then [BACKSLASH, 98]
    else if u == 9 then [BACKSLASH, 116]
    else if u == 10 then [BACKSLASH, 110]
    else if u == 12 then [BACKSLASH, 102]
    else if u == 13 then [BACKSLASH, 114]
    else if u == QUOTE || u == BACKSLASH then [BACKSLASH, u]
    else if u < 32 || IsHigh(u) || IsLow(u) then
      [BACKSLASH, 117, HexDigit(u as int / 4096), HexDigit(u as int % 4096 / 256), HexDigit(u as int % 4096 % 256 / 16), HexDigit(u as int % 4096 % 256 % 16)]
    else [u]
  }

  /** The inside of a string literal; only surrogates without a partner are escaped. */
  function Chars(s: Text): Text {
    if s == [] then []
    else if |s| >= 2 && IsHigh(s[0]) && IsLow(s[1]) then [s[0], s[1]] + Chars(s[2..])
    else Escape(s[0]) + Chars(s[1..])
  }

  function Quote(s: Text): Text {
    [QUOTE] + Chars(s) + [QUOTE]
  }

  function Stringify(v: Json): Text
    decreases v, 1
  {
    match v
    case Null => NULL_TEXT
    case Bool(b) => if b then TRUE_TEXT else FALSE_TEXT
    case Num(n) => n
    case Str(s) => Quote(s)
    case Arr(items) => [OPEN_BRACKET] + (if items == [] then [CLOSE_BRACKET] else StringifyItems(items))
    case Obj(ms) => [OPEN_BRACE] + (if ms == [] then [CLOSE_BRACE] else StringifyMembers(ms))
  }

  function StringifyItems(items: seq<Json>): Text
    requires items != []
    decreases items, 0
  {
    Stringify(items[0]) + (if |items| == 1 then [CLOSE_BRACKET] else [COMMA] + StringifyItems(items[1..]))
  }

  function StringifyMembers(ms: seq<Member>): Text
    requires ms != []
    decreases ms, 0
  {
    Quote(ms[0].key) + [COLON] + Stringify(ms[0].value) +
    (if |ms| == 1 then [CLOSE_BRACE] else [COMMA] + StringifyMembers(ms[1..]))
  }

  // ----------------------------------------------------------------- parsing

  datatype Parsed<T> = Fail | Got(value: T, rest: Text)

  function HexValue(u: CodeUnit): int {
    if IsDigit(u) then u as int - 48 else if 97 <= u <= 102 then u as int - 87 else if 65 <= u <= 70 then u as int - 55 else -1
  }

  /** The code unit that an escape stands for, with the text after it. */
  function ParseEscape(s: Text): (r: Parsed<CodeUnit>)
    ensures r.Got? ==> |r.rest| < |s|
  {
    if |s| == 0 then Fail
    else if s[0] == QUOTE || s[0] == BACKSLASH || s[0] == 47 then Got(s[0], s[1..])
    else if s[0] == 98 then Got(8, s[1..])
    else if s[0] == 102 then Got(12, s[1..])
    else if s[0] == 110 then Got(10, s[1..])
    else if s[0] == 114 then Got(13, s[1..])
    else if s[0] == 116 then Got(9, s[1..])
    else if s[0] == 117 && |s| >= 5 && HexValue(s[1]) >= 0 && HexValue(s[2]) >= 0
            && HexValue(s[3]) >= 0 && HexValue(s[4]) >= 0 then
      Got((HexValue(s[1]) * 4096 + HexValue(s[2]) * 256 + HexValue(s[3]) * 16 + HexValue(s[4])) as CodeUnit, s[5..])
    else Fail
  }

  /** The rest of a string literal, after its opening quote. */
  function ParseChars(s: Text): (r: Parsed<Text>)
    ensures r.Got? ==> |r.rest| < |s|
    decreases |s|
  {
    if |s| == 0 || s[0] < 32 then Fail
    else if s[0] == QUOTE then Got([], s[1..])
    else if s[0] == BACKSLASH then
      match ParseEscape(s[1..])
      case Fail => Fail
      case Got(u, rest) => Prepend(u, ParseChars(rest))
    else Prepend(s[0], ParseChars(s[1..]))
  }

  function Prepend<T>(x: T, r: Parsed<seq<T>>): Parsed<seq<T>> {
    match r
    case Fail => Fail
    case Got(xs, rest) => Got([x] + xs, rest)
  }

  function NumPrefix(s: Text): (n: nat)
    ensures n <= |s|
    ensures forall i :: 0 <= i < n ==> IsNumUnit(s[i])
  {
    if s == [] || !IsNumUnit(s[0]) then 0 else 1 + NumPrefix(s[1..])
  }

  function ParseValue(s: Text): (r: Parsed<Json>)
    ensures r.Got? ==> |r.rest| < |s|
    decreases |s|, 2
  {
    if |s| == 0 then Fail
    else if s[0] == QUOTE then
      match ParseChars(s[1..]) case Fail => Fail case Got(t, rest) => Got(Str(t), rest)
    else if s[0] == OPEN_BRACKET then
      if |s| > 1 && s[1] == CLOSE_BRACKET then Got(Arr([]), s[2..])
      else match ParseItems(s[1..]) case Fail => Fail case Got(vs, rest) => Got(Arr(vs), rest)
    else if s[0] == OPEN_BRACE then
      if |s| > 1 && s[1] == CLOSE_BRACE then Got(Obj([]), s[2..])
      else match ParseMembers(s[1..]) case Fail => Fail case Got(ms, rest) => Got(Obj(ms), rest)
    else if NULL_TEXT <= s then Got(Null, s[4..])
    else if TRUE_TEXT <= s then Got(Bool(true), s[4..])
    else if FALSE_TEXT <= s then Got(Bool(false), s[5..])
    else if IsDigit(s[0]) || s[0] == 45 then
      var n := NumPrefix(s);
      Got(Num(s[..n]), s[n..])
    else Fail
  }

  function ParseItems(s: Text): (r: Parsed<seq<Json>>)
    ensures r.Got? ==> |r.rest| < |s|
    decreases |s|, 3
  {
    match ParseValue(s)
    case Fail => Fail
    case Got(v, rest) =>
      if |rest| > 0 && rest[0] == CLOSE_BRACKET then Got([v], rest[1..])
      else if |rest| > 0 && rest[0] == COMMA then Prepend(v, ParseItems(rest[1..]))
      else Fail
  }

  function ParseMembers(s: Text): (r: Parsed<seq<Member>>)
    ensures r.Got? ==> |r.rest| < |s|
    decreases |s|, 3
  {
    if |s| == 0 || s[0] != QUOTE then Fail
    else
      match ParseChars(s[1..])
      case Fail => Fail
      case Got(k, afterKey) =>
        if |afterKey| == 0 || afterKey[0] != COLON then Fail
        else
          match ParseValue(afterKey[1..])
          case Fail => Fail
          case Got(v, rest) => AfterMember(Member(k, v), rest)
  }

  /** What may follow a member: the end of the object, or a comma and more members. */
  function AfterMember(m: Member, rest: Text): (r: Parsed<seq<Member>>)
    ensures r.Got? ==> |r.rest| < |rest|
    decreases |rest|, 4
  {
    if |rest| > 0 && rest[0] == CLOSE_BRACE then Got([m], rest[1..])
    else if |rest| > 0 && rest[0] == COMMA then Prepend(m, ParseMembers(rest[1..]))
    else Fail
  }

  /** `JSON.parse`: the whole text is one value. */
  function Parse(s: Text): Option<Json> {
    match ParseValue(s)
    case Got(v, rest) => if rest == [] then Some(v) else None
    case Fail => None
  }

  // -------------------------------------------------------------- round trip

  lemma HexDigitValue(n: int)
    requires 0 <= n < 16
    ensures HexValue(HexDigit(n)) == n
  {
  }

  lemma HexRoundTrip(u: CodeUnit, tail: Text)
    requires |Escape(u)| == 6
    ensures ParseEscape(Escape(u)[1..] + tail) == Got(u, tail)
  {
    var n := u as int;
    var s := Escape(u)[1..] + tail;
    HexDigitValue(n / 4096);
    HexDigitValue(n % 4096 / 256);
    HexDigitValue(n % 4096 % 256 / 16);
    HexDigitValue(n % 4096 % 256 % 16);
    assert s[5..] == tail;
  }

  /** Reading past one printed unit reads that unit. */
  lemma EscapeRoundTrip(u: CodeUnit, tail: Text)
    ensures ParseChars(Escape(u) + tail) == Prepend(u, ParseChars(tail))
  {
    var e := Escape(u);
    var s := e + tail;
    if e == [u] {
      RawRoundTrip(u, tail);
    } else {
      assert s[1..] == e[1..] + tail;
      if |e| == 2 {
        assert s[1..][1..] == tail;
      } else {
        HexRoundTrip(u, tail);
      }
      assert ParseEscape(s[1..]) == Got(u, tail);
    }
  }

  lemma RawRoundTrip(u: CodeUnit, tail: Text)
    requires u >= 32 && u != QUOTE && u != BACKSLASH
    ensures ParseChars([u] + tail) == Prepend(u, ParseChars(tail))
  {
    assert ([u] + tail)[1..] == tail;
  }

  lemma Assoc<T>(a: seq<T>, b: seq<T>, c: seq<T>)
    ensures a + b + c == a + (b + c)
  {
  }

  lemma {:induction false} CharsRoundTrip(s: Text, rest: Text)
    ensures ParseChars(Chars(s) + ([QUOTE] + rest)) == Got(s, rest)
  {
    var close := [QUOTE] + rest;
    if s == [] {
      assert close[1..] == rest;
      assert Chars(s) + close == close;
    } else if |s| >= 2 && IsHigh(s[0]) && IsLow(s[1]) {
      CharsRoundTrip(s[2..], rest);
      Assoc([s[0], s[1]], Chars(s[2..]), close);
      assert [s[0]] + ([s[1]] + s[2..]) == s;
    } else {
      CharsRoundTrip(s[1..], rest);
      EscapeRoundTrip(s[0], Chars(s[1..]) + close);
      Assoc(Escape(s[0]), Chars(s[1..]), close);
      assert [s[0]] + s[1..] == s;
    }
  }

  lemma {:induction false} NumPrefixAppend(t: Text, rest: Text)
    requires forall i :: 0 <= i < |t| ==> IsNumUnit(t[i])
    requires rest == [] || !IsNumUnit(rest[0])
    ensures NumPrefix(t + rest) == |t|
  {
    if t == [] {
      assert t + rest == rest;
    } else {
      NumPrefixAppend(t[1..], rest);
      assert (t + rest)[1..] == t[1..] + rest;
    }
  }

  lemma NumRoundTrip(n: NumText, rest: Text)
    requires rest == [] || !IsNumUnit(rest[0])
    ensures ParseValue(n + rest) == Got(Num(n), rest)
  {
    var s := n + rest;
    NumPrefixAppend(n, rest);
    assert s[..|n|] == n && s[|n|..] == rest;
    assert s[0] == n[0] && NULL_TEXT[0] == 110 && TRUE_TEXT[0] == 116 && FALSE_TEXT[0] == 102;
  }

  lemma StringRoundTrip(t: Text, rest: Text)
    ensures ParseValue(Quote(t) + rest) == Got(Str(t), rest)
  {
    CharsRoundTrip(t, rest);
    QuoteTail(t, rest);
  }

  lemma QuoteTail(t: Text, rest: Text)
    ensures (Quote(t) + rest)[1..] == Chars(t) + ([QUOTE] + rest)
  {
  }

  lemma ArrayRoundTrip(items: seq<Json>, rest: Text)
    requires items != [] ==> ParseItems(StringifyItems(items) + rest) == Got(items, rest)
    ensures ParseValue(Stringify(Arr(items)) + rest) == Got(Arr(items), rest)
  {
    if items == [] {
      assert (Stringify(Arr(items)) + rest)[2..] == rest;
    } else {
      Assoc([OPEN_BRACKET], StringifyItems(items), rest);
      assert ([OPEN_BRACKET] + (StringifyItems(items) + rest))[1..] == StringifyItems(items) + rest;
    }
  }

  lemma ObjectRoundTrip(ms: seq<Member>, rest: Text)
    requires ms != [] ==> ParseMembers(StringifyMembers(ms) + rest) == Got(ms, rest)
    ensures ParseValue(Stringify(Obj(ms)) + rest) == Got(Obj(ms), rest)
  {
    if ms == [] {
      assert (Stringify(Obj(ms)) + rest)[2..] == rest;
    } else {
      Assoc([OPEN_BRACE], StringifyMembers(ms), rest);
      assert ([OPEN_BRACE] + (StringifyMembers(ms) + rest))[1..] == StringifyMembers(ms) + rest;
      assert StringifyMembers(ms)[0] == QUOTE;
    }
  }

  /** Reading printed text back gives the value and leaves what followed it. */
  lemma {:induction false} ValueRoundTrip(v: Json, rest: Text)
    requires rest == [] || !IsNumUnit(rest[0])
    ensures ParseValue(Stringify(v) + rest) == Got(v, rest)
    decreases v, 1
  {
    match v
    case Null =>
    case Bool(_) =>
    case Num(n) => NumRoundTrip(n, rest);
    case Str(t) => StringRoundTrip(t, rest);
    case Arr(items) =>
      if items != [] { ItemsRoundTrip(items, rest); }
      ArrayRoundTrip(items, rest);
    case Obj(ms) =>
      if ms != [] { MembersRoundTrip(ms, rest); }
      ObjectRoundTrip(ms, rest);
  }

  lemma {:induction false} ItemsRoundTrip(items: seq<Json>, rest: Text)
    requires items != []
    ensures ParseItems(StringifyItems(items) + rest) == Got(items, rest)
    decreases items, 0
  {
    var tail := if |items| == 1 then [CLOSE_BRACKET] + rest else [COMMA] + (StringifyItems(items[1..]) + rest);
    assert StringifyItems(items) + rest == Stringify(items[0]) + tail;
    ValueRoundTrip(items[0], tail);
    assert items == [items[0]] + items[1..];
    if |items| == 1 {
      assert tail[1..] == rest && items == [items[0]];
    } else {
      ItemsRoundTrip(items[1..], rest);
      assert tail[1..] == StringifyItems(items[1..]) + rest;
    }
  }

  lemma {:induction false} MembersRoundTrip(ms: seq<Member>, rest: Text)
    requires ms != []
    ensures ParseMembers(StringifyMembers(ms) + rest) == Got(ms, rest)
    decreases ms, 0
  {
    if |ms| == 1 {
      ValueRoundTrip(ms[0].value, [CLOSE_BRACE] + rest);
      MemberStart(ms[0], [CLOSE_BRACE], rest);
      assert ([CLOSE_BRACE] + rest)[1..] == rest;
      assert ms == [ms[0]];
    } else {
      var more := StringifyMembers(ms[1..]);
      MembersRoundTrip(ms[1..], rest);
      Assoc([COMMA], more, rest);
      ValueRoundTrip(ms[0].value, [COMMA] + more + rest);
      MemberStart(ms[0], [COMMA] + more, rest);
      assert [ms[0]] + ms[1..] == ms;
    }
  }

  lemma Assoc5<T>(a: seq<T>, b: seq<T>, c: seq<T>, d: seq<T>, e: seq<T>)
    ensures a + b + c + d + e == a + (b + (c + (d + e)))
  {
  }

  /** Parsing one printed member, given how its value reads, continues after the value. */
  lemma MemberStart(m: Member, close: Text, rest: Text)
    requires ParseValue(Stringify(m.value) + (close + rest)) == Got(m.value, close + rest)
    ensures ParseMembers(Quote(m.key) + [COLON] + Stringify(m.value) + close + rest) ==
            AfterMember(m, close + rest)
  {
    var afterKey := [COLON] + (Stringify(m.value) + (close + rest));
    var s := Quote(m.key) + afterKey;
    Assoc5(Quote(m.key), [COLON], Stringify(m.value), close, rest);
    CharsRoundTrip(m.key, afterKey);
    QuoteTail(m.key, afterKey);
    assert s[0] == QUOTE;
    assert afterKey[1..] == Stringify(m.value) + (close + rest);
  }

  /** `JSON.parse(JSON.stringify(v))`, which prepares metadata for storage, is the identity. */
  lemma ParseStringify(v: Json)
    ensures Parse(Stringify(v)) == Some(v)
  {
    ValueRoundTrip(v, []);
    assert Stringify(v) + [] == Stringify(v);
  }

  // ------------------------------------------------------------ the text itself

  function Ascii(s: string): (t: Text)
    requires forall i :: 0 <= i < |s| ==> s[i] as int < 128
    ensures |t| == |s| && forall i :: 0 <= i < |s| ==> t[i] as int == s[i] as int
  {
    seq(|s|, i requires 0 <= i < |s| => s[i] as int as CodeUnit)
  }

  function Joined(texts: seq<Text>): Text {
    if |texts| == 0 then [] else if |texts| == 1 then texts[0] else texts[0] + Ascii(",") + Joined(texts[1..])
  }

  function ItemTexts(items: seq<Json>): seq<Text> {
    if items == [] then [] else [Stringify(items[0])] + ItemTexts(items[1..])
  }

  function MemberTexts(ms: seq<Member>): seq<Text> {
    if ms == [] then []
    else [Quote(ms[0].key) + Ascii(":") + Stringify(ms[0].value)] + MemberTexts(ms[1..])
  }

  lemma {:induction false} ItemsText(items: seq<Json>)
    requires items != []
    ensures StringifyItems(items) == Joined(ItemTexts(items)) + Ascii("]")
  {
    assert Ascii(",") == [COMMA] && Ascii("]") == [CLOSE_BRACKET];
    assert ItemTexts(items)[1..] == ItemTexts(items[1..]);
    if |items| == 1 {
      assert items[1..] == [];
    } else {
      ItemsText(items[1..]);
      Assoc(Stringify(items[0]) + [COMMA], Joined(ItemTexts(items[1..])), Ascii("]"));
      Assoc(Stringify(items[0]), [COMMA], StringifyItems(items[1..]));
    }
  }

  lemma {:induction false} MembersText(ms: seq<Member>)
    requires ms != []
    ensures StringifyMembers(ms) == Joined(MemberTexts(ms)) + Ascii("}")
  {
    assert Ascii(",") == [COMMA] && Ascii("}") == [CLOSE_BRACE] && Ascii(":") == [COLON];
    assert MemberTexts(ms)[1..] == MemberTexts(ms[1..]);
    var first := Quote(ms[0].key) + [COLON] + Stringify(ms[0].value);
    if |ms| == 1 {
      assert ms[1..] == [];
    } else {
      MembersText(ms[1..]);
      Assoc(first + [COMMA], Joined(MemberTexts(ms[1..])), Ascii("}"));
      Assoc(first, [COMMA], StringifyMembers(ms[1..]));
    }
  }

  /** The text of a value, in characters: literals, brackets, commas, colons, quotes. */
  lemma TextOf(v: Json)
    ensures v == Null ==> Stringify(v) == Ascii("null")
    ensures v == Bool(true) ==> Stringify(v) == Ascii("true")
    ensures v == Bool(false) ==> Stringify(v) == Ascii("false")
    ensures v.Str? ==> Stringify(v) == Ascii("\"") + Chars(v.s) + Ascii("\"")
    ensures v.Arr? ==> Stringify(v) == Ascii("[") + (Joined(ItemTexts(v.items)) + Ascii("]"))
    ensures v.Obj? ==> Stringify(v) == Ascii("{") + (Joined(MemberTexts(v.members)) + Ascii("}"))
  {
    assert Ascii("[") == [OPEN_BRACKET] && Ascii("]") == [CLOSE_BRACKET];
    assert Ascii("{") == [OPEN_BRACE] && Ascii("}") == [CLOSE_BRACE] && Ascii("\"") == [QUOTE];
    if v.Arr? && v.items != [] { ItemsText(v.items); }
    if v.Obj? && v.members != [] { MembersText(v.members); }
  }

  /** A unit of a string is escaped as section 7 of RFC 8259 has it, by letter where there
      is one; the other controls and lone surrogates by four lower-case hex digits; and
      every other unit stands for itself. */
  lemma EscapeOf(u: CodeUnit)
    ensures u == 8 ==> Escape(u) == Ascii("\\b")
    ensures u == 9 ==> Escape(u) == Ascii("\\t")
    ensures u == 10 ==> Escape(u) == Ascii("\\n")
    ensures u == 12 ==> Escape(u) == Ascii("\\f")
    ensures u == 13 ==> Escape(u) == Ascii("\\r")
    ensures u == 34 ==> Escape(u) == Ascii("\\\"")
    ensures u == 92 ==> Escape(u) == Ascii("\\\\")
    ensures u !in {8, 9, 10, 12, 13, 34, 92} && (u < 32 || 0xD800 <= u < 0xE000) ==>
              |Escape(u)| == 6 && Escape(u)[..2] == Ascii("\\u")
              && forall i :: 2 <= i < 6 ==> 48 <= Escape(u)[i] <= 57 || 97 <= Escape(u)[i] <= 102
    ensures u !in {34, 92} && 32 <= u && !(0xD800 <= u < 0xE000) ==> Escape(u) == [u]
  {
  }

  /** A surrogate pair is kept as it is. */
  lemma PairKept(high: CodeUnit, low: CodeUnit, rest: Text)
    requires 0xD800 <= high < 0xDC00 <= low < 0xE000
    ensures Chars([high, low] + rest) == [high, low] + Chars(rest)
  {
    assert ([high, low] + rest)[2..] == rest;
  }

  // ----------------------------------------------------------------- sorting

  /** Strict order of UTF-16 code units, as in section 3.2.3 of RFC 8785. */
  predicate Less(a: Text, b: Text) {
    |b| > 0 && (|a| == 0 || a[0] < b[0] || (a[0] == b[0] && Less(a[1..], b[1..])))
  }

  lemma {:induction false} LessTrichotomy(a: Text, b: Text)
    ensures a == b || Less(a, b) || Less(b, a)
    ensures !(Less(a, b) && Less(b, a))
    ensures !Less(a, a)
  {
    if |a| > 0 && |b| > 0 {
      LessTrichotomy(a[1..], b[1..]);
      assert a == [a[0]] + a[1..] && b == [b[0]] + b[1..];
    } else if |a| > 0 {
      LessTrichotomy(a[1..], a[1..]);
    }
  }

  lemma {:induction false} LessTransitive(a: Text, b: Text, c: Text)
    requires Less(a, b) && Less(b, c)
    ensures Less(a, c)
  {
    if |a| > 0 && a[0] == b[0] && b[0] == c[0] {
      LessTransitive(a[1..], b[1..], c[1..]);
    }
  }

  function Insert(m: Member, ms: seq<Member>): seq<Member> {
    if ms == [] || Less(m.key, ms[0].key) then [m] + ms else [ms[0]] + Insert(m, ms[1..])
  }

  function SortMembers(ms: seq<Member>): seq<Member> {
    if ms == [] then [] else Insert(ms[0], SortMembers(ms[1..]))
  }

  /** The number that a string of decimal digits stands for. */
  function Number(digits: Text): int {
    if digits == [] then 0 else 10 * Number(digits[..|digits| - 1]) + (digits[|digits| - 1] as int - 48)
  }

  predicate IsDecimal(k: Text) {
    |k| > 0 && (forall i :: 0 <= i < |k| ==> IsDigit(k[i])) && (k[0] == 48 ==> |k| == 1)
  }

  /** A key such as "17" that the runtime enumerates as an array index: a decimal without
      leading zeros, below 2^32 - 1. */
  predicate IsIndexKey(k: Text) {
    IsDecimal(k) && Number(k) < 0xFFFF_FFFF
  }

  function InsertIndex(m: Member, ms: seq<Member>): seq<Member> {
    if ms == [] || Number(m.key) < Number(ms[0].key) then [m] + ms else [ms[0]] + InsertIndex(m, ms[1..])
  }

  function IndexMembers(ms: seq<Member>): seq<Member> {
    if ms == [] then []
    else if IsIndexKey(ms[0].key) then InsertIndex(ms[0], IndexMembers(ms[1..]))
    else IndexMembers(ms[1..])
  }

  function OtherMembers(ms: seq<Member>): seq<Member> {
    if ms == [] then []
    else if IsIndexKey(ms[0].key) then OtherMembers(ms[1..])
    else [ms[0]] + OtherMembers(ms[1..])
  }

  /** The order in which an object built by these assignments is enumerated:
      index keys ascending, then the other keys as they were assigned. */
  function EnumerationOrder(ms: seq<Member>): seq<Member> {
    IndexMembers(ms) + OtherMembers(ms)
  }

  function SortKeys(v: Json): Json
    decreases v, 1
  {
    match v
    case Arr(items) => Arr(SortItems(items))
    case Obj(ms) => Obj(EnumerationOrder(SortMembers(SortValues(ms))))
    case _ => v
  }

  function SortItems(items: seq<Json>): seq<Json>
    decreases items, 0
  {
    if items == [] then [] else [SortKeys(items[0])] + SortItems(items[1..])
  }

  /** Every member with its value sorted; an assignment to `__proto__` leaves no member. */
  function SortValues(ms: seq<Member>): seq<Member>
    decreases ms, 0
  {
    if ms == [] then []
    else if ms[0].key == PROTO then SortValues(ms[1..])
    else [Member(ms[0].key, SortKeys(ms[0].value))] + SortValues(ms[1..])
  }

  function CanonicalText(v: Json): Text {
    Stringify(SortKeys(v))
  }

  // ------------------------------------------------- what sorting preserves

  /** Both sequences hold the same members, in whatever order. */
  ghost predicate SameMembers(a: seq<Member>, b: seq<Member>) {
    (forall m :: m in a ==> m in b) && (forall m :: m in b ==> m in a)
  }

  /** Members with equal keys are equal. */
  ghost predicate Functional(ms: seq<Member>) {
    forall m, n :: m in ms && n in ms && m.key == n.key ==> m == n
  }

  ghost predicate StrictlySorted(ms: seq<Member>) {
    forall i, j :: 0 <= i < j < |ms| ==> Less(ms[i].key, ms[j].key)
  }

  lemma {:induction false} InsertKeeps(m: Member, ms: seq<Member>)
    ensures SameMembers(Insert(m, ms), [m] + ms)
  {
    if ms != [] && !Less(m.key, ms[0].key) {
      InsertKeeps(m, ms[1..]);
      assert ms == [ms[0]] + ms[1..];
    }
  }

  lemma {:induction false} SortKeeps(ms: seq<Member>)
    ensures SameMembers(SortMembers(ms), ms)
  {
    if ms != [] {
      SortKeeps(ms[1..]);
      InsertKeeps(ms[0], SortMembers(ms[1..]));
      assert ms == [ms[0]] + ms[1..];
    }
  }

  lemma {:induction false} InsertSorted(m: Member, ms: seq<Member>)
    requires StrictlySorted(ms) && forall n :: n in ms ==> n.key != m.key
    ensures StrictlySorted(Insert(m, ms))
  {
    if ms == [] {
    } else if Less(m.key, ms[0].key) {
      forall j | 0 <= j < |ms| ensures Less(m.key, ms[j].key) {
        if j > 0 { LessTransitive(m.key, ms[0].key, ms[j].key); }
      }
    } else {
      LessTrichotomy(m.key, ms[0].key);
      assert ms[0] in ms;
      var t := Insert(m, ms[1..]);
      assert forall n :: n in ms[1..] ==> n in ms;
      InsertSorted(m, ms[1..]);
      InsertKeeps(m, ms[1..]);
      forall j | 0 <= j < |t| ensures Less(ms[0].key, t[j].key) {
        assert t[j] in t;
        assert t[j] in [m] + ms[1..];
        if t[j] != m {
          var k :| 0 <= k < |ms[1..]| && ms[1..][k] == t[j];
          assert Less(ms[0].key, ms[k + 1].key);
        }
      }
    }
  }

  lemma {:induction false} SortSorts(ms: seq<Member>)
    requires DistinctKeys(ms)
    ensures StrictlySorted(SortMembers(ms))
  {
    if ms != [] {
      SortSorts(ms[1..]);
      SortKeeps(ms[1..]);
      forall n | n in SortMembers(ms[1..]) ensures n.key != ms[0].key {
        assert n in ms[1..];
        var k :| 0 <= k < |ms[1..]| && ms[1..][k] == n;
        assert ms[k + 1].key != ms[0].key;
      }
      InsertSorted(ms[0], SortMembers(ms[1..]));
    }
  }

  /** A strictly sorted sequence is determined by its members. */
  lemma {:induction false} SortedUnique(a: seq<Member>, b: seq<Member>)
    requires StrictlySorted(a) && StrictlySorted(b) && SameMembers(a, b)
    ensures a == b
  {
    assert a != [] ==> a[0] in b;
    assert b != [] ==> b[0] in a;
    if a != [] {
      LessTrichotomy(a[0].key, b[0].key);
      var i :| 0 <= i < |b| && b[i] == a[0];
      var j :| 0 <= j < |a| && a[j] == b[0];
      assert a[0] == b[0];
      TailMembers(a, b);
      TailMembers(b, a);
      SortedUnique(a[1..], b[1..]);
      assert a == [a[0]] + a[1..] && b == [b[0]] + b[1..];
    }
  }

  lemma TailMembers(a: seq<Member>, b: seq<Member>)
    requires StrictlySorted(a) && a != [] && b != [] && a[0] == b[0]
    requires forall m :: m in a ==> m in b
    ensures forall m :: m in a[1..] ==> m in b[1..]
  {
    forall m | m in a[1..] ensures m in b[1..] {
      var i :| 0 <= i < |a[1..]| && a[1..][i] == m;
      assert a[i + 1] == m && m in a;
      LessTrichotomy(a[0].key, a[0].key);
      assert Less(a[0].key, a[i + 1].key);
      assert b == [b[0]] + b[1..];
    }
  }

  lemma {:induction false} InsertIndexKeeps(m: Member, ms: seq<Member>)
    ensures SameMembers(InsertIndex(m, ms), [m] + ms)
  {
    if ms != [] && Number(m.key) >= Number(ms[0].key) {
      InsertIndexKeeps(m, ms[1..]);
      assert ms == [ms[0]] + ms[1..];
    }
  }

  lemma {:induction false} EnumerationKeeps(ms: seq<Member>)
    ensures SameMembers(EnumerationOrder(ms), ms)
  {
    if ms != [] {
      EnumerationKeeps(ms[1..]);
      assert ms == [ms[0]] + ms[1..];
      var t := ms[1..];
      assert SameMembers(IndexMembers(t) + OtherMembers(t), t);
      if IsIndexKey(ms[0].key) {
        InsertIndexKeeps(ms[0], IndexMembers(t));
      }
    }
  }

  lemma {:induction false} SortValuesMembers(ms: seq<Member>)
    ensures forall i :: 0 <= i < |ms| && ms[i].key != PROTO ==>
              Member(ms[i].key, SortKeys(ms[i].value)) in SortValues(ms)
    ensures forall m :: m in SortValues(ms) ==>
              exists i :: 0 <= i < |ms| && ms[i].key == m.key != PROTO && m.value == SortKeys(ms[i].value)
  {
    if ms != [] {
      SortValuesMembers(ms[1..]);
      forall m | m in SortValues(ms)
        ensures exists i :: 0 <= i < |ms| && ms[i].key == m.key != PROTO && m.value == SortKeys(ms[i].value)
      {
        if m in SortValues(ms[1..]) {
          var i :| 0 <= i < |ms[1..]| && ms[1..][i].key == m.key != PROTO && m.value == SortKeys(ms[1..][i].value);
          assert ms[i + 1].key == m.key;
        } else {
          assert ms[0].key == m.key;
        }
      }
      forall i | 0 <= i < |ms| && ms[i].key != PROTO
        ensures Member(ms[i].key, SortKeys(ms[i].value)) in SortValues(ms)
      {
        if i > 0 { assert ms[i] == ms[1..][i - 1]; }
      }
    }
  }

  lemma {:induction false} SortValuesDistinct(ms: seq<Member>)
    requires DistinctKeys(ms)
    ensures DistinctKeys(SortValues(ms))
  {
    if ms != [] {
      SortValuesDistinct(ms[1..]);
      SortValuesMembers(ms[1..]);
      var t := SortValues(ms[1..]);
      forall j | 0 <= j < |t| ensures t[j].key != ms[0].key {
        assert t[j] in t;
        var i :| 0 <= i < |ms[1..]| && ms[1..][i].key == t[j].key;
        assert ms[i + 1].key == t[j].key;
      }
    }
  }

  lemma {:induction false} MemberMeaningsKeys(ms: seq<Member>, drop: set<Text>)
    ensures forall k :: k in MemberMeanings(ms, drop) ==> k !in drop && exists m :: m in ms && m.key == k
  {
    if ms != [] {
      MemberMeaningsKeys(ms[1..], drop);
      forall k | k in MemberMeanings(ms, drop) ensures k !in drop && exists m :: m in ms && m.key == k {
        if k in MemberMeanings(ms[1..], drop) {
          var m :| m in ms[1..] && m.key == k;
          assert m in ms;
        } else {
          assert ms[0] in ms && ms[0].key == k;
        }
      }
    }
  }

  lemma {:induction false} MemberMeaningsValues(ms: seq<Member>, drop: set<Text>)
    requires Functional(ms)
    ensures forall m :: m in ms && m.key !in drop ==>
              m.key in MemberMeanings(ms, drop) && MemberMeanings(ms, drop)[m.key] == MeaningOf(m.value, drop)
  {
    if ms != [] {
      assert forall m :: m in ms[1..] ==> m in ms;
      MemberMeaningsValues(ms[1..], drop);
      assert ms == [ms[0]] + ms[1..];
      assert ms[0] in ms;
    }
  }

  lemma HasMeaning(ms: seq<Member>, drop: set<Text>, i: nat)
    requires Functional(ms) && i < |ms| && ms[i].key !in drop
    ensures ms[i].key in MemberMeanings(ms, drop)
    ensures MemberMeanings(ms, drop)[ms[i].key] == MeaningOf(ms[i].value, drop)
  {
    MemberMeaningsValues(ms, drop);
    assert ms[i] in ms;
  }

  lemma IndexOfKey(ms: seq<Member>, drop: set<Text>, k: Text) returns (i: nat)
    requires k in MemberMeanings(ms, drop)
    ensures i < |ms| && ms[i].key == k && k !in drop
  {
    MemberMeaningsKeys(ms, drop);
    var m :| m in ms && m.key == k;
    i :| 0 <= i < |ms| && ms[i] == m;
  }

  /** Member lists with one meaning give equal keys values with equal meanings. */
  lemma SameKeyedMeaning(ms: seq<Member>, ns: seq<Member>, drop: set<Text>, i: nat, j: nat)
    requires Functional(ms) && Functional(ns) && MemberMeanings(ms, drop) == MemberMeanings(ns, drop)
    requires i < |ms| && j < |ns| && ms[i].key == ns[j].key && ms[i].key !in drop
    ensures MeaningOf(ms[i].value, drop) == MeaningOf(ns[j].value, drop)
  {
    HasMeaning(ms, drop, i);
    HasMeaning(ns, drop, j);
  }

  lemma {:induction false} SortItemsAt(items: seq<Json>)
    ensures |SortItems(items)| == |items|
    ensures forall i :: 0 <= i < |items| ==> SortItems(items)[i] == SortKeys(items[i])
  {
    if items != [] {
      SortItemsAt(items[1..]);
      forall i | 0 <= i < |items| ensures SortItems(items)[i] == SortKeys(items[i]) {
        if i > 0 { assert items[i] == items[1..][i - 1]; }
      }
    }
  }

  lemma {:induction false} ItemMeaningsAt(items: seq<Json>, drop: set<Text>)
    ensures |ItemMeanings(items, drop)| == |items|
    ensures forall i :: 0 <= i < |items| ==> ItemMeanings(items, drop)[i] == MeaningOf(items[i], drop)
  {
    if items != [] {
      ItemMeaningsAt(items[1..], drop);
      forall i | 0 <= i < |items| ensures ItemMeanings(items, drop)[i] == MeaningOf(items[i], drop) {
        if i > 0 { assert items[i] == items[1..][i - 1]; }
      }
    }
  }

  /** Sorting keys changes nothing about a value but the members named `__proto__`. */
  lemma {:induction false} SortKeysMeaning(v: Json)
    requires WellFormed(v)
    ensures MeaningOf(SortKeys(v), {}) == MeaningOf(v, {PROTO})
    decreases v
  {
    match v
    case Arr(items) =>
      SortItemsAt(items);
      ItemMeaningsAt(items, {PROTO});
      ItemMeaningsAt(SortItems(items), {});
      forall i | 0 <= i < |items| ensures MeaningOf(SortKeys(items[i]), {}) == MeaningOf(items[i], {PROTO}) {
        SortKeysMeaning(items[i]);
      }
      assert ItemMeanings(SortItems(items), {}) == ItemMeanings(items, {PROTO});
    case Obj(ms) =>
      forall i | 0 <= i < |ms| ensures MeaningOf(SortKeys(ms[i].value), {}) == MeaningOf(ms[i].value, {PROTO}) {
        SortKeysMeaning(ms[i].value);
      }
      SortedMembersMeaning(ms);
    case _ =>
  }

  lemma SortedMembersMeaning(ms: seq<Member>)
    requires DistinctKeys(ms)
    requires forall i :: 0 <= i < |ms| ==> MeaningOf(SortKeys(ms[i].value), {}) == MeaningOf(ms[i].value, {PROTO})
    ensures MemberMeanings(EnumerationOrder(SortMembers(SortValues(ms))), {}) == MemberMeanings(ms, {PROTO})
  {
    var t := SortValues(ms);
    var r := EnumerationOrder(SortMembers(t));
    SortValuesDistinct(ms);
    SortKeeps(t);
    EnumerationKeeps(SortMembers(t));
    assert SameMembers(r, t);
    SameMembersMeaning(ms, r);
  }

  lemma SameMembersMeaning(ms: seq<Member>, r: seq<Member>)
    requires DistinctKeys(ms) && DistinctKeys(SortValues(ms)) && SameMembers(r, SortValues(ms))
    requires forall i :: 0 <= i < |ms| ==> MeaningOf(SortKeys(ms[i].value), {}) == MeaningOf(ms[i].value, {PROTO})
    ensures MemberMeanings(r, {}) == MemberMeanings(ms, {PROTO})
  {
    var a, b := MemberMeanings(r, {}), MemberMeanings(ms, {PROTO});
    forall k | k in a ensures k in b && a[k] == b[k] {
      var j := IndexOfKey(r, {}, k);
      HasMeaning(r, {}, j);
      assert r[j] in r;
      SortValuesFrom(ms, r[j]);
      var i :| 0 <= i < |ms| && ms[i].key == r[j].key != PROTO && r[j].value == SortKeys(ms[i].value);
      HasMeaning(ms, {PROTO}, i);
    }
    forall k | k in b ensures k in a {
      var i := IndexOfKey(ms, {PROTO}, k);
      SortValuesTo(ms, ms[i]);
      var m := Member(k, SortKeys(ms[i].value));
      assert m in r;
      var j :| 0 <= j < |r| && r[j] == m;
      HasMeaning(r, {}, j);
    }
  }

  lemma SortValuesFrom(ms: seq<Member>, m: Member)
    requires m in SortValues(ms)
    ensures exists i :: 0 <= i < |ms| && ms[i].key == m.key != PROTO && m.value == SortKeys(ms[i].value)
  {
    SortValuesMembers(ms);
  }

  lemma SortValuesTo(ms: seq<Member>, m: Member)
    requires m in ms && m.key != PROTO
    ensures Member(m.key, SortKeys(m.value)) in SortValues(ms)
  {
    SortValuesMembers(ms);
    var i :| 0 <= i < |ms| && ms[i] == m;
  }

  /** Values with the same meaning are sorted to the same value. */
  lemma {:induction false} SameMeaningSameSort(v: Json, w: Json)
    requires WellFormed(v) && WellFormed(w) && MeaningOf(v, {PROTO}) == MeaningOf(w, {PROTO})
    ensures SortKeys(v) == SortKeys(w)
    decreases v
  {
    match v
    case Arr(items) =>
      ItemMeaningsAt(items, {PROTO});
      ItemMeaningsAt(w.items, {PROTO});
      SortItemsAt(items);
      SortItemsAt(w.items);
      forall i | 0 <= i < |items| ensures SortKeys(items[i]) == SortKeys(w.items[i]) {
        SameMeaningSameSort(items[i], w.items[i]);
      }
      assert SortItems(items) == SortItems(w.items);
    case Obj(ms) =>
      var ns := w.members;
      forall i, j | 0 <= i < |ms| && 0 <= j < |ns| && ms[i].key == ns[j].key != PROTO
        ensures SortKeys(ms[i].value) == SortKeys(ns[j].value)
      {
        SameKeyedMeaning(ms, ns, {PROTO}, i, j);
        SameMeaningSameSort(ms[i].value, ns[j].value);
      }
      SameSortedMembers(ms, ns);
      SameSortedMembers(ns, ms);
      SameSortedValues(ms, ns);
    case _ =>
  }

  lemma SameSortedValues(ms: seq<Member>, ns: seq<Member>)
    requires DistinctKeys(ms) && DistinctKeys(ns) && SameMembers(SortValues(ms), SortValues(ns))
    ensures SortMembers(SortValues(ms)) == SortMembers(SortValues(ns))
  {
    var a, b := SortValues(ms), SortValues(ns);
    SortKeeps(a);
    SortKeeps(b);
    SortValuesDistinct(ms);
    SortValuesDistinct(ns);
    SortSorts(a);
    SortSorts(b);
    SortedUnique(SortMembers(a), SortMembers(b));
  }

  lemma SameSortedMembers(ms: seq<Member>, ns: seq<Member>)
    requires Functional(ms) && MemberMeanings(ms, {PROTO}).Keys == MemberMeanings(ns, {PROTO}).Keys
    requires forall i, j :: 0 <= i < |ms| && 0 <= j < |ns| && ms[i].key == ns[j].key != PROTO ==>
               SortKeys(ms[i].value) == SortKeys(ns[j].value)
    requires Functional(ns)
    ensures forall m :: m in SortValues(ms) ==> m in SortValues(ns)
  {
    forall m | m in SortValues(ms) ensures m in SortValues(ns) {
      SortValuesFrom(ms, m);
      var i :| 0 <= i < |ms| && ms[i].key == m.key != PROTO && m.value == SortKeys(ms[i].value);
      HasMeaning(ms, {PROTO}, i);
      var j := IndexOfKey(ns, {PROTO}, m.key);
      SortValuesTo(ns, ns[j]);
      assert m == Member(ns[j].key, SortKeys(ns[j].value));
    }
  }

  // ------------------------------------------------------ the order of the keys

  /** `a` comes before `b` at the first code unit in which they differ: there `a` ends, or
      has the smaller unit. */
  ghost predicate Before(a: Text, b: Text) {
    exists k :: 0 <= k < |b| && DiffersFirst(a, b, k)
  }

  predicate DiffersFirst(a: Text, b: Text, k: nat)
    requires k < |b|
  {
    k <= |a| && a[..k] == b[..k] && (k == |a| || a[k] < b[k])
  }

  lemma {:induction false} LessExactly(a: Text, b: Text)
    ensures Less(a, b) <==> Before(a, b)
  {
    if |a| > 0 && |b| > 0 && a[0] == b[0] {
      LessExactly(a[1..], b[1..]);
      forall k | 0 < k < |b| ensures DiffersFirst(a, b, k) <==> DiffersFirst(a[1..], b[1..], k - 1) {
        if k <= |a| {
          assert a[..k] == [a[0]] + a[1..][..k - 1] && b[..k] == [b[0]] + b[1..][..k - 1];
        }
      }
      assert !DiffersFirst(a, b, 0);
      if Before(a[1..], b[1..]) {
        var k :| 0 <= k < |b[1..]| && DiffersFirst(a[1..], b[1..], k);
        assert DiffersFirst(a, b, k + 1);
      }
    } else if |b| > 0 {
      forall k | 0 < k < |b| ensures !DiffersFirst(a, b, k) {
        if |a| > 0 && k <= |a| { assert a[..k][0] == a[0] && b[..k][0] == b[0]; }
      }
      assert DiffersFirst(a, b, 0) <==> |a| == 0 || a[0] < b[0];
    }
  }

  /** Index keys come first and ascend as numbers; the others ascend by code unit. */
  ghost predicate KeyBefore(a: Text, b: Text) {
    if IsArrayIndex(a) then IsArrayIndex(b) ==> Number(a) < Number(b)
    else !IsArrayIndex(b) && Before(a, b)
  }

  /** Digits without a leading zero, for a number of at most 2^32 - 2. */
  predicate IsArrayIndex(k: Text) {
    && k != [] && (forall i :: 0 <= i < |k| ==> 48 <= k[i] <= 57) && (k[0] == 48 ==> k == [48])
    && Number(k) <= 4294967294
  }

  lemma IndexKeyExactly(k: Text)
    ensures IsIndexKey(k) <==> IsArrayIndex(k)
  {
  }

  ghost predicate InKeyOrder(ms: seq<Member>) {
    forall i, j :: 0 <= i < j < |ms| ==> KeyBefore(ms[i].key, ms[j].key)
  }

  /** Every object in the value, at every depth, has its keys in order. */
  ghost predicate KeysInOrder(v: Json) {
    match v
    case Arr(items) => forall i :: 0 <= i < |items| ==> KeysInOrder(items[i])
    case Obj(ms) => InKeyOrder(ms) && forall i :: 0 <= i < |ms| ==> KeysInOrder(ms[i].value)
    case _ => true
  }

  lemma {:induction false} DecimalPositive(k: Text)
    requires IsDecimal(k)
    ensures Number(k) >= 0 && (Number(k) == 0 <==> k == [48])
  {
    var front := k[..|k| - 1];
    if front != [] { DecimalPositive(front); }
  }

  /** Without leading zeros a number is written in one way. */
  lemma {:induction false} DecimalUnique(a: Text, b: Text)
    requires IsDecimal(a) && IsDecimal(b) && Number(a) == Number(b)
    ensures a == b
    decreases |a|
  {
    var n, m := |a| - 1, |b| - 1;
    SameDigits(Number(a[..n]), a[n] as int - 48, Number(b[..m]), b[m] as int - 48);
    if n > 0 { DecimalPositive(a[..n]); }
    if m > 0 { DecimalPositive(b[..m]); }
    if n > 0 && m > 0 { DecimalUnique(a[..n], b[..m]); }
    assert a == a[..n] + [a[n]] && b == b[..m] + [b[m]];
  }

  lemma SameDigits(x: int, c: int, y: int, d: int)
    requires 10 * x + c == 10 * y + d && 0 <= c < 10 && 0 <= d < 10
    ensures x == y && c == d
  {
  }

  ghost predicate NumbersAscend(ms: seq<Member>) {
    forall i, j :: 0 <= i < j < |ms| ==> Number(ms[i].key) < Number(ms[j].key)
  }

  lemma InsertIndexAbove(x: int, m: Member, ms: seq<Member>)
    requires x < Number(m.key) && forall i :: 0 <= i < |ms| ==> x < Number(ms[i].key)
    ensures forall j :: 0 <= j < |InsertIndex(m, ms)| ==> x < Number(InsertIndex(m, ms)[j].key)
  {
    InsertIndexKeeps(m, ms);
    var t := InsertIndex(m, ms);
    forall j | 0 <= j < |t| ensures x < Number(t[j].key) {
      assert t[j] in [m] + ms;
    }
  }

  lemma {:induction false} InsertIndexSorted(m: Member, ms: seq<Member>)
    requires NumbersAscend(ms) && forall n :: n in ms ==> Number(n.key) != Number(m.key)
    ensures NumbersAscend(InsertIndex(m, ms))
  {
    if ms != [] && Number(m.key) >= Number(ms[0].key) {
      assert ms == [ms[0]] + ms[1..] && ms[0] in ms;
      InsertIndexSorted(m, ms[1..]);
      InsertIndexAbove(Number(ms[0].key), m, ms[1..]);
    }
  }

  lemma {:induction false} IndexMembersIn(ms: seq<Member>)
    ensures forall m :: m in IndexMembers(ms) ==> m in ms && IsIndexKey(m.key)
    ensures forall m :: m in OtherMembers(ms) ==> m in ms && !IsIndexKey(m.key)
  {
    if ms != [] {
      IndexMembersIn(ms[1..]);
      assert ms == [ms[0]] + ms[1..];
      InsertIndexKeeps(ms[0], IndexMembers(ms[1..]));
    }
  }

  lemma {:induction false} IndexMembersSorted(ms: seq<Member>)
    requires DistinctKeys(ms)
    ensures NumbersAscend(IndexMembers(ms))
  {
    if ms != [] {
      IndexMembersSorted(ms[1..]);
      IndexMembersIn(ms[1..]);
      if IsIndexKey(ms[0].key) {
        forall n | n in IndexMembers(ms[1..]) ensures Number(n.key) != Number(ms[0].key) {
          var k :| 0 <= k < |ms[1..]| && ms[1..][k] == n;
          assert ms[k + 1].key != ms[0].key;
          if Number(n.key) == Number(ms[0].key) { DecimalUnique(n.key, ms[0].key); }
        }
        InsertIndexSorted(ms[0], IndexMembers(ms[1..]));
      }
    }
  }

  lemma {:induction false} OtherMembersSorted(ms: seq<Member>)
    requires StrictlySorted(ms)
    ensures StrictlySorted(OtherMembers(ms))
  {
    if ms != [] {
      OtherMembersSorted(ms[1..]);
      IndexMembersIn(ms[1..]);
      var t := OtherMembers(ms[1..]);
      forall j | 0 <= j < |t| ensures Less(ms[0].key, t[j].key) {
        assert t[j] in ms[1..];
        var k :| 0 <= k < |ms[1..]| && ms[1..][k] == t[j];
        assert ms[k + 1] == t[j];
      }
    }
  }

  lemma EnumerationSorted(ms: seq<Member>)
    requires StrictlySorted(ms)
    ensures InKeyOrder(EnumerationOrder(ms))
  {
    SortedDistinct(ms);
    IndexMembersIn(ms);
    IndexMembersSorted(ms);
    OtherMembersSorted(ms);
    var a, b := IndexMembers(ms), OtherMembers(ms);
    var r := EnumerationOrder(ms);
    forall i, j | 0 <= i < j < |r| ensures KeyBefore(r[i].key, r[j].key) {
      IndexKeyExactly(r[i].key);
      IndexKeyExactly(r[j].key);
      if i < |a| { assert a[i] in a; } else { assert b[i - |a|] in b; }
      if j < |a| { assert a[j] in a; } else { assert b[j - |a|] in b; }
      if i >= |a| { LessExactly(b[i - |a|].key, b[j - |a|].key); }
    }
  }

  lemma SortedDistinct(ms: seq<Member>)
    requires StrictlySorted(ms)
    ensures DistinctKeys(ms)
  {
    forall i, j | 0 <= i < j < |ms| ensures ms[i].key != ms[j].key {
      LessTrichotomy(ms[i].key, ms[j].key);
    }
  }

  /** Sorting puts the keys of every object in order, at every depth. */
  lemma {:induction false} SortKeysInOrder(v: Json)
    requires WellFormed(v)
    ensures KeysInOrder(SortKeys(v))
    decreases v
  {
    match v
    case Arr(items) =>
      SortItemsAt(items);
      forall i | 0 <= i < |items| ensures KeysInOrder(SortKeys(items[i])) { SortKeysInOrder(items[i]); }
    case Obj(ms) =>
      forall i | 0 <= i < |ms| ensures KeysInOrder(SortKeys(ms[i].value)) { SortKeysInOrder(ms[i].value); }
      SortedMembersInOrder(ms);
    case _ =>
  }

  lemma SortedMembersInOrder(ms: seq<Member>)
    requires DistinctKeys(ms) && forall i :: 0 <= i < |ms| ==> KeysInOrder(SortKeys(ms[i].value))
    ensures KeysInOrder(Obj(EnumerationOrder(SortMembers(SortValues(ms)))))
  {
    var t := SortValues(ms);
    var r := EnumerationOrder(SortMembers(t));
    SortValuesDistinct(ms);
    SortSorts(t);
    EnumerationSorted(SortMembers(t));
    SortKeeps(t);
    EnumerationKeeps(SortMembers(t));
    forall j | 0 <= j < |r| ensures KeysInOrder(r[j].value) {
      assert r[j] in SortMembers(t) && r[j] in t;
      SortValuesFrom(ms, r[j]);
    }
  }

  // ------------------------------------------------------------ main results

  /** The canonical text is the text of a value that means what the given one means and
      has its keys in order, at every depth. */
  lemma CanonicalTextIs(v: Json)
    requires WellFormed(v)
    ensures var w := Parse(CanonicalText(v));
            w.Some? && KeysInOrder(w.value) && MeaningOf(w.value, {}) == MeaningOf(v, {PROTO})
  {
    ParseStringify(SortKeys(v));
    SortKeysInOrder(v);
    SortKeysMeaning(v);
  }

  /** Two values have the same canonical text exactly when they are the same
      value up to key order at every depth and up to members named `__proto__`. */
  lemma CanonicalTextExact(v: Json, w: Json)
    requires WellFormed(v) && WellFormed(w)
    ensures CanonicalText(v) == CanonicalText(w) <==> MeaningOf(v, {PROTO}) == MeaningOf(w, {PROTO})
  {
    if CanonicalText(v) == CanonicalText(w) {
      ParseStringify(SortKeys(v));
      ParseStringify(SortKeys(w));
      SortKeysMeaning(v);
      SortKeysMeaning(w);
    }
    if MeaningOf(v, {PROTO}) == MeaningOf(w, {PROTO}) {
      SameMeaningSameSort(v, w);
    }
  }

  /** Where no object has a member named `__proto__`, nothing is lost at all. */
  lemma CanonicalTextFaithful(v: Json, w: Json)
    requires WellFormed(v) && WellFormed(w) && Avoids(v, {PROTO}) && Avoids(w, {PROTO})
    ensures CanonicalText(v) == CanonicalText(w) <==> MeaningOf(v, {}) == MeaningOf(w, {})
  {
    CanonicalTextExact(v, w);
    AvoidsMeaning(v, {PROTO});
    AvoidsMeaning(w, {PROTO});
  }

  lemma {:induction false} AvoidsMeaning(v: Json, drop: set<Text>)
    requires Avoids(v, drop)
    ensures MeaningOf(v, drop) == MeaningOf(v, {})
    decreases v, 1
  {
    match v
    case Arr(items) =>
      ItemMeaningsAt(items, drop);
      ItemMeaningsAt(items, {});
      forall i | 0 <= i < |items| ensures MeaningOf(items[i], drop) == MeaningOf(items[i], {}) {
        AvoidsMeaning(items[i], drop);
      }
      assert ItemMeanings(items, drop) == ItemMeanings(items, {});
    case Obj(ms) => AvoidsMembersMeaning(ms, drop);
    case _ =>
  }

  lemma {:induction false} AvoidsMembersMeaning(ms: seq<Member>, drop: set<Text>)
    requires forall i :: 0 <= i < |ms| ==> ms[i].key !in drop && Avoids(ms[i].value, drop)
    ensures MemberMeanings(ms, drop) == MemberMeanings(ms, {})
    decreases ms, 0
  {
    if ms != [] {
      AvoidsMeaning(ms[0].value, drop);
      AvoidsMembersMeaning(ms[1..], drop);
    }
  }

  /** Values that mean the same still do when some members stop counting. */
  lemma {:induction false} SameMeaningDropping(v: Json, w: Json, drop: set<Text>)
    requires WellFormed(v) && WellFormed(w) && MeaningOf(v, {}) == MeaningOf(w, {})
    ensures MeaningOf(v, drop) == MeaningOf(w, drop)
    decreases v
  {
    match v
    case Arr(items) =>
      ItemMeaningsAt(items, {});
      ItemMeaningsAt(w.items, {});
      ItemMeaningsAt(items, drop);
      ItemMeaningsAt(w.items, drop);
      forall i | 0 <= i < |items| ensures MeaningOf(items[i], drop) == MeaningOf(w.items[i], drop) {
        assert MeaningOf(items[i], {}) == ItemMeanings(items, {})[i];
        SameMeaningDropping(items[i], w.items[i], drop);
      }
      assert ItemMeanings(items, drop) == ItemMeanings(w.items, drop);
    case Obj(ms) =>
      var ns := w.members;
      forall i, j | 0 <= i < |ms| && 0 <= j < |ns| && ms[i].key == ns[j].key
        ensures MeaningOf(ms[i].value, drop) == MeaningOf(ns[j].value, drop)
      {
        SameKeyedMeaning(ms, ns, {}, i, j);
        SameMeaningDropping(ms[i].value, ns[j].value, drop);
      }
      SubMeanings(ms, ns, drop);
      SubMeanings(ns, ms, drop);
    case _ =>
  }

  lemma SubMeanings(ms: seq<Member>, ns: seq<Member>, drop: set<Text>)
    requires Functional(ms) && Functional(ns) && MemberMeanings(ms, {}).Keys <= MemberMeanings(ns, {}).Keys
    requires forall i, j :: 0 <= i < |ms| && 0 <= j < |ns| && ms[i].key == ns[j].key ==>
               MeaningOf(ms[i].value, drop) == MeaningOf(ns[j].value, drop)
    ensures forall k :: k in MemberMeanings(ms, drop) ==>
              k in MemberMeanings(ns, drop) && MemberMeanings(ns, drop)[k] == MemberMeanings(ms, drop)[k]
  {
    forall k | k in MemberMeanings(ms, drop)
      ensures k in MemberMeanings(ns, drop) && MemberMeanings(ns, drop)[k] == MemberMeanings(ms, drop)[k]
    {
      var i := IndexOfKey(ms, drop, k);
      HasMeaning(ms, {}, i);
      HasMeaning(ms, drop, i);
      var j := IndexOfKey(ns, {}, k);
      HasMeaning(ns, drop, j);
    }
  }

  /** The one exception at work: an object that differs by such a member has the same text. */
  lemma ProtoMemberIsLost(hidden: Json)
    ensures CanonicalText(Obj([Member(PROTO, hidden)])) == CanonicalText(Obj([]))
    ensures MeaningOf(Obj([Member(PROTO, hidden)]), {}) != MeaningOf(Obj([]), {})
    ensures PROTO == Ascii("__proto__")
  {
    var ms := [Member(PROTO, hidden)];
    assert ms[1..] == [];
    assert SortValues(ms) == [];
    assert PROTO in MemberMeanings(ms, {});
  }
}
