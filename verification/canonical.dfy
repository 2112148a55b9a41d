/** Canonical JSON: what a printed configuration does and does not tell apart. JavaScript
    strings are sequences of UTF-16 code units. */
module Canonical {

  type Unit = u: int | 0 <= u < 0x1_0000
  type Text = seq<Unit>

  const QUOTE: Unit := 0x22
  const BACKSLASH: Unit := 0x5C
  const COMMA: Unit := 0x2C
  const COLON: Unit := 0x3A
  const OPEN_LIST: Unit := 0x5B
  const CLOSE_LIST: Unit := 0x5D
  const OPEN_OBJECT: Unit := 0x7B
  const CLOSE_OBJECT: Unit := 0x7D
  const LOWER_U: Unit := 0x75

  const NULL_TEXT: Text := [0x6E, 0x75, 0x6C, 0x6C]
  const TRUE_TEXT: Text := [0x74, 0x72, 0x75, 0x65]
  const FALSE_TEXT: Text := [0x66, 0x61, 0x6C, 0x73, 0x65]

  // ------------------------------------------------------------ values

  predicate NumberUnit(u: Unit) { 0x30 <= u <= 0x39 || u in {0x2B, 0x2D, 0x2E, 0x65} }

  /** How JavaScript writes a finite number: digits, signs, a point, an `e`. Different
      numbers are written differently. */
  type NumberText = t: Text |
      |t| > 0 && (0x30 <= t[0] <= 0x39 || t[0] == 0x2D) && forall i | 0 <= i < |t| :: NumberUnit(t[i])
    witness [0x30]

  datatype Value =
    | Undefined | Null | Bool(b: bool) | Number(number: NumberText) | NotFinite | String(text: Text)
    | Array(items: Values) | Object(entries: Entries)

  datatype Values = NoValues | Values(head: Value, tail: Values)

  /** The own entries of an object, in whatever order they were added. */
  datatype Entries = NoEntries | Entries(key: Text, value: Value, tail: Entries)

  ghost function Size(v: Value): nat {
    match v
    case Array(items) => 1 + SizeAll(items)
    case Object(entries) => 1 + SizeEntries(entries)
    case _ => 1
  }

  ghost function SizeAll(vs: Values): nat {
    if vs.NoValues? then 0 else 1 + Size(vs.head) + SizeAll(vs.tail)
  }

  ghost function SizeEntries(es: Entries): nat {
    if es.NoEntries? then 0 else 1 + Size(es.value) + SizeEntries(es.tail)
  }

  ghost function Keys(es: Entries): set<Text> {
    if es.NoEntries? then {} else {es.key} + Keys(es.tail)
  }

  /** An object has one entry a key. */
  ghost predicate Proper(v: Value) {
    match v
    case Array(items) => ProperAll(items)
    case Object(entries) => ProperEntries(entries)
    case _ => true
  }

  ghost predicate ProperAll(vs: Values) { vs.NoValues? || (Proper(vs.head) && ProperAll(vs.tail)) }

  ghost predicate ProperEntries(es: Entries) {
    es.NoEntries? || (es.key !in Keys(es.tail) && Proper(es.value) && ProperEntries(es.tail))
  }

  // ------------------------------------------------------------ printing

  function HexDigit(d: int): Unit
    requires 0 <= d < 16
  {
    if d < 10 then 0x30 + d else 0x61 + d - 10
  }

  function Hex(u: Unit): Text {
    var a := u / 16;
    var b := a / 16;
    [BACKSLASH, LOWER_U, HexDigit(b / 16), HexDigit(b % 16), HexDigit(a % 16), HexDigit(u % 16)]
  }

  predicate Leading(u: Unit) { 0xD800 <= u <= 0xDBFF }
  predicate Trailing(u: Unit) { 0xDC00 <= u <= 0xDFFF }

  /** One code unit that is not half of a surrogate pair. */
  function EscapeUnit(u: Unit): Text {
    if u == 8 then [BACKSLASH, 0x62]
    else if u == 9 then [BACKSLASH, 0x74]
    else if u == 10 then [BACKSLASH, 0x6E]
    else if u == 12 then [BACKSLASH, 0x66]
    else if u == 13 then [BACKSLASH, 0x72]
    else if u == QUOTE || u == BACKSLASH then [BACKSLASH, u]
    else if u < 0x20 || Leading(u) || Trailing(u) then Hex(u)
    else [u]
  }

  function Escape(s: Text): Text {
    if |s| == 0 then []
    else if |s| >= 2 && Leading(s[0]) && Trailing(s[1]) then [s[0], s[1]] + Escape(s[2..])
    else EscapeUnit(s[0]) + Escape(s[1..])
  }

  /** `JSON.stringify` of a string. */
  function Quote(s: Text): Text { [QUOTE] + Escape(s) + [QUOTE] }

  /** `a < b` on strings. */
  predicate Less(a: Text, b: Text) {
    |b| > 0 && (|a| == 0 || a[0] < b[0] || (a[0] == b[0] && Less(a[1..], b[1..])))
  }

  function Defined(es: Entries): (r: Entries)
    ensures SizeEntries(r) <= SizeEntries(es)
  {
    if es.NoEntries? then es
    else if es.value.Undefined? then Defined(es.tail)
    else Entries(es.key, es.value, Defined(es.tail))
  }

  function Insert(key: Text, value: Value, es: Entries): (r: Entries)
    ensures SizeEntries(r) == 1 + Size(value) + SizeEntries(es)
    ensures Keys(r) == Keys(es) + {key}
  {
    if es.NoEntries? || !Less(es.key, key) then Entries(key, value, es)
    else Entries(es.key, es.value, Insert(key, value, es.tail))
  }

  function Sorted(es: Entries): (r: Entries)
    ensures SizeEntries(r) == SizeEntries(es)
    ensures Keys(r) == Keys(es)
  {
    if es.NoEntries? then es else Insert(es.key, es.value, Sorted(es.tail))
  }

  function Canonicalize(v: Value): Text
    decreases Size(v)
  {
    match v
    case Undefined => NULL_TEXT
    case Null => NULL_TEXT
    case NotFinite => NULL_TEXT
    case Bool(b) => if b then TRUE_TEXT else FALSE_TEXT
    case Number(text) => text
    case String(text) => Quote(text)
    case Array(items) => [OPEN_LIST] + Joined(items) + [CLOSE_LIST]
    case Object(entries) => [OPEN_OBJECT] + JoinedEntries(Sorted(Defined(entries))) + [CLOSE_OBJECT]
  }

  /** The items, with commas between them. */
  function Joined(vs: Values): Text
    decreases SizeAll(vs)
  {
    if vs.NoValues? then []
    else if vs.tail.NoValues? then Canonicalize(vs.head)
    else Canonicalize(vs.head) + [COMMA] + Joined(vs.tail)
  }

  function JoinedEntries(es: Entries): Text
    decreases SizeEntries(es)
  {
    if es.NoEntries? then []
    else
      var entry := Quote(es.key) + [COLON] + Canonicalize(es.value);
      if es.tail.NoEntries? then entry else entry + [COMMA] + JoinedEntries(es.tail)
  }

  // ------------------------------------------------------------ meaning

  /** What a value means as configuration: objects are finite maps. An undefined entry is
      no entry; elsewhere undefined and non-finite numbers are null. */
  datatype Meaning =
    | MNull | MBool(b: bool) | MNumber(number: NumberText) | MString(text: Text)
    | MArray(items: seq<Meaning>) | MObject(entries: map<Text, Meaning>)

  ghost function Means(v: Value): Meaning {
    match v
    case Undefined => MNull
    case Null => MNull
    case NotFinite => MNull
    case Bool(b) => MBool(b)
    case Number(text) => MNumber(text)
    case String(text) => MString(text)
    case Array(items) => MArray(MeanAll(items))
    case Object(entries) => MObject(MeanEntries(entries))
  }

  ghost function MeanAll(vs: Values): seq<Meaning> {
    if vs.NoValues? then [] else [Means(vs.head)] + MeanAll(vs.tail)
  }

  ghost function MeanEntries(es: Entries): (m: map<Text, Meaning>)
    ensures m.Keys <= Keys(es)
  {
    if es.NoEntries? then map[]
    else if es.value.Undefined? then MeanEntries(es.tail)
    else MeanEntries(es.tail)[es.key := Means(es.value)]
  }

  // ------------------------------------------------------------ the normal form

  /** A value with its entries sorted and nothing undefined left. */
  datatype Tree =
    | TNull | TBool(b: bool) | TNumber(number: NumberText) | TString(text: Text)
    | TArray(items: Trees) | TObject(fields: Fields)

  datatype Trees = NoTrees | Trees(head: Tree, tail: Trees)

  datatype Fields = NoFields | Fields(key: Text, value: Tree, tail: Fields)

  ghost function Normal(v: Value): Tree
    decreases Size(v)
  {
    match v
    case Undefined => TNull
    case Null => TNull
    case NotFinite => TNull
    case Bool(b) => TBool(b)
    case Number(text) => TNumber(text)
    case String(text) => TString(text)
    case Array(items) => TArray(NormalAll(items))
    case Object(entries) => TObject(NormalEntries(Sorted(Defined(entries))))
  }

  ghost function NormalAll(vs: Values): Trees
    decreases SizeAll(vs)
  {
    if vs.NoValues? then NoTrees else Trees(Normal(vs.head), NormalAll(vs.tail))
  }

  ghost function NormalEntries(es: Entries): Fields
    decreases SizeEntries(es)
  {
    if es.NoEntries? then NoFields else Fields(es.key, Normal(es.value), NormalEntries(es.tail))
  }

  ghost function Print(t: Tree): Text
    decreases t, 0
  {
    match t
    case TNull => NULL_TEXT
    case TBool(b) => if b then TRUE_TEXT else FALSE_TEXT
    case TNumber(number) => number
    case TString(text) => Quote(text)
    case TArray(items) => [OPEN_LIST] + (PrintAll(items) + [CLOSE_LIST])
    case TObject(fields) => [OPEN_OBJECT] + (PrintFields(fields) + [CLOSE_OBJECT])
  }

  ghost function PrintAll(ts: Trees): Text
    decreases ts, 0
  {
    if ts.NoTrees? then [] else Print(ts.head) + PrintRest(ts.tail)
  }

  ghost function PrintRest(ts: Trees): Text
    decreases ts, 1
  {
    if ts.NoTrees? then [] else [COMMA] + PrintAll(ts)
  }

  ghost function PrintFields(fs: Fields): Text
    decreases fs, 0
  {
    if fs.NoFields? then [] else Quote(fs.key) + ([COLON] + (Print(fs.value) + PrintMore(fs.tail)))
  }

  ghost function PrintMore(fs: Fields): Text
    decreases fs, 1
  {
    if fs.NoFields? then [] else [COMMA] + PrintFields(fs)
  }

  lemma {:induction false} CanonicalizeIsPrint(v: Value)
    ensures Canonicalize(v) == Print(Normal(v))
    decreases Size(v)
  {
    hide Sorted, Defined, Quote;
    match v {
      case Array(items) => JoinedIsPrint(items);
      case Object(entries) => JoinedEntriesIsPrint(Sorted(Defined(entries)));
      case _ =>
    }
  }

  lemma {:induction false} JoinedIsPrint(vs: Values)
    ensures Joined(vs) == PrintAll(NormalAll(vs))
    decreases SizeAll(vs)
  {
    if vs.Values? {
      CanonicalizeIsPrint(vs.head);
      JoinedIsPrint(vs.tail);
      hide Canonicalize, Normal, Print;
    }
  }

  lemma {:induction false} JoinedEntriesIsPrint(es: Entries)
    ensures JoinedEntries(es) == PrintFields(NormalEntries(es))
    decreases SizeEntries(es)
  {
    hide Quote;
    if es.Entries? {
      CanonicalizeIsPrint(es.value);
      JoinedEntriesIsPrint(es.tail);
      hide Canonicalize, Normal, Print;
    }
  }

  // ------------------------------------------------------------ printed strings

  ghost function DigitValue(u: int): int { if u < 0x61 then u - 0x30 else u - 0x61 + 10 }

  ghost function Unescaped(u: int): int {
    if u == 0x62 then 8 else if u == 0x74 then 9 else if u == 0x6E then 10
    else if u == 0x66 then 12 else if u == 0x72 then 13 else u
  }

  /** Reads a quoted string back, up to and over its closing quote. */
  ghost function Unescape(t: seq<int>): (seq<int>, seq<int>) {
    if |t| == 0 then ([], [])
    else if t[0] == QUOTE then ([], t[1..])
    else if t[0] != BACKSLASH || |t| < 2 then
      var (s, rest) := Unescape(t[1..]);
      ([t[0]] + s, rest)
    else if t[1] != LOWER_U || |t| < 6 then
      var (s, rest) := Unescape(t[2..]);
      ([Unescaped(t[1])] + s, rest)
    else
      var (s, rest) := Unescape(t[6..]);
      ([4096 * DigitValue(t[2]) + 256 * DigitValue(t[3]) + 16 * DigitValue(t[4]) + DigitValue(t[5])] + s, rest)
  }

  ghost function Before(u: int, r: (seq<int>, seq<int>)): (seq<int>, seq<int>) { ([u] + r.0, r.1) }

  lemma UnescapeRaw(u: int, z: seq<int>)
    requires u != QUOTE && u != BACKSLASH
    ensures Unescape([u] + z) == Before(u, Unescape(z))
  {
    assert ([u] + z)[1..] == z;
  }

  lemma UnescapeShort(u: int, z: seq<int>)
    requires u != LOWER_U
    ensures Unescape([BACKSLASH, u] + z) == Before(Unescaped(u), Unescape(z))
  {
    assert ([BACKSLASH, u] + z)[2..] == z;
  }

  lemma UnescapeHex(u: Unit, z: seq<int>)
    ensures Unescape(Hex(u) + z) == Before(u, Unescape(z))
  {
    assert (Hex(u) + z)[6..] == z;
    var a := u / 16;
    var b := a / 16;
    HexDigitReads(b / 16);
    HexDigitReads(b % 16);
    HexDigitReads(a % 16);
    HexDigitReads(u % 16);
    hide HexDigit, DigitValue;
    assert 4096 * (b / 16) + 256 * (b % 16) + 16 * (a % 16) + u % 16 == u;
  }

  lemma HexDigitReads(d: int)
    requires 0 <= d < 16
    ensures DigitValue(HexDigit(d)) == d
  {
  }

  lemma UnescapeUnit(u: Unit, z: seq<int>)
    ensures Unescape(EscapeUnit(u) + z) == Before(u, Unescape(z))
  {
    hide Unescape, Hex;
    UnescapeHex(u, z);
    if u != QUOTE && u != BACKSLASH { UnescapeRaw(u, z); }
    UnescapeShort(0x62, z);
    UnescapeShort(0x74, z);
    UnescapeShort(0x6E, z);
    UnescapeShort(0x66, z);
    UnescapeShort(0x72, z);
    UnescapeShort(QUOTE, z);
    UnescapeShort(BACKSLASH, z);
  }

  /** A quoted string can be read back, whatever follows it. */
  lemma {:induction false} UnescapeEscape(s: Text, x: Text)
    ensures Unescape(Escape(s) + ([QUOTE] + x)) == (s, x)
  {
    if |s| == 0 {
      assert Escape(s) + ([QUOTE] + x) == [QUOTE] + x && ([QUOTE] + x)[1..] == x;
    } else if |s| >= 2 && Leading(s[0]) && Trailing(s[1]) {
      hide Unescape;
      UnescapeEscape(s[2..], x);
      UnescapePair(s[0], s[1], Escape(s[2..]), [QUOTE] + x);
      assert s == [s[0], s[1]] + s[2..];
    } else {
      hide Unescape;
      UnescapeEscape(s[1..], x);
      UnescapeOne(s[0], Escape(s[1..]), [QUOTE] + x);
      assert s == [s[0]] + s[1..];
    }
  }

  lemma UnescapePair(u: Unit, v: Unit, escaped: Text, z: Text)
    requires Leading(u) && Trailing(v)
    ensures Unescape(([u, v] + escaped) + z) == ([u, v] + Unescape(escaped + z).0, Unescape(escaped + z).1)
  {
    hide Unescape;
    assert ([u, v] + escaped) + z == [u] + ([v] + (escaped + z));
    UnescapeRaw(u, [v] + (escaped + z));
    UnescapeRaw(v, escaped + z);
    assert [u] + ([v] + Unescape(escaped + z).0) == [u, v] + Unescape(escaped + z).0;
  }

  lemma UnescapeOne(u: Unit, escaped: Text, z: Text)
    ensures Unescape((EscapeUnit(u) + escaped) + z) == Before(u, Unescape(escaped + z))
  {
    hide Unescape, EscapeUnit;
    assert (EscapeUnit(u) + escaped) + z == EscapeUnit(u) + (escaped + z);
    UnescapeUnit(u, escaped + z);
  }

  /** Quoted strings tell strings apart, and themselves from what follows. */
  lemma QuoteUnique(a: Text, b: Text, x: Text, y: Text)
    requires Quote(a) + x == Quote(b) + y
    ensures a == b && x == y
  {
    hide Escape, Unescape;
    assert Quote(a) + x == [QUOTE] + (Escape(a) + ([QUOTE] + x));
    assert Quote(b) + y == [QUOTE] + (Escape(b) + ([QUOTE] + y));
    assert Escape(a) + ([QUOTE] + x) == (Quote(a) + x)[1..];
    assert Escape(b) + ([QUOTE] + y) == (Quote(b) + y)[1..];
    UnescapeEscape(a, x);
    UnescapeEscape(b, y);
  }

  // ------------------------------------------------------------ printed trees

  ghost predicate Stops(x: Text) { |x| == 0 || x[0] in {COMMA, CLOSE_LIST, CLOSE_OBJECT} }

  lemma Cut(a: Text, b: Text, x: Text, y: Text)
    requires a + x == b + y && |a| == |b|
    ensures a == b && x == y
  {
    assert a == (a + x)[..|a|] && b == (b + y)[..|b|];
    assert x == (a + x)[|a|..] && y == (b + y)[|b|..];
  }

  lemma NumberUnique(a: NumberText, b: NumberText, x: Text, y: Text)
    requires a + x == b + y && Stops(x) && Stops(y)
    ensures a == b && x == y
  {
    NumberIsMaximal(a, b, x, y);
    NumberIsMaximal(b, a, y, x);
    Cut(a, b, x, y);
  }

  lemma NumberIsMaximal(a: NumberText, b: NumberText, x: Text, y: Text)
    requires a + x == b + y && Stops(x)
    ensures |a| >= |b|
  {
    var t := a + x;
    assert |x| > 0 ==> t[|a|] == x[0];
    assert forall i | 0 <= i < |b| :: t[i] == b[i];
  }

  /** The first unit tells the kinds of value apart, and from any stop. */
  ghost predicate Opens(t: Tree, u: Unit) {
    match t
    case TNull => u == 0x6E
    case TBool(b) => u == if b then 0x74 else 0x66
    case TNumber(_) => 0x30 <= u <= 0x39 || u == 0x2D
    case TString(_) => u == QUOTE
    case TArray(_) => u == OPEN_LIST
    case TObject(_) => u == OPEN_OBJECT
  }

  lemma PrintOpens(t: Tree)
    ensures |Print(t)| > 0 && Opens(t, Print(t)[0])
  {
  }

  lemma {:induction false} PrintUnique(t: Tree, u: Tree, x: Text, y: Text)
    requires Print(t) + x == Print(u) + y && Stops(x) && Stops(y)
    ensures t == u && x == y
    decreases t, 0
  {
    PrintOpens(t);
    PrintOpens(u);
    assert (Print(t) + x)[0] == Print(t)[0] && (Print(u) + y)[0] == Print(u)[0];
    hide Quote;
    match t {
      case TNull => Cut(NULL_TEXT, NULL_TEXT, x, y);
      case TBool(b) => Cut(Print(t), Print(u), x, y);
      case TNumber(number) => NumberUnique(number, u.number, x, y);
      case TString(text) => QuoteUnique(text, u.text, x, y);
      case TArray(items) => ArrayUnique(items, u.items, x, y);
      case TObject(fields) => ObjectUnique(fields, u.fields, x, y);
    }
  }

  lemma {:induction false} ArrayUnique(a: Trees, b: Trees, x: Text, y: Text)
    requires Print(TArray(a)) + x == Print(TArray(b)) + y
    ensures a == b && x == y
    decreases a, 2
  {
    hide PrintAll;
    Around(OPEN_LIST, PrintAll(a), CLOSE_LIST, x);
    Around(OPEN_LIST, PrintAll(b), CLOSE_LIST, y);
    AllUnique(a, b, [CLOSE_LIST] + x, [CLOSE_LIST] + y);
    Cut([CLOSE_LIST], [CLOSE_LIST], x, y);
  }

  lemma {:induction false} ObjectUnique(a: Fields, b: Fields, x: Text, y: Text)
    requires Print(TObject(a)) + x == Print(TObject(b)) + y
    ensures a == b && x == y
    decreases a, 2
  {
    hide PrintFields;
    Around(OPEN_OBJECT, PrintFields(a), CLOSE_OBJECT, x);
    Around(OPEN_OBJECT, PrintFields(b), CLOSE_OBJECT, y);
    FieldsUnique(a, b, [CLOSE_OBJECT] + x, [CLOSE_OBJECT] + y);
    Cut([CLOSE_OBJECT], [CLOSE_OBJECT], x, y);
  }

  lemma Around(open: Unit, inside: Text, close: Unit, x: Text)
    ensures (([open] + (inside + [close])) + x)[1..] == inside + ([close] + x)
  {
  }

  ghost predicate Ends(x: Text, close: Unit) { |x| > 0 && x[0] == close }

  lemma AllPrint(a: Trees, x: Text)
    requires Ends(x, CLOSE_LIST)
    ensures var p := PrintAll(a) + x;
            && |p| > 0 && (p[0] == CLOSE_LIST <==> a.NoTrees?)
            && p == if a.NoTrees? then x else Print(a.head) + (PrintRest(a.tail) + x)
  {
    if a.Trees? { PrintOpens(a.head); }
    hide Print, PrintRest;
  }

  lemma {:induction false} AllUnique(a: Trees, b: Trees, x: Text, y: Text)
    requires PrintAll(a) + x == PrintAll(b) + y && Ends(x, CLOSE_LIST) && Ends(y, CLOSE_LIST)
    ensures a == b && x == y
    decreases a, 1
  {
    AllPrint(a, x);
    AllPrint(b, y);
    if a.Trees? {
      hide PrintAll, Print;
      PrintUnique(a.head, b.head, PrintRest(a.tail) + x, PrintRest(b.tail) + y);
      RestUnique(a.tail, b.tail, x, y);
    }
  }

  lemma {:induction false} RestUnique(a: Trees, b: Trees, x: Text, y: Text)
    requires PrintRest(a) + x == PrintRest(b) + y && Ends(x, CLOSE_LIST) && Ends(y, CLOSE_LIST)
    ensures a == b && x == y
    decreases a, 2
  {
    hide PrintAll;
    assert (PrintRest(a) + x)[0] == (PrintRest(b) + y)[0];
    if a.NoTrees? {
      assert [] + x == x && [] + y == y;
    } else {
      assert PrintRest(a) + x == [COMMA] + (PrintAll(a) + x);
      assert PrintRest(b) + y == [COMMA] + (PrintAll(b) + y);
      Cut([COMMA], [COMMA], PrintAll(a) + x, PrintAll(b) + y);
      AllUnique(a, b, x, y);
    }
  }

  lemma FieldsPrint(a: Fields, x: Text)
    requires Ends(x, CLOSE_OBJECT)
    ensures var p := PrintFields(a) + x;
            && |p| > 0 && (p[0] == CLOSE_OBJECT <==> a.NoFields?)
            && p == if a.NoFields? then x else Quote(a.key) + ([COLON] + (Print(a.value) + (PrintMore(a.tail) + x)))
  {
    hide Print, PrintMore, Escape;
  }

  lemma {:induction false} FieldsUnique(a: Fields, b: Fields, x: Text, y: Text)
    requires PrintFields(a) + x == PrintFields(b) + y && Ends(x, CLOSE_OBJECT) && Ends(y, CLOSE_OBJECT)
    ensures a == b && x == y
    decreases a, 1
  {
    FieldsPrint(a, x);
    FieldsPrint(b, y);
    if a.Fields? {
      hide PrintFields, Print, Quote;
      var c, d := Print(a.value) + (PrintMore(a.tail) + x), Print(b.value) + (PrintMore(b.tail) + y);
      QuoteUnique(a.key, b.key, [COLON] + c, [COLON] + d);
      Cut([COLON], [COLON], c, d);
      PrintUnique(a.value, b.value, PrintMore(a.tail) + x, PrintMore(b.tail) + y);
      MoreUnique(a.tail, b.tail, x, y);
    }
  }

  lemma {:induction false} MoreUnique(a: Fields, b: Fields, x: Text, y: Text)
    requires PrintMore(a) + x == PrintMore(b) + y && Ends(x, CLOSE_OBJECT) && Ends(y, CLOSE_OBJECT)
    ensures a == b && x == y
    decreases a, 2
  {
    hide PrintFields;
    assert (PrintMore(a) + x)[0] == (PrintMore(b) + y)[0];
    if a.NoFields? {
      assert [] + x == x && [] + y == y;
    } else {
      assert PrintMore(a) + x == [COMMA] + (PrintFields(a) + x);
      assert PrintMore(b) + y == [COMMA] + (PrintFields(b) + y);
      Cut([COMMA], [COMMA], PrintFields(a) + x, PrintFields(b) + y);
      FieldsUnique(a, b, x, y);
    }
  }

  // ------------------------------------------------------------ sorting

  lemma {:induction false} LessIsTotal(a: Text, b: Text)
    ensures a == b || Less(a, b) || Less(b, a)
  {
    if |a| > 0 && |b| > 0 && a[0] == b[0] {
      LessIsTotal(a[1..], b[1..]);
      assert a == [a[0]] + a[1..] && b == [b[0]] + b[1..];
    }
  }

  lemma {:induction false} LessIsStrict(a: Text, b: Text)
    requires Less(a, b)
    ensures !Less(b, a) && a != b
  {
    if |a| > 0 && a[0] == b[0] { LessIsStrict(a[1..], b[1..]); }
  }

  lemma {:induction false} LessIsTransitive(a: Text, b: Text, c: Text)
    requires Less(a, b) && Less(b, c)
    ensures Less(a, c)
  {
    if |a| > 0 && a[0] == b[0] == c[0] { LessIsTransitive(a[1..], b[1..], c[1..]); }
  }

  /** Keys go up. */
  ghost predicate Ascending(es: Entries) {
    es.NoEntries? || ((forall k | k in Keys(es.tail) :: Less(es.key, k)) && Ascending(es.tail))
  }

  lemma {:induction false} InsertKeepsOrder(key: Text, value: Value, es: Entries)
    requires Ascending(es) && key !in Keys(es)
    ensures Ascending(Insert(key, value, es))
  {
    if es.Entries? {
      LessIsTotal(es.key, key);
      if Less(es.key, key) {
        InsertKeepsOrder(key, value, es.tail);
      } else {
        forall k | k in Keys(es) ensures Less(key, k) {
          if k != es.key { LessIsTransitive(key, es.key, k); }
        }
      }
    }
  }

  lemma {:induction false} SortedAscends(es: Entries)
    requires ProperEntries(es)
    ensures Ascending(Sorted(es))
  {
    if es.Entries? {
      SortedAscends(es.tail);
      InsertKeepsOrder(es.key, es.value, Sorted(es.tail));
    }
  }

  ghost predicate AllDefined(es: Entries) { es.NoEntries? || (!es.value.Undefined? && AllDefined(es.tail)) }

  lemma {:induction false} DefinedKeepsMeaning(es: Entries)
    requires ProperEntries(es)
    ensures ProperEntries(Defined(es)) && AllDefined(Defined(es)) && Keys(Defined(es)) <= Keys(es)
    ensures MeanEntries(Defined(es)) == MeanEntries(es)
  {
    hide Proper, Means;
    if es.Entries? { DefinedKeepsMeaning(es.tail); }
  }

  lemma {:induction false} InsertAddsMeaning(key: Text, value: Value, es: Entries)
    requires !value.Undefined? && key !in Keys(es) && ProperEntries(es) && Proper(value) && AllDefined(es)
    ensures var r := Insert(key, value, es);
            MeanEntries(r) == MeanEntries(es)[key := Means(value)] && ProperEntries(r) && AllDefined(r)
  {
    hide Proper, Means, Less;
    if es.Entries? {
      InsertAddsMeaning(key, value, es.tail);
      UpdatesCommute(MeanEntries(es.tail), key, Means(value), es.key, Means(es.value));
    }
  }

  lemma UpdatesCommute(m: map<Text, Meaning>, a: Text, x: Meaning, b: Text, y: Meaning)
    requires a != b
    ensures m[a := x][b := y] == m[b := y][a := x]
  {
  }

  /** Sorting does not change what the entries mean. */
  lemma {:induction false} SortedKeepsMeaning(es: Entries)
    requires ProperEntries(es) && AllDefined(es)
    ensures MeanEntries(Sorted(es)) == MeanEntries(es) && ProperEntries(Sorted(es)) && AllDefined(Sorted(es))
  {
    hide Proper, Means;
    if es.Entries? {
      SortedKeepsMeaning(es.tail);
      InsertAddsMeaning(es.key, es.value, Sorted(es.tail));
    }
  }

  // ------------------------------------------------------------ what a tree means

  ghost function TreeMeans(t: Tree): Meaning {
    match t
    case TNull => MNull
    case TBool(b) => MBool(b)
    case TNumber(number) => MNumber(number)
    case TString(text) => MString(text)
    case TArray(items) => MArray(AllMean(items))
    case TObject(fields) => MObject(FieldsMean(fields))
  }

  ghost function AllMean(ts: Trees): seq<Meaning> {
    if ts.NoTrees? then [] else [TreeMeans(ts.head)] + AllMean(ts.tail)
  }

  ghost function FieldsMean(fs: Fields): (m: map<Text, Meaning>)
    ensures m.Keys == FieldKeys(fs)
  {
    if fs.NoFields? then map[] else FieldsMean(fs.tail)[fs.key := TreeMeans(fs.value)]
  }

  ghost function FieldKeys(fs: Fields): set<Text> { if fs.NoFields? then {} else {fs.key} + FieldKeys(fs.tail) }

  ghost predicate Tidy(t: Tree) {
    match t
    case TArray(items) => TidyAll(items)
    case TObject(fields) => TidyFields(fields)
    case _ => true
  }

  ghost predicate TidyAll(ts: Trees) { ts.NoTrees? || (Tidy(ts.head) && TidyAll(ts.tail)) }

  ghost predicate TidyFields(fs: Fields) {
    fs.NoFields? || (Tidy(fs.value) && TidyFields(fs.tail) && forall k | k in FieldKeys(fs.tail) :: Less(fs.key, k))
  }

  /** The normal form is sorted, and means what the value means. */
  lemma {:induction false} NormalMeansTheSame(v: Value)
    requires Proper(v)
    ensures Tidy(Normal(v)) && TreeMeans(Normal(v)) == Means(v)
    decreases Size(v)
  {
    match v {
      case Array(items) => NormalAllMeansTheSame(items);
      case Object(entries) =>
        var sorted := Sorted(Defined(entries));
        DefinedKeepsMeaning(entries);
        SortedKeepsMeaning(Defined(entries));
        SortedAscends(Defined(entries));
        NormalEntriesMeanTheSame(sorted);
      case _ =>
    }
  }

  lemma {:induction false} NormalAllMeansTheSame(vs: Values)
    requires ProperAll(vs)
    ensures TidyAll(NormalAll(vs)) && AllMean(NormalAll(vs)) == MeanAll(vs)
    decreases SizeAll(vs)
  {
    if vs.Values? {
      NormalMeansTheSame(vs.head);
      NormalAllMeansTheSame(vs.tail);
      hide Normal, Means;
    }
  }

  lemma {:induction false} NormalEntriesMeanTheSame(es: Entries)
    requires ProperEntries(es) && Ascending(es) && AllDefined(es)
    ensures var fs := NormalEntries(es);
            TidyFields(fs) && FieldsMean(fs) == MeanEntries(es) && FieldKeys(fs) == Keys(es)
    decreases SizeEntries(es)
  {
    if es.Entries? {
      NormalMeansTheSame(es.value);
      NormalEntriesMeanTheSame(es.tail);
      hide Normal, Means, Less;
    }
  }

  /** Sorted trees that mean the same are the same. */
  lemma {:induction false} MeaningIsUnique(t: Tree, u: Tree)
    requires Tidy(t) && Tidy(u) && TreeMeans(t) == TreeMeans(u)
    ensures t == u
    decreases t
  {
    match t {
      case TArray(items) => AllMeaningIsUnique(items, u.items);
      case TObject(fields) => FieldsMeaningIsUnique(fields, u.fields);
      case _ =>
    }
  }

  lemma {:induction false} AllMeaningIsUnique(a: Trees, b: Trees)
    requires TidyAll(a) && TidyAll(b) && AllMean(a) == AllMean(b)
    ensures a == b
    decreases a
  {
    if a.Trees? {
      assert AllMean(a)[0] == AllMean(b)[0];
      MeaningIsUnique(a.head, b.head);
      assert AllMean(a)[1..] == AllMean(a.tail) && AllMean(b)[1..] == AllMean(b.tail);
      AllMeaningIsUnique(a.tail, b.tail);
    }
  }

  lemma {:induction false} FieldsMeaningIsUnique(a: Fields, b: Fields)
    requires TidyFields(a) && TidyFields(b) && FieldsMean(a) == FieldsMean(b)
    ensures a == b
    decreases a
  {
    assert FieldKeys(a) == FieldKeys(b);
    if a.Fields? {
      assert a.key in FieldKeys(b) && b.key in FieldKeys(a);
      if a.key != b.key { LessIsStrict(a.key, b.key); }
      assert FieldsMean(a)[a.key] == FieldsMean(b)[b.key];
      MeaningIsUnique(a.value, b.value);
      HeadIsApart(a);
      HeadIsApart(b);
      FieldsMeaningIsUnique(a.tail, b.tail);
    }
  }

  lemma HeadIsApart(fs: Fields)
    requires fs.Fields? && TidyFields(fs)
    ensures fs.key !in FieldKeys(fs.tail) && FieldsMean(fs.tail) == FieldsMean(fs) - {fs.key}
  {
    hide Tidy, TreeMeans;
    if fs.key in FieldKeys(fs.tail) { LessIsStrict(fs.key, fs.key); }
  }

  /** Two configurations are printed alike exactly when they mean the same: printing tells
      apart all that differs in more than the order of keys. */
  lemma CanonicalizeIsInjective(a: Value, b: Value)
    requires Proper(a) && Proper(b)
    ensures Canonicalize(a) == Canonicalize(b) <==> Means(a) == Means(b)
  {
    hide Canonicalize, Means, Normal, Print, TreeMeans, Tidy;
    CanonicalizeIsPrint(a);
    CanonicalizeIsPrint(b);
    NormalMeansTheSame(a);
    NormalMeansTheSame(b);
    if Canonicalize(a) == Canonicalize(b) {
      PrintUnique(Normal(a), Normal(b), [], []);
    }
    if Means(a) == Means(b) {
      MeaningIsUnique(Normal(a), Normal(b));
    }
  }

  /** What it does not tell apart, although JavaScript does. */
  lemma ConflatedWithNull()
    ensures Canonicalize(Undefined) == Canonicalize(Null) == Canonicalize(NotFinite)
  {
  }

  // ------------------------------------------------------------ the printed form itself

  /** `a` comes first where they differ first, or is the beginning of `b`. */
  lemma {:induction false} LessIsLexicographic(a: Text, b: Text)
    ensures Less(a, b) <==> exists i :: Differs(a, b, i)
  {
    if |b| > 0 && |a| > 0 && a[0] == b[0] {
      LessIsLexicographic(a[1..], b[1..]);
      if i :| Differs(a, b, i) { assert Differs(a[1..], b[1..], i - 1); }
      if i :| Differs(a[1..], b[1..], i) {
        forall j | 0 <= j < i + 1 ensures a[j] == b[j] {
          if j > 0 { assert a[1..][j - 1] == b[1..][j - 1]; }
        }
        assert Differs(a, b, i + 1);
      }
    } else if Less(a, b) {
      assert Differs(a, b, 0);
    }
  }

  ghost predicate Differs(a: Text, b: Text, i: int) {
    && 0 <= i <= |a| && i < |b| && (forall j | 0 <= j < i :: a[j] == b[j])
    && (i == |a| || a[i] < b[i])
  }

  /** Text of ASCII characters. */
  ghost function Ascii(s: string): Text
    requires forall i | 0 <= i < |s| :: s[i] < '\U{0080}'
  {
    seq(|s|, i requires 0 <= i < |s| => s[i] as int)
  }

  /** A unit by itself is written as itself but for quotes, backslashes, control characters and halves
      of surrogate pairs; the last two have short names or four lower-case hexadecimal digits. */
  lemma UnitsAreWritten(u: Unit)
    ensures u >= 0x20 && u != 0x22 && u != 0x5C && !(0xD800 <= u < 0xE000) ==> EscapeUnit(u) == [u]
    ensures EscapeUnit(0x22) == Ascii("\\\"") && EscapeUnit(0x5C) == Ascii("\\\\")
    ensures EscapeUnit(8) == Ascii("\\b") && EscapeUnit(9) == Ascii("\\t") && EscapeUnit(10) == Ascii("\\n")
    ensures EscapeUnit(12) == Ascii("\\f") && EscapeUnit(13) == Ascii("\\r")
    ensures u < 0x20 && u !in {8, 9, 10, 12, 13} ==> EscapeUnit(u)[..4] == Ascii("\\u00") && |EscapeUnit(u)| == 6
    ensures 0xD800 <= u < 0xE000 ==> EscapeUnit(u)[..3] == Ascii("\\ud") && |EscapeUnit(u)| == 6
    ensures |EscapeUnit(u)| == 6 ==>
              forall i | 2 <= i < 6 :: 0x30 <= EscapeUnit(u)[i] <= 0x39 || 0x61 <= EscapeUnit(u)[i] <= 0x66
  {
  }

  lemma LiteralsAreJson()
    ensures Canonicalize(Null) == Ascii("null")
    ensures Canonicalize(Bool(true)) == Ascii("true") && Canonicalize(Bool(false)) == Ascii("false")
    ensures Canonicalize(Array(NoValues)) == Ascii("[]") && Canonicalize(Object(NoEntries)) == Ascii("{}")
  {
    hide Joined, JoinedEntries, Sorted, Defined;
    EmptyIsBare();
  }

  lemma EmptyIsBare()
    ensures Joined(NoValues) == [] && JoinedEntries(Sorted(Defined(NoEntries))) == []
  {
  }

  /** An undefined item is null, an undefined entry is none. */
  lemma UndefinedIsLeftOut(k: Text)
    ensures Canonicalize(Array(Values(Undefined, NoValues))) == Ascii("[null]")
    ensures Canonicalize(Object(Entries(k, Undefined, NoEntries))) == Ascii("{}")
  {
    assert Joined(Values(Undefined, NoValues)) == NULL_TEXT;
    assert Defined(Entries(k, Undefined, NoEntries)) == NoEntries;
    EmptyIsBare();
    hide Joined, JoinedEntries, Sorted, Defined;
  }

  /** A list is its items between brackets, with commas, and no space. */
  lemma ListsAreJson(a: Value, b: Value)
    ensures Canonicalize(Array(Values(a, Values(b, NoValues))))
         == Ascii("[") + Canonicalize(a) + Ascii(",") + Canonicalize(b) + Ascii("]")
  {
    var one := Values(b, NoValues);
    assert Joined(one) == Canonicalize(b);
    assert Joined(Values(a, one)) == Canonicalize(a) + [COMMA] + Joined(one);
    assert Canonicalize(Array(Values(a, one))) == [OPEN_LIST] + Joined(Values(a, one)) + [CLOSE_LIST];
    hide Canonicalize, Joined;
    assert Ascii("[") == [OPEN_LIST] && Ascii(",") == [COMMA] && Ascii("]") == [CLOSE_LIST];
  }

  /** An object is its defined entries in braces, in order of their keys, with commas and no space; each
      key is quoted and followed by a colon. */
  lemma ObjectsAreJson(a: Value, b: Value, k: Text, l: Text)
    requires Less(k, l) && !a.Undefined? && !b.Undefined?
    ensures Canonicalize(Object(Entries(l, b, Entries(k, a, NoEntries))))
         == Ascii("{") + Quote(k) + Ascii(":") + Canonicalize(a) + Ascii(",")
            + Quote(l) + Ascii(":") + Canonicalize(b) + Ascii("}")
    ensures Canonicalize(Object(Entries(k, a, Entries(l, Undefined, NoEntries))))
         == Ascii("{") + Quote(k) + Ascii(":") + Canonicalize(a) + Ascii("}")
  {
    hide Quote, Less, Canonicalize, Sorted, Defined, JoinedEntries;
    var (first, last) := (Entries(k, a, NoEntries), Entries(l, b, NoEntries));
    TwoSorted(a, b, k, l);
    OneObject(Entries(l, b, first));
    OneObject(Entries(k, a, Entries(l, Undefined, NoEntries)));
    OneEntry(k, a);
    OneEntry(l, b);
    TwoEntries(k, a, last);
    assert Ascii("{") == [OPEN_OBJECT] && Ascii(",") == [COMMA];
    assert Ascii(":") == [COLON] && Ascii("}") == [CLOSE_OBJECT];
  }

  lemma TwoSorted(a: Value, b: Value, k: Text, l: Text)
    requires Less(k, l) && !a.Undefined? && !b.Undefined?
    ensures Sorted(Defined(Entries(l, b, Entries(k, a, NoEntries)))) == Entries(k, a, Entries(l, b, NoEntries))
    ensures Sorted(Defined(Entries(k, a, Entries(l, Undefined, NoEntries)))) == Entries(k, a, NoEntries)
  {
    hide Less;
    var (first, last) := (Entries(k, a, NoEntries), Entries(l, b, NoEntries));
    assert Defined(first) == first && Defined(Entries(l, b, first)) == Entries(l, b, first);
    assert Sorted(first) == Insert(k, a, Sorted(NoEntries)) == first;
    assert Insert(l, b, NoEntries) == last;
    assert Insert(l, b, first) == Entries(k, a, last);
    assert Defined(Entries(l, Undefined, NoEntries)) == NoEntries;
  }

  lemma OneEntry(k: Text, a: Value)
    ensures JoinedEntries(Entries(k, a, NoEntries)) == Quote(k) + [COLON] + Canonicalize(a)
  {
    hide Quote, Canonicalize;
  }

  lemma TwoEntries(k: Text, a: Value, tail: Entries)
    requires tail.Entries?
    ensures JoinedEntries(Entries(k, a, tail))
         == Quote(k) + [COLON] + Canonicalize(a) + [COMMA] + JoinedEntries(tail)
  {
    hide Quote, Canonicalize;
  }

  lemma OneObject(es: Entries)
    ensures Canonicalize(Object(es)) == [OPEN_OBJECT] + JoinedEntries(Sorted(Defined(es))) + [CLOSE_OBJECT]
  {
  }
}
