/** The canonical JSON printer (RFC 8785 style), over UTF-16 code units. */
module CanonicalJson {
  import opened Numeric
  import opened JsonValue
  import opened Numbers

  datatype JsonError = NonFiniteNumber | InvalidArrayElement | Unsupported

  const QUOTE: CodeUnit := 0x22
  const BACKSLASH: CodeUnit := 0x5c
  const COMMA: CodeUnit := 0x2c
  const COLON: CodeUnit := 0x3a
  const LBRACKET: CodeUnit := 0x5b
  const RBRACKET: CodeUnit := 0x5d
  const LBRACE: CodeUnit := 0x7b
  const RBRACE: CodeUnit := 0x7d
  const NULL_TEXT: Text := [0x6e, 0x75, 0x6c, 0x6c]
  const TRUE_TEXT: Text := [0x74, 0x72, 0x75, 0x65]
  const FALSE_TEXT: Text := [0x66, 0x61, 0x6c, 0x73, 0x65]

  // ---- strings ----------------------------------------------------------------------------

  predicate IsLead(c: CodeUnit) { 0xD800 <= c < 0xDC00 }

  predicate IsTrail(c: CodeUnit) { 0xDC00 <= c < 0xE000 }

  predicate StartsPair(s: Text) { |s| >= 2 && IsLead(s[0]) && IsTrail(s[1]) }

  function Hex(d: int): CodeUnit
    requires 0 <= d < 16
  {
    if d < 10 then 0x30 + d else 0x57 + d
  }

  function Hex4(c: CodeUnit): Text {
    [Hex(c / 4096), Hex(c / 256 % 16), Hex(c / 16 % 16), Hex(c % 16)]
  }

  /** Two-character escapes where defined, \uXXXX for other controls and for lone surrogates. */
  function EscapeUnit(c: CodeUnit): Text {
    if c == QUOTE || c == BACKSLASH then [BACKSLASH, c]
    else if c == 8 then [BACKSLASH, 0x62]
    else if c == 9 then [BACKSLASH, 0x74]
    else if c == 10 then [BACKSLASH, 0x6e]
    else if c == 12 then [BACKSLASH, 0x66]
    else if c == 13 then [BACKSLASH, 0x72]
    else if c < 0x20 || IsLead(c) || IsTrail(c) then [BACKSLASH, 0x75] + Hex4(c)
    else [c]
  }

  function Escape(s: Text): Text {
    if s == [] then []
    else if StartsPair(s) then [s[0], s[1]] + Escape(s[2..])
    else EscapeUnit(s[0]) + Escape(s[1..])
  }

  function Quote(s: Text): Text { [QUOTE] + Escape(s) + [QUOTE] }

  /** The code units of a text of the basic plane. */
  function Units(s: string): Text { seq(|s|, i requires 0 <= i < |s| => s[i] as int % 0x10000) }

  /** The letters of the two-character escapes. */
  const LETTERS: map<int, char> :=
    map[8 := 'b', 9 := 't', 10 := 'n', 12 := 'f', 13 := 'r', 0x22 := '"', 0x5c := '\\']

  const HEX_DIGITS: string := "0123456789abcdef"

  /** Section 3.2.2.2 of RFC 8785: a letter where there is one, else four lower-case digits for the other controls
      and for lone surrogates, else the unit itself. */
  lemma EscapeUnitIs(c: CodeUnit)
    ensures c in LETTERS ==> EscapeUnit(c) == ['\\' as int, LETTERS[c] as int]
    ensures c !in LETTERS && (c < 0x20 || 0xD800 <= c < 0xE000) ==>
      && EscapeUnit(c) == ['\\' as int, 'u' as int] + EscapeUnit(c)[2..] && |EscapeUnit(c)| == 6
      && EscapeUnit(c)[2] == HEX_DIGITS[c / 4096] as int && EscapeUnit(c)[3] == HEX_DIGITS[c / 256 % 16] as int
      && EscapeUnit(c)[4] == HEX_DIGITS[c / 16 % 16] as int && EscapeUnit(c)[5] == HEX_DIGITS[c % 16] as int
    ensures c !in LETTERS && !(c < 0x20 || 0xD800 <= c < 0xE000) ==> EscapeUnit(c) == [c]
  {
    forall d | 0 <= d < 16 ensures Hex(d) == HEX_DIGITS[d] as int { }
  }

  // ---- values -----------------------------------------------------------------------------

  function Join(parts: seq<Text>): Text {
    if |parts| == 0 then []
    else if |parts| == 1 then parts[0]
    else parts[0] + [COMMA] + Join(parts[1..])
  }

  function Canonicalize<N>(num: Numerals<N>, v: Json<N>): Result<Text, JsonError>
    decreases Size(v)
  {
    match v
    case Null => Ok(NULL_TEXT)
    case Bool(b) => Ok(if b then TRUE_TEXT else FALSE_TEXT)
    case NonFinite => Err(NonFiniteNumber)
    case Number(n) => Ok(num.show(n))
    case Str(s) => Ok(Quote(s))
    case Array(items) =>
      (match Elements(num, items)
       case Err(e) => Err(e)
       case Ok(parts) => Ok([LBRACKET] + Join(parts) + [RBRACKET]))
    case Object(members) =>
      (match Entries(num, Sort(members))
       case Err(e) => Err(e)
       case Ok(parts) => Ok([LBRACE] + Join(parts) + [RBRACE]))
    case _ => Err(Unsupported)
  }

  function Elements<N>(num: Numerals<N>, items: Items<N>): Result<seq<Text>, JsonError>
    decreases ItemsSize(items)
  {
    match items
    case NoItems => Ok([])
    case Item(head, tail) =>
      if head.Undefined? then Err(InvalidArrayElement)
      else
        match Canonicalize(num, head)
        case Err(e) => Err(e)
        case Ok(text) =>
          match Elements(num, tail)
          case Err(e) => Err(e)
          case Ok(parts) => Ok([text] + parts)
  }

  /** One entry per defined member, in the order given. */
  function Entries<N>(num: Numerals<N>, m: Members<N>): Result<seq<Text>, JsonError>
    decreases MembersSize(m)
  {
    match m
    case NoMembers => Ok([])
    case Member(key, value, tail) =>
      if value.Undefined? then Entries(num, tail)
      else
        match Canonicalize(num, value)
        case Err(e) => Err(e)
        case Ok(text) =>
          match Entries(num, tail)
          case Err(e) => Err(e)
          case Ok(parts) => Ok([Quote(key) + [COLON] + text] + parts)
  }

  // ---- the text of an object --------------------------------------------------------------

  /** The keys that are printed, in the order given. */
  function PrintedKeys<N>(m: Members<N>): seq<Text> {
    match m
    case NoMembers => []
    case Member(key, value, tail) => if value.Undefined? then PrintedKeys(tail) else [key] + PrintedKeys(tail)
  }

  lemma {:induction false} PrintedIff<N>(m: Members<N>, k: Text)
    requires Distinct(m)
    ensures k in PrintedKeys(m) <==> HasKey(m, k) && !Lookup(m, k).value.Undefined?
  {
    match m
    case NoMembers =>
    case Member(key, value, tail) => PrintedIff(tail, k);
  }

  lemma {:induction false} GreaterPrinted<N>(m: Members<N>, low: Text, k: Text)
    requires AllGreater(m, low) && k in PrintedKeys(m)
    ensures Less(low, k)
  {
    match m
    case Member(key, value, tail) =>
      if value.Undefined? || k != key { GreaterPrinted(tail, low, k); }
  }

  ghost predicate InOrder(keys: seq<Text>) { forall i, j :: 0 <= i < j < |keys| ==> Precedes(keys[i], keys[j]) }

  lemma {:induction false} PrintedInOrder<N>(m: Members<N>)
    requires StrictlySorted(m)
    ensures InOrder(PrintedKeys(m))
  {
    match m
    case NoMembers =>
    case Member(key, value, tail) =>
      PrintedInOrder(tail);
      forall k | k in PrintedKeys(tail) ensures Precedes(key, k) {
        GreaterPrinted(tail, key, k);
        LessIsByCodeUnit(key, k);
      }
  }

  /** An entry is its quoted key, a colon and the text of its value. */
  predicate IsEntry<N>(num: Numerals<N>, entry: Text, key: Text, value: Option<Json<N>>) {
    value.Some? && Canonicalize(num, value.value).Ok? && entry == Quote(key) + [COLON] + Canonicalize(num, value.value).value
  }

  ghost predicate EntriesFor<N>(num: Numerals<N>, parts: seq<Text>, keys: seq<Text>, m: Members<N>) {
    |parts| == |keys| && forall i :: 0 <= i < |keys| ==> IsEntry(num, parts[i], keys[i], Lookup(m, keys[i]))
  }

  lemma {:induction false} EntriesAre<N>(num: Numerals<N>, m: Members<N>)
    requires Distinct(m) && Entries(num, m).Ok?
    ensures EntriesFor(num, Entries(num, m).value, PrintedKeys(m), m)
  {
    match m
    case NoMembers =>
    case Member(key, value, tail) =>
      EntriesAre(num, tail);
      var keys := PrintedKeys(tail);
      forall i | 0 <= i < |keys| ensures Lookup(m, keys[i]) == Lookup(tail, keys[i]) {
        PrintedIff(tail, keys[i]);
      }
  }

  /** The text of an object: its defined members between braces, in ascending order of their keys by code unit. */
  lemma ObjectText<N>(num: Numerals<N>, members: Members<N>) returns (keys: seq<Text>, parts: seq<Text>)
    requires Distinct(members) && Canonicalize(num, Object(members)).Ok?
    ensures Canonicalize(num, Object(members)).value == [LBRACE] + Join(parts) + [RBRACE]
    ensures InOrder(keys) && EntriesFor(num, parts, keys, members)
    ensures forall k :: k in keys <==> HasKey(members, k) && !Lookup(members, k).value.Undefined?
  {
    var sorted := Sort(members);
    SortMeaning(members);
    keys, parts := PrintedKeys(sorted), Entries(num, sorted).value;
    PrintedInOrder(sorted);
    SortedDistinct(sorted);
    EntriesAre(num, sorted);
    forall k ensures k in keys <==> HasKey(members, k) && !Lookup(members, k).value.Undefined? { PrintedIff(sorted, k); }
  }

  // ---- a golden text ----------------------------------------------------------------------

  predicate Plain(c: CodeUnit) { 0x20 <= c < 0x80 && c != QUOTE && c != BACKSLASH }

  lemma PlainKey(c: CodeUnit)
    requires Plain(c)
    ensures Quote([c]) == [QUOTE, c, QUOTE]
  {
    assert Escape([c]) == EscapeUnit(c) + Escape([]);
  }

  function Two<N>(c: CodeUnit, v: Json<N>, d: CodeUnit, w: Json<N>): Json<N> {
    Object(Member([c], v, Member([d], w, NoMembers)))
  }

  lemma JoinTwo(e: Text, f: Text)
    ensures Join([e] + [f]) == e + [COMMA] + f
  {
    assert ([e] + [f])[1..] == [f];
    assert Join([f]) == f;
  }

  lemma TwoEntries<N>(num: Numerals<N>, c: CodeUnit, v: Json<N>, s: Text, d: CodeUnit, w: Json<N>, t: Text)
    requires Plain(c) && Plain(d) && Canonicalize(num, v) == Ok(s) && Canonicalize(num, w) == Ok(t)
    ensures Entries(num, Member([d], w, Member([c], v, NoMembers)))
      == Ok([[QUOTE, d, QUOTE] + [COLON] + t] + [[QUOTE, c, QUOTE] + [COLON] + s])
  {
    PlainKey(c);
    PlainKey(d);
    var f := [QUOTE, c, QUOTE] + [COLON] + s;
    assert [f] + [] == [f];
    assert Entries(num, NoMembers) == Ok([]);
    assert Entries(num, Member([c], v, NoMembers)) == Ok([f]);
  }

  lemma TwoSorted<N>(c: CodeUnit, v: Json<N>, d: CodeUnit, w: Json<N>)
    requires d < c
    ensures Sort(Member([c], v, Member([d], w, NoMembers))) == Member([d], w, Member([c], v, NoMembers))
  {
    var single := Member([d], w, NoMembers);
    assert Less([d], [c]);
    assert Sort(single) == Insert([d], w, Sort(NoMembers)) == single;
    assert Insert([c], v, single) == Member([d], w, Insert([c], v, NoMembers));
    assert Sort(Member([c], v, single)) == Insert([c], v, Sort(single));
  }

  lemma Braces(c: CodeUnit, s: Text, d: CodeUnit, t: Text)
    ensures [LBRACE] + (([QUOTE, d, QUOTE] + [COLON] + t) + [COMMA] + ([QUOTE, c, QUOTE] + [COLON] + s)) + [RBRACE]
      == [LBRACE, QUOTE, d, QUOTE, COLON] + t + [COMMA, QUOTE, c, QUOTE, COLON] + s + [RBRACE]
  {
  }

  /** Two one-letter keys, given in descending order. */
  lemma TwoText<N>(num: Numerals<N>, c: CodeUnit, v: Json<N>, s: Text, d: CodeUnit, w: Json<N>, t: Text)
    requires Plain(c) && Plain(d) && d < c && Canonicalize(num, v) == Ok(s) && Canonicalize(num, w) == Ok(t)
    ensures Canonicalize(num, Two(c, v, d, w)) ==
      Ok([LBRACE, QUOTE, d, QUOTE, COLON] + t + [COMMA, QUOTE, c, QUOTE, COLON] + s + [RBRACE])
  {
    TwoSorted(c, v, d, w);
    TwoEntries(num, c, v, s, d, w, t);
    JoinTwo([QUOTE, d, QUOTE] + [COLON] + t, [QUOTE, c, QUOTE] + [COLON] + s);
    Braces(c, s, d, t);
  }

  lemma OneItem<N>(num: Numerals<N>, v: Json<N>, s: Text)
    requires Canonicalize(num, v) == Ok(s) && !v.Undefined?
    ensures Canonicalize(num, Array(Item(v, NoItems))) == Ok([LBRACKET] + s + [RBRACKET])
  {
    assert Elements(num, NoItems) == Ok([]);
    assert [s] + [] == [s];
    assert Elements(num, Item(v, NoItems)) == Ok([s]);
    assert Join([s]) == s;
  }

  lemma Words<N>(num: Numerals<N>)
    ensures Canonicalize(num, Null) == Ok(Units("null"))
    ensures Canonicalize(num, Bool(true)) == Ok(Units("true"))
    ensures Canonicalize(num, Bool(false)) == Ok(Units("false"))
  {
    assert NULL_TEXT == Units("null") && TRUE_TEXT == Units("true") && FALSE_TEXT == Units("false");
  }

  lemma TwoPieces(t: Text, s: Text)
    requires t == Units("false") && s == Units("[null]")
    ensures [LBRACE, QUOTE, 'a' as int, QUOTE, COLON] + t + [COMMA, QUOTE, 'b' as int, QUOTE, COLON] + s + [RBRACE]
      == Units("{\"a\":false,\"b\":[null]}")
  {
  }

  /** The text of the document {b: [null], a: false}. */
  lemma GoldenText<N>(num: Numerals<N>)
    ensures Canonicalize(num, Two('b' as int, Array(Item(Null, NoItems)), 'a' as int, Bool(false)))
         == Ok(Units("{\"a\":false,\"b\":[null]}"))
  {
    var s, t := [LBRACKET] + Units("null") + [RBRACKET], Units("false");
    Words(num);
    OneItem(num, Null, Units("null"));
    assert s == Units("[null]");
    TwoText(num, 'b' as int, Array(Item(Null, NoItems)), s, 'a' as int, Bool(false), t);
    TwoPieces(t, s);
  }

  // ---- the normal form prints the same ----------------------------------------------------

  lemma {:induction false} SortSorted<N>(m: Members<N>)
    requires StrictlySorted(m)
    ensures Sort(m) == m
  {
    if m.NoMembers? {
    } else {
      SortSorted(m.tail);
      if m.tail.Member? { LessTotal(m.key, m.tail.key); }
    }
  }

  lemma {:induction false} InsertKeepsDistinct<N>(k: Text, v: Json<N>, m: Members<N>)
    requires KeysDistinct(v) && MembersKeysDistinct(m)
    ensures MembersKeysDistinct(Insert(k, v, m))
  {
    if m.NoMembers? {
    } else {
      InsertKeepsDistinct(k, v, m.tail);
    }
  }

  lemma {:induction false} SortKeepsDistinct<N>(m: Members<N>)
    requires MembersKeysDistinct(m)
    ensures MembersKeysDistinct(Sort(m))
  {
    if m.NoMembers? {
    } else {
      SortKeepsDistinct(m.tail);
      InsertKeepsDistinct(m.key, m.value, Sort(m.tail));
    }
  }

  /** A value and its normal form have the same canonical text. */
  lemma {:induction false} NormPrintsSame<N>(num: Numerals<N>, v: Json<N>)
    requires KeysDistinct(v)
    ensures Canonicalize(num, Norm(v)) == Canonicalize(num, v)
    decreases Size(v)
  {
    match v
    case Array(items) => NormElementsSame(num, items);
    case Object(members) =>
      SortMeaning(members);
      SortKeepsDistinct(members);
      NormSorted(Sort(members));
      SortSorted(NormMembers(Sort(members)));
      NormEntriesSame(num, Sort(members));
    case _ =>
  }

  lemma {:induction false} NormElementsSame<N>(num: Numerals<N>, items: Items<N>)
    requires ItemsKeysDistinct(items)
    ensures Elements(num, NormItems(items)) == Elements(num, items)
    decreases ItemsSize(items)
  {
    if items.NoItems? {
    } else {
      NormPrintsSame(num, items.head);
      NormElementsSame(num, items.tail);
    }
  }

  lemma {:induction false} NormEntriesSame<N>(num: Numerals<N>, m: Members<N>)
    requires MembersKeysDistinct(m)
    ensures Entries(num, NormMembers(m)) == Entries(num, m)
    decreases MembersSize(m)
  {
    if m.NoMembers? {
    } else {
      NormPrintsSame(num, m.value);
      NormEntriesSame(num, m.tail);
    }
  }

  // ---- canonical text is well-formed UTF-16 -----------------------------------------------

  /** Every surrogate is part of a pair. */
  predicate WellFormed(t: Text) {
    t == [] ||
    (if StartsPair(t) then WellFormed(t[2..])
     else !IsLead(t[0]) && !IsTrail(t[0]) && WellFormed(t[1..]))
  }

  lemma {:induction false} WellFormedConcat(a: Text, b: Text)
    requires WellFormed(a) && WellFormed(b)
    ensures WellFormed(a + b)
  {
    if a == [] {
      assert a + b == b;
    } else if StartsPair(a) {
      WellFormedConcat(a[2..], b);
      assert (a + b)[2..] == a[2..] + b;
    } else {
      WellFormedConcat(a[1..], b);
      assert (a + b)[1..] == a[1..] + b;
    }
  }

  lemma WellFormedUnit(c: CodeUnit)
    requires !IsLead(c) && !IsTrail(c)
    ensures WellFormed([c])
  {
  }

  /** Text without surrogates. */
  lemma {:induction false} PlainWellFormed(t: Text)
    requires forall i :: 0 <= i < |t| ==> !IsLead(t[i]) && !IsTrail(t[i])
    ensures WellFormed(t)
  {
    if t == [] {
    } else {
      PlainWellFormed(t[1..]);
    }
  }

  lemma UnitWellFormed(c: CodeUnit)
    ensures WellFormed(EscapeUnit(c))
  {
    PlainWellFormed(EscapeUnit(c));
  }

  lemma {:induction false} EscapeWellFormed(s: Text)
    ensures WellFormed(Escape(s))
  {
    if s == [] {
    } else if StartsPair(s) {
      EscapeWellFormed(s[2..]);
      assert WellFormed([s[0], s[1]][2..]);
      WellFormedConcat([s[0], s[1]], Escape(s[2..]));
    } else {
      EscapeWellFormed(s[1..]);
      UnitWellFormed(s[0]);
      WellFormedConcat(EscapeUnit(s[0]), Escape(s[1..]));
    }
  }

  lemma Bracketed(open: CodeUnit, t: Text, close: CodeUnit)
    requires WellFormed(t) && !IsLead(open) && !IsTrail(open) && !IsLead(close) && !IsTrail(close)
    ensures WellFormed([open] + t + [close])
  {
    WellFormedUnit(open);
    WellFormedUnit(close);
    WellFormedConcat([open], t);
    WellFormedConcat([open] + t, [close]);
  }

  lemma {:induction false} JoinWellFormed(parts: seq<Text>)
    requires forall i :: 0 <= i < |parts| ==> WellFormed(parts[i])
    ensures WellFormed(Join(parts))
  {
    if |parts| <= 1 {
    } else {
      JoinWellFormed(parts[1..]);
      WellFormedUnit(COMMA);
      WellFormedConcat(parts[0], [COMMA]);
      WellFormedConcat(parts[0] + [COMMA], Join(parts[1..]));
    }
  }

  /** Lone surrogates never reach the output, so encoding it as UTF-8 loses nothing. */
  lemma {:induction false} CanonicalWellFormed<N(!new)>(num: Numerals<N>, v: Json<N>)
    requires Lawful(num) && Canonicalize(num, v).Ok?
    ensures WellFormed(Canonicalize(num, v).value)
    decreases Size(v)
  {
    match v
    case Number(n) =>
      assert LawfulAt(num, n);
      NumberUnits(num.show(n));
      PlainWellFormed(num.show(n));
    case Str(s) => EscapeWellFormed(s); Bracketed(QUOTE, Escape(s), QUOTE);
    case Array(items) =>
      ElementsWellFormed(num, items);
      JoinWellFormed(Elements(num, items).value);
      Bracketed(LBRACKET, Join(Elements(num, items).value), RBRACKET);
    case Object(members) =>
      EntriesWellFormed(num, Sort(members));
      JoinWellFormed(Entries(num, Sort(members)).value);
      Bracketed(LBRACE, Join(Entries(num, Sort(members)).value), RBRACE);
    case Null => PlainWellFormed(NULL_TEXT);
    case Bool(b) => PlainWellFormed(if b then TRUE_TEXT else FALSE_TEXT);
    case _ =>
  }

  lemma {:induction false} ElementsWellFormed<N(!new)>(num: Numerals<N>, items: Items<N>)
    requires Lawful(num) && Elements(num, items).Ok?
    ensures forall i :: 0 <= i < |Elements(num, items).value| ==> WellFormed(Elements(num, items).value[i])
    decreases ItemsSize(items)
  {
    if items.NoItems? {
    } else {
      CanonicalWellFormed(num, items.head);
      ElementsWellFormed(num, items.tail);
    }
  }

  lemma {:induction false} EntriesWellFormed<N(!new)>(num: Numerals<N>, m: Members<N>)
    requires Lawful(num) && Entries(num, m).Ok?
    ensures forall i :: 0 <= i < |Entries(num, m).value| ==> WellFormed(Entries(num, m).value[i])
    decreases MembersSize(m)
  {
    if m.NoMembers? {
    } else {
      EntriesWellFormed(num, m.tail);
      if !m.value.Undefined? {
        CanonicalWellFormed(num, m.value);
        EscapeWellFormed(m.key);
        Bracketed(QUOTE, Escape(m.key), QUOTE);
        WellFormedUnit(COLON);
        WellFormedConcat(Quote(m.key), [COLON]);
        WellFormedConcat(Quote(m.key) + [COLON], Canonicalize(num, m.value).value);
      }
    }
  }
}
