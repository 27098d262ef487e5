/** A parser for the JSON grammar of RFC 8259, and its agreement with the canonical printer. */
module JsonParser {
  import opened Numeric
  import opened JsonValue
  import opened Numbers
  import opened CanonicalJson

  datatype Parsed<+T> = Fail | Parsed(value: T, rest: Text)

  predicate IsSpace(c: CodeUnit) { c == 0x20 || c == 0x09 || c == 0x0a || c == 0x0d }

  function SkipSpace(s: Text): (r: Text)
    ensures |r| <= |s|
  {
    if s != [] && IsSpace(s[0]) then SkipSpace(s[1..]) else s
  }

  // ---- strings ----------------------------------------------------------------------------

  function Unhex(c: CodeUnit): (r: Option<int>)
    ensures r.Some? ==> 0 <= r.value < 16
  {
    if 0x30 <= c < 0x3a then Some(c - 0x30)
    else if 0x41 <= c < 0x47 then Some(c - 0x37)
    else if 0x61 <= c < 0x67 then Some(c - 0x57)
    else None
  }

  function Unhex4(s: Text): (r: Option<CodeUnit>)
    requires |s| >= 4
  {
    match (Unhex(s[0]), Unhex(s[1]), Unhex(s[2]), Unhex(s[3]))
    case (Some(a), Some(b), Some(c), Some(d)) => Some(a * 4096 + b * 256 + c * 16 + d)
    case _ => None
  }

  /** The unit a two-character escape stands for. */
  function Unescape(c: CodeUnit): Option<CodeUnit> {
    if c == QUOTE || c == BACKSLASH || c == 0x2f then Some(c)
    else if c == 0x62 then Some(8)
    else if c == 0x74 then Some(9)
    else if c == 0x6e then Some(10)
    else if c == 0x66 then Some(12)
    else if c == 0x72 then Some(13)
    else None
  }

  /** One character of a string body: the unit it denotes and what follows. */
  function ParseUnit(s: Text): (r: Parsed<CodeUnit>)
    requires s != []
    ensures r.Parsed? ==> |r.rest| < |s|
  {
    if s[0] == BACKSLASH then
      if |s| < 2 then Fail
      else if s[1] == 0x75 then
        if |s| < 6 then Fail
        else match Unhex4(s[2..]) { case None => Fail case Some(c) => Parsed(c, s[6..]) }
      else match Unescape(s[1]) { case None => Fail case Some(c) => Parsed(c, s[2..]) }
    else if s[0] < 0x20 then Fail
    else Parsed(s[0], s[1..])
  }

  /** A string body up to and including its closing quote. */
  function ParseString(s: Text): (r: Parsed<Text>)
    ensures r.Parsed? ==> |r.rest| < |s|
    decreases |s|
  {
    if s == [] then Fail
    else if s[0] == QUOTE then Parsed([], s[1..])
    else
      match ParseUnit(s)
      case Fail => Fail
      case Parsed(c, rest) =>
        match ParseString(rest)
        case Fail => Fail
        case Parsed(text, end) => Parsed([c] + text, end)
  }

  // ---- numbers ----------------------------------------------------------------------------

  /** The longest run of units that numbers are made of. */
  function NumberCount(s: Text): (n: nat)
    ensures n <= |s|
  {
    if s != [] && IsNumberUnit(s[0]) then 1 + NumberCount(s[1..]) else 0
  }

  /** A number by the grammar; one too large for any finite number reads as an infinity. */
  function ParseNumber<N>(num: Numerals<N>, s: Text): (r: Parsed<Json<N>>)
    ensures r.Parsed? ==> |r.rest| < |s|
  {
    var n := NumberCount(s);
    if !IsNumber(s[..n]) then Fail
    else
      match num.value(s[..n])
      case None => Parsed(NonFinite, s[n..])
      case Some(x) => Parsed(Number(x), s[n..])
  }

  // ---- values -----------------------------------------------------------------------------

  function ParseWord<N>(s: Text, word: Text, v: Json<N>): (r: Parsed<Json<N>>)
    requires word != []
    ensures r.Parsed? ==> |r.rest| < |s|
  {
    if word <= s then Parsed(v, s[|word|..]) else Fail
  }

  function Remove<N>(m: Members<N>, k: Text): Members<N> {
    match m
    case NoMembers => NoMembers
    case Member(key, value, tail) => if key == k then Remove(tail, k) else Member(key, value, Remove(tail, k))
  }

  /** A repeated key keeps its first place and takes its last value. */
  function AddFirst<N>(k: Text, v: Json<N>, m: Members<N>): Members<N> {
    match Lookup(m, k)
    case None => Member(k, v, m)
    case Some(last) => Member(k, last, Remove(m, k))
  }

  function ParseValue<N>(num: Numerals<N>, s: Text): (r: Parsed<Json<N>>)
    ensures r.Parsed? ==> |r.rest| < |s|
    decreases |s|, 0
  {
    var t := SkipSpace(s);
    if t == [] then Fail
    else if t[0] == QUOTE then
      match ParseString(t[1..]) { case Fail => Fail case Parsed(text, rest) => Parsed(Str(text), rest) }
    else if t[0] == LBRACKET then
      var u := SkipSpace(t[1..]);
      if u != [] && u[0] == RBRACKET then Parsed(Array(NoItems), u[1..])
      else match ParseElements(num, u) { case Fail => Fail case Parsed(items, rest) => Parsed(Array(items), rest) }
    else if t[0] == LBRACE then
      var u := SkipSpace(t[1..]);
      if u != [] && u[0] == RBRACE then Parsed(Object(NoMembers), u[1..])
      else match ParseMembers(num, u) { case Fail => Fail case Parsed(members, rest) => Parsed(Object(members), rest) }
    else if t[0] == 0x6e then ParseWord(t, NULL_TEXT, Null)
    else if t[0] == 0x74 then ParseWord(t, TRUE_TEXT, Bool(true))
    else if t[0] == 0x66 then ParseWord(t, FALSE_TEXT, Bool(false))
    else ParseNumber(num, t)
  }

  /** One or more elements, up to and including the closing bracket. */
  function ParseElements<N>(num: Numerals<N>, s: Text): (r: Parsed<Items<N>>)
    ensures r.Parsed? ==> |r.rest| < |s|
    decreases |s|, 1
  {
    match ParseValue(num, s)
    case Fail => Fail
    case Parsed(v, after) =>
      var u := SkipSpace(after);
      if u == [] then Fail
      else if u[0] == RBRACKET then Parsed(Item(v, NoItems), u[1..])
      else if u[0] == COMMA then
        match ParseElements(num, u[1..]) { case Fail => Fail case Parsed(items, rest) => Parsed(Item(v, items), rest) }
      else Fail
  }

  /** A quoted key and its colon. */
  function ParseKey(s: Text): (r: Parsed<Text>)
    ensures r.Parsed? ==> |r.rest| < |s|
  {
    var t := SkipSpace(s);
    if t == [] || t[0] != QUOTE then Fail
    else
      match ParseString(t[1..])
      case Fail => Fail
      case Parsed(key, after) =>
        var u := SkipSpace(after);
        if u == [] || u[0] != COLON then Fail else Parsed(key, u[1..])
  }

  /** One or more members, up to and including the closing brace. */
  function ParseMembers<N>(num: Numerals<N>, s: Text): (r: Parsed<Members<N>>)
    ensures r.Parsed? ==> |r.rest| < |s|
    decreases |s|, 1
  {
    match ParseKey(s)
    case Fail => Fail
    case Parsed(key, afterKey) =>
      match ParseValue(num, afterKey)
      case Fail => Fail
      case Parsed(v, after) =>
        var u := SkipSpace(after);
        if u == [] then Fail
        else if u[0] == RBRACE then Parsed(Member(key, v, NoMembers), u[1..])
        else if u[0] == COMMA then
          match ParseMembers(num, u[1..])
          case Fail => Fail
          case Parsed(members, rest) => Parsed(AddFirst(key, v, members), rest)
        else Fail
  }

  /** A whole document. */
  function Parse<N>(num: Numerals<N>, s: Text): Option<Json<N>> {
    match ParseValue(num, s)
    case Fail => None
    case Parsed(v, rest) => if SkipSpace(rest) == [] then Some(v) else None
  }

  // ---- strings round-trip -----------------------------------------------------------------

  lemma UnhexHex(d: int)
    requires 0 <= d < 16
    ensures Unhex(Hex(d)) == Some(d)
  {
  }

  lemma HexDigits(c: CodeUnit)
    ensures c == c / 4096 * 4096 + c / 256 % 16 * 256 + c / 16 % 16 * 16 + c % 16
  {
    assert c / 256 == c / 4096 * 16 + c / 256 % 16;
    assert c / 16 == c / 256 * 16 + c / 16 % 16;
  }

  lemma HexRoundTrip(c: CodeUnit, more: Text)
    ensures Unhex4(Hex4(c) + more) == Some(c)
  {
    HexDigits(c);
    UnhexHex(c / 4096);
    UnhexHex(c / 256 % 16);
    UnhexHex(c / 16 % 16);
    UnhexHex(c % 16);
  }

  lemma UnitRoundTrip(c: CodeUnit, more: Text)
    ensures var s := EscapeUnit(c) + more;
      s != [] && s[0] != QUOTE && ParseUnit(s) == Parsed(c, more)
  {
    var s := EscapeUnit(c) + more;
    if c != QUOTE && c != BACKSLASH && !(8 <= c <= 13 && c != 11) && (c < 0x20 || IsLead(c) || IsTrail(c)) {
      assert s[2..] == Hex4(c) + more;
      HexRoundTrip(c, more);
      assert s[6..] == more;
    } else if |EscapeUnit(c)| == 2 {
      assert s[2..] == more;
    } else {
      assert s[1..] == more;
    }
  }

  lemma PlainUnit(c: CodeUnit, more: Text)
    requires c >= 0x20 && c != QUOTE && c != BACKSLASH
    ensures ParseString([c] + more) == match ParseString(more) { case Fail => Fail case Parsed(t, end) => Parsed([c] + t, end) }
  {
    assert ([c] + more)[1..] == more;
  }

  lemma Regroup(a: Text, b: Text, rest: Text)
    ensures (a + b) + [QUOTE] + rest == a + (b + [QUOTE] + rest)
  {
  }

  lemma TwoInFront(a: CodeUnit, b: CodeUnit, t: Text)
    ensures [a, b] + t == [a] + ([b] + t)
  {
  }

  lemma PairInFront(a: CodeUnit, b: CodeUnit, escaped: Text, t: Text, rest: Text)
    requires IsLead(a) && IsTrail(b)
    requires ParseString(escaped + [QUOTE] + rest) == Parsed(t, rest)
    ensures ParseString(([a, b] + escaped) + [QUOTE] + rest) == Parsed([a, b] + t, rest)
  {
    var more := escaped + [QUOTE] + rest;
    Regroup([a, b], escaped, rest);
    TwoInFront(a, b, more);
    PlainUnit(a, [b] + more);
    PlainUnit(b, more);
    TwoInFront(a, b, t);
  }

  lemma PairRoundTrip(s: Text, rest: Text)
    requires StartsPair(s)
    requires ParseString(Escape(s[2..]) + [QUOTE] + rest) == Parsed(s[2..], rest)
    ensures ParseString(Escape(s) + [QUOTE] + rest) == Parsed(s, rest)
  {
    PairInFront(s[0], s[1], Escape(s[2..]), s[2..], rest);
    assert s == [s[0], s[1]] + s[2..];
  }

  /** Reading one escaped unit in front of a text that parses. */
  lemma UnitInFront(c: CodeUnit, escaped: Text, t: Text, rest: Text)
    requires ParseString(escaped + [QUOTE] + rest) == Parsed(t, rest)
    ensures ParseString((EscapeUnit(c) + escaped) + [QUOTE] + rest) == Parsed([c] + t, rest)
  {
    Regroup(EscapeUnit(c), escaped, rest);
    UnitRoundTrip(c, escaped + [QUOTE] + rest);
  }

  lemma SingleRoundTrip(s: Text, rest: Text)
    requires s != [] && !StartsPair(s)
    requires ParseString(Escape(s[1..]) + [QUOTE] + rest) == Parsed(s[1..], rest)
    ensures ParseString(Escape(s) + [QUOTE] + rest) == Parsed(s, rest)
  {
    UnitInFront(s[0], Escape(s[1..]), s[1..], rest);
    assert s == [s[0]] + s[1..];
  }

  /** Parsing an escaped body gives the string back. */
  lemma {:induction false} StringRoundTrip(s: Text, rest: Text)
    ensures ParseString(Escape(s) + [QUOTE] + rest) == Parsed(s, rest)
  {
    if s == [] {
      assert Escape(s) + [QUOTE] + rest == [QUOTE] + rest;
    } else if StartsPair(s) {
      StringRoundTrip(s[2..], rest);
      PairRoundTrip(s, rest);
    } else {
      StringRoundTrip(s[1..], rest);
      SingleRoundTrip(s, rest);
    }
  }

  // ---- numbers round-trip -----------------------------------------------------------------

  /** Text after which a value may end. */
  predicate Stops(rest: Text) {
    rest == [] || rest[0] == COMMA || rest[0] == RBRACKET || rest[0] == RBRACE
  }

  lemma {:induction false} NumberCountIs(t: Text, rest: Text)
    requires (forall i :: 0 <= i < |t| ==> IsNumberUnit(t[i])) && Stops(rest)
    ensures NumberCount(t + rest) == |t|
  {
    if t == [] {
      assert t + rest == rest;
    } else {
      NumberCountIs(t[1..], rest);
      assert (t + rest)[1..] == t[1..] + rest;
    }
  }

  /** Any number in grammatical text is read whole. */
  lemma NumberReads<N>(num: Numerals<N>, t: Text, rest: Text)
    requires IsNumber(t) && Stops(rest)
    ensures ParseNumber(num, t + rest)
      == Parsed(match num.value(t) { case None => NonFinite case Some(x) => Number(x) }, rest)
  {
    NumberUnits(t);
    NumberCountIs(t, rest);
    assert (t + rest)[..|t|] == t && (t + rest)[|t|..] == rest;
  }

  /** Parsing a printed number gives it back. */
  lemma NumberRoundTrip<N(!new)>(num: Numerals<N>, x: N, rest: Text)
    requires Lawful(num) && Stops(rest)
    ensures ParseNumber(num, num.show(x) + rest) == Parsed(Number(x), rest)
  {
    assert LawfulAt(num, x);
    NumberReads(num, num.show(x), rest);
  }

  // ---- values round-trip ------------------------------------------------------------------

  /** First units of canonical texts: none is a space or a closing bracket. */
  predicate Opens(t: Text) {
    t != [] && (IsDigit(t[0]) || t[0] in [MINUS, QUOTE, LBRACKET, LBRACE, 0x6e, 0x74, 0x66])
  }

  lemma CanonicalOpens<N(!new)>(num: Numerals<N>, v: Json<N>)
    requires Lawful(num) && Canonicalize(num, v).Ok?
    ensures Opens(Canonicalize(num, v).value)
  {
    if v.Number? {
      assert LawfulAt(num, v.n);
      NumberOpens(num.show(v.n));
    }
  }

  lemma OpensConcat(t: Text, rest: Text)
    requires Opens(t)
    ensures Opens(t + rest) && SkipSpace(t + rest) == t + rest
  {
  }

  /** What may follow one element or member: the closing unit, or a comma and the others. */
  function After(parts: seq<Text>, close: CodeUnit, rest: Text): Text {
    if parts == [] then [close] + rest else [COMMA] + (Join(parts) + [close] + rest)
  }

  lemma JoinCons(part: Text, parts: seq<Text>, close: CodeUnit, rest: Text)
    ensures Join([part] + parts) + [close] + rest == part + After(parts, close, rest)
  {
    assert ([part] + parts)[1..] == parts;
  }

  lemma ElementStep<N>(num: Numerals<N>, s: Text, v: Json<N>, parts: seq<Text>, items: Items<N>, rest: Text)
    requires ParseValue(num, s) == Parsed(v, After(parts, RBRACKET, rest))
    requires if parts == [] then items.NoItems?
             else ParseElements(num, Join(parts) + [RBRACKET] + rest) == Parsed(items, rest)
    ensures ParseElements(num, s) == Parsed(Item(v, items), rest)
  {
    var after := After(parts, RBRACKET, rest);
    assert after[1..] == if parts == [] then rest else Join(parts) + [RBRACKET] + rest;
  }

  lemma MemberStep<N>(num: Numerals<N>, s: Text, key: Text, afterKey: Text, v: Json<N>, parts: seq<Text>,
    members: Members<N>, rest: Text)
    requires ParseKey(s) == Parsed(key, afterKey)
    requires ParseValue(num, afterKey) == Parsed(v, After(parts, RBRACE, rest))
    requires if parts == [] then members.NoMembers?
             else ParseMembers(num, Join(parts) + [RBRACE] + rest) == Parsed(members, rest)
    requires !HasKey(members, key)
    ensures ParseMembers(num, s) == Parsed(Member(key, v, members), rest)
  {
    var after := After(parts, RBRACE, rest);
    assert after[1..] == if parts == [] then rest else Join(parts) + [RBRACE] + rest;
  }

  lemma WordRoundTrip<N>(word: Text, v: Json<N>, rest: Text)
    requires word != []
    ensures ParseWord(word + rest, word, v) == Parsed(v, rest)
  {
    assert (word + rest)[|word|..] == rest;
  }

  /** Whatever its spelling, a number in a document reads as the number it denotes. */
  lemma NumberValueReads<N>(num: Numerals<N>, t: Text, rest: Text)
    requires IsNumber(t) && Stops(rest)
    ensures ParseValue(num, t + rest)
      == Parsed(match num.value(t) { case None => NonFinite case Some(x) => Number(x) }, rest)
  {
    NumberOpens(t);
    NumberReads(num, t, rest);
  }

  lemma NumberDocument<N>(num: Numerals<N>, t: Text)
    requires IsNumber(t)
    ensures Parse(num, t) == Some(match num.value(t) { case None => NonFinite case Some(x) => Number(x) })
  {
    NumberValueReads(num, t, []);
    assert t + [] == t;
  }

  lemma NumberValueRoundTrip<N(!new)>(num: Numerals<N>, x: N, rest: Text)
    requires Lawful(num) && Stops(rest)
    ensures ParseValue(num, num.show(x) + rest) == Parsed(Number(x), rest)
  {
    assert LawfulAt(num, x);
    NumberValueReads(num, num.show(x), rest);
  }

  lemma StrStep<N>(num: Numerals<N>, t: Text, text: Text, rest: Text)
    requires t != [] && t[0] == QUOTE && ParseString(t[1..]) == Parsed(text, rest)
    ensures ParseValue(num, t) == Parsed(Str(text), rest)
  {
  }

  lemma QuoteTail(s: Text, rest: Text)
    ensures var t := Quote(s) + rest; t[0] == QUOTE && t[1..] == Escape(s) + [QUOTE] + rest
  {
  }

  lemma StrValueRoundTrip<N>(num: Numerals<N>, s: Text, rest: Text)
    ensures ParseValue(num, Quote(s) + rest) == Parsed(Str(s), rest)
  {
    QuoteTail(s, rest);
    StringRoundTrip(s, rest);
    StrStep(num, Quote(s) + rest, s, rest);
  }

  lemma WordValueRoundTrip<N>(num: Numerals<N>, word: Text, v: Json<N>, rest: Text)
    requires (v.Null? && word == NULL_TEXT) || (v.Bool? && word == if v.b then TRUE_TEXT else FALSE_TEXT)
    ensures ParseValue(num, word + rest) == Parsed(v, rest)
  {
    WordRoundTrip(word, v, rest);
    assert (word + rest)[0] == word[0];
  }

  /** Scalars round-trip. */
  lemma ScalarRoundTrip<N(!new)>(num: Numerals<N>, v: Json<N>, rest: Text)
    requires Lawful(num) && !v.Array? && !v.Object? && Canonicalize(num, v).Ok? && Stops(rest)
    ensures ParseValue(num, Canonicalize(num, v).value + rest) == Parsed(v, rest)
  {
    match v
    case Null => WordValueRoundTrip(num, NULL_TEXT, v, rest);
    case Bool(b) => WordValueRoundTrip(num, if b then TRUE_TEXT else FALSE_TEXT, v, rest);
    case Number(n) => NumberValueRoundTrip(num, n, rest);
    case Str(s) => StrValueRoundTrip(num, s, rest);
    case _ =>
  }

  /** Parsing the canonical text of a value, with anything after it that may end a value,
      gives its normal form back and leaves what followed. */
  lemma {:induction false} ValueRoundTrip<N(!new)>(num: Numerals<N>, v: Json<N>, rest: Text)
    requires Lawful(num) && KeysDistinct(v) && Canonicalize(num, v).Ok? && Stops(rest)
    ensures ParseValue(num, Canonicalize(num, v).value + rest) == Parsed(Norm(v), rest)
    decreases Size(v)
  {
    match v
    case Array(items) => ArrayRoundTrip(num, items, rest);
    case Object(members) =>
      SortMeaning(members);
      SortKeepsDistinct(members);
      ObjectRoundTrip(num, Sort(members), rest);
    case _ => ScalarRoundTrip(num, v, rest);
  }

  lemma {:induction false} ArrayRoundTrip<N(!new)>(num: Numerals<N>, items: Items<N>, rest: Text)
    requires Lawful(num) && ItemsKeysDistinct(items) && Elements(num, items).Ok?
    ensures ParseValue(num, [LBRACKET] + Join(Elements(num, items).value) + [RBRACKET] + rest)
      == Parsed(Array(NormItems(items)), rest)
    decreases ItemsSize(items), 1
  {
    var body := Join(Elements(num, items).value) + [RBRACKET] + rest;
    var whole := [LBRACKET] + Join(Elements(num, items).value) + [RBRACKET] + rest;
    assert whole == [LBRACKET] + body;
    if items.NoItems? {
      assert body == [RBRACKET] + rest;
    } else {
      ElementsRoundTrip(num, items, rest);
    }
  }

  lemma {:induction false} ElementsRoundTrip<N(!new)>(num: Numerals<N>, items: Items<N>, rest: Text)
    requires Lawful(num) && items.Item? && ItemsKeysDistinct(items) && Elements(num, items).Ok?
    ensures var body := Join(Elements(num, items).value) + [RBRACKET] + rest;
      Opens(body) && SkipSpace(body) == body && ParseElements(num, body) == Parsed(NormItems(items), rest)
    decreases ItemsSize(items), 0
  {
    var part, parts := Canonicalize(num, items.head).value, Elements(num, items.tail).value;
    var body := Join(Elements(num, items).value) + [RBRACKET] + rest;
    var after := After(parts, RBRACKET, rest);
    JoinCons(part, parts, RBRACKET, rest);
    CanonicalOpens(num, items.head);
    OpensConcat(part, after);
    ValueRoundTrip(num, items.head, after);
    if items.tail.Item? { ElementsRoundTrip(num, items.tail, rest); }
    ElementStep(num, body, Norm(items.head), parts, NormItems(items.tail), rest);
  }

  lemma {:induction false} NoEntries<N>(num: Numerals<N>, m: Members<N>)
    requires Entries(num, m).Ok?
    ensures Entries(num, m).value == [] <==> NormMembers(m).NoMembers?
  {
    if m.Member? && m.value.Undefined? { NoEntries(num, m.tail); }
  }

  lemma {:induction false} ObjectRoundTrip<N(!new)>(num: Numerals<N>, m: Members<N>, rest: Text)
    requires Lawful(num) && StrictlySorted(m) && MembersKeysDistinct(m) && Entries(num, m).Ok?
    ensures ParseValue(num, [LBRACE] + Join(Entries(num, m).value) + [RBRACE] + rest)
      == Parsed(Object(NormMembers(m)), rest)
    decreases MembersSize(m), 2
  {
    var body := Join(Entries(num, m).value) + [RBRACE] + rest;
    var whole := [LBRACE] + Join(Entries(num, m).value) + [RBRACE] + rest;
    assert whole == [LBRACE] + body;
    NoEntries(num, m);
    if Entries(num, m).value == [] {
      assert body == [RBRACE] + rest;
    } else {
      EntriesRoundTrip(num, m, rest);
    }
  }

  lemma QuotedReads(inner: Text, key: Text, after: Text)
    requires ParseString(inner) == Parsed(key, after) && after != [] && after[0] == COLON
    ensures SkipSpace([QUOTE] + inner) == [QUOTE] + inner && ParseKey([QUOTE] + inner) == Parsed(key, after[1..])
  {
    assert ([QUOTE] + inner)[1..] == inner;
    assert SkipSpace(after) == after;
  }

  lemma Wrap(t: Text, after: Text)
    ensures [QUOTE] + t + [QUOTE] + after == [QUOTE] + (t + [QUOTE] + after)
  {
  }

  lemma KeyReads(s: Text, key: Text, after: Text)
    requires s == Quote(key) + after && after != [] && after[0] == COLON
    ensures SkipSpace(s) == s && ParseKey(s) == Parsed(key, after[1..])
  {
    StringRoundTrip(key, after);
    Wrap(Escape(key), after);
    QuotedReads(Escape(key) + [QUOTE] + after, key, after);
  }

  lemma KeyRoundTrip(key: Text, more: Text)
    ensures ParseKey(Quote(key) + [COLON] + more) == Parsed(key, more)
    ensures SkipSpace(Quote(key) + [COLON] + more) == Quote(key) + [COLON] + more
  {
    KeyReads(Quote(key) + [COLON] + more, key, [COLON] + more);
  }

  lemma {:induction false} EntriesRoundTrip<N(!new)>(num: Numerals<N>, m: Members<N>, rest: Text)
    requires Lawful(num) && StrictlySorted(m) && MembersKeysDistinct(m) && Entries(num, m).Ok? && Entries(num, m).value != []
    ensures var body := Join(Entries(num, m).value) + [RBRACE] + rest;
      Opens(body) && SkipSpace(body) == body && ParseMembers(num, body) == Parsed(NormMembers(m), rest)
    decreases MembersSize(m), 1
  {
    if m.value.Undefined? {
      EntriesRoundTrip(num, m.tail, rest);
    } else {
      EntryRoundTrip(num, m, rest);
    }
  }

  lemma EntryBody(key: Text, text: Text, parts: seq<Text>, rest: Text)
    ensures Join([Quote(key) + [COLON] + text] + parts) + [RBRACE] + rest
      == Quote(key) + [COLON] + (text + After(parts, RBRACE, rest))
  {
    JoinCons(Quote(key) + [COLON] + text, parts, RBRACE, rest);
  }

  lemma {:induction false} EntryRoundTrip<N(!new)>(num: Numerals<N>, m: Members<N>, rest: Text)
    requires Lawful(num) && m.Member? && !m.value.Undefined?
    requires StrictlySorted(m) && MembersKeysDistinct(m) && Entries(num, m).Ok?
    ensures var body := Join(Entries(num, m).value) + [RBRACE] + rest;
      Opens(body) && SkipSpace(body) == body && ParseMembers(num, body) == Parsed(NormMembers(m), rest)
    decreases MembersSize(m), 0
  {
    var text, parts := Canonicalize(num, m.value).value, Entries(num, m.tail).value;
    var body := Join(Entries(num, m).value) + [RBRACE] + rest;
    var after := After(parts, RBRACE, rest);
    EntryBody(m.key, text, parts, rest);
    KeyRoundTrip(m.key, text + after);
    ValueRoundTrip(num, m.value, after);
    NoEntries(num, m.tail);
    NormGreater(m.tail, m.key);
    GreaterHasNoKey(NormMembers(m.tail), m.key);
    if parts != [] { EntriesRoundTrip(num, m.tail, rest); }
    MemberStep(num, body, m.key, text + after, Norm(m.value), parts, NormMembers(m.tail), rest);
  }

  /** Parsing canonical text gives the value up to key order and undefined members. */
  lemma ParseCanonical<N(!new)>(num: Numerals<N>, v: Json<N>)
    requires Lawful(num) && KeysDistinct(v) && Canonicalize(num, v).Ok?
    ensures Parse(num, Canonicalize(num, v).value) == Some(Norm(v))
  {
    ValueRoundTrip(num, v, []);
    assert Canonicalize(num, v).value + [] == Canonicalize(num, v).value;
  }

  /** The round trip for documents whose numbers are integers below 2^53, printed as digits. */
  lemma SafeIntegerDocuments(v: Json<Safe>)
    requires KeysDistinct(v) && Canonicalize(SAFE_INTEGERS, v).Ok?
    ensures Parse(SAFE_INTEGERS, Canonicalize(SAFE_INTEGERS, v).value) == Some(Norm(v))
  {
    SafeIntegersAreLawful();
    ParseCanonical(SAFE_INTEGERS, v);
  }

  /** Two values have the same canonical text exactly when they agree up to key order and
      undefined members. */
  lemma SameTextIffAgree<N(!new)>(num: Numerals<N>, v: Json<N>, w: Json<N>)
    requires Lawful(num) && KeysDistinct(v) && KeysDistinct(w) && Canonicalize(num, v).Ok? && Canonicalize(num, w).Ok?
    ensures Canonicalize(num, v) == Canonicalize(num, w) <==> Agree(v, w)
  {
    AgreeIsSameNorm(v, w);
    ParseCanonical(num, v);
    ParseCanonical(num, w);
    NormPrintsSame(num, v);
    NormPrintsSame(num, w);
  }

  // ---- what the parser produces -----------------------------------------------------------

  /** Built from what the parser makes: JSON values, and infinities for numbers too large. */
  predicate JsonOnly<N>(v: Json<N>) {
    match v
    case Array(items) => JsonOnlyItems(items)
    case Object(members) => JsonOnlyMembers(members)
    case Undefined => false
    case BigInt => false
    case _ => true
  }

  predicate JsonOnlyItems<N>(items: Items<N>) {
    match items
    case NoItems => true
    case Item(head, tail) => JsonOnly(head) && JsonOnlyItems(tail)
  }

  predicate JsonOnlyMembers<N>(m: Members<N>) {
    match m
    case NoMembers => true
    case Member(_, value, tail) => JsonOnly(value) && JsonOnlyMembers(tail)
  }

  /** A member list the parser may have built. */
  predicate ParsedMembers<N>(m: Members<N>) { Distinct(m) && MembersKeysDistinct(m) && JsonOnlyMembers(m) }

  lemma {:induction false} RemoveLookup<N>(m: Members<N>, k: Text, q: Text)
    ensures Lookup(Remove(m, k), q) == if q == k then None else Lookup(m, q)
  {
    if m.NoMembers? {
    } else {
      RemoveLookup(m.tail, k, q);
    }
  }

  lemma {:induction false} RemoveParsed<N>(m: Members<N>, k: Text)
    requires ParsedMembers(m)
    ensures ParsedMembers(Remove(m, k))
  {
    if m.NoMembers? {
    } else {
      RemoveParsed(m.tail, k);
      RemoveLookup(m.tail, k, m.key);
    }
  }

  lemma {:induction false} LookupJsonOnly<N>(m: Members<N>, k: Text)
    requires JsonOnlyMembers(m) && Lookup(m, k).Some?
    ensures JsonOnly(Lookup(m, k).value)
  {
    if m.key == k {
    } else {
      LookupJsonOnly(m.tail, k);
    }
  }

  /** Adding a member keeps keys distinct: a repeated key takes the later value. */
  lemma AddFirstMeaning<N>(k: Text, v: Json<N>, m: Members<N>, q: Text)
    requires ParsedMembers(m) && KeysDistinct(v) && JsonOnly(v)
    ensures ParsedMembers(AddFirst(k, v, m))
    ensures Lookup(AddFirst(k, v, m), q) == if q == k && !HasKey(m, k) then Some(v) else Lookup(m, q)
  {
    RemoveParsed(m, k);
    RemoveLookup(m, k, k);
    RemoveLookup(m, k, q);
    if HasKey(m, k) {
      LookupKeysDistinct(m, k);
      LookupJsonOnly(m, k);
    }
  }

  /** Every parsed value has distinct keys and only JSON values inside. */
  lemma {:induction false} ParsedIsJson<N>(num: Numerals<N>, s: Text)
    requires ParseValue(num, s).Parsed?
    ensures JsonOnly(ParseValue(num, s).value) && KeysDistinct(ParseValue(num, s).value)
    decreases |s|, 0
  {
    var t := SkipSpace(s);
    if t[0] == QUOTE {
    } else if t[0] == LBRACKET {
      if ParseElements(num, SkipSpace(t[1..])).Parsed? { ParsedElementsAreJson(num, SkipSpace(t[1..])); }
    } else if t[0] == LBRACE {
      if ParseMembers(num, SkipSpace(t[1..])).Parsed? { ParsedMembersAreJson(num, SkipSpace(t[1..])); }
    }
  }

  lemma {:induction false} ParsedElementsAreJson<N>(num: Numerals<N>, s: Text)
    requires ParseElements(num, s).Parsed?
    ensures JsonOnlyItems(ParseElements(num, s).value) && ItemsKeysDistinct(ParseElements(num, s).value)
    decreases |s|, 1
  {
    ParsedIsJson(num, s);
    var u := SkipSpace(ParseValue(num, s).rest);
    if u[0] == COMMA { ParsedElementsAreJson(num, u[1..]); }
  }

  lemma {:induction false} ParsedMembersAreJson<N>(num: Numerals<N>, s: Text)
    requires ParseMembers(num, s).Parsed?
    ensures ParsedMembers(ParseMembers(num, s).value)
    decreases |s|, 1
  {
    var k := ParseKey(s);
    ParsedIsJson(num, k.rest);
    var v := ParseValue(num, k.rest);
    var u := SkipSpace(v.rest);
    if u[0] == COMMA {
      ParsedMembersAreJson(num, u[1..]);
      AddFirstMeaning(k.value, v.value, ParseMembers(num, u[1..]).value, []);
    }
  }

  lemma {:induction false} InsertJsonOnly<N>(k: Text, v: Json<N>, m: Members<N>)
    requires JsonOnly(v) && JsonOnlyMembers(m)
    ensures JsonOnlyMembers(Insert(k, v, m))
  {
    if m.NoMembers? {
    } else {
      InsertJsonOnly(k, v, m.tail);
    }
  }

  lemma {:induction false} SortJsonOnly<N>(m: Members<N>)
    requires JsonOnlyMembers(m)
    ensures JsonOnlyMembers(Sort(m))
  {
    if m.NoMembers? {
    } else {
      SortJsonOnly(m.tail);
      InsertJsonOnly(m.key, m.value, Sort(m.tail));
    }
  }

  /** No infinity inside. */
  predicate Finite<N>(v: Json<N>) {
    match v
    case Array(items) => ItemsFinite(items)
    case Object(members) => MembersFinite(members)
    case NonFinite => false
    case _ => true
  }

  predicate ItemsFinite<N>(items: Items<N>) {
    match items
    case NoItems => true
    case Item(head, tail) => Finite(head) && ItemsFinite(tail)
  }

  predicate MembersFinite<N>(m: Members<N>) {
    match m
    case NoMembers => true
    case Member(_, value, tail) => Finite(value) && MembersFinite(tail)
  }

  lemma {:induction false} InsertFinite<N>(k: Text, v: Json<N>, m: Members<N>)
    ensures MembersFinite(Insert(k, v, m)) <==> Finite(v) && MembersFinite(m)
  {
    if m.NoMembers? {
    } else {
      InsertFinite(k, v, m.tail);
    }
  }

  lemma {:induction false} SortFinite<N>(m: Members<N>)
    ensures MembersFinite(Sort(m)) <==> MembersFinite(m)
  {
    if m.NoMembers? {
    } else {
      SortFinite(m.tail);
      InsertFinite(m.key, m.value, Sort(m.tail));
    }
  }

  /** A parsed value has a canonical text exactly when no number in it was too large. */
  lemma {:induction false} JsonCanonicalizes<N>(num: Numerals<N>, v: Json<N>)
    requires JsonOnly(v)
    ensures Canonicalize(num, v).Ok? <==> Finite(v)
    ensures !Finite(v) ==> Canonicalize(num, v) == Err(NonFiniteNumber)
    decreases Size(v)
  {
    match v
    case Array(items) => ItemsCanonicalize(num, items);
    case Object(members) =>
      SortJsonOnly(members);
      SortFinite(members);
      MembersCanonicalize(num, Sort(members));
    case _ =>
  }

  lemma {:induction false} ItemsCanonicalize<N>(num: Numerals<N>, items: Items<N>)
    requires JsonOnlyItems(items)
    ensures Elements(num, items).Ok? <==> ItemsFinite(items)
    ensures !ItemsFinite(items) ==> Elements(num, items) == Err(NonFiniteNumber)
    decreases ItemsSize(items)
  {
    if items.NoItems? {
    } else {
      JsonCanonicalizes(num, items.head);
      ItemsCanonicalize(num, items.tail);
    }
  }

  lemma {:induction false} MembersCanonicalize<N>(num: Numerals<N>, m: Members<N>)
    requires JsonOnlyMembers(m)
    ensures Entries(num, m).Ok? <==> MembersFinite(m)
    ensures !MembersFinite(m) ==> Entries(num, m) == Err(NonFiniteNumber)
    decreases MembersSize(m)
  {
    if m.NoMembers? {
    } else {
      JsonCanonicalizes(num, m.value);
      MembersCanonicalize(num, m.tail);
    }
  }

  /** A document that parses has a canonical text unless a number in it is too large, and canonicalizing
      is then idempotent on it. */
  lemma CanonicalFixpoint<N(!new)>(num: Numerals<N>, s: Text)
    requires Lawful(num) && Parse(num, s).Some?
    ensures Canonicalize(num, Parse(num, s).value).Ok? <==> Finite(Parse(num, s).value)
    ensures Finite(Parse(num, s).value) ==>
      var t := Canonicalize(num, Parse(num, s).value).value;
      Parse(num, t).Some? && Canonicalize(num, Parse(num, t).value) == Ok(t)
  {
    ParsedIsJson(num, s);
    JsonCanonicalizes(num, Parse(num, s).value);
    if Finite(Parse(num, s).value) {
      ParseCanonical(num, Parse(num, s).value);
      NormPrintsSame(num, Parse(num, s).value);
    }
  }
}
