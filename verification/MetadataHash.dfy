/** The metadata commitment: canonical bytes, their hash, and the check of fetched bytes. */
module MetadataHash {
  import opened Numeric
  import opened JsonValue
  import opened Numbers
  import opened CanonicalJson
  import opened JsonParser
  import opened Utf8

  function CanonicalizeMetadata<N>(num: Numerals<N>, v: Json<N>): Result<Bytes, JsonError> {
    match Canonicalize(num, v)
    case Err(e) => Err(e)
    case Ok(text) => Ok(Encode(text))
  }

  /** keccak is any function of the bytes. */
  function Commitment<N, H>(num: Numerals<N>, keccak: Bytes -> H, v: Json<N>): Result<H, JsonError> {
    match CanonicalizeMetadata(num, v)
    case Err(e) => Err(e)
    case Ok(bytes) => Ok(keccak(bytes))
  }

  /** The document in fetched bytes, if they hold one. */
  function Fetched<N>(num: Numerals<N>, bytes: Bytes): (r: Option<Json<N>>)
    ensures r.Some? ==> JsonOnly(r.value) && KeysDistinct(r.value)
  {
    match Decode(bytes)
    case None => None
    case Some(text) =>
      match Parse(num, text)
      case None => None
      case Some(v) =>
        ParsedIsJson(num, text);
        Some(v)
  }

  /** None when the bytes are not a JSON document; an error is thrown past the caller. */
  function HashFetched<N, H>(num: Numerals<N>, keccak: Bytes -> H, bytes: Bytes): Option<Result<H, JsonError>> {
    match Fetched(num, bytes)
    case None => None
    case Some(v) => Some(Commitment(num, keccak, v))
  }

  /** A document hashes exactly when no number in it is too large; otherwise hashing it throws. */
  lemma HashedIffFinite<N, H>(num: Numerals<N>, keccak: Bytes -> H, bytes: Bytes)
    ensures HashFetched(num, keccak, bytes).None? <==> Fetched(num, bytes).None?
    ensures HashFetched(num, keccak, bytes).Some? && HashFetched(num, keccak, bytes).value.Ok?
      <==> Fetched(num, bytes).Some? && Finite(Fetched(num, bytes).value)
    ensures HashFetched(num, keccak, bytes) == Some(Err(NonFiniteNumber))
      <==> Fetched(num, bytes).Some? && !Finite(Fetched(num, bytes).value)
  {
    if Fetched(num, bytes).Some? { JsonCanonicalizes(num, Fetched(num, bytes).value); }
  }

  /** The bytes of 1e999, which no finite double holds. */
  const TOO_LARGE: Bytes := [0x31, 0x65, 0x39, 0x39, 0x39]

  lemma TooLargeDecodes()
    ensures Decode(TOO_LARGE) == Some(TOO_LARGE)
  {
    assert Encode(TOO_LARGE) == TOO_LARGE;
    EncodeDecodes(TOO_LARGE);
  }

  lemma TooLargeIsNumber()
    ensures IsNumber(TOO_LARGE)
  {
    var tail := TOO_LARGE[1..];
    assert DigitCount(tail) == 0 && DigitCount(TOO_LARGE) == 1;
    var digits := tail[1..];
    assert digits == [0x39, 0x39, 0x39];
    AllDigitsIs(digits);
  }

  /** So fetched bytes can be valid JSON and still throw instead of giving null. */
  lemma TooLargeThrows<N, H>(num: Numerals<N>, keccak: Bytes -> H)
    requires num.value(TOO_LARGE) == None
    ensures HashFetched(num, keccak, TOO_LARGE) == Some(Err(NonFiniteNumber))
  {
    TooLargeDecodes();
    TooLargeIsNumber();
    NumberDocument(num, TOO_LARGE);
    assert Fetched(num, TOO_LARGE) == Some(NonFinite);
  }

  lemma EncodeKeepsOpening(t: Text)
    requires Opens(t)
    ensures Encode(t) != [] && Encode(t)[0] == t[0] && !(BYTE_ORDER_MARK <= Encode(t))
  {
    assert EncodePoint(t[0]) == [t[0]];
  }

  /** Canonical bytes decode to the canonical text. */
  lemma BytesDecode<N(!new)>(num: Numerals<N>, v: Json<N>)
    requires Lawful(num) && Canonicalize(num, v).Ok?
    ensures Decode(CanonicalizeMetadata(num, v).value) == Some(Canonicalize(num, v).value)
  {
    CanonicalWellFormed(num, v);
    EncodeDecodes(Canonicalize(num, v).value);
    CanonicalOpens(num, v);
    EncodeKeepsOpening(Canonicalize(num, v).value);
  }

  /** Fetching the published bytes gives back the committed hash, and the document up to key order. */
  lemma PublishedBytesVerify<N(!new), H>(num: Numerals<N>, keccak: Bytes -> H, v: Json<N>)
    requires Lawful(num) && KeysDistinct(v) && Canonicalize(num, v).Ok?
    ensures var bytes := CanonicalizeMetadata(num, v).value;
      && Fetched(num, bytes) == Some(Norm(v))
      && HashFetched(num, keccak, bytes) == Some(Commitment(num, keccak, v))
  {
    BytesDecode(num, v);
    ParseCanonical(num, v);
    NormPrintsSame(num, v);
  }

  /** Different canonical bytes with the same hash. */
  predicate Collide<N, H(==)>(num: Numerals<N>, keccak: Bytes -> H, v: Json<N>, w: Json<N>) {
    && CanonicalizeMetadata(num, v).Ok? && CanonicalizeMetadata(num, w).Ok?
    && CanonicalizeMetadata(num, v).value != CanonicalizeMetadata(num, w).value
    && keccak(CanonicalizeMetadata(num, v).value) == keccak(CanonicalizeMetadata(num, w).value)
  }

  ghost predicate AgreeOrCollide<N(!new), H>(num: Numerals<N>, keccak: Bytes -> H, v: Json<N>, w: Json<N>) {
    Agree(v, w) || Collide(num, keccak, v, w)
  }

  /** For any hash, fetched bytes verify exactly when their document agrees with the committed one up to key
      order and undefined members, or the canonical bytes of the two are a collision. */
  lemma VerifiesIffAgrees<N(!new), H>(num: Numerals<N>, keccak: Bytes -> H, bytes: Bytes, v: Json<N>)
    requires Lawful(num) && KeysDistinct(v) && Canonicalize(num, v).Ok?
    ensures HashFetched(num, keccak, bytes) == Some(Commitment(num, keccak, v))
      <==> Fetched(num, bytes).Some? && AgreeOrCollide(num, keccak, Fetched(num, bytes).value, v)
  {
    if Fetched(num, bytes).Some? {
      var w := Fetched(num, bytes).value;
      AgreeIsSameNorm(w, v);
      NormPrintsSame(num, w);
      NormPrintsSame(num, v);
      BytesDecode(num, v);
      if Canonicalize(num, w).Ok? {
        BytesDecode(num, w);
        SameTextIffAgree(num, w, v);
      }
    }
  }
}
