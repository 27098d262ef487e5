/** JSON values as JavaScript holds them, key order, and the normal form of a value. */
module JsonValue {
  import opened Numeric

  /** A UTF-16 code unit. */
  type CodeUnit = u: int | 0 <= u < 0x10000

  type Text = seq<CodeUnit>

  /** What may reach the canonicalizer, over the finite numbers N. Undefined also stands for functions and
      symbols. Members are listed in enumeration order. */
  datatype Json<N> =
    | Null
    | Bool(b: bool)
    | Number(n: N)
    | Str(s: Text)
    | Array(items: Items<N>)
    | Object(members: Members<N>)
    | Undefined
    | BigInt
    | NonFinite

  datatype Items<N> = NoItems | Item(head: Json<N>, tail: Items<N>)

  datatype Members<N> = NoMembers | Member(key: Text, value: Json<N>, tail: Members<N>)

  function Size<N>(v: Json<N>): nat {
    match v
    case Array(items) => 1 + ItemsSize(items)
    case Object(members) => 1 + MembersSize(members)
    case _ => 1
  }

  function ItemsSize<N>(items: Items<N>): nat {
    match items
    case NoItems => 0
    case Item(head, tail) => 1 + Size(head) + ItemsSize(tail)
  }

  function MembersSize<N>(m: Members<N>): nat {
    match m
    case NoMembers => 0
    case Member(_, value, tail) => 1 + Size(value) + MembersSize(tail)
  }

  // ---- key order --------------------------------------------------------------------------

  /** Lexicographic by code unit. */
  predicate Less(a: Text, b: Text) {
    if b == [] then false
    else if a == [] then true
    else a[0] < b[0] || (a[0] == b[0] && Less(a[1..], b[1..]))
  }

  lemma {:induction false} LessTransitive(a: Text, b: Text, c: Text)
    requires Less(a, b) && Less(b, c)
    ensures Less(a, c)
  {
    if a != [] && a[0] == b[0] && b[0] == c[0] { LessTransitive(a[1..], b[1..], c[1..]); }
  }

  /** Exactly one of less, equal and greater holds. */
  lemma {:induction false} LessTotal(a: Text, b: Text)
    ensures a == b ==> !Less(a, b) && !Less(b, a)
    ensures a != b ==> Less(a, b) != Less(b, a)
  {
    if a != [] && b != [] {
      LessTotal(a[1..], b[1..]);
      if a[0] == b[0] && a[1..] == b[1..] { assert a == [a[0]] + a[1..] == b; }
    }
  }

  /** a comes first: it is a proper prefix of b, or has the smaller number where they first differ. */
  ghost predicate Precedes(a: Text, b: Text) {
    exists i :: 0 <= i <= |a| && i < |b| && a[..i] == b[..i] && (i == |a| || a[i] < b[i])
  }

  lemma {:induction false} LessIsByCodeUnit(a: Text, b: Text)
    ensures Less(a, b) <==> Precedes(a, b)
  {
    if b == [] {
    } else if a == [] {
      assert a[..0] == b[..0];
    } else {
      LessIsByCodeUnit(a[1..], b[1..]);
      if a[0] < b[0] {
        assert a[..0] == b[..0];
      } else if Less(a, b) {
        var i :| 0 <= i <= |a| - 1 && i < |b| - 1 && a[1..][..i] == b[1..][..i] && (i == |a| - 1 || a[1..][i] < b[1..][i]);
        assert a[..i + 1] == [a[0]] + a[1..][..i] && b[..i + 1] == [b[0]] + b[1..][..i];
      }
      if Precedes(a, b) {
        var i :| 0 <= i <= |a| && i < |b| && a[..i] == b[..i] && (i == |a| || a[i] < b[i]);
        if i > 0 {
          assert a[..i][0] == a[0] && b[..i][0] == b[0];
          assert a[1..][..i - 1] == a[..i][1..] && b[1..][..i - 1] == b[..i][1..];
        }
      }
    }
  }

  // ---- members ----------------------------------------------------------------------------

  function Lookup<N>(m: Members<N>, k: Text): (r: Option<Json<N>>)
    ensures r.Some? ==> Size(r.value) < MembersSize(m)
  {
    match m
    case NoMembers => None
    case Member(key, value, tail) => if key == k then Some(value) else Lookup(tail, k)
  }

  predicate HasKey<N>(m: Members<N>, k: Text) { Lookup(m, k).Some? }

  predicate Distinct<N>(m: Members<N>) {
    match m
    case NoMembers => true
    case Member(key, _, tail) => !HasKey(tail, key) && Distinct(tail)
  }

  predicate AllGreater<N>(m: Members<N>, k: Text) {
    match m
    case NoMembers => true
    case Member(key, _, tail) => Less(k, key) && AllGreater(tail, k)
  }

  predicate StrictlySorted<N>(m: Members<N>) {
    match m
    case NoMembers => true
    case Member(key, _, tail) => AllGreater(tail, key) && StrictlySorted(tail)
  }

  function Insert<N>(k: Text, v: Json<N>, m: Members<N>): (r: Members<N>)
    ensures MembersSize(r) == 1 + Size(v) + MembersSize(m)
  {
    match m
    case NoMembers => Member(k, v, NoMembers)
    case Member(key, value, tail) =>
      if Less(key, k) then Member(key, value, Insert(k, v, tail)) else Member(k, v, m)
  }

  /** The members in key order. */
  function Sort<N>(m: Members<N>): (r: Members<N>)
    ensures MembersSize(r) == MembersSize(m)
  {
    match m
    case NoMembers => NoMembers
    case Member(key, value, tail) => Insert(key, value, Sort(tail))
  }

  lemma {:induction false} InsertLookup<N>(k: Text, v: Json<N>, m: Members<N>, q: Text)
    requires !HasKey(m, k)
    ensures Lookup(Insert(k, v, m), q) == if q == k then Some(v) else Lookup(m, q)
  {
    match m
    case NoMembers =>
    case Member(key, value, tail) => InsertLookup(k, v, tail, q);
  }

  lemma {:induction false} InsertGreater<N>(k: Text, v: Json<N>, m: Members<N>, low: Text)
    ensures AllGreater(Insert(k, v, m), low) <==> Less(low, k) && AllGreater(m, low)
  {
    match m
    case NoMembers =>
    case Member(key, value, tail) => InsertGreater(k, v, tail, low);
  }

  lemma {:induction false} GreaterTransitive<N>(m: Members<N>, low: Text, k: Text)
    requires Less(low, k) && AllGreater(m, k)
    ensures AllGreater(m, low)
  {
    match m
    case NoMembers =>
    case Member(key, value, tail) =>
      LessTransitive(low, k, key);
      GreaterTransitive(tail, low, k);
  }

  lemma {:induction false} InsertSorted<N>(k: Text, v: Json<N>, m: Members<N>)
    requires StrictlySorted(m) && !HasKey(m, k)
    ensures StrictlySorted(Insert(k, v, m))
  {
    match m
    case NoMembers =>
    case Member(key, value, tail) =>
      LessTotal(key, k);
      if Less(key, k) {
        InsertSorted(k, v, tail);
        InsertGreater(k, v, tail, key);
      } else {
        GreaterTransitive(tail, k, key);
      }
  }

  /** Sorting keeps every lookup and orders the keys. */
  lemma {:induction false} SortMeaning<N>(m: Members<N>)
    requires Distinct(m)
    ensures StrictlySorted(Sort(m))
    ensures forall q :: Lookup(Sort(m), q) == Lookup(m, q)
  {
    match m
    case NoMembers =>
    case Member(key, value, tail) =>
      SortMeaning(tail);
      assert !HasKey(Sort(tail), key);
      InsertSorted(key, value, Sort(tail));
      forall q ensures Lookup(Sort(m), q) == Lookup(m, q) { InsertLookup(key, value, Sort(tail), q); }
  }

  lemma {:induction false} GreaterHasNoKey<N>(m: Members<N>, k: Text)
    requires AllGreater(m, k)
    ensures !HasKey(m, k)
  {
    match m
    case NoMembers =>
    case Member(key, _, tail) => LessTotal(k, key); GreaterHasNoKey(tail, k);
  }

  lemma {:induction false} SortedDistinct<N>(m: Members<N>)
    requires StrictlySorted(m)
    ensures Distinct(m)
  {
    match m
    case NoMembers =>
    case Member(key, value, tail) =>
      SortedDistinct(tail);
      GreaterHasNoKey(tail, key);
  }

  lemma {:induction false} GreaterKeys<N>(m: Members<N>, low: Text, k: Text)
    requires AllGreater(m, low) && HasKey(m, k)
    ensures Less(low, k)
  {
    if m.key == k {
    } else {
      GreaterKeys(m.tail, low, k);
    }
  }

  /** The first key of a sorted list is the least key it has. */
  lemma FirstKeys<N>(a: Members<N>, b: Members<N>)
    requires StrictlySorted(a) && StrictlySorted(b) && a.Member? && b.Member?
    requires HasKey(b, a.key) && HasKey(a, b.key)
    ensures a.key == b.key
  {
    LessTotal(a.key, b.key);
    if a.key != b.key {
      GreaterKeys(a.tail, a.key, b.key);
      GreaterKeys(b.tail, b.key, a.key);
    }
  }

  /** A sorted list is determined by its lookups. */
  lemma {:induction false} SortedUnique<N>(a: Members<N>, b: Members<N>)
    requires StrictlySorted(a) && StrictlySorted(b)
    requires forall q :: Lookup(a, q) == Lookup(b, q)
    ensures a == b
  {
    if a.Member? { assert Lookup(b, a.key) == Lookup(a, a.key) == Some(a.value); }
    if b.Member? { assert Lookup(a, b.key) == Lookup(b, b.key) == Some(b.value); }
    if a.Member? && b.Member? {
      FirstKeys(a, b);
      GreaterHasNoKey(a.tail, a.key);
      GreaterHasNoKey(b.tail, a.key);
      forall q ensures Lookup(a.tail, q) == Lookup(b.tail, q) {
        assert Lookup(a, q) == Lookup(b, q);
      }
      SortedUnique(a.tail, b.tail);
    }
  }

  // ---- well-formed values and the normal form ---------------------------------------------

  /** Objects hold each key once, at every depth. */
  predicate KeysDistinct<N>(v: Json<N>) {
    match v
    case Array(items) => ItemsKeysDistinct(items)
    case Object(members) => Distinct(members) && MembersKeysDistinct(members)
    case _ => true
  }

  predicate ItemsKeysDistinct<N>(items: Items<N>) {
    match items
    case NoItems => true
    case Item(head, tail) => KeysDistinct(head) && ItemsKeysDistinct(tail)
  }

  predicate MembersKeysDistinct<N>(m: Members<N>) {
    match m
    case NoMembers => true
    case Member(_, value, tail) => KeysDistinct(value) && MembersKeysDistinct(tail)
  }

  /** Keys sorted and undefined members dropped, at every depth. */
  function Norm<N>(v: Json<N>): Json<N>
    decreases Size(v)
  {
    match v
    case Array(items) => Array(NormItems(items))
    case Object(members) => Object(NormMembers(Sort(members)))
    case _ => v
  }

  function NormItems<N>(items: Items<N>): Items<N>
    decreases ItemsSize(items)
  {
    match items
    case NoItems => NoItems
    case Item(head, tail) => Item(Norm(head), NormItems(tail))
  }

  function NormMembers<N>(m: Members<N>): Members<N>
    decreases MembersSize(m)
  {
    match m
    case NoMembers => NoMembers
    case Member(key, value, tail) =>
      if value.Undefined? then NormMembers(tail) else Member(key, Norm(value), NormMembers(tail))
  }

  /** The value of a key, where undefined counts as absent. */
  function Defined<N>(m: Members<N>, k: Text): (r: Option<Json<N>>)
    ensures r.Some? ==> Size(r.value) < MembersSize(m)
  {
    if Lookup(m, k).Some? && Lookup(m, k).value.Undefined? then None else Lookup(m, k)
  }

  /** Same value up to the order of keys and undefined members, at every depth. */
  ghost predicate Agree<N>(v: Json<N>, w: Json<N>)
    decreases Size(v), 1
  {
    match v
    case Array(items) => w.Array? && AgreeItems(items, w.items)
    case Object(members) =>
      w.Object? && forall k :: AgreeAt(members, w.members, k)
    case _ => v == w
  }

  ghost predicate AgreeItems<N>(a: Items<N>, b: Items<N>)
    decreases ItemsSize(a), 1
  {
    match a
    case NoItems => b.NoItems?
    case Item(head, tail) => b.Item? && Agree(head, b.head) && AgreeItems(tail, b.tail)
  }

  ghost predicate AgreeAt<N>(a: Members<N>, b: Members<N>, k: Text)
    decreases MembersSize(a), 0
  {
    match Defined(a, k)
    case None => Defined(b, k).None?
    case Some(x) => Defined(b, k).Some? && Agree(x, Defined(b, k).value)
  }

  lemma {:induction false} NormGreater<N>(m: Members<N>, low: Text)
    requires AllGreater(m, low)
    ensures AllGreater(NormMembers(m), low)
  {
    if m.NoMembers? {
    } else {
      NormGreater(m.tail, low);
    }
  }

  lemma {:induction false} NormSorted<N>(m: Members<N>)
    requires StrictlySorted(m)
    ensures StrictlySorted(NormMembers(m))
  {
    if m.NoMembers? {
    } else {
      NormSorted(m.tail);
      NormGreater(m.tail, m.key);
    }
  }

  lemma {:induction false} NormLookup<N>(m: Members<N>, k: Text)
    requires StrictlySorted(m)
    ensures Lookup(NormMembers(m), k) ==
      match Defined(m, k) { case None => None case Some(x) => Some(Norm(x)) }
  {
    if m.NoMembers? {
    } else {
      NormLookup(m.tail, k);
      if m.key == k { GreaterHasNoKey(m.tail, k); }
    }
  }

  /** Lookups in a normalized object: the normalized defined values. */
  lemma ObjectNormLookup<N>(m: Members<N>, k: Text)
    requires Distinct(m)
    ensures StrictlySorted(NormMembers(Sort(m)))
    ensures Lookup(NormMembers(Sort(m)), k) ==
      match Defined(m, k) { case None => None case Some(x) => Some(Norm(x)) }
  {
    SortMeaning(m);
    NormSorted(Sort(m));
    NormLookup(Sort(m), k);
  }

  lemma {:induction false} LookupKeysDistinct<N>(m: Members<N>, k: Text)
    requires MembersKeysDistinct(m) && Lookup(m, k).Some?
    ensures KeysDistinct(Lookup(m, k).value)
  {
    if m.key == k {
    } else {
      LookupKeysDistinct(m.tail, k);
    }
  }

  /** Two values agree exactly when they have the same normal form. */
  lemma {:induction false} AgreeIsSameNorm<N>(v: Json<N>, w: Json<N>)
    requires KeysDistinct(v) && KeysDistinct(w)
    ensures Agree(v, w) <==> Norm(v) == Norm(w)
    decreases Size(v), 1
  {
    if v.Array? && w.Array? {
      AgreeItemsIsSameNorm(v.items, w.items);
    } else if v.Object? && w.Object? {
      var a, b := v.members, w.members;
      forall k ensures AgreeAt(a, b, k) <==> Lookup(NormMembers(Sort(a)), k) == Lookup(NormMembers(Sort(b)), k) {
        AgreeAtIsSameNorm(a, b, k);
      }
      ObjectNormLookup(a, []);
      ObjectNormLookup(b, []);
      if Agree(v, w) { SortedUnique(NormMembers(Sort(a)), NormMembers(Sort(b))); }
    }
  }

  lemma {:induction false} AgreeItemsIsSameNorm<N>(a: Items<N>, b: Items<N>)
    requires ItemsKeysDistinct(a) && ItemsKeysDistinct(b)
    ensures AgreeItems(a, b) <==> NormItems(a) == NormItems(b)
    decreases ItemsSize(a), 1
  {
    if a.Item? && b.Item? {
      AgreeIsSameNorm(a.head, b.head);
      AgreeItemsIsSameNorm(a.tail, b.tail);
    }
  }

  lemma {:induction false} AgreeAtIsSameNorm<N>(a: Members<N>, b: Members<N>, k: Text)
    requires Distinct(a) && Distinct(b) && MembersKeysDistinct(a) && MembersKeysDistinct(b)
    ensures AgreeAt(a, b, k) <==> Lookup(NormMembers(Sort(a)), k) == Lookup(NormMembers(Sort(b)), k)
    decreases MembersSize(a), 0
  {
    ObjectNormLookup(a, k);
    ObjectNormLookup(b, k);
    if Defined(a, k).Some? && Defined(b, k).Some? {
      LookupKeysDistinct(a, k);
      LookupKeysDistinct(b, k);
      AgreeIsSameNorm(Defined(a, k).value, Defined(b, k).value);
    }
  }
}
