/**
 * The token-metrics coalescer: samples coalesce per token until a flush takes the whole batch,
 * reads its rows and publishes them one by one, until a row cannot be projected. The timer does
 * not wait for a flush, so flushes may overlap; each is suspended at its read.
 */
module Coalescer {

  datatype Sample = Sample(token: string, block: int, timestamp: int)

  /** A map from tokens to their samples, as its entries in insertion order. */
  type Batch = seq<Sample>

  type Id = nat

  datatype Message = Message(flush: Id, sample: Sample)

  /** The read of a flush: it throws, or returns rows, some of which cannot be projected. */
  datatype Read = Threw | Rows(tokens: set<string>, broken: set<string>)

  // ---- the coalescer ----------------------------------------------------------------------

  /** Where the entry of a token stands. */
  function Index(b: Batch, token: string): (i: nat)
    ensures i <= |b|
    ensures forall j :: 0 <= j < i ==> b[j].token != token
    ensures i < |b| ==> b[i].token == token
  {
    if |b| == 0 || b[0].token == token then 0 else 1 + Index(b[1..], token)
  }

  /** Replacing an entry keeps its place; a new one goes last. */
  function Put(b: Batch, s: Sample): Batch {
    var i := Index(b, s.token);
    if i < |b| then b[i := s] else b + [s]
  }

  /** Last write wins by block number. */
  function Keep(pending: Batch, s: Sample): Batch {
    var i := Index(pending, s.token);
    if i == |pending| || s.block >= pending[i].block then Put(pending, s) else pending
  }

  /** Publishing a row after a row: a token without one is passed over, and the first row that cannot be
      projected ends the flush. */
  function PublishFrom(b: Batch, read: Read): Batch
    requires read.Rows?
  {
    if b == [] then []
    else if b[0].token !in read.tokens then PublishFrom(b[1..], read)
    else if b[0].token in read.broken then []
    else [b[0]] + PublishFrom(b[1..], read)
  }

  function Published(b: Batch, read: Read): Batch {
    if read.Threw? then [] else PublishFrom(b, read)
  }

  datatype State = State(armed: bool, pending: Batch, flights: map<Id, Batch>)

  /** Whether a sample is taken at all. */
  predicate Accepts(c: State, gateOpen: bool) { c.armed && gateOpen }

  class TokenMetricsCoalescer {
    var armed: bool
    var pending: Batch
    var flights: map<Id, Batch>

    function View(): State
      reads this
    {
      State(armed, pending, flights)
    }

    constructor ()
      ensures View() == State(false, [], map[])
    {
      armed, pending, flights := false, [], map[];
    }

    method Start()
      modifies this
      ensures View() == old(View()).(armed := true)
    {
      armed := true;
    }

    method Enqueue(s: Sample, gateOpen: bool)
      modifies this
      ensures View() == if Accepts(old(View()), gateOpen) then old(View()).(pending := Keep(old(pending), s)) else old(View())
    {
      if !armed { return; }
      if !gateOpen { return; }
      var prev := Index(pending, s.token);
      if prev == |pending| || s.block >= pending[prev].block {
        pending := Put(pending, s);
      }
    }

    /** A flush up to its read: takes the pending batch, unless there is nothing to do. */
    method BeginFlush(id: Id) returns (reading: bool)
      modifies this
      ensures reading <==> old(armed) && old(pending) != []
      ensures View() == if reading then State(true, [], old(flights)[id := old(pending)]) else old(View())
    {
      if !armed || pending == [] { return false; }
      var batch := pending;
      pending := [];
      flights := flights[id := batch];
      reading := true;
    }

    /** The flush after its read: what it publishes, in order. */
    method EndFlush(id: Id, read: Read) returns (published: Batch)
      requires id in flights
      modifies this
      ensures published == Published(old(flights)[id], read)
      ensures View() == old(View()).(flights := old(flights) - {id})
    {
      var batch := flights[id];
      flights := flights - {id};
      published := [];
      if read.Threw? { return; }
      for n := 0 to |batch|
        invariant flights == old(flights) - {id} && armed == old(armed) && pending == old(pending)
        invariant PublishFrom(batch, read) == published + PublishFrom(batch[n..], read)
      {
        var sample := batch[n];
        assert batch[n..][1..] == batch[n + 1..];
        if sample.token !in read.tokens { continue; }
        if sample.token in read.broken { return; }
        published := published + [sample];
      }
    }
  }

  // ---- runs -------------------------------------------------------------------------------

  datatype Event =
    | Arm
    | Enqueue(s: Sample, gateOpen: bool)
    | Begin(id: Id)
    | End(id: Id, read: Read)

  datatype Taken = Taken(id: Id, window: seq<Sample>, batch: Batch)

  /** window: samples accepted since the last batch was taken. taken: windows and batches of every
      flush so far, in the order taken. sent: published samples per flush. */
  datatype World = World(c: State, window: seq<Sample>, taken: seq<Taken>, sent: seq<Message>, used: set<Id>)

  const START: World := World(State(false, [], map[]), [], [], [], {})

  function Sends(id: Id, published: Batch): seq<Message> {
    seq(|published|, i requires 0 <= i < |published| => Message(id, published[i]))
  }

  ghost predicate Next(w: World, e: Event, w': World) {
    match e
    case Arm => w' == w.(c := w.c.(armed := true))
    case Enqueue(s, gateOpen) =>
      if Accepts(w.c, gateOpen) then w' == w.(c := w.c.(pending := Keep(w.c.pending, s)), window := w.window + [s])
      else w' == w
    case Begin(id) =>
      if id !in w.used && w.c.armed && w.c.pending != [] then
        w' == World(State(true, [], w.c.flights[id := w.c.pending]), [], w.taken + [Taken(id, w.window, w.c.pending)],
          w.sent, w.used + {id})
      else w' == w
    case End(id, read) =>
      if id in w.c.flights then
        w' == w.(c := w.c.(flights := w.c.flights - {id}), sent := w.sent + Sends(id, Published(w.c.flights[id], read)))
      else w' == w
  }

  /** worlds is a run through events: it starts empty and each event leads to the next world. */
  ghost predicate IsRun(events: seq<Event>, worlds: seq<World>) {
    && |worlds| == |events| + 1 && worlds[0] == START
    && forall i :: 0 <= i < |events| ==> Next(worlds[i], events[i], worlds[i + 1])
  }

  // ---- the pending batch ------------------------------------------------------------------

  function Tokens(b: Batch): seq<string> {
    seq(|b|, i requires 0 <= i < |b| => b[i].token)
  }

  /** The tokens of a window by first appearance. */
  function FirstSeen(window: seq<Sample>): seq<string> {
    if window == [] then []
    else
      var seen, last := FirstSeen(window[..|window| - 1]), window[|window| - 1].token;
      if last in seen then seen else seen + [last]
  }

  ghost predicate OneEach(b: Batch) { forall i, j :: 0 <= i < j < |b| ==> b[i].token != b[j].token }

  /** Where an accepted sample went: a pending or taken sample of its token is at least as recent. */
  predicate Covered(s: Sample, b: Batch) {
    var i := Index(b, s.token);
    i < |b| && s.block <= b[i].block
  }

  ghost predicate IsLatest(window: seq<Sample>, s: Sample) {
    exists i :: 0 <= i < |window| && window[i] == s
      && forall j :: i < j < |window| && window[j].token == s.token ==> window[j].block < s.block
  }

  /** b holds, for each token of a window, its last sample among those of the highest block, in the
      order in which the tokens appeared. */
  ghost predicate IsCoalesced(window: seq<Sample>, b: Batch) {
    && Tokens(b) == FirstSeen(window) && OneEach(b)
    && (forall i :: 0 <= i < |window| ==> Covered(window[i], b))
    && (forall k :: 0 <= k < |b| ==> IsLatest(window, b[k]))
  }

  lemma IndexIs(b: Batch, token: string, i: nat)
    requires i < |b| && b[i].token == token && forall j :: 0 <= j < i ==> b[j].token != token
    ensures Index(b, token) == i
  {
    var k := Index(b, token);
    assert k < |b| && b[k].token == token;
  }

  lemma KeepCovers(b: Batch, s: Sample, x: Sample)
    ensures Covered(s, Keep(b, s))
    ensures Covered(x, b) ==> Covered(x, Keep(b, s))
  {
    var kept, i, k := Keep(b, s), Index(b, s.token), Index(b, x.token);
    IndexIs(kept, s.token, i);
    if k < |b| { IndexIs(kept, x.token, k); }
  }

  lemma KeepTokens(window: seq<Sample>, b: Batch, s: Sample)
    requires Tokens(b) == FirstSeen(window) && OneEach(b)
    ensures Tokens(Keep(b, s)) == FirstSeen(window + [s]) && OneEach(Keep(b, s))
  {
    var grown, i := window + [s], Index(b, s.token);
    assert grown[..|grown| - 1] == window;
    if i < |b| {
      assert Tokens(b)[i] == s.token;
      assert Tokens(Keep(b, s)) == Tokens(b);
    } else {
      assert s.token !in Tokens(b);
      assert Tokens(Keep(b, s)) == Tokens(b) + [s.token];
    }
  }

  lemma LatestStays(window: seq<Sample>, s: Sample, x: Sample)
    requires IsLatest(window, x) && (x.token == s.token ==> s.block < x.block)
    ensures IsLatest(window + [s], x)
  {
    var i :| 0 <= i < |window| && window[i] == x
      && forall j :: i < j < |window| && window[j].token == x.token ==> window[j].block < x.block;
    assert (window + [s])[i] == x;
  }

  lemma KeepCoalesces(window: seq<Sample>, b: Batch, s: Sample)
    requires IsCoalesced(window, b)
    ensures IsCoalesced(window + [s], Keep(b, s))
  {
    var grown, kept, at := window + [s], Keep(b, s), Index(b, s.token);
    KeepTokens(window, b, s);
    forall i | 0 <= i < |grown| ensures Covered(grown[i], kept) { KeepCovers(b, s, grown[i]); }
    forall k | 0 <= k < |kept| ensures IsLatest(grown, kept[k]) {
      if k == at && kept[k] == s {
        assert grown[|window|] == s;
      } else {
        assert kept[k] == b[k];
        LatestStays(window, s, b[k]);
      }
    }
  }

  // ---- what a flush publishes -------------------------------------------------------------

  /** The flush publishes the k-th token: it has a row, and every row up to it can be projected. */
  ghost predicate Reaches(tokens: seq<string>, read: Read, k: int)
    requires 0 <= k < |tokens|
  {
    && read.Rows? && tokens[k] in read.tokens
    && forall j :: 0 <= j <= k ==> tokens[j] in read.tokens ==> tokens[j] !in read.broken
  }

  lemma ReachesTail(tokens: seq<string>, read: Read, k: nat)
    requires 0 < k < |tokens| && read.Rows? && (tokens[0] !in read.tokens || tokens[0] !in read.broken)
    ensures Reaches(tokens, read, k) <==> Reaches(tokens[1..], read, k - 1)
  {
    if Reaches(tokens[1..], read, k - 1) {
      forall j | 0 <= j <= k ensures tokens[j] in read.tokens ==> tokens[j] !in read.broken {
        if j > 0 { assert tokens[1..][j - 1] == tokens[j]; }
      }
    }
  }

  lemma {:induction false} PublishedIff(b: Batch, read: Read, s: Sample)
    ensures s in Published(b, read) <==> exists k :: 0 <= k < |b| && b[k] == s && Reaches(Tokens(b), read, k)
  {
    if read.Threw? || b == [] {
    } else {
      var rest := b[1..];
      PublishedIff(rest, read, s);
      assert Tokens(b)[0] == b[0].token;
      if b[0].token !in read.tokens || b[0].token !in read.broken {
        assert Tokens(rest) == Tokens(b)[1..];
        forall k | 0 < k < |b| ensures Reaches(Tokens(b), read, k) <==> Reaches(Tokens(rest), read, k - 1) {
          ReachesTail(Tokens(b), read, k);
        }
        forall k | 0 <= k < |rest| ensures rest[k] == b[k + 1] { }
      }
    }
  }

  lemma {:induction false} PublishedOnce(b: Batch, read: Read)
    requires OneEach(b)
    ensures OneEach(Published(b, read))
  {
    if read.Threw? || b == [] {
    } else {
      PublishedOnce(b[1..], read);
      forall s | s in Published(b[1..], read) ensures s.token != b[0].token {
        PublishedIff(b[1..], read, s);
        var k :| 0 <= k < |b| - 1 && b[1..][k] == s;
        assert b[k + 1] == s;
      }
    }
  }

  // ---- the invariant ----------------------------------------------------------------------

  predicate TakenOk(w: World, t: Taken) { t.id in w.used && (t.id in w.c.flights ==> w.c.flights[t.id] == t.batch) }

  /** m carries a sample of the batch. */
  predicate FromBatch(m: Message, t: Taken) {
    t.id == m.flush && m.sample in t.batch
  }

  ghost predicate MessageOk(w: World, m: Message) {
    m.flush !in w.c.flights && exists i :: 0 <= i < |w.taken| && FromBatch(m, w.taken[i])
  }

  /** No flush sends twice for one token. */
  ghost predicate OncePerToken(sent: seq<Message>) {
    forall i, j :: 0 <= i < j < |sent| ==> sent[i].flush != sent[j].flush || sent[i].sample.token != sent[j].sample.token
  }

  ghost predicate Inv(w: World) {
    && IsCoalesced(w.window, w.c.pending)
    && (forall i :: 0 <= i < |w.taken| ==> TakenOk(w, w.taken[i]) && IsCoalesced(w.taken[i].window, w.taken[i].batch))
    && (forall i, j :: 0 <= i < j < |w.taken| ==> w.taken[i].id != w.taken[j].id)
    && (forall id :: id in w.c.flights ==> exists i :: 0 <= i < |w.taken| && w.taken[i].id == id)
    && (forall i :: 0 <= i < |w.sent| ==> MessageOk(w, w.sent[i]))
    && OncePerToken(w.sent)
  }

  lemma EnqueueKeeps(w: World, e: Event, w': World)
    requires Inv(w) && e.Enqueue? && Next(w, e, w')
    ensures Inv(w')
  {
    KeepCoalesces(w.window, w.c.pending, e.s);
    forall i | 0 <= i < |w'.taken| ensures TakenOk(w', w'.taken[i]) { assert TakenOk(w, w.taken[i]); }
    forall i | 0 <= i < |w'.sent| ensures MessageOk(w', w'.sent[i]) { assert MessageOk(w, w.sent[i]); }
  }

  lemma ArmKeeps(w: World, e: Event, w': World)
    requires Inv(w) && e.Arm? && Next(w, e, w')
    ensures Inv(w')
  {
    forall i | 0 <= i < |w'.taken| ensures TakenOk(w', w'.taken[i]) { assert TakenOk(w, w.taken[i]); }
    forall i | 0 <= i < |w'.sent| ensures MessageOk(w', w'.sent[i]) { assert MessageOk(w, w.sent[i]); }
  }

  lemma MessageStays(w: World, w': World, m: Message)
    requires Inv(w) && MessageOk(w, m) && w.taken <= w'.taken
    requires m.flush in w'.c.flights ==> m.flush in w.c.flights || m.flush !in w.used
    ensures MessageOk(w', m)
  {
    var i :| 0 <= i < |w.taken| && FromBatch(m, w.taken[i]);
    assert TakenOk(w, w.taken[i]);
    assert w'.taken[i] == w.taken[i];
  }

  lemma BeginKeeps(w: World, e: Event, w': World)
    requires Inv(w) && e.Begin? && Next(w, e, w') && w' != w
    ensures Inv(w')
  {
    var n := |w.taken|;
    forall i | 0 <= i < |w'.taken|
      ensures TakenOk(w', w'.taken[i]) && IsCoalesced(w'.taken[i].window, w'.taken[i].batch)
    {
      if i < n { assert TakenOk(w, w.taken[i]); }
    }
    forall i, j | 0 <= i < j < |w'.taken| ensures w'.taken[i].id != w'.taken[j].id {
      assert TakenOk(w, w.taken[i]);
    }
    forall id | id in w'.c.flights ensures exists i :: 0 <= i < |w'.taken| && w'.taken[i].id == id {
      if id == e.id {
        assert w'.taken[n].id == id;
      } else {
        var i :| 0 <= i < n && w.taken[i].id == id;
        assert w'.taken[i].id == id;
      }
    }
    forall i | 0 <= i < |w'.sent| ensures MessageOk(w', w'.sent[i]) {
      MessageStays(w, w', w.sent[i]);
    }
  }

  lemma NewMessage(w: World, id: Id, read: Read, w': World, i: nat) returns (s: Sample)
    requires id in w.c.flights && Next(w, End(id, read), w') && |w.sent| <= i < |w'.sent|
    ensures s in w.c.flights[id] && w'.sent[i] == Message(id, s)
  {
    var published := Published(w.c.flights[id], read);
    s := published[i - |w.sent|];
    PublishedIff(w.c.flights[id], read, s);
  }

  lemma NewMessageOk(w: World, id: Id, read: Read, w': World, i: nat)
    requires Inv(w) && id in w.c.flights && Next(w, End(id, read), w')
    requires |w.sent| <= i < |w'.sent|
    ensures w'.sent[i].flush == id && MessageOk(w', w'.sent[i])
  {
    var s := NewMessage(w, id, read, w', i);
    var k :| 0 <= k < |w.taken| && w.taken[k].id == id;
    assert TakenOk(w, w.taken[k]);
    assert FromBatch(w'.sent[i], w'.taken[k]);
  }

  lemma AppendOnce(sent: seq<Message>, added: seq<Message>, id: Id)
    requires OncePerToken(sent) && forall i :: 0 <= i < |sent| ==> sent[i].flush != id
    requires forall i :: 0 <= i < |added| ==> added[i].flush == id
    requires forall i, j :: 0 <= i < j < |added| ==> added[i].sample.token != added[j].sample.token
    ensures OncePerToken(sent + added)
  {
  }

  lemma EndMessages(w: World, e: Event, w': World)
    requires Inv(w) && e.End? && Next(w, e, w') && e.id in w.c.flights
    ensures forall i :: 0 <= i < |w'.sent| ==> MessageOk(w', w'.sent[i])
  {
    forall i | 0 <= i < |w'.sent| ensures MessageOk(w', w'.sent[i]) {
      if i < |w.sent| { MessageStays(w, w', w.sent[i]); } else { NewMessageOk(w, e.id, e.read, w', i); }
    }
  }

  lemma SendsOnce(id: Id, published: Batch)
    requires OneEach(published)
    ensures forall i :: 0 <= i < |published| ==> Sends(id, published)[i].flush == id
    ensures forall i, j :: 0 <= i < j < |published| ==>
      Sends(id, published)[i].sample.token != Sends(id, published)[j].sample.token
  {
  }

  /** A flush that still waits has sent nothing. */
  lemma NothingSent(w: World, id: Id)
    requires Inv(w) && id in w.c.flights
    ensures forall i :: 0 <= i < |w.sent| ==> w.sent[i].flush != id
  {
    forall i | 0 <= i < |w.sent| ensures w.sent[i].flush != id { assert MessageOk(w, w.sent[i]); }
  }

  lemma FlightOneEach(w: World, id: Id)
    requires Inv(w) && id in w.c.flights
    ensures OneEach(w.c.flights[id])
  {
    var k :| 0 <= k < |w.taken| && w.taken[k].id == id;
    assert TakenOk(w, w.taken[k]);
  }

  lemma EndOnce(w: World, e: Event, w': World)
    requires Inv(w) && e.End? && Next(w, e, w') && e.id in w.c.flights
    ensures OncePerToken(w'.sent)
  {
    var published := Published(w.c.flights[e.id], e.read);
    NothingSent(w, e.id);
    FlightOneEach(w, e.id);
    PublishedOnce(w.c.flights[e.id], e.read);
    SendsOnce(e.id, published);
    AppendOnce(w.sent, Sends(e.id, published), e.id);
  }

  lemma EndKeeps(w: World, e: Event, w': World)
    requires Inv(w) && e.End? && Next(w, e, w') && e.id in w.c.flights
    ensures Inv(w')
  {
    EndMessages(w, e, w');
    EndOnce(w, e, w');
    forall i | 0 <= i < |w'.taken| ensures TakenOk(w', w'.taken[i]) { assert TakenOk(w, w.taken[i]); }
  }

  lemma StepKeeps(w: World, e: Event, w': World)
    requires Inv(w) && Next(w, e, w')
    ensures Inv(w')
  {
    if w' != w {
      match e
      case Arm => ArmKeeps(w, e, w');
      case Enqueue(_, _) => EnqueueKeeps(w, e, w');
      case Begin(_) => BeginKeeps(w, e, w');
      case End(_, _) => EndKeeps(w, e, w');
    }
  }

  lemma {:induction false} RunKeeps(events: seq<Event>, worlds: seq<World>, n: nat)
    requires IsRun(events, worlds) && n < |worlds|
    ensures Inv(worlds[n])
  {
    if n == 0 {
    } else {
      RunKeeps(events, worlds, n - 1);
      StepKeeps(worlds[n - 1], events[n - 1], worlds[n]);
    }
  }

  // ---- what every run guarantees ----------------------------------------------------------

  /** m carries the last sample of the highest block accepted in the window its flush took. */
  ghost predicate CarriesLatest(m: Message, t: Taken) {
    && FromBatch(m, t)
    && IsLatest(t.window, m.sample)
    && forall i :: 0 <= i < |t.window| && t.window[i].token == m.sample.token ==> t.window[i].block <= m.sample.block
  }

  lemma TakenLatest(t: Taken, m: Message)
    requires IsCoalesced(t.window, t.batch) && FromBatch(m, t)
    ensures CarriesLatest(m, t)
  {
    var k :| 0 <= k < |t.batch| && t.batch[k] == m.sample;
    assert Index(t.batch, m.sample.token) == k;
    forall i | 0 <= i < |t.window| && t.window[i].token == m.sample.token ensures t.window[i].block <= m.sample.block {
      assert Covered(t.window[i], t.batch);
    }
  }

  /** Each flush publishes at most once per token, and then exactly the last sample of the highest
      block accepted in the window it took. */
  lemma FlushPublishesLatest(events: seq<Event>, worlds: seq<World>, n: nat)
    requires IsRun(events, worlds) && n < |worlds|
    ensures OncePerToken(worlds[n].sent)
    ensures forall m :: m in worlds[n].sent ==> exists t :: t in worlds[n].taken && CarriesLatest(m, t)
  {
    var w := worlds[n];
    RunKeeps(events, worlds, n);
    forall m | m in w.sent ensures exists t :: t in w.taken && CarriesLatest(m, t) {
      var x :| 0 <= x < |w.sent| && w.sent[x] == m;
      assert MessageOk(w, w.sent[x]);
      var i :| 0 <= i < |w.taken| && FromBatch(m, w.taken[i]);
      assert IsCoalesced(w.taken[i].window, w.taken[i].batch);
      TakenLatest(w.taken[i], m);
      assert w.taken[i] in w.taken;
    }
  }

  /** Between two worlds the flush has published the token. */
  ghost predicate SentBetween(w: World, w': World, id: Id, token: string) {
    exists i :: |w.sent| <= i < |w'.sent| && w'.sent[i].flush == id && w'.sent[i].sample.token == token
  }

  lemma SentIff(w: World, id: Id, read: Read, w': World, k: nat)
    requires id in w.c.flights && OneEach(w.c.flights[id]) && k < |w.c.flights[id]| && Next(w, End(id, read), w')
    ensures SentBetween(w, w', id, Tokens(w.c.flights[id])[k]) <==> Reaches(Tokens(w.c.flights[id]), read, k)
  {
    var b := w.c.flights[id];
    var published := Published(b, read);
    PublishedIff(b, read, b[k]);
    if Reaches(Tokens(b), read, k) {
      var p :| 0 <= p < |published| && published[p] == b[k];
      assert w'.sent[|w.sent| + p] == Message(id, published[p]);
    }
    forall i | |w.sent| <= i < |w'.sent| && w'.sent[i].sample.token == b[k].token ensures Reaches(Tokens(b), read, k) {
      assert w'.sent[i] == Message(id, published[i - |w.sent|]);
      PublishedIff(b, read, published[i - |w.sent|]);
    }
  }

  /** A flush publishes a token of its window exactly when the read returned its row and no token that
      appeared in the window before it, nor the token itself, has a row that cannot be projected. */
  lemma ReadRowsArePublished(events: seq<Event>, worlds: seq<World>, n: nat, t: Taken, k: nat)
    requires IsRun(events, worlds) && n < |events| && t in worlds[n].taken && k < |FirstSeen(t.window)|
    requires events[n].End? && events[n].id == t.id && t.id in worlds[n].c.flights
    ensures SentBetween(worlds[n], worlds[n + 1], t.id, FirstSeen(t.window)[k]) <==>
            Reaches(FirstSeen(t.window), events[n].read, k)
  {
    var w := worlds[n];
    RunKeeps(events, worlds, n);
    var x :| 0 <= x < |w.taken| && w.taken[x] == t;
    assert TakenOk(w, w.taken[x]) && IsCoalesced(w.taken[x].window, w.taken[x].batch);
    assert Next(w, events[n], worlds[n + 1]);
    SentIff(w, t.id, events[n].read, worlds[n + 1], k);
  }

  /** A run in which a's row cannot be projected: b's row was read, and nothing is published. */
  lemma BrokenRowSilencesTheRest(a: Sample, b: Sample, worlds: seq<World>)
    requires a.token != b.token
    requires IsRun([Arm, Enqueue(a, true), Enqueue(b, true), Begin(0), End(0, Rows({a.token, b.token}, {a.token}))], worlds)
    ensures worlds[4].taken == [Taken(0, [a, b], [a, b])] && worlds[5].sent == [] && worlds[5].c.pending == []
  {
    var read := Rows({a.token, b.token}, {a.token});
    var events := [Arm, Enqueue(a, true), Enqueue(b, true), Begin(0), End(0, read)];
    assert Next(worlds[0], events[0], worlds[1]) && Next(worlds[1], events[1], worlds[2]);
    assert Next(worlds[2], events[2], worlds[3]);
    assert worlds[2].c.pending == [a] && worlds[3].c.pending == [a, b] && worlds[3].window == [a, b];
    assert Next(worlds[3], events[3], worlds[4]) && Next(worlds[4], events[4], worlds[5]);
    assert Published([a, b], read) == [];
  }

  /** An accepted sample is, from then on, covered by the pending batch or by a batch taken after it. */
  ghost predicate NotLost(w: World, s: Sample, from: nat) {
    Covered(s, w.c.pending) || exists i :: from <= i < |w.taken| && Covered(s, w.taken[i].batch)
  }

  lemma StepKeepsCovered(w: World, e: Event, w': World, s: Sample, from: nat)
    requires Next(w, e, w') && NotLost(w, s, from) && from <= |w.taken|
    ensures NotLost(w', s, from) && |w.taken| <= |w'.taken|
  {
    if e.Enqueue? { KeepCovers(w.c.pending, e.s, s); }
    if !Covered(s, w.c.pending) {
      var i :| from <= i < |w.taken| && Covered(s, w.taken[i].batch);
      assert w'.taken[i] == w.taken[i];
    } else if w' != w && e.Begin? {
      assert Covered(s, w'.taken[|w.taken|].batch);
    }
  }

  /** Whatever flushes overlap, no accepted sample is dropped: it is dominated by the pending sample
      of its token, or a flush that began after it took one at least as recent. */
  lemma {:induction false} AcceptedIsNeverLost(events: seq<Event>, worlds: seq<World>, n: nat, m: nat)
    requires IsRun(events, worlds) && n < m < |worlds|
    requires events[n].Enqueue? && Accepts(worlds[n].c, events[n].gateOpen)
    ensures NotLost(worlds[m], events[n].s, |worlds[n].taken|) && |worlds[m].taken| >= |worlds[n].taken|
  {
    if m == n + 1 {
      KeepCovers(worlds[n].c.pending, events[n].s, events[n].s);
    } else {
      AcceptedIsNeverLost(events, worlds, n, m - 1);
      StepKeepsCovered(worlds[m - 1], events[m - 1], worlds[m], events[n].s, |worlds[n].taken|);
    }
  }

  /** The coalescer is armed exactly once it has been started, so a sample is taken exactly when the gate is open and it
      was started before. */
  lemma {:induction false} TakenIffStarted(events: seq<Event>, worlds: seq<World>, n: nat, open: bool)
    requires IsRun(events, worlds) && n < |worlds|
    ensures Accepts(worlds[n].c, open) <==> open && exists k :: 0 <= k < n && events[k].Arm?
  {
    if n == 0 {
    } else {
      TakenIffStarted(events, worlds, n - 1, open);
      TakenIffStarted(events, worlds, n - 1, true);
      assert Next(worlds[n - 1], events[n - 1], worlds[n]);
    }
  }
}
