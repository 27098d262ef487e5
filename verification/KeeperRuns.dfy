/**
 * Every interleaving of keeper attempts with a chain that only moves forward and a clock that
 * does not run back. An event that cannot happen in a state is skipped, so a run is any sequence.
 */
module KeeperRuns {
  import opened Numeric
  import opened Addresses
  import opened Keeper

  datatype Entry =
    | SentTo(id: Id, curve: string, at: int, phase: Phase)
    | Exhausted(id: Id, curve: string, at: int)
    | Returned(id: Id, curve: string, status: Status, phase: Phase)

  /** asked: phase when the pending read or estimate was issued. */
  datatype World = World(keeper: State, chain: map<string, Phase>, now: int, asked: map<Id, Phase>, used: set<Id>,
    sends: map<Id, nat>, log: seq<Entry>)

  function Rank(p: Phase): nat {
    match p case Trading => 0 case Ready => 1 case Graduated => 2
  }

  function PhaseOf(w: World, curve: string): Phase { if curve in w.chain then w.chain[curve] else Trading }

  function Sends(w: World, id: Id): nat { if id in w.sends then w.sends[id] else 0 }

  predicate Fresh(w: World) {
    && w.keeper == State({}, map[], map[])
    && w.asked == map[] && w.used == {} && w.sends == map[] && w.log == []
  }

  predicate IsResume(e: Event) { !e.Call? && !e.Advance? && !e.Clock? }

  /** A phase the chain had at some moment since the read was issued. */
  predicate MayRead(w: World, id: Id, curve: string, phase: Phase) {
    id in w.asked && Rank(w.asked[id]) <= Rank(phase) <= Rank(PhaseOf(w, curve))
  }

  /** The outcomes of a call that the chain allows for the curve. */
  predicate Possible(w: World, e: Event, curve: string) {
    match e
    case PhaseIs(id, Known(phase)) => MayRead(w, id, curve, phase)
    case Estimated(id, Done) => MayRead(w, id, curve, Ready)
    case GotReceipt(_, Success) => PhaseOf(w, curve) == Graduated
    case _ => true
  }

  /** What may happen next. A read returns a phase the chain had since it was asked. An estimate runs
      graduate(), which reverts on a curve that is not ready, so it succeeds only if the curve was ready
      since it was asked. A success receipt means the curve has graduated. */
  predicate Enabled(w: World, e: Event) {
    match e
    case Call(id, _) => id !in w.used
    case Advance(curve, phase) => Rank(PhaseOf(w, curve)) <= Rank(phase)
    case Clock(later) => w.now <= later
    case _ =>
      e.id in w.keeper.frames && Resumes(w.keeper.frames[e.id].wait, e) && Possible(w, e, w.keeper.frames[e.id].curve)
  }

  /** The curve an attempt event is about. */
  function CurveOf(w: World, e: Event): string
    requires (e.Call? || IsResume(e)) && Enabled(w, e)
  {
    if e.Call? then Lower(e.curveRaw) else w.keeper.frames[e.id].curve
  }

  // ---- the bookkeeping, field by field ----------------------------------------------------

  function Asked(w: World, id: Id, curve: string, act: Act): map<Id, Phase> {
    if act.ReadPhase? || act.EstimateGas? then w.asked[id := PhaseOf(w, curve)] else w.asked
  }

  function Sending(w: World, id: Id, act: Act): map<Id, nat> {
    if act.SendGraduate? then w.sends[id := Sends(w, id) + 1] else w.sends
  }

  function Logged(w: World, id: Id, curve: string, act: Act): seq<Entry> {
    match act
    case SendGraduate => w.log + [SentTo(id, curve, w.now, PhaseOf(w, curve))]
    case Exhaust => w.log + [Exhausted(id, curve, w.now)]
    case Return(status) => w.log + [Returned(id, curve, status, PhaseOf(w, curve))]
    case _ => w.log
  }

  /** The world after an attempt step with the given keeper state and act. */
  function Acted(w: World, e: Event, curve: string, k: State, act: Act): World
    requires e.Call? || IsResume(e)
  {
    World(k, w.chain, w.now, Asked(w, e.id, curve, act), w.used + {e.id}, Sending(w, e.id, act),
      Logged(w, e.id, curve, act))
  }

  function Next(t: Tuning, w: World, e: Event): World
    requires Enabled(w, e)
  {
    match e
    case Advance(curve, phase) => w.(chain := w.chain[curve := phase])
    case Clock(later) => w.(now := later)
    case _ =>
      var (k, act) := React(t, w.keeper, e, w.now);
      Acted(w, e, CurveOf(w, e), k, act)
  }

  function Run(t: Tuning, w: World, events: seq<Event>): World {
    if |events| == 0 then w
    else
      var before, e := Run(t, w, events[..|events| - 1]), events[|events| - 1];
      if Enabled(before, e) then Next(t, before, e) else before
  }

  // ---- one frame --------------------------------------------------------------------------

  /** What the world knows about one attempt. */
  datatype Facts = Facts(phase: Phase, asked: Option<Phase>, sends: nat, cooling: bool)

  function FactsOf(w: World, id: Id, curve: string): Facts {
    Facts(PhaseOf(w, curve), if id in w.asked then Some(w.asked[id]) else None, Sends(w, id),
      InCooldown(w.keeper, curve, w.now))
  }

  predicate WasAsked(f: Facts) { f.asked.Some? && Rank(f.asked.value) <= Rank(f.phase) }

  /** A running attempt at send n: the curve left Trading, no cooldown is active, few enough sends. */
  predicate Active(t: Tuning, f: Facts, n: int, sent: int) {
    f.phase != Trading && !f.cooling && 1 <= n <= t.maxAttempts && f.sends <= sent
  }

  predicate IsSuccess(s: Status) { s.StatusGraduated? || s.AlreadyGraduated? }

  predicate WaitOk(t: Tuning, w: Wait, f: Facts) {
    match w
    case FirstPhase => WasAsked(f) && !f.cooling && f.sends == 0
    case Estimating(n) => Active(t, f, n, n - 1) && WasAsked(f) && f.asked.value != Trading
    case Sending(n) => Active(t, f, n, n)
    case AwaitingReceipt(n) => Active(t, f, n, n)
    case Sleeping(n) => Active(t, f, n, n)
    case Classifying(n, _) => Active(t, f, n, n) && WasAsked(f) && f.asked.value != Trading
    case RevertedPhase(n) => Active(t, f, n, n) && WasAsked(f) && f.asked.value != Trading
    case Settled(s) => f.sends <= Max(0, t.maxAttempts) && (IsSuccess(s) ==> f.phase == Graduated)
  }

  predicate FrameOk(t: Tuning, w: World, id: Id, f: Frame) { WaitOk(t, f.wait, FactsOf(w, id, f.curve)) }

  /** What a step leaves of the facts about its own attempt. */
  predicate FactsStep(f: Facts, act: Act, g: Facts) {
    && g.phase == f.phase
    && (act.ReadPhase? || act.EstimateGas? ==> g.asked == Some(f.phase))
    && g.sends == f.sends + (if act.SendGraduate? then 1 else 0)
    && (!act.Exhaust? ==> g.cooling == f.cooling)
  }

  /** The outcome of a call is one the facts allow. */
  predicate Allowed(e: Event, f: Facts) {
    match e
    case PhaseIs(_, Known(phase)) => f.asked.Some? && Rank(f.asked.value) <= Rank(phase) <= Rank(f.phase)
    case Estimated(_, Done) => f.asked.Some? && Rank(f.asked.value) <= Rank(Ready) <= Rank(f.phase)
    case GotReceipt(_, Success) => f.phase == Graduated
    case _ => true
  }

  /** An attempt moves from one good wait to another, and sends only to a curve past Trading. */
  lemma ResumeOk(t: Tuning, w: Wait, e: Event, f: Facts, g: Facts)
    requires Resumes(w, e) && !e.Finally? && WaitOk(t, w, f) && Allowed(e, f)
    requires FactsStep(f, Resume(t, w, e).1, g)
    ensures WaitOk(t, Resume(t, w, e).0, g)
    ensures Resume(t, w, e).1.SendGraduate? ==> f.phase != Trading && !f.cooling && f.sends < t.maxAttempts
    ensures !Resume(t, w, e).1.Return?
  {
  }

  // ---- the invariant ----------------------------------------------------------------------

  /** The in-flight set is exactly the curves of the running attempts, one attempt each. */
  ghost predicate OnePerCurve(w: World) {
    var frames := w.keeper.frames;
    && (forall id :: id in frames ==> id in w.used && frames[id].curve in w.keeper.inFlight)
    && (forall i, j :: i in frames && j in frames && frames[i].curve == frames[j].curve ==> i == j)
    && (forall c :: c in w.keeper.inFlight ==> exists id :: id in frames && frames[id].curve == c)
  }

  ghost predicate FramesOk(t: Tuning, w: World) {
    && (forall id :: id in w.keeper.frames ==> FrameOk(t, w, id, w.keeper.frames[id]))
    && (forall id :: id in w.sends ==> id in w.used && w.sends[id] <= Max(0, t.maxAttempts))
  }

  predicate EntryOk(t: Tuning, w: World, x: Entry) {
    match x
    case SentTo(_, _, _, phase) => phase != Trading
    case Exhausted(_, curve, at) => at <= w.now && curve in w.keeper.cooldownUntil
      && at + t.failedCooldownMs <= w.keeper.cooldownUntil[curve]
    case Returned(_, _, status, phase) => IsSuccess(status) ==> phase == Graduated
  }

  /** No send to a curve follows its exhaustion before the cooldown ends. */
  predicate Spaced(t: Tuning, x: Entry, y: Entry) {
    x.Exhausted? && y.SentTo? && x.curve == y.curve ==> y.at >= x.at + t.failedCooldownMs
  }

  ghost predicate LogOk(t: Tuning, w: World) {
    && (forall i :: 0 <= i < |w.log| ==> EntryOk(t, w, w.log[i]))
    && (forall i, j :: 0 <= i < j < |w.log| ==> Spaced(t, w.log[i], w.log[j]))
  }

  ghost predicate Inv(t: Tuning, w: World) { OnePerCurve(w) && FramesOk(t, w) && LogOk(t, w) }

  lemma FreshInv(t: Tuning, w: World)
    requires Fresh(w)
    ensures Inv(t, w)
  {
  }

  // ---- environment steps ------------------------------------------------------------------

  lemma AdvanceKeeps(t: Tuning, w: World, curve: string, phase: Phase)
    requires Inv(t, w) && Enabled(w, Advance(curve, phase))
    ensures Inv(t, Next(t, w, Advance(curve, phase)))
  {
    var w' := Next(t, w, Advance(curve, phase));
    forall id | id in w'.keeper.frames ensures FrameOk(t, w', id, w'.keeper.frames[id]) {
      assert FrameOk(t, w, id, w.keeper.frames[id]);
    }
    forall i | 0 <= i < |w'.log| ensures EntryOk(t, w', w'.log[i]) { assert EntryOk(t, w, w.log[i]); }
  }

  lemma ClockKeeps(t: Tuning, w: World, later: int)
    requires Inv(t, w) && Enabled(w, Clock(later))
    ensures Inv(t, Next(t, w, Clock(later)))
  {
    var w' := Next(t, w, Clock(later));
    forall id | id in w'.keeper.frames ensures FrameOk(t, w', id, w'.keeper.frames[id]) {
      assert FrameOk(t, w, id, w.keeper.frames[id]);
    }
    forall i | 0 <= i < |w'.log| ensures EntryOk(t, w', w'.log[i]) { assert EntryOk(t, w, w.log[i]); }
  }

  // ---- attempt steps ----------------------------------------------------------------------

  /** A step about one attempt leaves the facts about other attempts on other curves alone. */
  lemma OtherFacts(w: World, e: Event, curve: string, k: State, act: Act, i: Id, c: string)
    requires (e.Call? || IsResume(e)) && i != e.id && c != curve
    requires forall x :: x != curve ==> InCooldown(k, x, w.now) == InCooldown(w.keeper, x, w.now)
    ensures FactsOf(Acted(w, e, curve, k, act), i, c) == FactsOf(w, i, c)
  {
  }

  lemma OwnFacts(w: World, e: Event, curve: string, k: State, act: Act)
    requires e.Call? || IsResume(e)
    requires !act.Exhaust? ==> k.cooldownUntil == w.keeper.cooldownUntil
    ensures FactsStep(FactsOf(w, e.id, curve), act, FactsOf(Acted(w, e, curve, k, act), e.id, curve))
  {
  }

  /** The world after a resumption of frame f. */
  function Resumed(t: Tuning, w: World, e: Event, f: Frame): World
    requires IsResume(e) && !e.Finally? && Resumes(f.wait, e)
  {
    var next := Resume(t, f.wait, e);
    Acted(w, e, f.curve, Place(t, w.keeper, e.id, f.curve, next, w.now), next.1)
  }

  /** A resumed attempt's own frame and send count stay good, and it sends only past Trading. */
  lemma ResumeOwn(t: Tuning, w: World, e: Event, f: Frame)
    requires IsResume(e) && !e.Finally? && Resumes(f.wait, e) && Possible(w, e, f.curve) && FrameOk(t, w, e.id, f)
    ensures FrameOk(t, Resumed(t, w, e, f), e.id, Frame(f.curve, Resume(t, f.wait, e).0))
    ensures Sends(Resumed(t, w, e, f), e.id) <= Max(0, t.maxAttempts)
    ensures var act := Resume(t, f.wait, e).1;
      !act.Return? && (act.SendGraduate? ==> PhaseOf(w, f.curve) != Trading && !InCooldown(w.keeper, f.curve, w.now))
  {
    var next := Resume(t, f.wait, e);
    OwnFacts(w, e, f.curve, Place(t, w.keeper, e.id, f.curve, next, w.now), next.1);
    ResumeOk(t, f.wait, e, FactsOf(w, e.id, f.curve), FactsOf(Resumed(t, w, e, f), e.id, f.curve));
  }

  lemma ResumeFrames(t: Tuning, w: World, e: Event, f: Frame)
    requires Inv(t, w) && IsResume(e) && !e.Finally? && Enabled(w, e) && f == w.keeper.frames[e.id]
    ensures FramesOk(t, Resumed(t, w, e, f))
  {
    var next := Resume(t, f.wait, e);
    var w' := Resumed(t, w, e, f);
    assert FrameOk(t, w, e.id, f);
    ResumeOwn(t, w, e, f);
    forall i | i in w'.keeper.frames ensures FrameOk(t, w', i, w'.keeper.frames[i]) {
      if i != e.id {
        assert FrameOk(t, w, i, w.keeper.frames[i]);
        OtherFacts(w, e, f.curve, w'.keeper, next.1, i, w.keeper.frames[i].curve);
      }
    }
  }

  /** Replacing one frame by another for the same curve keeps one attempt per curve. */
  lemma ReplaceOnePerCurve(w: World, w': World, id: Id, f: Frame)
    requires OnePerCurve(w) && id in w.keeper.frames && w.keeper.frames[id].curve == f.curve
    requires w'.keeper.inFlight == w.keeper.inFlight && w'.keeper.frames == w.keeper.frames[id := f]
    requires w.used <= w'.used
    ensures OnePerCurve(w')
  {
    forall c | c in w'.keeper.inFlight ensures exists i :: i in w'.keeper.frames && w'.keeper.frames[i].curve == c {
      var i :| i in w.keeper.frames && w.keeper.frames[i].curve == c;
      assert w'.keeper.frames[i].curve == c;
    }
  }

  /** Appending one good entry to a good log. */
  lemma AppendOk(t: Tuning, w: World, w': World, x: Entry)
    requires LogOk(t, w) && w'.log == w.log + [x] && w'.now == w.now
    requires forall c :: c in w.keeper.cooldownUntil ==>
      c in w'.keeper.cooldownUntil && w.keeper.cooldownUntil[c] <= Max(w'.keeper.cooldownUntil[c], w.now)
    requires forall c :: c in w.keeper.cooldownUntil && w'.keeper.cooldownUntil[c] != w.keeper.cooldownUntil[c] ==>
      w'.keeper.cooldownUntil[c] == w.now + t.failedCooldownMs
    requires EntryOk(t, w', x)
    requires x.SentTo? ==> x.at == w.now && !InCooldown(w.keeper, x.curve, w.now)
    ensures LogOk(t, w')
  {
    forall i | 0 <= i < |w'.log| ensures EntryOk(t, w', w'.log[i]) {
      if i < |w.log| { assert EntryOk(t, w, w.log[i]); }
    }
    forall i, j | 0 <= i < j < |w'.log| ensures Spaced(t, w'.log[i], w'.log[j]) {
      assert EntryOk(t, w, w.log[i]);
      if j < |w.log| { assert Spaced(t, w.log[i], w.log[j]); }
    }
  }

  lemma SameLogOk(t: Tuning, w: World, w': World)
    requires LogOk(t, w) && w'.log == w.log && w'.now == w.now && w'.keeper.cooldownUntil == w.keeper.cooldownUntil
    ensures LogOk(t, w')
  {
    forall i | 0 <= i < |w'.log| ensures EntryOk(t, w', w'.log[i]) { assert EntryOk(t, w, w.log[i]); }
  }

  lemma ActiveNotCooling(t: Tuning, w: World, id: Id, f: Frame, e: Event)
    requires FrameOk(t, w, id, f) && !f.wait.Settled?
    ensures !InCooldown(w.keeper, f.curve, w.now)
  {
  }

  lemma SendLog(t: Tuning, w: World, w': World, x: Entry)
    requires LogOk(t, w) && w'.log == w.log + [x] && w'.now == w.now
    requires w'.keeper.cooldownUntil == w.keeper.cooldownUntil
    requires x.SentTo? && x.phase != Trading && x.at == w.now && !InCooldown(w.keeper, x.curve, w.now)
    ensures LogOk(t, w')
  {
    AppendOk(t, w, w', x);
  }

  lemma ExhaustLog(t: Tuning, w: World, w': World, x: Entry)
    requires LogOk(t, w) && w'.log == w.log + [x] && w'.now == w.now
    requires x.Exhausted? && x.at == w.now && !InCooldown(w.keeper, x.curve, w.now)
    requires w'.keeper.cooldownUntil == w.keeper.cooldownUntil[x.curve := w.now + t.failedCooldownMs]
    ensures LogOk(t, w')
  {
    AppendOk(t, w, w', x);
  }

  lemma ResumeLog(t: Tuning, w: World, e: Event, f: Frame)
    requires IsResume(e) && !e.Finally? && Resumes(f.wait, e) && Possible(w, e, f.curve)
    requires LogOk(t, w) && FrameOk(t, w, e.id, f)
    ensures LogOk(t, Resumed(t, w, e, f))
  {
    var w' := Resumed(t, w, e, f);
    ResumeOwn(t, w, e, f);
    match Resume(t, f.wait, e).1
    case SendGraduate => SendLog(t, w, w', SentTo(e.id, f.curve, w.now, PhaseOf(w, f.curve)));
    case Exhaust =>
      ActiveNotCooling(t, w, e.id, f, e);
      ExhaustLog(t, w, w', Exhausted(e.id, f.curve, w.now));
    case _ => SameLogOk(t, w, w');
  }

  lemma ResumeKeeps(t: Tuning, w: World, e: Event)
    requires Inv(t, w) && IsResume(e) && !e.Finally? && Enabled(w, e)
    ensures Inv(t, Next(t, w, e))
  {
    var f := w.keeper.frames[e.id];
    ResumeFrames(t, w, e, f);
    ReplaceOnePerCurve(w, Resumed(t, w, e, f), e.id, Frame(f.curve, Resume(t, f.wait, e).0));
    assert FrameOk(t, w, e.id, f);
    ResumeLog(t, w, e, f);
  }

  lemma FinallyFrames(t: Tuning, w: World, e: Event)
    requires Inv(t, w) && e.Finally? && Enabled(w, e)
    ensures FramesOk(t, Next(t, w, e))
  {
    var f := w.keeper.frames[e.id];
    var w' := Next(t, w, e);
    forall i | i in w'.keeper.frames ensures FrameOk(t, w', i, w'.keeper.frames[i]) {
      assert FrameOk(t, w, i, w.keeper.frames[i]);
      OtherFacts(w, e, f.curve, w'.keeper, Return(f.wait.status), i, w.keeper.frames[i].curve);
    }
  }

  lemma FinallyOnePerCurve(t: Tuning, w: World, e: Event)
    requires OnePerCurve(w) && e.Finally? && Enabled(w, e)
    ensures OnePerCurve(Next(t, w, e))
  {
    var w' := Next(t, w, e);
    forall c | c in w'.keeper.inFlight ensures exists id :: id in w'.keeper.frames && w'.keeper.frames[id].curve == c {
      var id :| id in w.keeper.frames && w.keeper.frames[id].curve == c;
      assert id in w'.keeper.frames;
    }
  }

  lemma FinallyKeeps(t: Tuning, w: World, e: Event)
    requires Inv(t, w) && e.Finally? && Enabled(w, e)
    ensures Inv(t, Next(t, w, e))
  {
    var f := w.keeper.frames[e.id];
    FinallyFrames(t, w, e);
    FinallyOnePerCurve(t, w, e);
    assert FrameOk(t, w, e.id, f);
    AppendOk(t, w, Next(t, w, e), Returned(e.id, f.curve, f.wait.status, PhaseOf(w, f.curve)));
  }

  /** A refused call only logs its status. */
  lemma RefusedKeeps(t: Tuning, w: World, e: Event)
    requires Inv(t, w) && e.Call? && Enabled(w, e)
    requires var c := Lower(e.curveRaw); c in w.keeper.inFlight || InCooldown(w.keeper, c, w.now)
    ensures Inv(t, Next(t, w, e))
  {
    var w', curve := Next(t, w, e), Lower(e.curveRaw);
    var status := if curve in w.keeper.inFlight then SkippedInFlight else SkippedCooldown;
    assert w' == Acted(w, e, curve, w.keeper, Return(status));
    forall i | i in w'.keeper.frames ensures FrameOk(t, w', i, w'.keeper.frames[i]) {
      assert FrameOk(t, w, i, w.keeper.frames[i]);
      assert FactsOf(w', i, w.keeper.frames[i].curve) == FactsOf(w, i, w.keeper.frames[i].curve);
    }
    AppendOk(t, w, w', Returned(e.id, curve, status, PhaseOf(w, curve)));
  }

  /** The keeper after an accepted call. */
  function Accepted(k: State, id: Id, curve: string): State {
    State(k.inFlight + {curve}, k.cooldownUntil, k.frames[id := Frame(curve, FirstPhase)])
  }

  lemma AcceptedFrames(t: Tuning, w: World, e: Event, curve: string)
    requires Inv(t, w) && e.Call? && Enabled(w, e)
    requires curve !in w.keeper.inFlight && !InCooldown(w.keeper, curve, w.now)
    ensures FramesOk(t, Acted(w, e, curve, Accepted(w.keeper, e.id, curve), ReadPhase))
  {
    var k := Accepted(w.keeper, e.id, curve);
    var w' := Acted(w, e, curve, k, ReadPhase);
    OwnFacts(w, e, curve, k, ReadPhase);
    forall i | i in k.frames ensures FrameOk(t, w', i, k.frames[i]) {
      if i != e.id {
        assert FrameOk(t, w, i, w.keeper.frames[i]);
        OtherFacts(w, e, curve, k, ReadPhase, i, w.keeper.frames[i].curve);
      }
    }
  }

  lemma AcceptedOnePerCurve(w: World, e: Event, curve: string)
    requires OnePerCurve(w) && e.Call? && Enabled(w, e) && curve !in w.keeper.inFlight
    ensures OnePerCurve(Acted(w, e, curve, Accepted(w.keeper, e.id, curve), ReadPhase))
  {
    var k := Accepted(w.keeper, e.id, curve);
    forall c | c in k.inFlight ensures exists id :: id in k.frames && k.frames[id].curve == c {
      if c == curve {
        assert k.frames[e.id].curve == c;
      } else {
        var id :| id in w.keeper.frames && w.keeper.frames[id].curve == c;
        assert k.frames[id].curve == c;
      }
    }
  }

  lemma CallKeeps(t: Tuning, w: World, e: Event)
    requires Inv(t, w) && e.Call? && Enabled(w, e)
    ensures Inv(t, Next(t, w, e))
  {
    var curve := Lower(e.curveRaw);
    if curve in w.keeper.inFlight || InCooldown(w.keeper, curve, w.now) {
      RefusedKeeps(t, w, e);
    } else {
      AcceptedFrames(t, w, e, curve);
      AcceptedOnePerCurve(w, e, curve);
      SameLogOk(t, w, Next(t, w, e));
    }
  }

  lemma StepKeeps(t: Tuning, w: World, e: Event)
    requires Inv(t, w) && Enabled(w, e)
    ensures Inv(t, Next(t, w, e))
  {
    match e
    case Advance(curve, phase) => AdvanceKeeps(t, w, curve, phase);
    case Clock(later) => ClockKeeps(t, w, later);
    case Call(_, _) => CallKeeps(t, w, e);
    case Finally(_) => FinallyKeeps(t, w, e);
    case _ => ResumeKeeps(t, w, e);
  }

  lemma {:induction false} RunKeeps(t: Tuning, w: World, events: seq<Event>)
    requires Fresh(w)
    ensures Inv(t, Run(t, w, events))
  {
    if |events| == 0 {
      FreshInv(t, w);
    } else {
      var init := events[..|events| - 1];
      RunKeeps(t, w, init);
      if Enabled(Run(t, w, init), events[|events| - 1]) { StepKeeps(t, Run(t, w, init), events[|events| - 1]); }
    }
  }

  /** What a keeper step does to the attempts' waits: only its own frame moves. */
  lemma FramesMove(t: Tuning, w: World, e: Event, id: Id)
    requires Enabled(w, e) && OnePerCurve(w)
    ensures var before, after := w.keeper.frames, Next(t, w, e).keeper.frames;
      && ((e.Advance? || e.Clock? || e.id != id) && id in before ==> id in after && after[id] == before[id])
      && ((e.Advance? || e.Clock? || e.id != id) && id in after ==> id in before)
      && (IsResume(e) && !e.Finally? ==> after == before[e.id := Frame(before[e.id].curve, Resume(t, before[e.id].wait, e).0)])
      && (e.Call? && e.id in after ==> after[e.id].wait.FirstPhase?)
      && (e.Finally? ==> e.id !in after && before[e.id].wait.Settled?)
  {
  }

  // ---- triggers for a curve already graduated ----------------------------------------------

  /** Step n is a call for a curve that has graduated by then. */
  predicate StaleTrigger(t: Tuning, w: World, events: seq<Event>, n: nat) {
    && n < |events| && events[n].Call? && Enabled(Run(t, w, events[..n]), events[n])
    && PhaseOf(Run(t, w, events[..n]), Lower(events[n].curveRaw)) == Graduated
  }

  /** The attempt has sent nothing, and its first phase read can only say graduated. */
  predicate Harmless(w: World, id: Id, curve: string) {
    && PhaseOf(w, curve) == Graduated && id in w.used && Sends(w, id) == 0
    && (id in w.keeper.frames ==>
          var f := w.keeper.frames[id];
          f.curve == curve && (f.wait.Settled? || (f.wait.FirstPhase? && id in w.asked && w.asked[id] == Graduated)))
  }

  lemma StaleIsHarmless(t: Tuning, w: World, id: Id, curveRaw: string)
    requires Inv(t, w) && Enabled(w, Call(id, curveRaw)) && PhaseOf(w, Lower(curveRaw)) == Graduated
    ensures Harmless(Next(t, w, Call(id, curveRaw)), id, Lower(curveRaw))
  {
  }

  lemma StaysHarmless(t: Tuning, w: World, e: Event, id: Id, curve: string)
    requires Harmless(w, id, curve) && Enabled(w, e)
    ensures Harmless(Next(t, w, e), id, curve)
  {
  }

  lemma {:induction false} StaleTriggerIsHarmless(t: Tuning, w: World, events: seq<Event>, n: nat)
    requires Fresh(w) && StaleTrigger(t, w, events, n)
    ensures Harmless(Run(t, w, events), events[n].id, Lower(events[n].curveRaw))
  {
    var init := events[..|events| - 1];
    if n == |events| - 1 {
      RunKeeps(t, w, init);
      StaleIsHarmless(t, Run(t, w, init), events[n].id, events[n].curveRaw);
    } else {
      assert init[..n] == events[..n];
      StaleTriggerIsHarmless(t, w, init, n);
      if Enabled(Run(t, w, init), events[|events| - 1]) {
        StaysHarmless(t, Run(t, w, init), events[|events| - 1], events[n].id, Lower(events[n].curveRaw));
      }
    }
  }

  /** Every logged send is in its attempt's count. */
  ghost predicate SendsCounted(w: World) {
    forall x :: x in w.log && x.SentTo? ==> Sends(w, x.id) > 0
  }

  lemma SendCounted(t: Tuning, w: World, e: Event)
    requires SendsCounted(w) && Enabled(w, e)
    ensures SendsCounted(Next(t, w, e))
  {
  }

  lemma {:induction false} SendsAreCounted(t: Tuning, w: World, events: seq<Event>)
    requires Fresh(w)
    ensures SendsCounted(Run(t, w, events))
  {
    if |events| == 0 {
    } else {
      var before := Run(t, w, events[..|events| - 1]);
      SendsAreCounted(t, w, events[..|events| - 1]);
      if Enabled(before, events[|events| - 1]) { SendCounted(t, before, events[|events| - 1]); }
    }
  }

  // ---- what every run guarantees ----------------------------------------------------------

  /** In every run: one running attempt per curve; no graduate() sent to a curve in Trading, and none by an
      attempt whose trigger came when the curve had graduated; at most maxAttempts sends an attempt; none
      during the cooldown after a persistent failure; and a graduated or already_graduated result only when
      the chain says graduated. */
  lemma KeeperSafety(t: Tuning, w: World, events: seq<Event>)
    requires Fresh(w)
    ensures OnePerCurve(Run(t, w, events))
    ensures forall x :: x in Run(t, w, events).log && x.SentTo? ==> x.phase != Trading
    ensures forall n: nat, x :: StaleTrigger(t, w, events, n) && x in Run(t, w, events).log && x.SentTo? ==> x.id != events[n].id
    ensures forall id :: Sends(Run(t, w, events), id) <= Max(0, t.maxAttempts)
    ensures var log := Run(t, w, events).log;
      forall i, j :: 0 <= i < j < |log| && log[i].Exhausted? && log[j].SentTo? && log[i].curve == log[j].curve ==>
        log[j].at >= log[i].at + t.failedCooldownMs
    ensures forall x :: x in Run(t, w, events).log && x.Returned? && IsSuccess(x.status) ==> x.phase == Graduated
  {
    var w' := Run(t, w, events);
    RunKeeps(t, w, events);
    forall x | x in w'.log ensures EntryOk(t, w', x) {}
    forall i, j | 0 <= i < j < |w'.log| ensures Spaced(t, w'.log[i], w'.log[j]) {}
    SendsAreCounted(t, w, events);
    forall n: nat | StaleTrigger(t, w, events, n) ensures Sends(w', events[n].id) == 0 {
      StaleTriggerIsHarmless(t, w, events, n);
    }
  }

  // ---- when a send meets a graduated curve -------------------------------------------------

  predicate Waits(w: World, id: Id, f: Frame) { id in w.keeper.frames && w.keeper.frames[id] == f }

  /** The attempt waits for the same gas estimate after steps i to j, and did not before step i. */
  ghost predicate Estimates(t: Tuning, w: World, events: seq<Event>, i: nat, j: nat, id: Id, f: Frame) {
    && 0 < i <= j <= |events| && f.wait.Estimating?
    && !Waits(Run(t, w, events[..i - 1]), id, f)
    && forall k :: i <= k <= j ==> Waits(Run(t, w, events[..k]), id, f)
  }

  /** A pending estimate keeps the phase it was asked in. */
  lemma WaitGoesOn(t: Tuning, w: World, e: Event, id: Id, f: Frame)
    requires Enabled(w, e) && Waits(Next(t, w, e), id, f) && f.wait.Estimating?
    requires Waits(w, id, f) && id in w.asked
    ensures id in Next(t, w, e).asked && Next(t, w, e).asked[id] == w.asked[id]
  {
  }

  /** A new one is asked in the phase of its step. */
  lemma WaitStarts(t: Tuning, w: World, e: Event, id: Id, f: Frame)
    requires Enabled(w, e) && Waits(Next(t, w, e), id, f) && f.wait.Estimating?
    requires !Waits(w, id, f)
    ensures id in Next(t, w, e).asked && Next(t, w, e).asked[id] == PhaseOf(Next(t, w, e), f.curve)
  {
  }

  lemma EstimateGoesOn(t: Tuning, w: World, events: seq<Event>, i: nat, id: Id, f: Frame)
    requires |events| > 0 && Waits(Run(t, w, events), id, f)
    requires Estimates(t, w, events[..|events| - 1], i, |events| - 1, id, f)
    ensures Estimates(t, w, events, i, |events|, id, f)
  {
    var init := events[..|events| - 1];
    assert events[..|events|] == events && init[..i - 1] == events[..i - 1];
    forall k | i <= k <= |events| ensures Waits(Run(t, w, events[..k]), id, f) {
      if k < |events| { assert init[..k] == events[..k]; }
    }
  }

  /** Where a pending estimate was issued: its asked phase is the phase of that moment. */
  lemma {:induction false} IssueOf(t: Tuning, w: World, events: seq<Event>, id: Id, f: Frame) returns (i: nat)
    requires Fresh(w) && Waits(Run(t, w, events), id, f) && f.wait.Estimating?
    ensures Estimates(t, w, events, i, |events|, id, f)
    ensures id in Run(t, w, events).asked && Run(t, w, events).asked[id] == PhaseOf(Run(t, w, events[..i]), f.curve)
  {
    var init, e := events[..|events| - 1], events[|events| - 1];
    var before := Run(t, w, init);
    if Waits(before, id, f) {
      i := IssueOf(t, w, init, id, f);
      if Enabled(before, e) { WaitGoesOn(t, before, e, id, f); }
      EstimateGoesOn(t, w, events, i, id, f);
      assert init[..i] == events[..i];
    } else {
      WaitStarts(t, before, e, id, f);
      i := |events|;
      assert events[..i] == events;
    }
  }

  /** Step k graduates a curve that was ready. */
  predicate Graduates(t: Tuning, w: World, events: seq<Event>, k: nat, curve: string) {
    k < |events| && events[k] == Advance(curve, Graduated) && PhaseOf(Run(t, w, events[..k]), curve) == Ready
  }

  /** Only the chain moves a phase, and only forward. */
  lemma PhaseStep(t: Tuning, w: World, e: Event, curve: string)
    requires Enabled(w, e) && PhaseOf(w, curve) != Trading
    ensures PhaseOf(Next(t, w, e), curve) != Trading
    ensures PhaseOf(Next(t, w, e), curve) == Graduated <==> PhaseOf(w, curve) == Graduated || e == Advance(curve, Graduated)
  {
  }

  lemma {:induction false} SinceReady(t: Tuning, w: World, events: seq<Event>, i: nat, j: nat, curve: string)
    requires i <= j <= |events| && PhaseOf(Run(t, w, events[..i]), curve) == Ready
    ensures PhaseOf(Run(t, w, events[..j]), curve) != Trading
    ensures PhaseOf(Run(t, w, events[..j]), curve) == Graduated <==> exists k :: i <= k < j && Graduates(t, w, events, k, curve)
    decreases j
  {
    if i == j {
    } else {
      SinceReady(t, w, events, i, j - 1, curve);
      assert events[..j][..j - 1] == events[..j - 1] && events[..j][j - 1] == events[j - 1];
      var before := Run(t, w, events[..j - 1]);
      if Enabled(before, events[j - 1]) { PhaseStep(t, before, events[j - 1], curve); }
      assert Graduates(t, w, events, j - 1, curve) <==>
        PhaseOf(before, curve) == Ready && PhaseOf(Run(t, w, events[..j]), curve) == Graduated;
    }
  }

  predicate LogsSend(w: World, e: Event, x: Entry) {
    && x.SentTo? && e == Estimated(x.id, Done) && Enabled(w, e)
    && w.keeper.frames[x.id].curve == x.curve && PhaseOf(w, x.curve) == x.phase
  }

  /** A step logs at most one entry, and a send only as the answer to an estimate. */
  lemma LogStep(t: Tuning, w: World, e: Event)
    requires Enabled(w, e)
    ensures var w' := Next(t, w, e);
      |w.log| <= |w'.log| <= |w.log| + 1 && w.log <= w'.log
      && (|w'.log| > |w.log| && w'.log[|w.log|].SentTo? ==> LogsSend(w, e, w'.log[|w.log|]))
  {
  }

  lemma PrefixOf(events: seq<Event>, n: nat, j: nat)
    requires j <= n <= |events|
    ensures events[..n][..j] == events[..j]
  {
  }

  /** The step of a logged send: the answer to its estimate. */
  lemma {:induction false} StepOfSend(t: Tuning, w: World, events: seq<Event>, m: nat) returns (j: nat)
    requires Fresh(w) && m < |Run(t, w, events).log| && Run(t, w, events).log[m].SentTo?
    ensures j < |events| && LogsSend(Run(t, w, events[..j]), events[j], Run(t, w, events).log[m])
    ensures |Run(t, w, events[..j]).log| == m
  {
    var init, e := events[..|events| - 1], events[|events| - 1];
    var before := Run(t, w, init);
    if Enabled(before, e) { LogStep(t, before, e); }
    if m < |before.log| {
      j := StepOfSend(t, w, init, m);
      PrefixOf(events, |events| - 1, j);
    } else {
      j := |events| - 1;
    }
  }

  /** A send and its estimate: issued at step i while the curve was ready, answered at step j by the send x,
      the m-th entry of the log. */
  ghost predicate SendOf(t: Tuning, w: World, events: seq<Event>, m: nat, i: nat, j: nat, x: Entry) {
    && x.SentTo? && j < |events| && events[j] == Estimated(x.id, Done) && |Run(t, w, events[..j]).log| == m
    && (exists n :: Estimates(t, w, events[..j], i, j, x.id, Frame(x.curve, Estimating(n))))
    && PhaseOf(Run(t, w, events[..i]), x.curve) == Ready
  }

  /** Every send goes to a curve that was ready when its estimate was issued, and it meets a graduated curve
      exactly when the curve graduated between that moment and the send. */
  lemma SendMeetsGraduated(t: Tuning, w: World, events: seq<Event>, m: nat) returns (i: nat, j: nat)
    requires Fresh(w) && m < |Run(t, w, events).log| && Run(t, w, events).log[m].SentTo?
    ensures SendOf(t, w, events, m, i, j, Run(t, w, events).log[m])
    ensures var x := Run(t, w, events).log[m];
      x.phase == Graduated <==> exists k :: i <= k < j && Graduates(t, w, events, k, x.curve)
  {
    var x := Run(t, w, events).log[m];
    j := StepOfSend(t, w, events, m);
    var before := Run(t, w, events[..j]);
    var f := before.keeper.frames[x.id];
    i := IssueOf(t, w, events[..j], x.id, f);
    assert f == Frame(x.curve, Estimating(f.wait.n));
    assert events[..j][..i] == events[..i];
    RunKeeps(t, w, events[..i]);
    assert events[..j][..j] == events[..j];
    assert Waits(Run(t, w, events[..j][..i]), x.id, f) && FrameOk(t, Run(t, w, events[..i]), x.id, f);
    SinceReady(t, w, events, i, j, x.curve);
  }

  // ---- a send that meets a graduated curve -------------------------------------------------

  lemma {:induction false} RunConcat(t: Tuning, w: World, a: seq<Event>, b: seq<Event>)
    ensures Run(t, w, a + b) == Run(t, Run(t, w, a), b)
  {
    if b == [] {
      assert a + b == a;
    } else {
      RunConcat(t, w, a, b[..|b| - 1]);
      assert (a + b)[..|a + b| - 1] == a + b[..|b| - 1];
    }
  }

  lemma RunOne(t: Tuning, w: World, e: Event)
    ensures Run(t, w, [e]) == if Enabled(w, e) then Next(t, w, e) else w
  {
    assert [e][..0] == [];
  }

  lemma RunTwo(t: Tuning, w: World, e: Event, f: Event)
    ensures Run(t, w, [e, f]) == Run(t, Run(t, w, [e]), [f])
  {
    assert [e] + [f] == [e, f];
    RunConcat(t, w, [e], [f]);
  }

  /** A call for a ready curve, read as ready, waits for its first estimate. */
  lemma ReadyIsEstimated(t: Tuning, w: World, id: Id, curve: string)
    requires t.maxAttempts >= 1 && Fresh(w) && curve == Lower(curve) && PhaseOf(w, curve) == Ready
    ensures var w' := Run(t, w, [Call(id, curve), PhaseIs(id, Known(Ready))]);
      && Waits(w', id, Frame(curve, Estimating(1))) && MayRead(w', id, curve, Ready)
      && w'.chain == w.chain && w'.now == w.now && w'.log == []
  {
    var e, f := Call(id, curve), PhaseIs(id, Known(Ready));
    RunOne(t, w, e);
    RunOne(t, Next(t, w, e), f);
    RunTwo(t, w, e, f);
  }

  /** Somebody else may graduate the curve while the estimate is pending: the send then meets it graduated. */
  lemma SendCanReachGraduated(t: Tuning, w: World, id: Id, curve: string)
    requires t.maxAttempts >= 1
    requires Fresh(w) && curve == Lower(curve) && PhaseOf(w, curve) == Ready
    ensures Run(t, w, [Call(id, curve), PhaseIs(id, Known(Ready))] + [Advance(curve, Graduated), Estimated(id, Done)]).log
      == [SentTo(id, curve, w.now, Graduated)]
  {
    var a := [Call(id, curve), PhaseIs(id, Known(Ready))];
    var e, f := Advance(curve, Graduated), Estimated(id, Done);
    ReadyIsEstimated(t, w, id, curve);
    RunConcat(t, w, a, [e, f]);
    RunOne(t, Run(t, w, a), e);
    RunOne(t, Next(t, Run(t, w, a), e), f);
    RunTwo(t, Run(t, w, a), e, f);
  }
}
