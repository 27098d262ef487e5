/**
 * What an attempt returns, from the outcomes it was told alone: the first phase read, the later ones, the
 * receipts, and how many of its tries failed.
 */
module KeeperVerdicts {
  import opened Numeric
  import opened Addresses
  import opened Keeper
  import opened KeeperRuns

  predicate About(e: Event, id: Id) { (e.Call? || IsResume(e)) && e.id == id }

  /** What an attempt was told in a run: its call, then the outcomes of its awaits in order. */
  function Told(t: Tuning, w: World, events: seq<Event>, id: Id): seq<Event> {
    if |events| == 0 then []
    else
      var init, e := events[..|events| - 1], events[|events| - 1];
      if Enabled(Run(t, w, init), e) && About(e, id) then Told(t, w, init, id) + [e] else Told(t, w, init, id)
  }

  // ---- the verdict ------------------------------------------------------------------------

  /** A try has failed when its receipt cannot be fetched, or the phase read after a failure does not settle it. */
  predicate FailsTry(e: Event) {
    match e
    case GotReceipt(_, FetchFailed) => true
    case PhaseIs(_, Known(Ready)) => true
    case PhaseIs(_, Unknown) => true
    case _ => false
  }

  /** The failed tries: the first two events are the call and the first read. */
  function Failures(h: seq<Event>): nat {
    if |h| <= 2 then 0 else Failures(h[..|h| - 1]) + if FailsTry(h[|h| - 1]) then 1 else 0
  }

  predicate Succeeds(e: Event) { e.GotReceipt? && e.receipt.Success? }

  predicate Reads(e: Event, phase: Phase) { e.PhaseIs? && e.read == Known(phase) }

  predicate LateSuccess(h: seq<Event>) { exists i :: 2 <= i < |h| && Succeeds(h[i]) }

  predicate LateRead(h: seq<Event>, phase: Phase) { exists i :: 2 <= i < |h| && Reads(h[i], phase) }

  /** A first read that is not ready decides. After a ready one the attempt ends with a success receipt, with a later read
      of another phase, or as a persistent failure once maxAttempts tries have failed. */
  function Verdict(t: Tuning, h: seq<Event>): Option<Status> {
    if |h| < 2 || !h[1].PhaseIs? then None
    else
      match h[1].read
      case Unknown => Some(PhaseUnavailable)
      case Known(Trading) => Some(NotReady)
      case Known(Graduated) => Some(AlreadyGraduated)
      case Known(Ready) =>
        if LateSuccess(h) then Some(StatusGraduated)
        else if LateRead(h, Graduated) then Some(AlreadyGraduated)
        else if LateRead(h, Trading) then Some(NotReady)
        else if Failures(h) >= t.maxAttempts then Some(FailedPersistent)
        else None
  }

  // ---- one attempt ------------------------------------------------------------------------

  /** The tries that had failed when an attempt got to where it waits. */
  predicate TryOf(t: Tuning, wait: Wait, failures: nat) {
    match wait
    case FirstPhase => true
    case Settled(_) => true
    case Sleeping(n) => n == failures < t.maxAttempts
    case _ => wait.n == failures + 1 <= t.maxAttempts
  }

  /** No more than maxAttempts tries fail, no late read says Trading, and without a ready first read nothing is estimated. */
  predicate TellsWell(t: Tuning, h: seq<Event>) {
    && Failures(h) <= Max(0, t.maxAttempts) && !LateRead(h, Trading)
    && (|h| >= 2 && !Reads(h[1], Ready) ==> forall e :: e in h ==> !e.Estimated?)
  }

  predicate Waiting(t: Tuning, wait: Wait, h: seq<Event>) {
    && |h| > 0 && h[0].Call?
    && (if wait.FirstPhase? then |h| == 1 else |h| >= 2 && h[1].PhaseIs?)
    && (wait.Settled? ==> Verdict(t, h) == Some(wait.status))
    && (!wait.Settled? ==> Verdict(t, h) == None)
    && TryOf(t, wait, Failures(h)) && TellsWell(t, h) && !h[|h| - 1].Finally?
  }

  lemma LateAfter(h: seq<Event>, e: Event, phase: Phase)
    requires |h| >= 2
    ensures LateSuccess(h + [e]) <==> LateSuccess(h) || Succeeds(e)
    ensures LateRead(h + [e], phase) <==> LateRead(h, phase) || Reads(e, phase)
    ensures Failures(h + [e]) == Failures(h) + if FailsTry(e) then 1 else 0
  {
    var g := h + [e];
    assert g[..|g| - 1] == h;
    if LateSuccess(h) { var i :| 2 <= i < |h| && Succeeds(h[i]); assert g[i] == h[i]; }
    if LateRead(h, phase) { var i :| 2 <= i < |h| && Reads(h[i], phase); assert g[i] == h[i]; }
    assert g[|h|] == e;
  }

  lemma FirstIs(h: seq<Event>, e: Event)
    requires |h| == 1
    ensures !LateSuccess(h + [e]) && !LateRead(h + [e], Graduated) && !LateRead(h + [e], Trading) && Failures(h + [e]) == 0
  {
  }

  /** One outcome moves an attempt from where it waited to where it waits next. A late read of Trading cannot come. */
  lemma WaitingStep(t: Tuning, wait: Wait, e: Event, h: seq<Event>)
    requires Waiting(t, wait, h) && IsResume(e) && !e.Finally? && Resumes(wait, e)
    requires !wait.FirstPhase? ==> !Reads(e, Trading)
    ensures Waiting(t, Resume(t, wait, e).0, h + [e])
  {
    if wait.FirstPhase? {
      FirstIs(h, e);
    } else {
      LateAfter(h, e, Trading);
      LateAfter(h, e, Graduated);
    }
  }

  // ---- every attempt of a run -------------------------------------------------------------

  predicate Skips(s: Status) { s.SkippedInFlight? || s.SkippedCooldown? }

  /** A returned attempt: its call was refused, or it was told enough and has run its finally block. */
  predicate Ended(t: Tuning, h: seq<Event>) {
    |h| == 1 || (|h| > 2 && h[|h| - 1].Finally? && Verdict(t, h).Some? && TellsWell(t, h))
  }

  /** The status of a returned attempt is its verdict, unless its call was refused. */
  predicate ReturnOk(t: Tuning, h: seq<Event>, status: Status) {
    if |h| == 1 then Skips(status) else Verdict(t, h) == Some(status)
  }

  predicate GivesUp(x: Entry, id: Id) { x.Exhausted? && x.id == id }

  ghost predicate LogSays(t: Tuning, w: World, id: Id, h: seq<Event>) {
    && (forall x :: x in w.log && x.Returned? && x.id == id ==> id !in w.keeper.frames && ReturnOk(t, h, x.status))
    && (forall x :: x in w.log && GivesUp(x, id) ==> Verdict(t, h) == Some(FailedPersistent))
    && (Verdict(t, h) == Some(FailedPersistent) ==> exists x :: x in w.log && GivesUp(x, id))
  }

  predicate FrameSays(t: Tuning, w: World, id: Id, h: seq<Event>) {
    && (id !in w.used ==> h == [] && id !in w.keeper.frames)
    && (id in w.used ==> h != [])
    && (id in w.keeper.frames ==> Waiting(t, w.keeper.frames[id].wait, h))
    && (id in w.used && id !in w.keeper.frames ==> Ended(t, h))
  }

  /** Only attempts that have begun are in the log. */
  ghost predicate LogUsed(w: World) { forall x :: x in w.log ==> x.id in w.used }

  lemma LogGrows(t: Tuning, w: World, e: Event)
    requires Enabled(w, e)
    ensures var w' := Next(t, w, e);
      w'.log == w.log || ((e.Call? || IsResume(e)) && |w'.log| == |w.log| + 1 && w'.log[..|w.log|] == w.log
        && w'.log[|w.log|].id == e.id)
  {
  }

  lemma OtherAttempt(t: Tuning, w: World, e: Event, id: Id, h: seq<Event>)
    requires OnePerCurve(w) && Enabled(w, e) && !About(e, id) && FrameSays(t, w, id, h) && LogSays(t, w, id, h)
    ensures FrameSays(t, Next(t, w, e), id, h) && LogSays(t, Next(t, w, e), id, h)
  {
    var w' := Next(t, w, e);
    FramesMove(t, w, e, id);
    LogGrows(t, w, e);
    assert forall x :: x in w'.log && x.id == id <==> x in w.log && x.id == id;
  }

  lemma CallSays(t: Tuning, w: World, e: Event)
    requires Enabled(w, e) && e.Call? && FrameSays(t, w, e.id, []) && LogUsed(w)
    ensures FrameSays(t, Next(t, w, e), e.id, [e]) && LogSays(t, Next(t, w, e), e.id, [e])
  {
  }

  /** No read after the first one says Trading. */
  lemma NoLateTrading(t: Tuning, w: World, e: Event)
    requires Inv(t, w) && Enabled(w, e) && IsResume(e) && !w.keeper.frames[e.id].wait.FirstPhase?
    ensures !Reads(e, Trading)
  {
    assert FrameOk(t, w, e.id, w.keeper.frames[e.id]);
  }

  lemma OwnLog(t: Tuning, w: World, e: Event, f: Frame)
    requires Enabled(w, e) && IsResume(e) && !e.Finally? && f == w.keeper.frames[e.id]
    ensures var w', next := Next(t, w, e), Resume(t, f.wait, e);
      && (forall x :: x in w'.log && x.Returned? ==> x in w.log)
      && (next.1.Exhaust? <==> next.0 == Settled(FailedPersistent))
      && (next.1.Exhaust? ==> w'.log == w.log + [Exhausted(e.id, f.curve, w.now)])
      && (!next.1.Exhaust? ==> forall x :: x in w'.log && x.Exhausted? ==> x in w.log)
      && e.id in w'.keeper.frames && w'.keeper.frames[e.id].wait == next.0 && w'.used == w.used + {e.id}
  {
  }

  lemma ResumeFrame(t: Tuning, w: World, e: Event, h: seq<Event>)
    requires Inv(t, w) && Enabled(w, e) && IsResume(e) && !e.Finally?
    requires FrameSays(t, w, e.id, h) && e.id in w.used
    ensures FrameSays(t, Next(t, w, e), e.id, h + [e])
    ensures Verdict(t, h) == None && e.id in Next(t, w, e).keeper.frames
  {
    var f := w.keeper.frames[e.id];
    if !f.wait.FirstPhase? { NoLateTrading(t, w, e); }
    WaitingStep(t, f.wait, e, h);
    OwnLog(t, w, e, f);
  }

  lemma ResumeSays(t: Tuning, w: World, e: Event, h: seq<Event>)
    requires Inv(t, w) && Enabled(w, e) && IsResume(e) && !e.Finally?
    requires FrameSays(t, w, e.id, h) && LogSays(t, w, e.id, h) && e.id in w.used
    ensures FrameSays(t, Next(t, w, e), e.id, h + [e]) && LogSays(t, Next(t, w, e), e.id, h + [e])
  {
    var f := w.keeper.frames[e.id];
    ResumeFrame(t, w, e, h);
    OwnLog(t, w, e, f);
    if Resume(t, f.wait, e).1.Exhaust? { assert GivesUp(Exhausted(e.id, f.curve, w.now), e.id); }
  }

  lemma FinallySays(t: Tuning, w: World, e: Event, h: seq<Event>)
    requires Enabled(w, e) && e.Finally? && FrameSays(t, w, e.id, h) && LogSays(t, w, e.id, h) && e.id in w.used
    ensures FrameSays(t, Next(t, w, e), e.id, h + [e]) && LogSays(t, Next(t, w, e), e.id, h + [e])
  {
    var w', f := Next(t, w, e), w.keeper.frames[e.id];
    LateAfter(h, e, Trading);
    LateAfter(h, e, Graduated);
    assert Verdict(t, h + [e]) == Verdict(t, h);
    assert w'.log == w.log + [Returned(e.id, f.curve, f.wait.status, PhaseOf(w, f.curve))];
    assert forall x :: x in w'.log && x.Exhausted? <==> x in w.log && x.Exhausted?;
  }

  lemma UsedStep(t: Tuning, w: World, e: Event)
    requires Enabled(w, e) && LogUsed(w)
    ensures LogUsed(Next(t, w, e))
  {
    LogGrows(t, w, e);
  }

  lemma {:induction false} RunSays(t: Tuning, w: World, events: seq<Event>, id: Id)
    requires Fresh(w)
    ensures LogUsed(Run(t, w, events))
    ensures FrameSays(t, Run(t, w, events), id, Told(t, w, events, id))
    ensures LogSays(t, Run(t, w, events), id, Told(t, w, events, id))
  {
    if |events| == 0 {
    } else {
      var init, e := events[..|events| - 1], events[|events| - 1];
      var before, h := Run(t, w, init), Told(t, w, init, id);
      RunSays(t, w, init, id);
      RunKeeps(t, w, init);
      if Enabled(before, e) {
        UsedStep(t, before, e);
        if !About(e, id) {
          OtherAttempt(t, before, e, id, h);
        } else if e.Call? {
          CallSays(t, before, e);
          assert [] + [e] == [e];
        } else if e.Finally? {
          FinallySays(t, before, e, h);
        } else {
          ResumeSays(t, before, e, h);
        }
      }
    }
  }

  // ---- what every run guarantees ----------------------------------------------------------

  /** In every run each returned status is the verdict on what the attempt was told, unless its call was refused. */
  lemma ReturnsAreVerdicts(t: Tuning, w: World, events: seq<Event>, x: Entry)
    requires Fresh(w) && x in Run(t, w, events).log && x.Returned?
    ensures var h := Told(t, w, events, x.id);
      (|h| == 1 && Skips(x.status)) || (|h| > 2 && h[|h| - 1].Finally? && Verdict(t, h) == Some(x.status))
  {
    RunSays(t, w, events, x.id);
  }

  /** The first read was ready, and nothing told since settles the attempt: all later reads say ready or unknown, and no
      receipt is a success. */
  predicate OnlyFails(h: seq<Event>) {
    && |h| >= 2 && Reads(h[1], Ready)
    && forall i :: 2 <= i < |h| ==> !Succeeds(h[i]) && !Reads(h[i], Graduated) && !Reads(h[i], Trading)
  }

  lemma OnlyFailsVerdict(t: Tuning, h: seq<Event>)
    requires OnlyFails(h)
    ensures Verdict(t, h) == if Failures(h) >= t.maxAttempts then Some(FailedPersistent) else None
  {
    assert !LateSuccess(h) && !LateRead(h, Graduated) && !LateRead(h, Trading);
  }

  /** The attempt has given up, and is over, as its failed tries say. */
  ghost predicate PersistentSays(t: Tuning, w: World, id: Id, h: seq<Event>)
    requires |h| > 0
  {
    && Failures(h) <= Max(0, t.maxAttempts)
    && ((exists x :: x in w.log && GivesUp(x, id)) <==> Failures(h) >= t.maxAttempts)
    && (id !in w.keeper.frames <==> h[|h| - 1].Finally?)
    && (h[|h| - 1].Finally? ==> Failures(h) >= t.maxAttempts)
    && (forall x :: x in w.log && x.Returned? && x.id == id ==> x.status == FailedPersistent && h[|h| - 1].Finally?)
  }

  lemma OnlyFailsSays(t: Tuning, w: World, id: Id, h: seq<Event>)
    requires OnlyFails(h) && FrameSays(t, w, id, h) && LogSays(t, w, id, h)
    ensures PersistentSays(t, w, id, h)
  {
    OnlyFailsVerdict(t, h);
  }

  /** An attempt that only fails gives up after exactly maxAttempts failed tries and not before: then its exhaustion is
      logged, which starts the cooldown, and failed_persistent is all it can return. */
  lemma PersistentAfterMaxAttempts(t: Tuning, w: World, events: seq<Event>, id: Id)
    requires Fresh(w) && OnlyFails(Told(t, w, events, id))
    ensures PersistentSays(t, Run(t, w, events), id, Told(t, w, events, id))
  {
    RunSays(t, w, events, id);
    OnlyFailsSays(t, Run(t, w, events), id, Told(t, w, events, id));
  }

  /** failed_persistent never comes without the attempt's exhaustion in the log, after maxAttempts failed tries. */
  lemma PersistentIsLogged(t: Tuning, w: World, events: seq<Event>, x: Entry)
    requires Fresh(w) && x in Run(t, w, events).log && x.Returned? && x.status == FailedPersistent
    ensures exists y :: y in Run(t, w, events).log && GivesUp(y, x.id)
    ensures var h := Told(t, w, events, x.id); |h| > 2 && Reads(h[1], Ready) && Failures(h) == Max(0, t.maxAttempts)
  {
    RunSays(t, w, events, x.id);
  }

  /** An attempt that has issued an estimate never returns not_ready or phase_unavailable: its first read decides both. */
  lemma EarlyVerdicts(t: Tuning, w: World, events: seq<Event>, x: Entry)
    requires Fresh(w) && x in Run(t, w, events).log && x.Returned? && (x.status == NotReady || x.status == PhaseUnavailable)
    ensures var h := Told(t, w, events, x.id);
      && |h| > 2 && (forall e :: e in h ==> !e.Estimated?)
      && h[1].PhaseIs? && h[1].read == if x.status == NotReady then Known(Trading) else Unknown
  {
    RunSays(t, w, events, x.id);
  }

  /** Step n is the attempt's call. */
  predicate CalledAt(t: Tuning, w: World, events: seq<Event>, id: Id, n: nat) {
    n < |events| && events[n].Call? && events[n].id == id && Enabled(Run(t, w, events[..n]), events[n])
  }

  /** A first read is asked by its call. */
  lemma FirstReadAsked(t: Tuning, w: World, e: Event)
    requires OnePerCurve(w) && Enabled(w, e) && (e.Call? || IsResume(e))
    requires var frames := Next(t, w, e).keeper.frames; e.id in frames && frames[e.id].wait.FirstPhase?
    ensures e.Call? && e.id in Next(t, w, e).asked && Next(t, w, e).asked[e.id] == PhaseOf(w, Lower(e.curveRaw))
  {
  }

  /** Steps of others leave it pending. */
  lemma FirstReadWaits(t: Tuning, w: World, e: Event, id: Id)
    requires OnePerCurve(w) && Enabled(w, e) && !About(e, id)
    requires var frames := Next(t, w, e).keeper.frames; id in frames && frames[id].wait.FirstPhase?
    ensures id in w.keeper.frames && w.keeper.frames[id].wait.FirstPhase?
    ensures id in w.asked ==> id in Next(t, w, e).asked && Next(t, w, e).asked[id] == w.asked[id]
  {
    FramesMove(t, w, e, id);
  }

  /** The phase a first read asks for is that of the moment of the call. */
  lemma {:induction false} AskedAtCall(t: Tuning, w: World, events: seq<Event>, id: Id) returns (n: nat)
    requires Fresh(w) && id in Run(t, w, events).keeper.frames && Run(t, w, events).keeper.frames[id].wait.FirstPhase?
    ensures CalledAt(t, w, events, id, n) && id in Run(t, w, events).asked
    ensures Run(t, w, events).asked[id] == PhaseOf(Run(t, w, events[..n]), Lower(events[n].curveRaw))
  {
    var init, e := events[..|events| - 1], events[|events| - 1];
    var before := Run(t, w, init);
    RunKeeps(t, w, init);
    if Enabled(before, e) && About(e, id) {
      FirstReadAsked(t, before, e);
      n := |events| - 1;
    } else {
      if Enabled(before, e) { FirstReadWaits(t, before, e, id); }
      n := AskedAtCall(t, w, init, id);
      PrefixOf(events, |events| - 1, n);
    }
  }

  /** A first read that says Trading belongs to a call made while the curve was trading. */
  lemma {:induction false} TradingWhenCalled(t: Tuning, w: World, events: seq<Event>, id: Id) returns (n: nat)
    requires Fresh(w) && |Told(t, w, events, id)| >= 2 && Reads(Told(t, w, events, id)[1], Trading)
    ensures CalledAt(t, w, events, id, n)
    ensures PhaseOf(Run(t, w, events[..n]), Lower(events[n].curveRaw)) == Trading
  {
    var init, e := events[..|events| - 1], events[|events| - 1];
    if |Told(t, w, init, id)| >= 2 {
      n := TradingWhenCalled(t, w, init, id);
    } else {
      RunSays(t, w, init, id);
      n := AskedAtCall(t, w, init, id);
    }
    PrefixOf(events, |events| - 1, n);
  }

  /** So not_ready is returned only by an attempt that was called while its curve was trading. */
  lemma NotReadyWasTrading(t: Tuning, w: World, events: seq<Event>, x: Entry) returns (n: nat)
    requires Fresh(w) && x in Run(t, w, events).log && x.Returned? && x.status == NotReady
    ensures CalledAt(t, w, events, x.id, n)
    ensures PhaseOf(Run(t, w, events[..n]), Lower(events[n].curveRaw)) == Trading
  {
    EarlyVerdicts(t, w, events, x);
    n := TradingWhenCalled(t, w, events, x.id);
  }

  // ---- how a call is answered -------------------------------------------------------------

  predicate ExhaustedOn(x: Entry, curve: string) { x.Exhausted? && x.curve == curve }

  /** Cooldowns end as the logged exhaustions of their curve say. */
  ghost predicate CoolingLogged(t: Tuning, w: World) {
    forall c :: c in w.keeper.cooldownUntil ==>
      exists x :: x in w.log && ExhaustedOn(x, c) && x.at + t.failedCooldownMs == w.keeper.cooldownUntil[c]
  }

  lemma CooldownStep(t: Tuning, w: World, e: Event)
    requires Enabled(w, e)
    ensures var before, after, w' := w.keeper.cooldownUntil, Next(t, w, e).keeper.cooldownUntil, Next(t, w, e);
      after == before || (exists curve, id :: after == before[curve := w.now + t.failedCooldownMs]
                                              && w'.log == w.log + [Exhausted(id, curve, w.now)])
  {
    if IsResume(e) && !e.Finally? {
      var f := w.keeper.frames[e.id];
      if Resume(t, f.wait, e).1.Exhaust? {
        assert Next(t, w, e).log == w.log + [Exhausted(e.id, f.curve, w.now)];
      }
    }
  }

  lemma CoolingStep(t: Tuning, w: World, e: Event)
    requires Enabled(w, e) && CoolingLogged(t, w)
    ensures CoolingLogged(t, Next(t, w, e))
  {
    var w' := Next(t, w, e);
    CooldownStep(t, w, e);
    LogGrows(t, w, e);
    forall c | c in w'.keeper.cooldownUntil
      ensures exists x :: x in w'.log && ExhaustedOn(x, c) && x.at + t.failedCooldownMs == w'.keeper.cooldownUntil[c]
    {
      if c in w.keeper.cooldownUntil && w'.keeper.cooldownUntil[c] == w.keeper.cooldownUntil[c] {
        var x :| x in w.log && ExhaustedOn(x, c) && x.at + t.failedCooldownMs == w.keeper.cooldownUntil[c];
        assert x in w'.log;
      } else {
        var curve, id :| w'.keeper.cooldownUntil == w.keeper.cooldownUntil[curve := w.now + t.failedCooldownMs]
          && w'.log == w.log + [Exhausted(id, curve, w.now)];
        assert Exhausted(id, curve, w.now) in w'.log;
      }
    }
  }

  lemma {:induction false} CoolingRun(t: Tuning, w: World, events: seq<Event>)
    requires Fresh(w)
    ensures CoolingLogged(t, Run(t, w, events))
  {
    if |events| == 0 {
    } else {
      var init, e := events[..|events| - 1], events[|events| - 1];
      CoolingRun(t, w, init);
      if Enabled(Run(t, w, init), e) { CoolingStep(t, Run(t, w, init), e); }
    }
  }

  ghost predicate Running(w: World, curve: string) {
    exists id :: id in w.keeper.frames && w.keeper.frames[id].curve == curve
  }

  /** An attempt on the curve was exhausted less than a cooldown ago. */
  ghost predicate Cooling(t: Tuning, w: World, curve: string) {
    exists x :: x in w.log && ExhaustedOn(x, curve) && w.now < x.at + t.failedCooldownMs
  }

  /** In every run a call is refused exactly while an attempt on the curve is running, or an exhaustion of it is less than
      a cooldown old; otherwise its attempt begins. */
  lemma CallIsAnswered(t: Tuning, w: World, events: seq<Event>, id: Id, curveRaw: string)
    requires Fresh(w) && Enabled(Run(t, w, events), Call(id, curveRaw))
    ensures var before, after, c := Run(t, w, events), Next(t, Run(t, w, events), Call(id, curveRaw)), Lower(curveRaw);
      if Running(before, c) then after.log == before.log + [Returned(id, c, SkippedInFlight, PhaseOf(before, c))]
      else if Cooling(t, before, c) then after.log == before.log + [Returned(id, c, SkippedCooldown, PhaseOf(before, c))]
      else after.log == before.log && Waits(after, id, Frame(c, FirstPhase))
  {
    var before, c := Run(t, w, events), Lower(curveRaw);
    RunKeeps(t, w, events);
    CoolingRun(t, w, events);
    if Cooling(t, before, c) {
      var x :| x in before.log && ExhaustedOn(x, c) && before.now < x.at + t.failedCooldownMs;
      assert EntryOk(t, before, x);
    }
  }
}
