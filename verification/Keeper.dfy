/**
 * The graduation keeper. An attempt is suspended at each awaited chain call or sleep; its frame
 * is a Wait, and each resumption up to the next await is one event. Attempts from log events and
 * from sweeps interleave freely, against a chain whose phases only move forward.
 */
module Keeper {
  import opened Addresses

  /** On-chain lifecycle of a curve. */
  datatype Phase = Trading | Ready | Graduated

  /** A phase read; Unknown when the read failed. */
  datatype PhaseRead = Unknown | Known(phase: Phase)

  /** How a caught estimate or send error is classified. */
  datatype ErrorClass = ContractRevert | Transient

  datatype CallResult = Done | Threw(kind: ErrorClass)

  datatype Receipt = Success | Reverted | FetchFailed

  datatype Status =
    | StatusGraduated | AlreadyGraduated | NotReady | PhaseUnavailable
    | SkippedInFlight | SkippedCooldown | FailedPersistent

  /** Where an attempt is suspended; n counts its send attempts from 1. */
  datatype Wait =
    | FirstPhase
    | Estimating(n: nat)
    | Sending(n: nat)
    | AwaitingReceipt(n: nat)
    | Classifying(n: nat, kind: ErrorClass)
    | RevertedPhase(n: nat)
    | Sleeping(n: nat)
    | Settled(status: Status)

  datatype Frame = Frame(curve: string, wait: Wait)

  type Id = nat

  datatype Tuning = Tuning(maxAttempts: int, failedCooldownMs: nat)

  datatype State = State(inFlight: set<string>, cooldownUntil: map<string, int>, frames: map<Id, Frame>)

  /** What a resumption does towards the outside. */
  datatype Act = Quiet | ReadPhase | EstimateGas | SendGraduate | Exhaust | Return(status: Status)

  datatype Event =
    | Call(id: Id, curveRaw: string)
    | PhaseIs(id: Id, read: PhaseRead)
    | Estimated(id: Id, result: CallResult)
    | Sent(id: Id, sendResult: CallResult)
    | GotReceipt(id: Id, receipt: Receipt)
    | Wake(id: Id)
    | Finally(id: Id)
    | Advance(curve: string, phase: Phase)
    | Clock(later: int)

  // ---- one attempt ------------------------------------------------------------------------

  /** The loop head: the next attempt, or the exit that starts the cooldown. */
  function Attempt(t: Tuning, n: nat): (Wait, Act) {
    if n <= t.maxAttempts then (Estimating(n), EstimateGas) else (Settled(FailedPersistent), Exhaust)
  }

  /** A failed attempt sleeps, or leaves the loop after the last one. */
  function Failed(t: Tuning, n: nat): (Wait, Act) {
    if n >= t.maxAttempts then Attempt(t, n + 1) else (Sleeping(n), Quiet)
  }

  /** The pre-check: only a curve read as ready is attempted. */
  function PreCheck(t: Tuning, read: PhaseRead): (Wait, Act) {
    match read
    case Known(Graduated) => (Settled(AlreadyGraduated), Quiet)
    case Known(Trading) => (Settled(NotReady), Quiet)
    case Unknown => (Settled(PhaseUnavailable), Quiet)
    case Known(Ready) => Attempt(t, 1)
  }

  /** The re-read phase decides a failure: anything still ready or unknown counts as failed. */
  function Arbitrate(t: Tuning, n: nat, read: PhaseRead): (Wait, Act) {
    match read
    case Known(Graduated) => (Settled(AlreadyGraduated), Quiet)
    case Known(Trading) => (Settled(NotReady), Quiet)
    case _ => Failed(t, n)
  }

  /** Which suspended call an event completes. */
  predicate Resumes(w: Wait, e: Event) {
    match e
    case PhaseIs(_, _) => w.FirstPhase? || w.Classifying? || w.RevertedPhase?
    case Estimated(_, _) => w.Estimating?
    case Sent(_, _) => w.Sending?
    case GotReceipt(_, _) => w.AwaitingReceipt?
    case Wake(_) => w.Sleeping?
    case Finally(_) => w.Settled?
    case _ => false
  }

  /** From one await of an attempt to its next. */
  function Resume(t: Tuning, w: Wait, e: Event): (Wait, Act)
    requires Resumes(w, e) && !e.Finally?
  {
    match e
    case PhaseIs(_, read) => if w.FirstPhase? then PreCheck(t, read) else Arbitrate(t, w.n, read)
    case Estimated(_, Done) => (Sending(w.n), SendGraduate)
    case Estimated(_, Threw(kind)) => (Classifying(w.n, kind), ReadPhase)
    case Sent(_, Done) => (AwaitingReceipt(w.n), Quiet)
    case Sent(_, Threw(kind)) => (Classifying(w.n, kind), ReadPhase)
    case GotReceipt(_, Success) => (Settled(StatusGraduated), Quiet)
    case GotReceipt(_, Reverted) => (RevertedPhase(w.n), ReadPhase)
    case GotReceipt(_, FetchFailed) => Failed(t, w.n)
    case Wake(_) => Attempt(t, w.n + 1)
  }

  // ---- the keeper -------------------------------------------------------------------------

  predicate InCooldown(k: State, curve: string, now: int) {
    curve in k.cooldownUntil && now < k.cooldownUntil[curve]
  }

  function Cooled(t: Tuning, k: State, curve: string, act: Act, now: int): map<string, int> {
    if act.Exhaust? then k.cooldownUntil[curve := now + t.failedCooldownMs] else k.cooldownUntil
  }

  function Place(t: Tuning, k: State, id: Id, curve: string, next: (Wait, Act), now: int): State {
    State(k.inFlight, Cooled(t, k, curve, next.1, now), k.frames[id := Frame(curve, next.0)])
  }

  /** A call is refused while the curve is in flight or cooling down. */
  function Start(k: State, id: Id, curve: string, now: int): (State, Act) {
    if curve in k.inFlight then (k, Return(SkippedInFlight))
    else if InCooldown(k, curve, now) then (k, Return(SkippedCooldown))
    else (State(k.inFlight + {curve}, k.cooldownUntil, k.frames[id := Frame(curve, FirstPhase)]), ReadPhase)
  }

  /** One resumption of the keeper. */
  function React(t: Tuning, k: State, e: Event, now: int): (State, Act)
    requires e.Call? || e.Advance? || e.Clock? || (e.id in k.frames && Resumes(k.frames[e.id].wait, e))
  {
    match e
    case Call(id, curveRaw) => Start(k, id, Lower(curveRaw), now)
    case Finally(id) =>
      var f := k.frames[id];
      (State(k.inFlight - {f.curve}, k.cooldownUntil, k.frames - {id}), Return(f.wait.status))
    case Advance(_, _) => (k, Quiet)
    case Clock(_) => (k, Quiet)
    case _ =>
      var f := k.frames[e.id];
      var next := Resume(t, f.wait, e);
      (Place(t, k, e.id, f.curve, next, now), next.1)
  }

  /** The keeper object: the in-flight set, the cooldown map and the suspended frames. */
  class GraduationKeeper {
    const tuning: Tuning
    var inFlight: set<string>
    var cooldownUntil: map<string, int>
    var frames: map<Id, Frame>

    function View(): State
      reads this
    {
      State(inFlight, cooldownUntil, frames)
    }

    constructor (tuning: Tuning)
      ensures this.tuning == tuning && View() == State({}, map[], map[])
    {
      this.tuning := tuning;
      inFlight, cooldownUntil, frames := {}, map[], map[];
    }

    /** Dedup and cooldown gate, up to the first phase read. */
    method StartAttempt(id: Id, curveRaw: string, now: int) returns (act: Act)
      modifies this
      ensures (View(), act) == React(tuning, old(View()), Call(id, curveRaw), now)
    {
      var curve := Lower(curveRaw);
      if curve in inFlight { return Return(SkippedInFlight); }
      if curve in cooldownUntil && now < cooldownUntil[curve] { return Return(SkippedCooldown); }
      inFlight := inFlight + {curve};
      frames := frames[id := Frame(curve, FirstPhase)];
      act := ReadPhase;
    }

    method NextAttempt(id: Id, curve: string, n: nat, now: int) returns (act: Act)
      modifies this
      ensures var next := Attempt(tuning, n);
        act == next.1 && View() == Place(tuning, old(View()), id, curve, next, now)
    {
      if n <= tuning.maxAttempts {
        frames := frames[id := Frame(curve, Estimating(n))];
        act := EstimateGas;
      } else {
        cooldownUntil := cooldownUntil[curve := now + tuning.failedCooldownMs];
        frames := frames[id := Frame(curve, Settled(FailedPersistent))];
        act := Exhaust;
      }
    }

    method AttemptFailed(id: Id, curve: string, n: nat, now: int) returns (act: Act)
      modifies this
      ensures var next := Failed(tuning, n);
        act == next.1 && View() == Place(tuning, old(View()), id, curve, next, now)
    {
      var last := n >= tuning.maxAttempts;
      if !last {
        frames := frames[id := Frame(curve, Sleeping(n))];
        act := Quiet;
      } else {
        act := NextAttempt(id, curve, n + 1, now);
      }
    }

    method ResumePhase(id: Id, read: PhaseRead, now: int) returns (act: Act)
      requires id in frames && Resumes(frames[id].wait, PhaseIs(id, read))
      modifies this
      ensures (View(), act) == React(tuning, old(View()), PhaseIs(id, read), now)
    {
      var f := frames[id];
      act := Quiet;
      if read == Known(Graduated) {
        frames := frames[id := Frame(f.curve, Settled(AlreadyGraduated))];
      } else if read == Known(Trading) {
        frames := frames[id := Frame(f.curve, Settled(NotReady))];
      } else if f.wait.FirstPhase? {
        if read == Unknown {
          frames := frames[id := Frame(f.curve, Settled(PhaseUnavailable))];
        } else {
          act := NextAttempt(id, f.curve, 1, now);
        }
      } else {
        act := AttemptFailed(id, f.curve, f.wait.n, now);
      }
    }

    method ResumeEstimate(id: Id, result: CallResult, now: int) returns (act: Act)
      requires id in frames && frames[id].wait.Estimating?
      modifies this
      ensures (View(), act) == React(tuning, old(View()), Estimated(id, result), now)
    {
      var f := frames[id];
      match result {
        case Done =>
          frames := frames[id := Frame(f.curve, Sending(f.wait.n))];
          act := SendGraduate;
        case Threw(kind) =>
          frames := frames[id := Frame(f.curve, Classifying(f.wait.n, kind))];
          act := ReadPhase;
      }
    }

    method ResumeSend(id: Id, result: CallResult, now: int) returns (act: Act)
      requires id in frames && frames[id].wait.Sending?
      modifies this
      ensures (View(), act) == React(tuning, old(View()), Sent(id, result), now)
    {
      var f := frames[id];
      match result {
        case Done =>
          frames := frames[id := Frame(f.curve, AwaitingReceipt(f.wait.n))];
          act := Quiet;
        case Threw(kind) =>
          frames := frames[id := Frame(f.curve, Classifying(f.wait.n, kind))];
          act := ReadPhase;
      }
    }

    method ResumeReceipt(id: Id, receipt: Receipt, now: int) returns (act: Act)
      requires id in frames && frames[id].wait.AwaitingReceipt?
      modifies this
      ensures (View(), act) == React(tuning, old(View()), GotReceipt(id, receipt), now)
    {
      var f := frames[id];
      act := Quiet;
      match receipt {
        case Success => frames := frames[id := Frame(f.curve, Settled(StatusGraduated))];
        case Reverted =>
          frames := frames[id := Frame(f.curve, RevertedPhase(f.wait.n))];
          act := ReadPhase;
        case FetchFailed => act := AttemptFailed(id, f.curve, f.wait.n, now);
      }
    }

    method ResumeSleep(id: Id, now: int) returns (act: Act)
      requires id in frames && frames[id].wait.Sleeping?
      modifies this
      ensures (View(), act) == React(tuning, old(View()), Wake(id), now)
    {
      act := NextAttempt(id, frames[id].curve, frames[id].wait.n + 1, now);
    }

    /** The finally block of an attempt. */
    method Finish(id: Id, now: int) returns (act: Act)
      requires id in frames && frames[id].wait.Settled?
      modifies this
      ensures (View(), act) == React(tuning, old(View()), Finally(id), now)
    {
      var f := frames[id];
      inFlight := inFlight - {f.curve};
      frames := frames - {id};
      act := Return(f.wait.status);
    }
  }
}
