/**
 * The transactions of the keeper. The node accepts a transaction while its send is pending, and mines it at
 * any later time, also after the attempt has given up on it.
 */
module KeeperTxs {
  import opened Addresses
  import opened Keeper
  import opened KeeperRuns

  datatype Mined = Pending | Succeeded | Failed

  datatype Tx = Tx(curve: string, state: Mined)

  /** current: the transaction of a pending send or of an awaited receipt. givenUp: transactions whose send threw
      or whose receipt fetch failed. */
  datatype Pool = Pool(w: World, txs: seq<Tx>, current: map<Id, nat>, givenUp: set<nat>)

  datatype Step =
    | Attempt(e: Event)
    | Accept(id: Id)
    | Mine(k: nat, ok: bool)

  predicate Idle(p: Pool) { Fresh(p.w) && p.txs == [] && p.current == map[] && p.givenUp == {} }

  predicate GivesUp(e: Event) {
    match e
    case Sent(_, Threw(_)) => true
    case GotReceipt(_, FetchFailed) => true
    case _ => false
  }

  predicate StateIs(p: Pool, id: Id, state: Mined) {
    id in p.current && p.current[id] < |p.txs| && p.txs[p.current[id]].state == state
  }

  /** A send returns once the node has accepted its transaction, a receipt once it is mined. Mining is a
      success only for a curve that is ready. */
  predicate Happens(p: Pool, s: Step) {
    match s
    case Attempt(e) =>
      && Enabled(p.w, e)
      && (match e
          case Sent(id, Done) => id in p.current
          case GotReceipt(id, Success) => StateIs(p, id, Succeeded)
          case GotReceipt(id, Reverted) => StateIs(p, id, Failed)
          case _ => true)
    case Accept(id) => id in p.w.keeper.frames && p.w.keeper.frames[id].wait.Sending? && id !in p.current
    case Mine(k, ok) => k < |p.txs| && p.txs[k].state.Pending? && (ok ==> PhaseOf(p.w, p.txs[k].curve) == Ready)
  }

  /** The pool after a keeper step: an attempt lets go of its transaction when it gives up or is answered. */
  function AfterAttempt(p: Pool, e: Event, w: World): Pool {
    if GivesUp(e) && e.id in p.current then
      Pool(w, p.txs, p.current - {e.id}, p.givenUp + {p.current[e.id]})
    else if e.GotReceipt? then
      Pool(w, p.txs, p.current - {e.id}, p.givenUp)
    else p.(w := w)
  }

  function Then(t: Tuning, p: Pool, s: Step): Pool
    requires Happens(p, s)
  {
    match s
    case Attempt(e) => AfterAttempt(p, e, Next(t, p.w, e))
    case Accept(id) =>
      Pool(p.w, p.txs + [Tx(p.w.keeper.frames[id].curve, Pending)], p.current[id := |p.txs|], p.givenUp)
    case Mine(k, ok) =>
      var tx := p.txs[k];
      var mined := p.(txs := p.txs[k := tx.(state := if ok then Succeeded else Failed)]);
      if ok then mined.(w := Next(t, p.w, Advance(tx.curve, Graduated))) else mined
  }

  function Play(t: Tuning, start: Pool, steps: seq<Step>): Pool {
    if |steps| == 0 then start
    else
      var before, s := Play(t, start, steps[..|steps| - 1]), steps[|steps| - 1];
      if Happens(before, s) then Then(t, before, s) else before
  }

  // ---- the keeper's own run ---------------------------------------------------------------

  /** The keeper events of a step: a mined success graduates its curve. */
  function Behind(p: Pool, s: Step): seq<Event>
    requires Happens(p, s)
  {
    match s
    case Attempt(e) => [e]
    case Accept(_) => []
    case Mine(k, ok) => if ok then [Advance(p.txs[k].curve, Graduated)] else []
  }

  function Events(t: Tuning, start: Pool, steps: seq<Step>): seq<Event> {
    if |steps| == 0 then []
    else
      var p, s := Play(t, start, steps[..|steps| - 1]), steps[|steps| - 1];
      Events(t, start, steps[..|steps| - 1]) + if Happens(p, s) then Behind(p, s) else []
  }

  lemma BehindRuns(t: Tuning, p: Pool, s: Step)
    requires Happens(p, s)
    ensures Then(t, p, s).w == Run(t, p.w, Behind(p, s))
  {
    if Behind(p, s) != [] { RunOne(t, p.w, Behind(p, s)[0]); }
  }

  /** So everything that holds of every keeper run holds of the keeper here. */
  lemma {:induction false} PoolIsRun(t: Tuning, start: Pool, steps: seq<Step>)
    ensures Play(t, start, steps).w == Run(t, start.w, Events(t, start, steps))
  {
    if |steps| == 0 {
    } else {
      var init, s := steps[..|steps| - 1], steps[|steps| - 1];
      var p := Play(t, start, init);
      PoolIsRun(t, start, init);
      if Happens(p, s) {
        BehindRuns(t, p, s);
        RunConcat(t, start.w, Events(t, start, init), Behind(p, s));
      } else {
        assert Events(t, start, init) + [] == Events(t, start, init);
      }
    }
  }

  // ---- the transactions in flight ---------------------------------------------------------

  /** An attempt's transaction is on its own curve, and the attempt is sending it or waits for its receipt. */
  predicate CurrentOk(p: Pool, id: Id) {
    && id in p.current && id in p.w.keeper.frames && p.current[id] < |p.txs|
    && (p.w.keeper.frames[id].wait.Sending? || p.w.keeper.frames[id].wait.AwaitingReceipt?)
    && p.txs[p.current[id]].curve == p.w.keeper.frames[id].curve
  }

  ghost predicate Held(p: Pool, k: nat) { exists id :: id in p.current && p.current[id] == k }

  /** The transaction an attempt holds is the last one of its curve. */
  ghost predicate HeldIsLast(p: Pool, k: nat) {
    k < |p.txs| && forall j: nat :: k < j < |p.txs| ==> p.txs[j].curve != p.txs[k].curve
  }

  ghost predicate HoldersOk(p: Pool) {
    && (forall id :: id in p.current ==> CurrentOk(p, id) && HeldIsLast(p, p.current[id]))
    && (forall id :: id in p.w.keeper.frames && p.w.keeper.frames[id].wait.AwaitingReceipt? ==> id in p.current)
  }

  /** A pending transaction is held by an attempt or given up, not both. */
  ghost predicate TxsOk(p: Pool) {
    && (forall k :: k in p.givenUp ==> k < |p.txs| && !Held(p, k))
    && (forall k: nat :: k < |p.txs| && p.txs[k].state.Pending? ==> k in p.givenUp || Held(p, k))
  }

  // --- one step ---

  /** A new transaction comes last, and no attempt holds one of its curve. */
  lemma AcceptHolders(t: Tuning, p: Pool, id: Id)
    requires OnePerCurve(p.w) && HoldersOk(p) && Happens(p, Accept(id))
    ensures HoldersOk(Then(t, p, Accept(id)))
  {
    var p' := Then(t, p, Accept(id));
    forall x | x in p'.current ensures CurrentOk(p', x) && HeldIsLast(p', p'.current[x]) {
      if x != id { assert CurrentOk(p, x) && HeldIsLast(p, p.current[x]); }
    }
  }

  lemma AcceptTxs(t: Tuning, p: Pool, id: Id)
    requires HoldersOk(p) && TxsOk(p) && Happens(p, Accept(id))
    ensures TxsOk(Then(t, p, Accept(id)))
  {
    var p' := Then(t, p, Accept(id));
    assert p'.current[id] == |p.txs|;
    forall k: nat | k < |p'.txs| && p'.txs[k].state.Pending? ensures k in p'.givenUp || Held(p', k) {
      if k < |p.txs| && k !in p.givenUp {
        assert Held(p, k);
        var x :| x in p.current && p.current[x] == k;
        assert p'.current[x] == k;
      }
    }
    forall k | k in p'.givenUp ensures !Held(p', k) { assert !Held(p, k); }
  }

  lemma MineHolders(t: Tuning, p: Pool, k: nat, ok: bool)
    requires HoldersOk(p) && Happens(p, Mine(k, ok))
    ensures HoldersOk(Then(t, p, Mine(k, ok)))
  {
    var p' := Then(t, p, Mine(k, ok));
    forall x | x in p'.current ensures CurrentOk(p', x) && HeldIsLast(p', p'.current[x]) {
      assert CurrentOk(p, x) && HeldIsLast(p, p.current[x]);
    }
  }

  lemma MineTxs(t: Tuning, p: Pool, k: nat, ok: bool)
    requires TxsOk(p) && Happens(p, Mine(k, ok))
    ensures TxsOk(Then(t, p, Mine(k, ok)))
  {
    var p' := Then(t, p, Mine(k, ok));
    forall j: nat | j < |p'.txs| && p'.txs[j].state.Pending? ensures j in p'.givenUp || Held(p', j) {
      if j !in p.givenUp {
        assert Held(p, j);
        var x :| x in p.current && p.current[x] == j;
        assert p'.current[x] == j;
      }
    }
    forall j | j in p'.givenUp ensures !Held(p', j) { assert !Held(p, j); }
  }

  /** An attempt keeps its transaction over the steps of others, and over its own send. */
  lemma AttemptHolds(t: Tuning, p: Pool, e: Event, x: Id)
    requires OnePerCurve(p.w) && HoldersOk(p) && Happens(p, Attempt(e)) && x in Then(t, p, Attempt(e)).current
    ensures CurrentOk(Then(t, p, Attempt(e)), x) && HeldIsLast(Then(t, p, Attempt(e)), Then(t, p, Attempt(e)).current[x])
  {
    assert CurrentOk(p, x) && HeldIsLast(p, p.current[x]);
    FramesMove(t, p.w, e, x);
  }

  lemma AwaitedIsHeld(t: Tuning, p: Pool, e: Event, x: Id)
    requires OnePerCurve(p.w) && HoldersOk(p) && Happens(p, Attempt(e))
    requires var frames := Then(t, p, Attempt(e)).w.keeper.frames; x in frames && frames[x].wait.AwaitingReceipt?
    ensures x in Then(t, p, Attempt(e)).current
  {
    FramesMove(t, p.w, e, x);
  }

  lemma AttemptHolders(t: Tuning, p: Pool, e: Event)
    requires OnePerCurve(p.w) && HoldersOk(p) && Happens(p, Attempt(e))
    ensures HoldersOk(Then(t, p, Attempt(e)))
  {
    var p' := Then(t, p, Attempt(e));
    forall x | x in p'.current ensures CurrentOk(p', x) && HeldIsLast(p', p'.current[x]) { AttemptHolds(t, p, e, x); }
    forall x | x in p'.w.keeper.frames && p'.w.keeper.frames[x].wait.AwaitingReceipt? ensures x in p'.current {
      AwaitedIsHeld(t, p, e, x);
    }
  }

  /** What an attempt lets go of is given up, or was mined. */
  lemma AttemptTxs(t: Tuning, p: Pool, e: Event)
    requires HoldersOk(p) && TxsOk(p) && Happens(p, Attempt(e))
    requires forall i, j :: i in p.current && j in p.current && p.current[i] == p.current[j] ==> i == j
    ensures TxsOk(Then(t, p, Attempt(e)))
  {
    var p' := Then(t, p, Attempt(e));
    forall k: nat | k < |p'.txs| && p'.txs[k].state.Pending? ensures k in p'.givenUp || Held(p', k) {
      if k !in p.givenUp {
        assert Held(p, k);
        var x :| x in p.current && p.current[x] == k;
        if x in p'.current { assert p'.current[x] == k; }
      }
    }
    forall k | k in p'.givenUp ensures k < |p'.txs| && !Held(p', k) {
      if k in p.givenUp { assert !Held(p, k); } else { assert CurrentOk(p, e.id); }
    }
  }

  /** Attempts hold different transactions, as they are on different curves. */
  lemma HoldApart(p: Pool, i: Id, j: Id)
    requires OnePerCurve(p.w) && HoldersOk(p) && i in p.current && j in p.current && p.current[i] == p.current[j]
    ensures i == j
  {
    assert CurrentOk(p, i) && CurrentOk(p, j);
  }

  lemma ThenKeeps(t: Tuning, p: Pool, s: Step)
    requires OnePerCurve(p.w) && HoldersOk(p) && TxsOk(p) && Happens(p, s)
    ensures HoldersOk(Then(t, p, s)) && TxsOk(Then(t, p, s))
  {
    match s
    case Attempt(e) =>
      AttemptHolders(t, p, e);
      forall i, j | i in p.current && j in p.current && p.current[i] == p.current[j] ensures i == j { HoldApart(p, i, j); }
      AttemptTxs(t, p, e);
    case Accept(id) =>
      AcceptHolders(t, p, id);
      AcceptTxs(t, p, id);
    case Mine(k, ok) =>
      MineHolders(t, p, k, ok);
      MineTxs(t, p, k, ok);
  }

  lemma PlayOnePerCurve(t: Tuning, start: Pool, steps: seq<Step>)
    requires Idle(start)
    ensures OnePerCurve(Play(t, start, steps).w)
  {
    PoolIsRun(t, start, steps);
    RunKeeps(t, start.w, Events(t, start, steps));
  }

  lemma {:induction false} PlayKeeps(t: Tuning, start: Pool, steps: seq<Step>)
    requires Idle(start)
    ensures HoldersOk(Play(t, start, steps)) && TxsOk(Play(t, start, steps))
  {
    if |steps| == 0 {
    } else {
      var init := steps[..|steps| - 1];
      PlayKeeps(t, start, init);
      PlayOnePerCurve(t, start, init);
      if Happens(Play(t, start, init), steps[|steps| - 1]) { ThenKeeps(t, Play(t, start, init), steps[|steps| - 1]); }
    }
  }

  // ---- the transactions in flight ---------------------------------------------------------

  /** Transactions of a curve that the node accepted and that are not mined. */
  function InFlight(p: Pool, curve: string): set<nat> {
    set k: nat | k < |p.txs| && p.txs[k].curve == curve && p.txs[k].state.Pending?
  }

  /** The attempt sends or awaits a transaction of the curve that is not mined. */
  predicate WaitsFor(p: Pool, id: Id, curve: string) {
    id in p.w.keeper.frames && p.w.keeper.frames[id].curve == curve && StateIs(p, id, Pending)
  }

  ghost predicate Waiting(p: Pool, curve: string) { exists id :: WaitsFor(p, id, curve) }

  lemma NotGivenUpIsHeld(p: Pool, k: nat, curve: string) returns (id: Id)
    requires HoldersOk(p) && TxsOk(p) && k in InFlight(p, curve) && k !in p.givenUp
    ensures WaitsFor(p, id, curve) && p.current[id] == k
    ensures HeldIsLast(p, k)
  {
    assert Held(p, k);
    id :| id in p.current && p.current[id] == k;
    assert CurrentOk(p, id);
  }

  lemma HeldInFlight(p: Pool, curve: string)
    requires OnePerCurve(p.w) && HoldersOk(p) && TxsOk(p)
    ensures |InFlight(p, curve) - p.givenUp| == if Waiting(p, curve) then 1 else 0
  {
    var held := InFlight(p, curve) - p.givenUp;
    if Waiting(p, curve) {
      var id :| WaitsFor(p, id, curve);
      var k := p.current[id];
      assert CurrentOk(p, id) && Held(p, k);
      forall j | j in held ensures j == k {
        var other := NotGivenUpIsHeld(p, j, curve);
      }
      assert held == {k};
    } else {
      forall j | j in held ensures false {
        var other := NotGivenUpIsHeld(p, j, curve);
      }
      assert held == {};
    }
  }

  lemma SplitSize(a: set<nat>, b: set<nat>)
    ensures |a| == |a * b| + |a - b|
  {
    assert a == (a * b) + (a - b);
  }

  /** In every run the transactions of a curve in flight are those given up and not yet mined, and the one its
      attempt sends or awaits; of two in flight the earlier one was given up. */
  lemma InFlightAreGivenUp(t: Tuning, start: Pool, steps: seq<Step>, curve: string)
    requires Idle(start)
    ensures var p := Play(t, start, steps);
      && |InFlight(p, curve)| == |InFlight(p, curve) * p.givenUp| + (if Waiting(p, curve) then 1 else 0)
      && (forall j, k :: j in InFlight(p, curve) && k in InFlight(p, curve) && j < k ==> j in p.givenUp)
  {
    var p := Play(t, start, steps);
    PlayKeeps(t, start, steps);
    PlayOnePerCurve(t, start, steps);
    HeldInFlight(p, curve);
    SplitSize(InFlight(p, curve), p.givenUp);
    forall j, k | j in InFlight(p, curve) && k in InFlight(p, curve) && j < k ensures j in p.givenUp {
      if j !in p.givenUp { var id := NotGivenUpIsHeld(p, j, curve); }
    }
  }

  /** While a send may be accepted, no attempt holds a transaction of its curve. */
  lemma NoneHeld(p: Pool, id: Id, k: nat)
    requires OnePerCurve(p.w) && HoldersOk(p) && TxsOk(p) && Happens(p, Accept(id))
    requires k in InFlight(p, p.w.keeper.frames[id].curve)
    ensures k in p.givenUp
  {
    if k !in p.givenUp { var other := NotGivenUpIsHeld(p, k, p.w.keeper.frames[id].curve); }
  }

  lemma AcceptedJoins(t: Tuning, p: Pool, id: Id, curve: string)
    requires Happens(p, Accept(id)) && curve == p.w.keeper.frames[id].curve
    ensures InFlight(Then(t, p, Accept(id)), curve) == InFlight(p, curve) + {|p.txs|}
  {
    var p' := Then(t, p, Accept(id));
    assert forall k: nat :: k < |p.txs| ==> p'.txs[k] == p.txs[k];
  }

  /** A transaction joins others of its curve in flight exactly when one that was given up is not mined yet. */
  lemma SecondIsAccepted(t: Tuning, start: Pool, steps: seq<Step>, id: Id)
    requires Idle(start) && Happens(Play(t, start, steps), Accept(id))
    ensures var p := Play(t, start, steps);
      var curve := p.w.keeper.frames[id].curve;
      && InFlight(Then(t, p, Accept(id)), curve) == InFlight(p, curve) + {|p.txs|}
      && (InFlight(p, curve) != {} <==> exists k :: k in p.givenUp && k in InFlight(p, curve))
  {
    var p := Play(t, start, steps);
    var curve := p.w.keeper.frames[id].curve;
    PlayKeeps(t, start, steps);
    PlayOnePerCurve(t, start, steps);
    forall k | k in InFlight(p, curve) ensures k in p.givenUp { NoneHeld(p, id, k); }
    AcceptedJoins(t, p, id, curve);
  }

  /** Step n gives up transaction k: its send throws, or its receipt cannot be fetched. */
  predicate GivesUpAt(t: Tuning, start: Pool, steps: seq<Step>, n: nat, k: nat) {
    && n < |steps| && steps[n].Attempt? && GivesUp(steps[n].e) && Happens(Play(t, start, steps[..n]), steps[n])
    && steps[n].e.id in Play(t, start, steps[..n]).current && Play(t, start, steps[..n]).current[steps[n].e.id] == k
  }

  lemma GivenUpStep(t: Tuning, start: Pool, steps: seq<Step>, k: nat)
    requires |steps| > 0
    ensures k in Play(t, start, steps).givenUp <==>
      k in Play(t, start, steps[..|steps| - 1]).givenUp || GivesUpAt(t, start, steps, |steps| - 1, k)
  {
  }

  lemma {:induction false} GivenUpIff(t: Tuning, start: Pool, steps: seq<Step>, k: nat)
    requires Idle(start)
    ensures k in Play(t, start, steps).givenUp <==> exists n: nat :: GivesUpAt(t, start, steps, n, k)
  {
    if |steps| == 0 {
    } else {
      var last := |steps| - 1;
      var init := steps[..last];
      GivenUpIff(t, start, init, k);
      GivenUpStep(t, start, steps, k);
      forall n: nat | n < last ensures GivesUpAt(t, start, init, n, k) <==> GivesUpAt(t, start, steps, n, k) {
        assert init[..n] == steps[..n];
      }
      if k in Play(t, start, init).givenUp {
        var n: nat :| GivesUpAt(t, start, init, n, k);
        assert GivesUpAt(t, start, steps, n, k);
      }
    }
  }

  // ---- a run with two in flight -----------------------------------------------------------

  lemma {:induction false} PlayConcat(t: Tuning, start: Pool, a: seq<Step>, b: seq<Step>)
    ensures Play(t, start, a + b) == Play(t, Play(t, start, a), b)
  {
    if b == [] {
      assert a + b == a;
    } else {
      PlayConcat(t, start, a, b[..|b| - 1]);
      assert (a + b)[..|a + b| - 1] == a + b[..|b| - 1];
    }
  }

  function Taken(t: Tuning, p: Pool, s: Step): Pool { if Happens(p, s) then Then(t, p, s) else p }

  lemma PlaySnoc(t: Tuning, p: Pool, steps: seq<Step>, s: Step)
    ensures Play(t, p, steps + [s]) == Taken(t, Play(t, p, steps), s)
  {
    assert (steps + [s])[..|steps|] == steps;
  }

  lemma PlayTwo(t: Tuning, p: Pool, a: Step, b: Step)
    ensures Play(t, p, [a, b]) == Taken(t, Taken(t, p, a), b)
  {
    PlaySnoc(t, p, [], a);
    PlaySnoc(t, p, [a], b);
    assert [] + [a] == [a] && [a] + [b] == [a, b];
  }

  lemma PlayThree(t: Tuning, p: Pool, a: Step, b: Step, c: Step)
    ensures Play(t, p, [a, b, c]) == Taken(t, Taken(t, Taken(t, p, a), b), c)
  {
    PlayTwo(t, p, a, b);
    PlaySnoc(t, p, [a, b], c);
    assert [a, b] + [c] == [a, b, c];
  }

  function CallFor(id: Id, curve: string): seq<Step> { [Attempt(Call(id, curve)), Attempt(PhaseIs(id, Known(Ready)))] }

  function SendOnce(id: Id): seq<Step> { [Attempt(Estimated(id, Done)), Accept(id), Attempt(Sent(id, Done))] }

  function LoseReceipt(id: Id): seq<Step> { [Attempt(GotReceipt(id, FetchFailed)), Attempt(Wake(id))] }

  /** The attempt waits for an estimate of a ready curve, and holds nothing. */
  predicate Estimates(p: Pool, id: Id, curve: string, n: nat) {
    && KeeperRuns.Waits(p.w, id, Frame(curve, Estimating(n))) && MayRead(p.w, id, curve, Ready)
    && PhaseOf(p.w, curve) == Ready && id !in p.current
  }

  lemma CallEstimates(t: Tuning, start: Pool, id: Id, curve: string)
    requires Idle(start) && t.maxAttempts >= 1 && curve == Lower(curve) && PhaseOf(start.w, curve) == Ready
    ensures var p := Play(t, start, CallFor(id, curve));
      Estimates(p, id, curve, 1) && p.txs == [] && p.current == map[]
  {
    PlayTwo(t, start, Attempt(Call(id, curve)), Attempt(PhaseIs(id, Known(Ready))));
  }

  lemma EstimateSends(t: Tuning, p: Pool, id: Id, curve: string, n: nat)
    requires Estimates(p, id, curve, n)
    ensures var p' := Play(t, p, SendOnce(id));
      && p'.txs == p.txs + [Tx(curve, Pending)] && p'.current == p.current[id := |p.txs|]
      && KeeperRuns.Waits(p'.w, id, Frame(curve, AwaitingReceipt(n))) && PhaseOf(p'.w, curve) == Ready
  {
    PlayThree(t, p, Attempt(Estimated(id, Done)), Accept(id), Attempt(Sent(id, Done)));
  }

  lemma LostEstimates(t: Tuning, p: Pool, id: Id, curve: string, n: nat)
    requires KeeperRuns.Waits(p.w, id, Frame(curve, AwaitingReceipt(n))) && PhaseOf(p.w, curve) == Ready
    requires id in p.current && n < t.maxAttempts
    ensures var p' := Play(t, p, LoseReceipt(id)); Estimates(p', id, curve, n + 1) && p'.txs == p.txs
  {
    PlayTwo(t, p, Attempt(GotReceipt(id, FetchFailed)), Attempt(Wake(id)));
  }

  /** With a second attempt allowed, a run for a ready curve that loses its first receipt has two transactions in
      flight while the curve is still ready. */
  lemma TwoCanBeInFlight(t: Tuning, start: Pool, id: Id, curve: string)
    requires Idle(start) && t.maxAttempts >= 2 && curve == Lower(curve) && PhaseOf(start.w, curve) == Ready
    ensures var p := Play(t, start, CallFor(id, curve) + SendOnce(id) + LoseReceipt(id) + SendOnce(id));
      InFlight(p, curve) == {0, 1} && PhaseOf(p.w, curve) == Ready
  {
    var a, b, c := CallFor(id, curve), SendOnce(id), LoseReceipt(id);
    CallEstimates(t, start, id, curve);
    PlayConcat(t, start, a, b);
    EstimateSends(t, Play(t, start, a), id, curve, 1);
    PlayConcat(t, start, a + b, c);
    LostEstimates(t, Play(t, start, a + b), id, curve, 1);
    PlayConcat(t, start, a + b + c, b);
    EstimateSends(t, Play(t, start, a + b + c), id, curve, 2);
    assert Play(t, start, a + b + c + b).txs == [Tx(curve, Pending), Tx(curve, Pending)];
  }
}
