/**
 * Confirmation watermarks: the monotone advance, the tier of a block, and the tracker whose ticks
 * are suspended at the tag fetch and at the save. The timer does not wait for a tick to finish, so
 * ticks may overlap; "serial" runs are those in which they do not.
 */
module Confirmation {
  import opened Numeric

  datatype Watermark = Watermark(latest: int, safe: int, finalized: int)

  datatype Tier = SoftConfirmed | PostedToL1 | Finalized

  const ZERO: Watermark := Watermark(0, 0, 0)

  // ---- pure decisions ---------------------------------------------------------------------

  function NextWatermark(current: Watermark, observed: Watermark): (Watermark, bool) {
    var safe := Max(current.safe, observed.safe);
    var finalized := Max(current.finalized, observed.finalized);
    (Watermark(Max(current.latest, observed.latest), safe, finalized), safe > current.safe || finalized > current.finalized)
  }

  /** The orphan floor when the observed head is below the recorded one. */
  function DetectReorg(currentLatest: int, observedLatest: int): Option<int> {
    if observedLatest < currentLatest then Some(observedLatest + 1) else None
  }

  /** There is a floor exactly when the head went back, and the blocks from it on are those above the observed head. */
  lemma OrphanFloor(currentLatest: int, observedLatest: int, block: int)
    ensures DetectReorg(currentLatest, observedLatest).Some? <==> observedLatest < currentLatest
    ensures var floor := DetectReorg(currentLatest, observedLatest);
      floor.Some? ==> (floor.value <= block <==> block > observedLatest)
  {
  }

  function StateForBlock(block: int, w: Watermark): Tier {
    if block <= w.finalized then Finalized else if block <= w.safe then PostedToL1 else SoftConfirmed
  }

  function Rank(t: Tier): nat {
    match t case SoftConfirmed => 0 case PostedToL1 => 1 case Finalized => 2
  }

  /** The finalized block itself is final, the safe one is posted, and the next one is neither. */
  lemma BoundaryBlocks(w: Watermark)
    ensures StateForBlock(w.finalized, w) == Finalized && StateForBlock(w.finalized + 1, w) != Finalized
    ensures w.safe > w.finalized ==> StateForBlock(w.safe, w) == PostedToL1
    ensures StateForBlock(Max(w.safe, w.finalized) + 1, w) == SoftConfirmed
  {
  }

  /** The more confirmed of two tiers. */
  function Upgrade(current: Tier, next: Tier): Tier { if Rank(next) - Rank(current) > 0 then next else current }

  /** safe and finalized have not gone back. */
  predicate AtLeast(w: Watermark, v: Watermark) { v.safe <= w.safe && v.finalized <= w.finalized }

  predicate StrictlyAfter(w: Watermark, v: Watermark) {
    AtLeast(w, v) && (v.safe < w.safe || v.finalized < w.finalized)
  }

  /** When watermarks do not go back no tier does, so a held tier is the upgrade of any two. */
  lemma TierNeverFalls(block: int, v: Watermark, w: Watermark)
    requires AtLeast(w, v)
    ensures Rank(StateForBlock(block, v)) <= Rank(StateForBlock(block, w))
    ensures Upgrade(StateForBlock(block, v), StateForBlock(block, w)) == StateForBlock(block, w)
  {
  }

  // ---- one tick ---------------------------------------------------------------------------

  datatype Fetch = FetchThrew | NoTags | Tags(observed: Watermark)

  /** Where a tick is suspended, or that its result is about to be assigned. */
  datatype Wait = Fetching(current: Watermark) | Saving(next: Watermark, advanced: bool) | Returning(result: Watermark)

  /** From the fetch to the save or the return, with the reorg notice published on the way. */
  function AfterFetch(current: Watermark, fetch: Fetch): (Wait, Option<int>) {
    match fetch
    case FetchThrew => (Returning(current), None)
    case NoTags => (Returning(current), None)
    case Tags(observed) =>
      var orphan := DetectReorg(current.latest, observed.latest);
      var state := if orphan.Some? then current.(latest := observed.latest) else current;
      var (next, advanced) := NextWatermark(state, observed);
      (if advanced || orphan.Some? then Saving(next, advanced) else Returning(next), orphan)
  }

  /** From the save to the return, with the broadcast of an advance that was saved. */
  function AfterSave(next: Watermark, advanced: bool, ok: bool): (Wait, Option<Watermark>) {
    (Returning(next), if ok && advanced then Some(next) else None)
  }

  /** The watermark a suspended tick carries. */
  function Carried(w: Wait): Watermark {
    match w case Fetching(c) => c case Saving(n, _) => n case Returning(r) => r
  }

  /** A tick that observes tags carries the observed head and never lowers safe or finalized; it saves
      exactly when they advanced or the head went back. */
  lemma FetchMeaning(current: Watermark, observed: Watermark)
    ensures var (w, orphan) := AfterFetch(current, Tags(observed));
      && Carried(w).latest == observed.latest
      && AtLeast(Carried(w), current) && AtLeast(Carried(w), observed)
      && (w.Saving? <==> StrictlyAfter(Carried(w), current) || observed.latest < current.latest)
      && (w.Saving? ==> (w.advanced <==> StrictlyAfter(Carried(w), current)))
      && (orphan.Some? <==> observed.latest < current.latest)
      && !w.Fetching?
  {
  }

  // ---- the tracker ------------------------------------------------------------------------

  type Id = nat

  datatype Tracker = Tracker(state: Watermark, ticks: map<Id, Wait>)

  class ConfirmationTracker {
    var state: Watermark
    var ticks: map<Id, Wait>

    function View(): Tracker
      reads this
    {
      Tracker(state, ticks)
    }

    /** Seeds the state from the store. */
    constructor (loaded: Option<Watermark>)
      ensures View() == Tracker(if loaded.Some? then loaded.value else ZERO, map[])
    {
      state := if loaded.Some? then loaded.value else ZERO;
      ticks := map[];
    }

    method BeginTick(id: Id)
      modifies this
      ensures View() == Tracker(old(state), old(ticks)[id := Fetching(old(state))])
    {
      ticks := ticks[id := Fetching(state)];
    }

    method ResumeFetch(id: Id, fetch: Fetch) returns (reorg: Option<int>)
      requires id in ticks && ticks[id].Fetching?
      modifies this
      ensures var (w, orphan) := AfterFetch(old(ticks)[id].current, fetch);
        View() == Tracker(old(state), old(ticks)[id := w]) && reorg == orphan
    {
      var next := ticks[id].current;
      var save, advanced := false, false;
      reorg := None;
      if fetch.Tags? {
        var observed := fetch.observed;
        if observed.latest < next.latest {
          reorg := Some(observed.latest + 1);
          next := next.(latest := observed.latest);
        }
        var (n, a) := NextWatermark(next, observed);
        next, advanced := n, a;
        save := advanced || reorg.Some?;
      }
      ticks := ticks[id := if save then Saving(next, advanced) else Returning(next)];
    }

    method ResumeSave(id: Id, ok: bool) returns (broadcast: Option<Watermark>)
      requires id in ticks && ticks[id].Saving?
      modifies this
      ensures var (w, sent) := AfterSave(old(ticks)[id].next, old(ticks)[id].advanced, ok);
        View() == Tracker(old(state), old(ticks)[id := w]) && broadcast == sent
    {
      var t := ticks[id];
      broadcast := if ok && t.advanced then Some(t.next) else None;
      ticks := ticks[id := Returning(t.next)];
    }

    method AssignResult(id: Id)
      requires id in ticks && ticks[id].Returning?
      modifies this
      ensures View() == Tracker(old(ticks)[id].result, old(ticks) - {id})
    {
      state := ticks[id].result;
      ticks := ticks - {id};
    }
  }

  // ---- runs -------------------------------------------------------------------------------

  /** saves: every value written to the store, in order; the last is the stored one. */
  datatype World = World(tracker: Tracker, saves: seq<Watermark>, broadcasts: seq<Watermark>)

  /** A save may reach the store and still be reported as failed. A restart drops suspended ticks,
      after any write they had in flight. */
  datatype Event =
    | Begin(id: Id)
    | Fetched(id: Id, fetch: Fetch)
    | SaveEnds(id: Id, landed: bool, ok: bool)
    | Assign(id: Id)
    | Restart

  function Stored(w: World): Option<Watermark> {
    if |w.saves| == 0 then None else Some(w.saves[|w.saves| - 1])
  }

  function Loaded(w: World): Watermark { if |w.saves| == 0 then ZERO else w.saves[|w.saves| - 1] }

  predicate Enabled(serial: bool, w: World, e: Event) {
    match e
    case Begin(id) => id !in w.tracker.ticks && (serial ==> w.tracker.ticks == map[])
    case Fetched(id, _) => id in w.tracker.ticks && w.tracker.ticks[id].Fetching?
    case SaveEnds(id, landed, ok) => id in w.tracker.ticks && w.tracker.ticks[id].Saving? && (ok ==> landed)
    case Assign(id) => id in w.tracker.ticks && w.tracker.ticks[id].Returning?
    case Restart => true
  }

  function SetTick(t: Tracker, id: Id, w: Wait): Tracker { t.(ticks := t.ticks[id := w]) }

  function Next(w: World, e: Event): World
    requires Enabled(false, w, e)
  {
    var t := w.tracker;
    match e
    case Begin(id) => w.(tracker := SetTick(t, id, Fetching(t.state)))
    case Fetched(id, fetch) => w.(tracker := SetTick(t, id, AfterFetch(t.ticks[id].current, fetch).0))
    case SaveEnds(id, landed, ok) =>
      var next := t.ticks[id].next;
      var (after, sent) := AfterSave(next, t.ticks[id].advanced, ok);
      World(SetTick(t, id, after), if landed then w.saves + [next] else w.saves,
        if sent.Some? then w.broadcasts + [sent.value] else w.broadcasts)
    case Assign(id) => w.(tracker := Tracker(t.ticks[id].result, t.ticks - {id}))
    case Restart => w.(tracker := Tracker(Loaded(w), map[]))
  }

  const START: World := World(Tracker(ZERO, map[]), [], [])

  function Run(serial: bool, w: World, events: seq<Event>): World {
    if |events| == 0 then w
    else
      var before, e := Run(serial, w, events[..|events| - 1]), events[|events| - 1];
      if Enabled(serial, before, e) then Next(before, e) else before
  }

  // ---- serial runs ------------------------------------------------------------------------

  ghost predicate OneTick(w: World) {
    forall i, j :: i in w.tracker.ticks && j in w.tracker.ticks ==> i == j
  }

  /** The in-memory state is at or past the store, and a suspended tick is at or past both. */
  predicate TickOk(w: World, t: Wait) {
    && AtLeast(Carried(t), w.tracker.state) && AtLeast(Carried(t), Loaded(w))
    && (t.Fetching? ==> t.current == w.tracker.state)
    && (t.Saving? ==> AtLeast(w.tracker.state, Loaded(w)) && (t.advanced ==> StrictlyAfter(t.next, w.tracker.state)))
  }

  predicate BroadcastOk(w: World, b: Watermark) { b in w.saves }

  ghost predicate Inv(w: World) {
    && OneTick(w)
    && (w.tracker.ticks == map[] ==> AtLeast(w.tracker.state, Loaded(w)))
    && (forall id :: id in w.tracker.ticks ==> TickOk(w, w.tracker.ticks[id]))
    && (forall i, j :: 0 <= i < j < |w.saves| ==> AtLeast(w.saves[j], w.saves[i]))
    && (forall i :: 0 <= i < |w.broadcasts| ==> BroadcastOk(w, w.broadcasts[i]))
    && (forall i, j :: 0 <= i < j < |w.broadcasts| ==> StrictlyAfter(w.broadcasts[j], w.broadcasts[i]))
  }

  lemma FetchKeeps(w: World, id: Id, fetch: Fetch)
    requires Inv(w) && Enabled(true, w, Fetched(id, fetch))
    ensures Inv(Next(w, Fetched(id, fetch)))
  {
    var current := w.tracker.ticks[id].current;
    assert TickOk(w, w.tracker.ticks[id]);
    if fetch.Tags? { FetchMeaning(current, fetch.observed); }
    var w' := Next(w, Fetched(id, fetch));
    assert TickOk(w', w'.tracker.ticks[id]);
  }

  /** Any earlier save is at or behind the stored value. */
  lemma StoredIsLast(w: World, i: nat)
    requires Inv(w) && i < |w.saves|
    ensures AtLeast(Loaded(w), w.saves[i])
  {
    if i < |w.saves| - 1 { assert AtLeast(w.saves[|w.saves| - 1], w.saves[i]); }
  }

  lemma SaveKeeps(w: World, id: Id, landed: bool, ok: bool)
    requires Inv(w) && Enabled(true, w, SaveEnds(id, landed, ok))
    ensures Inv(Next(w, SaveEnds(id, landed, ok)))
  {
    var t := w.tracker.ticks[id];
    assert TickOk(w, t);
    var w' := Next(w, SaveEnds(id, landed, ok));
    assert TickOk(w', w'.tracker.ticks[id]);
    forall i, j | 0 <= i < j < |w'.saves| ensures AtLeast(w'.saves[j], w'.saves[i]) {
      if j < |w.saves| { assert AtLeast(w.saves[j], w.saves[i]); } else { StoredIsLast(w, i); }
    }
    forall i | 0 <= i < |w'.broadcasts| ensures BroadcastOk(w', w'.broadcasts[i]) {
      if i < |w.broadcasts| { assert BroadcastOk(w, w.broadcasts[i]); } else { assert t.next == w'.saves[|w.saves|]; }
    }
    forall i, j | 0 <= i < j < |w'.broadcasts| ensures StrictlyAfter(w'.broadcasts[j], w'.broadcasts[i]) {
      if j < |w.broadcasts| {
        assert StrictlyAfter(w.broadcasts[j], w.broadcasts[i]);
      } else {
        assert BroadcastOk(w, w.broadcasts[i]);
        var k :| 0 <= k < |w.saves| && w.saves[k] == w.broadcasts[i];
        StoredIsLast(w, k);
      }
    }
  }

  lemma AssignKeeps(w: World, id: Id)
    requires Inv(w) && Enabled(true, w, Assign(id))
    ensures Inv(Next(w, Assign(id)))
  {
    assert TickOk(w, w.tracker.ticks[id]);
    assert forall i :: i in w.tracker.ticks - {id} ==> i == id;
  }

  lemma StepKeeps(w: World, e: Event)
    requires Inv(w) && Enabled(true, w, e)
    ensures Inv(Next(w, e))
  {
    match e
    case Begin(id) =>
    case Fetched(id, fetch) => FetchKeeps(w, id, fetch);
    case SaveEnds(id, landed, ok) => SaveKeeps(w, id, landed, ok);
    case Assign(id) => assert TickOk(w, w.tracker.ticks[id]); AssignKeeps(w, id);
    case Restart =>
  }

  lemma {:induction false} RunKeeps(events: seq<Event>)
    ensures Inv(Run(true, START, events))
  {
    if |events| == 0 {
    } else {
      var init := events[..|events| - 1];
      RunKeeps(init);
      if Enabled(true, Run(true, START, init), events[|events| - 1]) {
        StepKeeps(Run(true, START, init), events[|events| - 1]);
      }
    }
  }

  /** In every run without overlapping ticks, with failed fetches, failed saves and restarts anywhere:
      stored watermarks never go back, so no derived tier does; every broadcast is a stored value; and
      each broadcast strictly advances the ones before it. */
  lemma SerialRunIsMonotone(events: seq<Event>)
    ensures var w := Run(true, START, events);
      && (forall i, j :: 0 <= i < j < |w.saves| ==> AtLeast(w.saves[j], w.saves[i]))
      && (forall i, j, b :: 0 <= i < j < |w.saves| ==>
            Rank(StateForBlock(b, w.saves[i])) <= Rank(StateForBlock(b, w.saves[j])))
      && (forall b :: b in w.broadcasts ==> b in w.saves)
      && (forall i, j :: 0 <= i < j < |w.broadcasts| ==> StrictlyAfter(w.broadcasts[j], w.broadcasts[i]))
  {
    var w := Run(true, START, events);
    RunKeeps(events);
    forall b | b in w.broadcasts ensures b in w.saves {
      var i :| 0 <= i < |w.broadcasts| && w.broadcasts[i] == b;
      assert BroadcastOk(w, w.broadcasts[i]);
    }
    forall i, j, b | 0 <= i < j < |w.saves|
      ensures Rank(StateForBlock(b, w.saves[i])) <= Rank(StateForBlock(b, w.saves[j]))
    {
      TierNeverFalls(b, w.saves[i], w.saves[j]);
    }
  }

  /** A broadcast goes out exactly when an advance was saved and acknowledged; it is then the stored
      value and strictly past the value stored before. */
  lemma BroadcastMeaning(events: seq<Event>, id: Id, landed: bool, ok: bool)
    requires Enabled(true, Run(true, START, events), SaveEnds(id, landed, ok))
    ensures var w := Run(true, START, events);
      var w', t := Next(w, SaveEnds(id, landed, ok)), w.tracker.ticks[id];
      && (ok && t.advanced <==> w'.broadcasts == w.broadcasts + [t.next])
      && (!(ok && t.advanced) <==> w'.broadcasts == w.broadcasts)
      && (ok && t.advanced ==> Stored(w') == Some(t.next) && StrictlyAfter(t.next, Loaded(w)))
  {
    var w := Run(true, START, events);
    RunKeeps(events);
    assert TickOk(w, w.tracker.ticks[id]);
    assert |w.broadcasts + [w.tracker.ticks[id].next]| != |w.broadcasts|;
  }

  // ---- what is announced ------------------------------------------------------------------

  predicate SamePair(v: Watermark, w: Watermark) { v.safe == w.safe && v.finalized == w.finalized }

  /** The last broadcast. */
  function Announced(w: World): Watermark {
    if |w.broadcasts| == 0 then ZERO else w.broadcasts[|w.broadcasts| - 1]
  }

  /** Whether the pair in memory, and the stored pair, has been announced. */
  datatype Heard = Heard(memory: bool, store: bool)

  /** The outcome of a save of an advance decides for memory, and for the store if it landed. A save for a
      falling head hands the store what memory has, and a restart hands memory what the store has. */
  function HeardAfter(h: Heard, w: World, e: Event): Heard
    requires Enabled(true, w, e)
  {
    match e
    case SaveEnds(id, landed, ok) =>
      var memory := if w.tracker.ticks[id].advanced then ok else h.memory;
      Heard(memory, if landed then memory else h.store)
    case Restart => Heard(h.store, h.store)
    case _ => h
  }

  function HeardIn(events: seq<Event>): Heard {
    if |events| == 0 then Heard(true, true)
    else
      var h, w := HeardIn(events[..|events| - 1]), Run(true, START, events[..|events| - 1]);
      if Enabled(true, w, events[|events| - 1]) then HeardAfter(h, w, events[|events| - 1]) else h
  }

  /** The pair a tick started from or returns has been announced or not, as memory says. */
  predicate TickHeard(w: World, t: Wait, h: Heard) {
    match t
    case Returning(result) => AtLeast(result, Announced(w)) && (h.memory <==> SamePair(result, Announced(w)))
    case _ =>
      && AtLeast(w.tracker.state, Announced(w)) && (h.memory <==> SamePair(w.tracker.state, Announced(w)))
      && (t.Saving? && !t.advanced ==> SamePair(t.next, w.tracker.state))
  }

  ghost predicate HeardOk(w: World, h: Heard) {
    && AtLeast(Loaded(w), Announced(w)) && (h.store <==> SamePair(Loaded(w), Announced(w)))
    && (w.tracker.ticks == map[] ==>
          AtLeast(w.tracker.state, Announced(w)) && (h.memory <==> SamePair(w.tracker.state, Announced(w))))
    && (forall id :: id in w.tracker.ticks ==> TickHeard(w, w.tracker.ticks[id], h))
  }

  lemma HeardFetch(w: World, id: Id, fetch: Fetch, h: Heard)
    requires Inv(w) && HeardOk(w, h) && Enabled(true, w, Fetched(id, fetch))
    ensures HeardOk(Next(w, Fetched(id, fetch)), h)
  {
    var w', current := Next(w, Fetched(id, fetch)), w.tracker.ticks[id].current;
    assert TickOk(w, w.tracker.ticks[id]) && TickHeard(w, w.tracker.ticks[id], h);
    if fetch.Tags? { FetchMeaning(current, fetch.observed); }
    assert TickHeard(w', w'.tracker.ticks[id], h);
  }

  lemma HeardSave(w: World, id: Id, landed: bool, ok: bool, h: Heard)
    requires Inv(w) && HeardOk(w, h) && Enabled(true, w, SaveEnds(id, landed, ok))
    ensures HeardOk(Next(w, SaveEnds(id, landed, ok)), HeardAfter(h, w, SaveEnds(id, landed, ok)))
  {
    var t := w.tracker.ticks[id];
    assert TickOk(w, t) && TickHeard(w, t, h);
    var w', h' := Next(w, SaveEnds(id, landed, ok)), HeardAfter(h, w, SaveEnds(id, landed, ok));
    assert TickHeard(w', w'.tracker.ticks[id], h');
  }

  lemma HeardStep(w: World, e: Event, h: Heard)
    requires Inv(w) && HeardOk(w, h) && Enabled(true, w, e)
    ensures HeardOk(Next(w, e), HeardAfter(h, w, e))
  {
    match e
    case Begin(id) =>
    case Fetched(id, fetch) => HeardFetch(w, id, fetch, h);
    case SaveEnds(id, landed, ok) => HeardSave(w, id, landed, ok, h);
    case Assign(id) => assert TickHeard(w, w.tracker.ticks[id], h);
    case Restart =>
  }

  lemma {:induction false} HeardRun(events: seq<Event>)
    ensures HeardOk(Run(true, START, events), HeardIn(events))
  {
    if |events| == 0 {
    } else {
      var init := events[..|events| - 1];
      HeardRun(init);
      RunKeeps(init);
      if Enabled(true, Run(true, START, init), events[|events| - 1]) {
        HeardStep(Run(true, START, init), events[|events| - 1], HeardIn(init));
      }
    }
  }

  /** In every serial run the last broadcast is at or behind the stored pair, and equal to it exactly when the
      outcomes of the saves and the restarts so far say so; the same for memory whenever no tick is running. */
  lemma AnnouncedIffHeard(events: seq<Event>)
    ensures var w := Run(true, START, events);
      && AtLeast(Loaded(w), Announced(w))
      && (SamePair(Loaded(w), Announced(w)) <==> HeardIn(events).store)
      && (w.tracker.ticks == map[] ==> (SamePair(w.tracker.state, Announced(w)) <==> HeardIn(events).memory))
  {
    HeardRun(events);
  }

  /** Step n ends the save of an advance. */
  predicate EndsAdvance(events: seq<Event>, n: nat) {
    && n < |events| && events[n].SaveEnds? && Enabled(true, Run(true, START, events[..n]), events[n])
    && Run(true, START, events[..n]).tracker.ticks[events[n].id].advanced
  }

  ghost predicate EndsLastAdvance(events: seq<Event>, n: nat) {
    EndsAdvance(events, n) && forall m :: n < m < |events| ==> !EndsAdvance(events, m)
  }

  lemma {:induction false} HeardIsLast(events: seq<Event>)
    requires forall e :: e in events ==> !e.Restart?
    ensures HeardIn(events).memory <==> forall n: nat :: EndsLastAdvance(events, n) ==> events[n].ok
  {
    if |events| == 0 {
    } else {
      var last := |events| - 1;
      var init := events[..last];
      HeardIsLast(init);
      assert events[last] in events;
      forall n | 0 <= n < last ensures EndsAdvance(init, n) <==> EndsAdvance(events, n) { assert init[..n] == events[..n]; }
      if EndsAdvance(events, last) {
        assert EndsLastAdvance(events, last);
      } else {
        forall n: nat ensures EndsLastAdvance(init, n) <==> EndsLastAdvance(events, n) { }
      }
    }
  }

  /** Without restarts and with no tick running, memory is announced exactly when the last save of an advance,
      if there was one, was acknowledged. */
  lemma AnnouncedIffAcknowledged(events: seq<Event>)
    requires (forall e :: e in events ==> !e.Restart?) && Run(true, START, events).tracker.ticks == map[]
    ensures var w := Run(true, START, events);
      SamePair(w.tracker.state, Announced(w)) <==> forall n: nat :: EndsLastAdvance(events, n) ==> events[n].ok
  {
    AnnouncedIffHeard(events);
    HeardIsLast(events);
  }

  // ---- a run in which overlapping ticks go back --------------------------------------------

  lemma RunSnoc(serial: bool, w: World, events: seq<Event>, e: Event)
    ensures var before := Run(serial, w, events);
      Run(serial, w, events + [e]) == if Enabled(serial, before, e) then Next(before, e) else before
  {
    assert (events + [e])[..|events|] == events;
  }

  /** A tick that sees tags a advances the tick's view to a and is about to save it. */
  lemma SeesAndSaves(w: World, id: Id, a: Watermark)
    requires id !in w.tracker.ticks && StrictlyAfter(a, w.tracker.state) && a.latest >= w.tracker.state.latest
    ensures var w' := Run(false, w, [Begin(id), Fetched(id, Tags(a))]);
      w' == w.(tracker := SetTick(w.tracker, id, Saving(a, true)))
  {
    RunSnoc(false, w, [], Begin(id));
    RunSnoc(false, w, [Begin(id)], Fetched(id, Tags(a)));
    assert [] + [Begin(id)] == [Begin(id)] && [Begin(id)] + [Fetched(id, Tags(a))] == [Begin(id), Fetched(id, Tags(a))];
    var w1 := Next(w, Begin(id));
    FetchMeaning(w.tracker.state, a);
    assert w1.tracker.ticks[id := Saving(a, true)] == w.tracker.ticks[id := Saving(a, true)];
  }

  lemma {:induction false} RunConcat(serial: bool, w: World, a: seq<Event>, b: seq<Event>)
    ensures Run(serial, w, a + b) == Run(serial, Run(serial, w, a), b)
  {
    if b == [] {
      assert a + b == a;
    } else {
      RunConcat(serial, w, a, b[..|b| - 1]);
      assert (a + b)[..|a + b| - 1] == a + b[..|b| - 1];
    }
  }

  /** Two overlapping ticks can store the later value first: the stored watermark then goes back. */
  lemma OverlapCanRegress(a: Watermark, b: Watermark)
    requires StrictlyAfter(a, ZERO) && StrictlyAfter(b, a) && a.latest >= 0 && b.latest >= 0
    ensures var events := [Begin(0), Fetched(0, Tags(a))] + [Begin(1), Fetched(1, Tags(b))]
        + [SaveEnds(1, true, true), SaveEnds(0, true, true)];
      Run(false, START, events).saves == [b, a]
  {
    var first, second := [Begin(0), Fetched(0, Tags(a))], [Begin(1), Fetched(1, Tags(b))];
    SeesAndSaves(START, 0, a);
    SeesAndSaves(Run(false, START, first), 1, b);
    RunConcat(false, START, first, second);
    var w := Run(false, START, first + second);
    RunConcat(false, START, first + second, [SaveEnds(1, true, true), SaveEnds(0, true, true)]);
    RunSnoc(false, w, [], SaveEnds(1, true, true));
    RunSnoc(false, w, [SaveEnds(1, true, true)], SaveEnds(0, true, true));
    assert [] + [SaveEnds(1, true, true)] == [SaveEnds(1, true, true)];
    assert [SaveEnds(1, true, true)] + [SaveEnds(0, true, true)] == [SaveEnds(1, true, true), SaveEnds(0, true, true)];
  }

  // ---- which overlapping saves go back -----------------------------------------------------

  /** A run with the tags seen so far, the ones each tick fetched, and the ones each save came from; the
      first are those of an empty store. */
  datatype Trace = Trace(w: World, seen: seq<Watermark>, from: map<Id, nat>, savedFrom: seq<nat>)

  function TraceNext(s: Trace, e: Event): Trace
    requires Enabled(false, s.w, e)
  {
    var w := Next(s.w, e);
    match e
    case Fetched(id, Tags(observed)) => Trace(w, s.seen + [observed], s.from[id := |s.seen|], s.savedFrom)
    case SaveEnds(id, true, _) =>
      Trace(w, s.seen, s.from, s.savedFrom + [if id in s.from then s.from[id] else 0])
    case _ => s.(w := w)
  }

  function TraceOf(events: seq<Event>): Trace {
    if |events| == 0 then Trace(START, [ZERO], map[], [])
    else
      var before := TraceOf(events[..|events| - 1]);
      if Enabled(false, before.w, events[|events| - 1]) then TraceNext(before, events[|events| - 1]) else before
  }

  lemma {:induction false} TraceIsRun(events: seq<Event>)
    ensures TraceOf(events).w == Run(false, START, events)
  {
    if |events| == 0 {
    } else {
      TraceIsRun(events[..|events| - 1]);
    }
  }

  /** The observed safe and finalized blocks do not fall. */
  ghost predicate Rising(seen: seq<Watermark>) {
    forall i, j :: 0 <= i < j < |seen| ==> AtLeast(seen[j], seen[i])
  }

  ghost predicate Observed(s: Trace, v: Watermark) { exists i :: 0 <= i < |s.seen| && SamePair(s.seen[i], v) }

  /** A tick past its fetch carries the pair it fetched; every other pair was observed at some time. */
  ghost predicate TickTraced(s: Trace, id: Id, t: Wait) {
    && Observed(s, Carried(t))
    && (t.Saving? ==> id in s.from && s.from[id] < |s.seen| && SamePair(s.seen[s.from[id]], t.next))
  }

  ghost predicate Traced(s: Trace) {
    && |s.savedFrom| == |s.w.saves|
    && Observed(s, s.w.tracker.state)
    && (forall id :: id in s.w.tracker.ticks ==> TickTraced(s, id, s.w.tracker.ticks[id]))
    && (forall i :: 0 <= i < |s.w.saves| ==> s.savedFrom[i] < |s.seen| && SamePair(s.seen[s.savedFrom[i]], s.w.saves[i]))
    && s.seen != [] && s.seen[0] == ZERO
  }

  lemma ObservedStays(s: Trace, s': Trace, v: Watermark)
    requires Observed(s, v) && s.seen <= s'.seen
    ensures Observed(s', v)
  {
    var i :| 0 <= i < |s.seen| && SamePair(s.seen[i], v);
    assert s'.seen[i] == s.seen[i];
  }

  lemma TickStays(s: Trace, s': Trace, id: Id, t: Wait)
    requires TickTraced(s, id, t) && s.seen <= s'.seen
    requires id in s.from ==> id in s'.from && s'.from[id] == s.from[id]
    ensures TickTraced(s', id, t)
  {
    ObservedStays(s, s', Carried(t));
  }

  lemma FetchTraced(s: Trace, id: Id, observed: Watermark)
    requires Traced(s) && Enabled(false, s.w, Fetched(id, Tags(observed)))
    requires Rising(TraceNext(s, Fetched(id, Tags(observed))).seen)
    ensures Traced(TraceNext(s, Fetched(id, Tags(observed))))
  {
    var s' := TraceNext(s, Fetched(id, Tags(observed)));
    var current := s.w.tracker.ticks[id].current;
    assert TickTraced(s, id, s.w.tracker.ticks[id]);
    var i :| 0 <= i < |s.seen| && SamePair(s.seen[i], current);
    assert s'.seen[|s.seen|] == observed && s'.seen[i] == s.seen[i];
    assert AtLeast(observed, current);
    assert SamePair(observed, Carried(s'.w.tracker.ticks[id]));
    ObservedStays(s, s', s.w.tracker.state);
    forall x | x in s'.w.tracker.ticks ensures TickTraced(s', x, s'.w.tracker.ticks[x]) {
      if x != id { TickStays(s, s', x, s.w.tracker.ticks[x]); }
    }
  }

  lemma SaveTraced(s: Trace, id: Id, landed: bool, ok: bool)
    requires Traced(s) && Enabled(false, s.w, SaveEnds(id, landed, ok))
    ensures Traced(TraceNext(s, SaveEnds(id, landed, ok)))
  {
    var s' := TraceNext(s, SaveEnds(id, landed, ok));
    assert TickTraced(s, id, s.w.tracker.ticks[id]);
    ObservedStays(s, s', s.w.tracker.state);
    forall x | x in s'.w.tracker.ticks ensures TickTraced(s', x, s'.w.tracker.ticks[x]) {
      assert TickTraced(s, x, s.w.tracker.ticks[x]);
      ObservedStays(s, s', Carried(s.w.tracker.ticks[x]));
    }
  }

  /** The remaining steps only hand observed pairs on. */
  lemma OtherTraced(s: Trace, e: Event)
    requires Traced(s) && Enabled(false, s.w, e) && !e.SaveEnds? && !(e.Fetched? && e.fetch.Tags?)
    ensures Traced(TraceNext(s, e))
  {
    var s' := TraceNext(s, e);
    if e.Restart? {
      if |s.w.saves| == 0 { assert SamePair(s.seen[0], ZERO); }
    } else {
      if e.id in s.w.tracker.ticks { assert TickTraced(s, e.id, s.w.tracker.ticks[e.id]); }
      forall x | x in s'.w.tracker.ticks ensures TickTraced(s', x, s'.w.tracker.ticks[x]) {
        if x in s.w.tracker.ticks { assert TickTraced(s, x, s.w.tracker.ticks[x]); }
      }
    }
  }

  lemma {:induction false} TraceKeeps(events: seq<Event>)
    requires Rising(TraceOf(events).seen)
    ensures Traced(TraceOf(events))
  {
    if |events| == 0 {
      assert SamePair(TraceOf([]).seen[0], ZERO);
    } else {
      var before, e := TraceOf(events[..|events| - 1]), events[|events| - 1];
      assert before.seen <= TraceOf(events).seen;
      assert Rising(before.seen);
      TraceKeeps(events[..|events| - 1]);
      if Enabled(false, before.w, e) {
        if e.SaveEnds? {
          SaveTraced(before, e.id, e.landed, e.ok);
        } else if e.Fetched? && e.fetch.Tags? {
          FetchTraced(before, e.id, e.fetch.observed);
        } else {
          OtherTraced(before, e);
        }
      }
    }
  }

  /** Some block has a lower tier under w than under v. */
  ghost predicate TierFalls(v: Watermark, w: Watermark) {
    exists block: int :: Rank(StateForBlock(block, w)) < Rank(StateForBlock(block, v))
  }

  lemma TierFallsIff(v: Watermark, w: Watermark)
    ensures TierFalls(v, w) <==> v.finalized > w.finalized || v.safe > Max(w.safe, w.finalized)
  {
    if v.finalized > w.finalized {
      assert Rank(StateForBlock(v.finalized, w)) < Rank(StateForBlock(v.finalized, v));
    } else if v.safe > Max(w.safe, w.finalized) {
      assert Rank(StateForBlock(v.safe, w)) < Rank(StateForBlock(v.safe, v));
    }
  }

  /** The tags the stored pair came from. */
  function SavedTags(s: Trace): nat
    requires |s.savedFrom| > 0 ==> s.savedFrom[|s.savedFrom| - 1] < |s.seen|
  {
    if |s.savedFrom| == 0 then 0 else s.savedFrom[|s.savedFrom| - 1]
  }

  /** In every run whose observed tags do not fall, with overlapping ticks, failed saves and restarts anywhere:
      a save that lands takes the stored pair back exactly when the store came from tags strictly past those
      the saving tick fetched, and so from a later fetch that was saved first. A block's tier falls with it
      exactly when the finalized block goes back, or the safe one from past both. */
  lemma OverlapRegressesIff(events: seq<Event>, id: Id, ok: bool)
    requires Rising(TraceOf(events).seen) && Enabled(false, TraceOf(events).w, SaveEnds(id, true, ok))
    ensures var s := TraceOf(events);
      && id in s.from && s.from[id] < |s.seen|
      && (|s.savedFrom| > 0 ==> s.savedFrom[|s.savedFrom| - 1] < |s.seen|)
    ensures var s := TraceOf(events);
      var w', stored, fetched := Next(s.w, SaveEnds(id, true, ok)), s.seen[SavedTags(s)], s.seen[s.from[id]];
      && SamePair(Loaded(s.w), stored) && SamePair(Loaded(w'), fetched)
      && (AtLeast(Loaded(w'), Loaded(s.w)) <==> !StrictlyAfter(stored, fetched))
      && (StrictlyAfter(stored, fetched) ==> SavedTags(s) > s.from[id])
      && (TierFalls(Loaded(s.w), Loaded(w')) <==>
          stored.finalized > fetched.finalized || stored.safe > Max(fetched.safe, fetched.finalized))
  {
    var s := TraceOf(events);
    TraceKeeps(events);
    assert TickTraced(s, id, s.w.tracker.ticks[id]);
    var i, j := s.from[id], SavedTags(s);
    assert i < j ==> AtLeast(s.seen[j], s.seen[i]);
    assert j < i ==> AtLeast(s.seen[i], s.seen[j]);
    TierFallsIff(Loaded(s.w), Loaded(Next(s.w, SaveEnds(id, true, ok))));
  }

  // ---- an advance whose save failed --------------------------------------------------------

  /** A whole tick; the save is passed over when the tick has nothing to save. */
  function Tick(id: Id, observed: Watermark, landed: bool, ok: bool): seq<Event> {
    [Begin(id), Fetched(id, Tags(observed)), SaveEnds(id, landed, ok), Assign(id)]
  }

  /** What a whole tick does to an idle tracker. */
  function Ticked(w: World, observed: Watermark, landed: bool, ok: bool): World {
    match AfterFetch(w.tracker.state, Tags(observed)).0
    case Saving(next, advanced) =>
      World(Tracker(next, map[]), if landed then w.saves + [next] else w.saves,
        if ok && advanced then w.broadcasts + [next] else w.broadcasts)
    case wait => w.(tracker := Tracker(Carried(wait), map[]))
  }

  lemma TickIs(w: World, id: Id, observed: Watermark, landed: bool, ok: bool)
    requires w.tracker.ticks == map[] && (ok ==> landed)
    ensures Run(true, w, Tick(id, observed, landed, ok)) == Ticked(w, observed, landed, ok)
  {
    var a, b, c, d := Begin(id), Fetched(id, Tags(observed)), SaveEnds(id, landed, ok), Assign(id);
    RunSnoc(true, w, [], a);
    RunSnoc(true, w, [a], b);
    RunSnoc(true, w, [a, b], c);
    RunSnoc(true, w, [a, b, c], d);
    assert [] + [a] == [a] && [a] + [b] == [a, b] && [a, b] + [c] == [a, b, c] && [a, b, c] + [d] == Tick(id, observed, landed, ok);
    FetchMeaning(w.tracker.state, observed);
  }

  /** After a save that failed, memory holds the advance: a tick that sees the same tags neither saves nor
      announces it, and a tick that sees a lower head stores it without announcing it. */
  lemma FailedSaveIsNotRetried(a: Watermark, below: Watermark)
    requires StrictlyAfter(a, ZERO) && a.latest >= 0
    requires SamePair(below, a) && below.latest < a.latest
    ensures Run(true, START, Tick(0, a, false, false) + Tick(1, a, true, true)) == World(Tracker(a, map[]), [], [])
    ensures Run(true, START, Tick(0, a, false, false) + Tick(1, below, true, true)) == World(Tracker(below, map[]), [below], [])
  {
    var w := World(Tracker(a, map[]), [], []);
    TickIs(START, 0, a, false, false);
    RunConcat(true, START, Tick(0, a, false, false), Tick(1, a, true, true));
    TickIs(w, 1, a, true, true);
    RunConcat(true, START, Tick(0, a, false, false), Tick(1, below, true, true));
    TickIs(w, 1, below, true, true);
  }

  /** After a restart the advance is announced if its save had not landed, and stays unannounced if it had
      landed without being acknowledged. */
  lemma RestartAfterFailedSave(a: Watermark, landed: bool)
    requires StrictlyAfter(a, ZERO) && a.latest >= 0
    ensures Run(true, START, Tick(0, a, landed, false) + [Restart] + Tick(1, a, true, true))
      == World(Tracker(a, map[]), [a], if landed then [] else [a])
  {
    var w := World(Tracker(a, map[]), if landed then [a] else [], []);
    assert [] + [a] == [a];
    TickIs(START, 0, a, landed, false);
    RunSnoc(true, START, Tick(0, a, landed, false), Restart);
    RunConcat(true, START, Tick(0, a, landed, false) + [Restart], Tick(1, a, true, true));
    TickIs(Next(w, Restart), 1, a, true, true);
  }
}
