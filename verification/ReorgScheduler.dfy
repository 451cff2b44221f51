/** The coalescing scheduler of the pool's background reorganisation. Channels are
    numbered in the order in which they are made; run number k closes channel k. */
module ReorgScheduler {
  import opened Transactions

  type Head = nat

  /** A request to move the pool from one head to another. */
  datatype ResetRequest = ResetRequest(oldHead: Head, newHead: Head)

  /** What the select statement of the loop may receive. */
  datatype Event =
    | NewHead(head: Head)              // the chain has a new head
    | Promote(accounts: set<Address>)  // accounts have new transactions
    | RunFinished                      // the active run closed its channel
    | Shutdown

  /** A launched run: its channel, what it was asked to do, and how many runs had
      finished before. */
  datatype Run = Run(done: nat, reset: Option<ResetRequest>, dirty: Option<set<Address>>, finished: nat)

  /** A request that was answered with a channel. `index` is the position of the
      requested head in the sequence of heads, `launched` the number of runs that
      had been launched when the request came in. */
  datatype Answer =
    | ResetAnswer(index: nat, done: nat, launched: nat)
    | PromoteAnswer(accounts: set<Address>, done: nat, launched: nat)

  /** The heads the pool was told of, starting with the one it was created on. */
  ghost function Heads(start: Head, events: seq<Event>): (hs: seq<Head>)
    ensures |hs| > 0 && hs[0] == start
  {
    if events == [] then [start]
    else
      var front := Heads(start, events[..|events| - 1]);
      var last := events[|events| - 1];
      if last.NewHead? then front + [last.head] else front
  }

  /** Run k is launched after all the k runs before it have finished. `cuts[k]` is the
      position of the head that it starts from and `cuts[k + 1]` the one it leads to.
      Runs without a reset stay where they are. */
  ghost predicate Tiles(runs: seq<Run>, heads: seq<Head>, cuts: seq<nat>) {
    && |cuts| == |runs| + 1 && cuts[0] == 0
    && (forall k :: 0 <= k <= |runs| ==> cuts[k] < |heads|)
    && (forall k :: 0 <= k < |runs| ==> runs[k].done == runs[k].finished == k)
    && (forall k :: 0 <= k < |runs| ==>
          if runs[k].reset.None? then cuts[k + 1] == cuts[k]
          else cuts[k] < cuts[k + 1] && runs[k].reset.value == ResetRequest(heads[cuts[k]], heads[cuts[k + 1]]))
  }

  /** What the next run will do leads from `low` to the current head. */
  ghost predicate PendingReset(reset: Option<ResetRequest>, heads: seq<Head>, low: nat) {
    && low < |heads|
    && if reset.None? then low == |heads| - 1
       else low < |heads| - 1 && reset.value == ResetRequest(heads[low], heads[|heads| - 1])
  }

  /** A run does what was asked: it resets to the requested head or a later one, or
      promotes the accounts (a reset promotes all). */
  ghost predicate Serves(a: Answer, reset: Option<ResetRequest>, dirty: Option<set<Address>>, reached: nat) {
    match a
    case ResetAnswer(index, _, _) => reset.Some? && index <= reached
    case PromoteAnswer(accounts, _, _) => reset.Some? || (dirty.Some? && accounts <= dirty.value)
  }

  /** Every answered request was given the channel of the run launched next after
      it, and that run serves it. */
  ghost predicate Answered(answers: seq<Answer>, runs: seq<Run>, cuts: seq<nat>,
                           launchNext: bool, reset: Option<ResetRequest>, dirty: Option<set<Address>>, top: nat)
    requires |cuts| == |runs| + 1
  {
    forall i :: 0 <= i < |answers| ==>
      && answers[i].done == answers[i].launched <= |runs|
      && if answers[i].done < |runs|
         then Serves(answers[i], runs[answers[i].done].reset, runs[answers[i].done].dirty, cuts[answers[i].done + 1])
         else launchNext && Serves(answers[i], reset, dirty, top)
  }

  /** The variables of the loop, with the log of runs and answers. */
  datatype Loop = Loop(
    curDone: Option<nat>, nextDone: nat, launchNext: bool,
    reset: Option<ResetRequest>, dirty: Option<set<Address>>,
    head: Head, seen: nat, runs: seq<Run>, finished: nat, answers: seq<Answer>)

  /** Handles one received event. A new head is reported as a reset request from the
      previous one; receiving from the nil channel of no run never happens. */
  function Receive(s: Loop, ev: Event): Loop {
    match ev
    case NewHead(block) =>
      var req := ResetRequest(s.head, block);
      s.(head := block, seen := s.seen + 1, launchNext := true,
         reset := Some(if s.reset.None? then req else s.reset.value.(newHead := req.newHead)),
         answers := s.answers + [ResetAnswer(s.seen + 1, s.nextDone, |s.runs|)])
    case Promote(accounts) =>
      s.(dirty := Some(if s.dirty.None? then accounts else s.dirty.value + accounts), launchNext := true,
         answers := s.answers + [PromoteAnswer(accounts, s.nextDone, |s.runs|)])
    case RunFinished => if s.curDone.None? then s else s.(curDone := None, finished := s.finished + 1)
    case Shutdown => s
  }

  /** Launches the next run if one is wanted and none is active. */
  function Launch(s: Loop): Loop {
    if s.curDone.None? && s.launchNext then
      s.(runs := s.runs + [Run(s.nextDone, s.reset, s.dirty, s.finished)],
         curDone := Some(s.nextDone), nextDone := s.nextDone + 1, launchNext := false,
         reset := None, dirty := None)
    else s
  }

  /** The number of active runs. */
  function Active(s: Loop): nat { if s.curDone.None? then 0 else 1 }

  ghost predicate Consistent(s: Loop, heads: seq<Head>, cuts: seq<nat>) {
    && |heads| > 0 && s.head == heads[|heads| - 1] && s.seen == |heads| - 1
    && s.nextDone == |s.runs| == s.finished + Active(s) && (s.curDone.Some? ==> s.curDone.value == |s.runs| - 1)
    && (!s.launchNext ==> s.reset.None? && s.dirty.None?)
    && Tiles(s.runs, heads, cuts) && PendingReset(s.reset, heads, cuts[|s.runs|])
    && Answered(s.answers, s.runs, cuts, s.launchNext, s.reset, s.dirty, s.seen) && Wanted(s)
  }

  /** Promotion of the account was requested of this run. */
  ghost predicate AskedFor(answers: seq<Answer>, run: nat, a: Address) {
    exists i :: 0 <= i < |answers| && answers[i].PromoteAnswer? && answers[i].done == run && a in answers[i].accounts
  }

  /** Runs promote no account that they were not asked to. */
  ghost predicate Wanted(s: Loop) {
    forall k {:trigger AskKey(k)} :: AskKey(k) ==>
      && (forall r, a :: 0 <= r < |s.runs| && s.runs[r].dirty.Some? && a in s.runs[r].dirty.value ==>
            AskedFor(s.answers, r, a))
      && (forall a :: s.dirty.Some? && a in s.dirty.value ==> AskedFor(s.answers, s.nextDone, a))
  }

  predicate AskKey(k: nat) { true }

  lemma AskedStill(answers: seq<Answer>, more: Answer, run: nat, a: Address)
    requires AskedFor(answers, run, a)
    ensures AskedFor(answers + [more], run, a)
  {
    var i :| 0 <= i < |answers| && answers[i].PromoteAnswer? && answers[i].done == run && a in answers[i].accounts;
    assert (answers + [more])[i] == answers[i];
  }

  lemma AskedNow(answers: seq<Answer>, more: Answer, a: Address)
    requires more.PromoteAnswer? && a in more.accounts
    ensures AskedFor(answers + [more], more.done, a)
  {
    assert (answers + [more])[|answers|] == more;
  }

  /** Every turn keeps to that. */
  lemma ReceiveWanted(s: Loop, ev: Event)
    requires Wanted(s)
    ensures Wanted(Receive(s, ev))
  {
    assert AskKey(0);
    var t := Receive(s, ev);
    if ev.NewHead? || ev.Promote? {
      var more := t.answers[|s.answers|];
      assert t.answers == s.answers + [more];
      forall r, a | 0 <= r < |t.runs| && t.runs[r].dirty.Some? && a in t.runs[r].dirty.value
        ensures AskedFor(t.answers, r, a)
      {
        AskedStill(s.answers, more, r, a);
      }
      forall a | t.dirty.Some? && a in t.dirty.value ensures AskedFor(t.answers, t.nextDone, a) {
        if s.dirty.Some? && a in s.dirty.value { AskedStill(s.answers, more, s.nextDone, a); }
        else { AskedNow(s.answers, more, a); }
      }
    }
  }

  lemma LaunchWanted(s: Loop)
    requires Wanted(s) && s.nextDone == |s.runs|
    ensures Wanted(Launch(s))
  {
    assert AskKey(0);
  }

  /** A new head joins the pending reset or starts one. */
  lemma ReceiveHead(s: Loop, heads: seq<Head>, cuts: seq<nat>, block: Head)
    requires Consistent(s, heads, cuts)
    ensures Consistent(Receive(s, NewHead(block)), heads + [block], cuts)
  {
    var s' := Receive(s, NewHead(block));
    ReceiveWanted(s, NewHead(block));
    forall i | 0 <= i < |s'.answers|
      ensures s'.answers[i].done == s'.answers[i].launched <= |s'.runs|
      ensures if s'.answers[i].done < |s'.runs|
        then Serves(s'.answers[i], s'.runs[s'.answers[i].done].reset, s'.runs[s'.answers[i].done].dirty,
                    cuts[s'.answers[i].done + 1])
        else Serves(s'.answers[i], s'.reset, s'.dirty, s'.seen)
    {
      if i < |s.answers| { assert s'.answers[i] == s.answers[i]; }
    }
  }

  lemma ReceivePromote(s: Loop, heads: seq<Head>, cuts: seq<nat>, accounts: set<Address>)
    requires Consistent(s, heads, cuts)
    ensures Consistent(Receive(s, Promote(accounts)), heads, cuts)
  {
    ReceiveWanted(s, Promote(accounts));
  }

  /** Launching hands everything pending to the new run. */
  lemma LaunchKeeps(s: Loop, heads: seq<Head>, cuts: seq<nat>)
    requires Consistent(s, heads, cuts) && s.curDone.None? && s.launchNext
    ensures Consistent(Launch(s), heads, cuts + [s.seen])
  {
    var s', cuts' := Launch(s), cuts + [s.seen];
    LaunchWanted(s);
    forall i | 0 <= i < |s.answers|
      ensures s'.answers[i].done < |s'.runs|
      ensures Serves(s'.answers[i], s'.runs[s'.answers[i].done].reset, s'.runs[s'.answers[i].done].dirty,
                     cuts'[s'.answers[i].done + 1])
    {
      assert s.answers[i].done <= |s.runs|;
    }
  }

  /** One turn of the loop: receive, then launch what can be launched. */
  function Turn(s: Loop, ev: Event): Loop { Launch(Receive(s, ev)) }

  ghost function HeadsAfter(heads: seq<Head>, ev: Event): seq<Head> {
    if ev.NewHead? then heads + [ev.head] else heads
  }

  ghost function CutsAfter(s: Loop, cuts: seq<nat>, ev: Event): seq<nat> {
    if Receive(s, ev).curDone.None? && Receive(s, ev).launchNext then cuts + [Receive(s, ev).seen] else cuts
  }

  /** Between turns the loop is consistent and nothing waits unless a run is active. */
  ghost predicate Settled(s: Loop, heads: seq<Head>, cuts: seq<nat>) {
    forall k {:trigger LoopKey(k)} :: LoopKey(k) ==> Consistent(s, heads, cuts) && (s.curDone.None? ==> !s.launchNext)
  }

  predicate LoopKey(k: nat) { true }

  lemma TurnKeeps(s: Loop, heads: seq<Head>, cuts: seq<nat>, ev: Event)
    requires Settled(s, heads, cuts) && !ev.Shutdown?
    ensures Settled(Turn(s, ev), HeadsAfter(heads, ev), CutsAfter(s, cuts, ev))
  {
    assert LoopKey(0);
    var received, heads' := Receive(s, ev), HeadsAfter(heads, ev);
    assert Consistent(received, heads', cuts) by {
      match ev {
        case NewHead(block) => ReceiveHead(s, heads, cuts, block);
        case Promote(accounts) => ReceivePromote(s, heads, cuts, accounts);
        case _ => ReceiveWanted(s, ev);
      }
    }
    if received.curDone.None? && received.launchNext { LaunchKeeps(received, heads', cuts); }
  }

  /** Appending an event. */
  lemma EventsStep(start: Head, events: seq<Event>, n: nat)
    requires n < |events|
    ensures Heads(start, events[..n + 1]) == HeadsAfter(Heads(start, events[..n]), events[n])
  {
    assert events[..n + 1][..n] == events[..n];
  }

  lemma SettledMeans(s: Loop, heads: seq<Head>, cuts: seq<nat>)
    requires Settled(s, heads, cuts)
    ensures Tiles(s.runs, heads, cuts)
    ensures Answered(s.answers, s.runs, cuts, s.launchNext, s.reset, s.dirty, s.seen)
    ensures forall r, a :: 0 <= r < |s.runs| && s.runs[r].dirty.Some? && a in s.runs[r].dirty.value ==>
      AskedFor(s.answers, r, a)
    ensures s.nextDone == |s.runs| == s.finished + Active(s) && (s.curDone.Some? ==> s.curDone.value == |s.runs| - 1)
    ensures s.curDone.None? ==> cuts[|s.runs|] == |heads| - 1
    ensures s.curDone.None? ==> forall i :: 0 <= i < |s.answers| ==> s.answers[i].done < |s.runs|
  {
    assert LoopKey(0) && AskKey(0);
  }

  /** Of two resets with none launched between them, the later one starts at the
      head the earlier one led to. */
  lemma {:induction false} ResetsChain(runs: seq<Run>, heads: seq<Head>, cuts: seq<nat>, j: nat, k: nat)
    requires Tiles(runs, heads, cuts) && j < k < |runs|
    requires runs[j].reset.Some? && forall i :: j < i < k ==> runs[i].reset.None?
    ensures cuts[k] == cuts[j + 1]
    ensures runs[k].reset.Some? ==> runs[k].reset.value.oldHead == runs[j].reset.value.newHead
    decreases k
  {
    if j + 1 < k {
      ResetsChain(runs, heads, cuts, j, k - 1);
      assert runs[k - 1].reset.None?;
      assert cuts[k - 1 + 1] == cuts[k - 1];
    }
    assert cuts[k] == cuts[j + 1];
    assert runs[j].reset.value == ResetRequest(heads[cuts[j]], heads[cuts[j + 1]]);
    assert runs[k].reset.Some? ==> runs[k].reset.value == ResetRequest(heads[cuts[k]], heads[cuts[k + 1]]);
  }

  // ----- the runs, from the events alone

  /** No run is active, one is, or one is and requests wait for the next. */
  datatype Mode = Resting | Busy | Queued

  predicate Requests(ev: Event) { ev.NewHead? || ev.Promote? }

  /** A request starts a run, or waits for the active one; a run that finishes makes way for
      the next if that is wanted. */
  function ModeAfter(m: Mode, ev: Event): Mode {
    if Requests(ev) then (if m.Resting? then Busy else Queued)
    else if ev.RunFinished? && m.Queued? then Busy
    else if ev.RunFinished? then Resting
    else m
  }

  ghost function ModeOf(events: seq<Event>): Mode {
    if events == [] then Resting else ModeAfter(ModeOf(events[..|events| - 1]), events[|events| - 1])
  }

  /** The runs that have finished: one for each such event while a run is active. */
  ghost function FinishedBy(events: seq<Event>): nat {
    if events == [] then 0
    else
      var front, last := events[..|events| - 1], events[|events| - 1];
      FinishedBy(front) + if last.RunFinished? && !ModeOf(front).Resting? then 1 else 0
  }

  /** The runs that were launched: one for each request without an active run, and one for
      each run that finishes while requests wait. */
  ghost function LaunchedBy(events: seq<Event>): nat {
    if events == [] then 0
    else
      var front, last := events[..|events| - 1], events[|events| - 1];
      LaunchedBy(front)
      + if (Requests(last) && ModeOf(front).Resting?) || (last.RunFinished? && ModeOf(front).Queued?) then 1 else 0
  }

  /** The loop has launched and finished what the events say, and is where they say. */
  ghost predicate Keeps(s: Loop, events: seq<Event>) {
    && |s.runs| == LaunchedBy(events) && s.finished == FinishedBy(events)
    && (s.curDone.None? <==> ModeOf(events).Resting?) && (s.launchNext <==> ModeOf(events).Queued?)
  }

  lemma TurnKeepsUp(s: Loop, events: seq<Event>, ev: Event)
    requires Keeps(s, events) && !ev.Shutdown?
    ensures Keeps(Turn(s, ev), events + [ev])
  {
    assert (events + [ev])[..|events|] == events;
  }

  /** Once the active run has finished, every request so far belongs to a run that was
      launched; there is one more run exactly if one was wanted. */
  lemma FinishServes(s: Loop, heads: seq<Head>, cuts: seq<nat>)
    requires Settled(s, heads, cuts) && s.curDone.Some?
    ensures var t := Turn(s, RunFinished);
      && t.finished == s.finished + 1 && |t.runs| == |s.runs| + (if s.launchNext then 1 else 0)
      && t.answers == s.answers && forall i :: 0 <= i < |s.answers| ==> s.answers[i].done < |t.runs|
  {
    assert LoopKey(0);
  }

  /** A request is done once two more runs have finished than had when it was answered. */
  lemma DoneAfterTwo(events: seq<Event>, s: Loop, heads: seq<Head>, cuts: seq<nat>, n: nat, m: nat, i: nat)
    requires n <= m <= |events| && Keeps(s, events[..n]) && Settled(s, heads, cuts) && i < |s.answers|
    requires FinishedBy(events[..m]) >= FinishedBy(events[..n]) + 2
    ensures s.answers[i].done < FinishedBy(events[..m])
  {
    assert LoopKey(0);
  }

  /** How a turn answers the event it handles: a request gets the channel of the run
      launched next, with the position of the requested head or the accounts in it. */
  ghost predicate AnswersEvent(s: Loop, ev: Event, position: nat, t: Loop) {
    match ev
    case NewHead(_) => t.answers == s.answers + [ResetAnswer(position, |s.runs|, |s.runs|)]
    case Promote(accounts) => t.answers == s.answers + [PromoteAnswer(accounts, |s.runs|, |s.runs|)]
    case _ => t.answers == s.answers
  }

  lemma TurnAnswers(s: Loop, heads: seq<Head>, cuts: seq<nat>, ev: Event)
    requires Settled(s, heads, cuts)
    ensures AnswersEvent(s, ev, |heads|, Turn(s, ev))
  {
    assert LoopKey(0);
  }

  /** The turns so far: the loop is settled after each, and each answers its event. */
  ghost predicate History(start: Head, events: seq<Event>, states: seq<Loop>, cuts: seq<seq<nat>>) {
    forall k {:trigger LoopKey(k)} :: LoopKey(k) ==>
      && 0 < |states| == |cuts| <= |events| + 1
      && (forall k :: 0 <= k < |states| - 1 ==> TurnsInto(start, events, k, states[k], states[k + 1]))
      && (forall k :: 0 <= k < |states| ==> Settled(states[k], Heads(start, events[..k]), cuts[k]))
      && (forall k :: 0 <= k < |states| ==> Keeps(states[k], events[..k]))
  }

  ghost predicate TurnsInto(start: Head, events: seq<Event>, k: nat, s: Loop, t: Loop)
    requires k < |events|
  {
    t == Turn(s, events[k]) && AnswersEvent(s, events[k], |Heads(start, events[..k])|, t)
  }

  lemma HistoryAt(start: Head, events: seq<Event>, states: seq<Loop>, cuts: seq<seq<nat>>, k: nat)
    requires History(start, events, states, cuts) && k < |states|
    ensures |states| == |cuts| <= |events| + 1 && Settled(states[k], Heads(start, events[..k]), cuts[k])
    ensures Keeps(states[k], events[..k])
    ensures k + 1 < |states| ==> TurnsInto(start, events, k, states[k], states[k + 1])
  {
    assert LoopKey(0);
  }

  lemma HistoryStep(start: Head, events: seq<Event>, states: seq<Loop>, cuts: seq<seq<nat>>, t: Loop, cut: seq<nat>,
                    states': seq<Loop>, cuts': seq<seq<nat>>)
    requires History(start, events, states, cuts) && 0 < |states| == |cuts| <= |events|
    requires states' == states + [t] && cuts' == cuts + [cut]
    requires TurnsInto(start, events, |states| - 1, states[|states| - 1], t)
    requires Settled(t, Heads(start, events[..|states|]), cut) && Keeps(t, events[..|states|])
    ensures History(start, events, states', cuts')
  {
    var last := |states| - 1;
    forall k | 0 <= k < last + 1 ensures TurnsInto(start, events, k, states'[k], states'[k + 1]) {
      if k < last { HistoryAt(start, events, states, cuts, k); }
    }
    forall k | 0 <= k < |states'|
      ensures Settled(states'[k], Heads(start, events[..k]), cuts'[k]) && Keeps(states'[k], events[..k])
    {
      if k <= last { HistoryAt(start, events, states, cuts, k); }
    }
  }

  /** One more turn. */
  lemma HistoryTurn(start: Head, events: seq<Event>, states: seq<Loop>, cuts: seq<seq<nat>>, s: Loop)
    returns (states': seq<Loop>, cuts': seq<seq<nat>>)
    requires History(start, events, states, cuts) && 0 < |states| == |cuts| <= |events|
    requires s == states[|states| - 1] && !events[|states| - 1].Shutdown?
    ensures History(start, events, states', cuts') && |cuts'| == |states'|
    ensures states' == states + [Turn(s, events[|states| - 1])]
  {
    var n := |states| - 1;
    var ev, heads, cut := events[n], Heads(start, events[..n]), cuts[n];
    HistoryAt(start, events, states, cuts, n);
    TurnKeeps(s, heads, cut, ev);
    TurnAnswers(s, heads, cut, ev);
    EventsStep(start, events, n);
    TurnKeepsUp(s, events[..n], ev);
    assert events[..n] + [ev] == events[..n + 1];
    var cut', t := CutsAfter(s, cut, ev), Turn(s, ev);
    states', cuts' := states + [t], cuts + [cut'];
    HistoryStep(start, events, states, cuts, t, cut', states', cuts');
  }

  lemma HistoryMeans(start: Head, events: seq<Event>, states: seq<Loop>, cuts: seq<seq<nat>>)
    requires History(start, events, states, cuts) && 0 < |states| == |cuts| <= |events| + 1
    ensures forall k :: 0 <= k < |states| - 1 ==> TurnsInto(start, events, k, states[k], states[k + 1])
    ensures forall k :: 0 <= k < |states| ==> Settled(states[k], Heads(start, events[..k]), cuts[k])
    ensures forall k :: 0 <= k < |states| ==> Keeps(states[k], events[..k])
  {
    assert LoopKey(0);
  }

  /** The loop before it has received anything. */
  function Begun(start: Head): Loop { Loop(None, 0, false, None, None, start, 0, [], 0, []) }

  /** For every sequence of events, up to a shutdown if there is one, turn by turn: each
      request is answered with the channel of the run launched next; each run is launched
      after all the runs before it have finished, so that at most one is active at a
      time; the resets that were launched tile the heads in order, so that no head is
      lost; every answered request is served by the run of its channel; and a request
      whose run is still to be launched only waits for the active one. How many runs were
      launched and finished follows from the events. A shutdown waits for the active run and
      closes the channel of the next one too, so that nobody waits for good. */
  method ScheduleReorgLoop(start: Head, events: seq<Event>)
    returns (s: Loop, handled: nat, closed: nat, ghost states: seq<Loop>, ghost cuts: seq<seq<nat>>)
    ensures handled <= |events| && (handled == |events| || events[handled].Shutdown?)
    ensures |states| == |cuts| == handled + 1 && states[0] == Begun(start) && states[handled] == s
    ensures forall k :: 0 <= k < handled ==> TurnsInto(start, events, k, states[k], states[k + 1])
    ensures forall k :: 0 <= k <= handled ==> Settled(states[k], Heads(start, events[..k]), cuts[k])
    ensures forall k :: 0 <= k <= handled ==> Keeps(states[k], events[..k])
    ensures closed >= FinishedBy(events[..handled])
    ensures handled < |events| ==> forall i :: 0 <= i < |s.answers| ==> s.answers[i].done < closed
    ensures Tiles(s.runs, Heads(start, events[..handled]), cuts[handled])
    ensures Answered(s.answers, s.runs, cuts[handled], s.launchNext, s.reset, s.dirty, s.seen)
    ensures forall r, a :: 0 <= r < |s.runs| && s.runs[r].dirty.Some? && a in s.runs[r].dirty.value ==>
      AskedFor(s.answers, r, a)
    ensures |s.runs| == s.finished + Active(s) && (s.curDone.Some? ==> s.curDone.value == |s.runs| - 1)
    ensures s.curDone.None? ==> cuts[handled][|s.runs|] == |Heads(start, events[..handled])| - 1
    ensures s.curDone.None? ==> forall i :: 0 <= i < |s.answers| ==> s.answers[i].done < |s.runs|
  {
    s, handled := Begun(start), 0;
    states, cuts := [s], [[0]];
    assert Consistent(s, [start], [0]);
    while handled < |events| && !events[handled].Shutdown?
      invariant handled <= |events| && |states| == |cuts| == handled + 1 && states[0] == Begun(start)
      invariant states[handled] == s
      invariant History(start, events, states, cuts)
    {
      states, cuts := HistoryTurn(start, events, states, cuts, s);
      s, handled := Turn(s, events[handled]), handled + 1;
    }
    HistoryMeans(start, events, states, cuts);
    SettledMeans(s, Heads(start, events[..handled]), cuts[handled]);
    closed := if handled < |events| then s.nextDone + 1 else s.finished;
  }
}
