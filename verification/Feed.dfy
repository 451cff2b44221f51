/** Lists of select cases, kept in an array that two slices share. */
module CaseLists {
  type Channel = nat

  /** The first case of the list receives unsubscriptions, all others send. */
  datatype Case = RemoveSub | SendTo(channel: Channel)

  /** The list without the element at `i`. */
  function Without(s: seq<Case>, i: nat): seq<Case>
    requires i < |s|
  {
    s[..i] + s[i + 1..]
  }

  /** The list with two elements exchanged. */
  function Swapped(s: seq<Case>, i: nat, j: nat): seq<Case>
    requires i < |s| && j < |s|
  {
    s[i := s[j]][j := s[i]]
  }

  lemma WithoutMultiset(s: seq<Case>, i: nat)
    requires i < |s|
    ensures multiset(Without(s, i)) + multiset{s[i]} == multiset(s)
    ensures multiset(Without(s, i)) == multiset(s) - multiset{s[i]}
  {
    assert s == s[..i] + [s[i]] + s[i + 1..];
  }

  lemma SwappedMultiset(s: seq<Case>, i: nat, j: nat)
    requires i < |s| && j < |s|
    ensures multiset(Swapped(s, i, j)) == multiset(s)
  {
  }

  /** The first position of `c`, or -1. */
  function IndexOf(s: seq<Case>, c: Case): (index: int)
    ensures index == -1 <==> c !in s
    ensures c in s ==> 0 <= index < |s| && s[index] == c && c !in s[..index]
  {
    if s == [] then -1
    else if s[0] == c then 0
    else
      var rest := IndexOf(s[1..], c);
      assert s == [s[0]] + s[1..];
      if rest == -1 then -1 else assert s[..rest + 1] == [s[0]] + s[1..][..rest]; rest + 1
  }

  /** find of a case list. */
  method Find(cs: array<Case>, len: nat, c: Case) returns (index: int)
    requires len <= cs.Length
    ensures index == IndexOf(cs[..len], c)
  {
    for i := 0 to len
      invariant c !in cs[..i]
    {
      if cs[i] == c {
        FirstIndex(cs[..len], c, i);
        return i;
      }
    }
    return -1;
  }

  lemma FirstIndex(s: seq<Case>, c: Case, i: nat)
    requires i < |s| && s[i] == c && c !in s[..i]
    ensures IndexOf(s, c) == i
  {
    var k := IndexOf(s, c);
    assert c in s[..i + 1];
    assert k <= i;
  }

  /** delete of a case list: everything behind the index moves one down, in place. */
  method Delete(cs: array<Case>, len: nat, index: nat)
    requires index < len <= cs.Length
    modifies cs
    ensures cs[..len - 1] == Without(old(cs[..len]), index)
    ensures cs[len - 1..] == old(cs[len - 1..])
  {
    var i := index;
    while i < len - 1
      invariant index <= i <= len - 1
      invariant forall k :: 0 <= k < index ==> cs[k] == old(cs[k])
      invariant forall k :: index <= k < i ==> cs[k] == old(cs[k + 1])
      invariant forall k :: i <= k < cs.Length ==> cs[k] == old(cs[k])
    {
      cs[i] := cs[i + 1];
      i := i + 1;
    }
  }

  /** deactivate of the slice of length `len`: the case moves to the end of the slice,
      which then shrinks by one; the array keeps all its cases. */
  method Deactivate(cs: array<Case>, len: nat, index: nat)
    requires index < len <= cs.Length
    modifies cs
    ensures cs[..] == Swapped(old(cs[..]), index, len - 1)
  {
    var last := len - 1;
    cs[index], cs[last] := cs[last], cs[index];
  }
}

/** The one-to-many event feed as a state machine whose steps are the parts of
    Subscribe, Unsubscribe and Send that run between two points where goroutines
    synchronise. A channel may be subscribed any number of times, so subscriptions are
    counted in multisets of their send cases. */
module Feeds {
  import opened Transactions
  import opened CaseLists

  type ElemType = nat

  /** Where a Send is: none in progress, in the fast path at position `i`, or waiting
      in the select. */
  datatype Phase = Idle | Trying(i: nat) | Selecting

  /** The account of one Send: the subscriptions present after the inbox was merged,
      those removed while still waiting for the value, those that received it. */
  datatype Outcome = Outcome(merged: multiset<Case>, dropped: multiset<Case>, delivered: multiset<Case>, nsent: nat)

  /** `cases` is the length of the slice of active cases, a prefix of `sendCases`.
      `live` are the subscriptions not removed yet, `removing` those whose removal has
      passed the inbox, `received` counts all deliveries. */
  datatype State = State(
    etype: Option<ElemType>, inbox: seq<Case>, sendCases: seq<Case>, cases: nat, phase: Phase,
    live: multiset<Case>, removing: multiset<Case>, received: multiset<Case>,
    current: Outcome, finished: seq<Outcome>)

  const NOTHING: multiset<Case> := multiset{}

  function Init(): State {
    State(None, [], [RemoveSub], 0, Idle, NOTHING, NOTHING, NOTHING, Outcome(NOTHING, NOTHING, NOTHING, 0), [])
  }

  datatype Event =
    | Subscribe(channel: Channel, elem: ElemType)
    | Unsubscribe(channel: Channel)   // remove, up to its select
    | RemoveIdle(channel: Channel)    // the remover got the send lock
    | BeginSend(elem: ElemType)
    | TrySend(ready: bool)
    | EndTry                          // the fast path has looked at every case
    | SelectRemove(channel: Channel)  // the select received an unsubscription
    | SelectSend(chosen: nat)

  /** What the scheduler may do next. A subscription is removed at most once; the send
      lock is held during a Send; a select may choose any active case. */
  predicate Enabled(s: State, ev: Event) {
    match ev
    case Subscribe(_, _) => true
    case Unsubscribe(ch) => SendTo(ch) in s.live - s.removing
    case RemoveIdle(ch) => s.phase.Idle? && SendTo(ch) in s.removing
    case BeginSend(_) => s.phase.Idle?
    case TrySend(_) => s.phase.Trying? && s.phase.i < s.cases
    case EndTry => s.phase.Trying? && s.phase.i >= s.cases
    case SelectRemove(ch) => s.phase.Selecting? && SendTo(ch) in s.removing
    case SelectSend(chosen) => s.phase.Selecting? && 0 < chosen < s.cases
  }

  predicate TypeOk(s: State, elem: ElemType) { s.etype.None? || s.etype.value == elem }

  /** The value went out on case `i`. */
  function Deliver(s: State, i: nat): Option<State> {
    if s.cases <= |s.sendCases| && i < s.cases then
      var c := s.sendCases[i];
      Some(s.(sendCases := Swapped(s.sendCases, i, s.cases - 1), cases := s.cases - 1,
              received := s.received + multiset{c},
              current := s.current.(delivered := s.current.delivered + multiset{c}, nsent := s.current.nsent + 1)))
    else None
  }

  /** The case of `c` leaves `sendCases`, and the active slice if it is in there. */
  function Remove(s: State, c: Case): Option<State> {
    var index := IndexOf(s.sendCases, c);
    if index == -1 then None
    else
      var gone := s.(sendCases := Without(s.sendCases, index), live := s.live - multiset{c},
                     removing := s.removing - multiset{c});
      if s.phase.Selecting? && index < s.cases
      then Some(gone.(cases := s.cases - 1, current := s.current.(dropped := s.current.dropped + multiset{c})))
      else Some(gone)
  }

  /** One step; None is a run-time panic of a case list operation. A value or a
      channel of the wrong type also panics in the source, which is a step here: a
      failed Send has merged the inbox and let go of the lock. */
  function Step(s: State, ev: Event): Option<State>
    requires Enabled(s, ev)
  {
    match ev
    case Subscribe(ch, elem) =>
      if !TypeOk(s, elem) then Some(s)
      else Some(s.(etype := Some(elem), inbox := s.inbox + [SendTo(ch)], live := s.live + multiset{SendTo(ch)}))
    case Unsubscribe(ch) =>
      var index := IndexOf(s.inbox, SendTo(ch));
      if index != -1 then Some(s.(inbox := Without(s.inbox, index), live := s.live - multiset{SendTo(ch)}))
      else Some(s.(removing := s.removing + multiset{SendTo(ch)}))
    case RemoveIdle(ch) => Remove(s, SendTo(ch))
    case BeginSend(elem) =>
      var merged := s.(sendCases := s.sendCases + s.inbox, inbox := []);
      if !TypeOk(s, elem) then Some(merged)
      else if |merged.sendCases| == 0 then None
      else Some(merged.(etype := Some(elem), cases := |merged.sendCases|, phase := Trying(1),
                        current := Outcome(multiset(merged.sendCases[1..]), NOTHING, NOTHING, 0)))
    case TrySend(ready) =>
      if ready then Deliver(s, s.phase.i) else Some(s.(phase := Trying(s.phase.i + 1)))
    case EndTry =>
      if s.cases == 1 then Some(s.(phase := Idle, finished := s.finished + [s.current]))
      else Some(s.(phase := Selecting))
    case SelectRemove(ch) =>
      var gone := Remove(s, SendTo(ch));
      if gone.None? then None else Some(gone.value.(phase := Trying(1)))
    case SelectSend(chosen) =>
      var sent := Deliver(s, chosen);
      if sent.None? then None else Some(sent.value.(phase := Trying(1)))
  }

  /** Every subscription present at the start of a Send and not removed while waiting
      got the value, once. */
  ghost predicate Complete(o: Outcome) {
    o.merged == o.delivered + o.dropped && o.nsent == |o.delivered|
  }

  /** The subscriptions in a list of select cases. */
  ghost function Subs(cs: seq<Case>): multiset<Case>
    requires |cs| > 0
  {
    multiset(cs[1..])
  }

  /** The subscriptions in its active prefix. */
  ghost function Active(cs: seq<Case>, n: nat): multiset<Case>
    requires 1 <= n <= |cs|
  {
    multiset(cs[1..n])
  }

  /** Every live subscription is in the inbox or among the send cases, once; whatever
      is being removed is among the send cases. */
  ghost predicate Held(inbox: multiset<Case>, subs: multiset<Case>, live: multiset<Case>, removing: multiset<Case>) {
    forall k {:trigger FeedKey(k)} :: FeedKey(k) ==> live == inbox + subs && removing <= subs && RemoveSub !in live
  }

  /** The subscriptions a Send started with are still waiting, were served, or were
      removed while waiting. */
  ghost predicate Accounted(waiting: multiset<Case>, o: Outcome) {
    forall k {:trigger FeedKey(k)} :: FeedKey(k) ==>
      o.merged == waiting + o.delivered + o.dropped && o.nsent == |o.delivered|
  }

  predicate FeedKey(k: nat) { true }

  ghost predicate Inv(s: State) {
    && |s.sendCases| > 0 && s.sendCases[0] == RemoveSub
    && Held(multiset(s.inbox), Subs(s.sendCases), s.live, s.removing)
    && (!s.phase.Idle? ==> 1 <= s.cases <= |s.sendCases| && Accounted(Active(s.sendCases, s.cases), s.current))
    && (s.phase.Trying? ==> 1 <= s.phase.i <= s.cases)
    && forall k :: 0 <= k < |s.finished| ==> Complete(s.finished[k])
  }

  lemma Snoc(s: seq<Case>, c: Case)
    ensures multiset(s + [c]) == multiset(s) + multiset{c}
  {
  }

  /** Exchanging commutes with leaving off the first element and some of the last. */
  lemma SwappedTail(s: seq<Case>, i: nat, j: nat, n: nat)
    requires 1 <= i <= j < n <= |s|
    ensures Swapped(s, i, j)[1..n] == Swapped(s[1..n], i - 1, j - 1)
  {
    var a, b := Swapped(s, i, j)[1..n], Swapped(s[1..n], i - 1, j - 1);
    forall k | 0 <= k < n - 1 ensures a[k] == b[k] { assert s[1..n][k] == s[k + 1]; }
  }

  lemma WithoutTail(s: seq<Case>, index: nat, n: nat)
    requires 1 <= index < n <= |s|
    ensures Without(s, index)[1..n - 1] == Without(s[1..n], index - 1)
  {
    var a, b := Without(s, index)[1..n - 1], Without(s[1..n], index - 1);
    forall k | 0 <= k < n - 2 ensures a[k] == b[k] { assert s[1..n][k] == s[k + 1]; }
  }

  lemma WithoutFront(s: seq<Case>, index: nat, n: nat)
    requires 1 <= n <= index < |s|
    ensures Without(s, index)[1..n] == s[1..n]
  {
    var a, b := Without(s, index)[1..n], s[1..n];
    forall k | 0 <= k < n - 1 ensures a[k] == b[k] { assert a[k] == s[k + 1]; }
  }

  lemma WholeTail(s: seq<Case>)
    requires |s| > 0
    ensures s[1..|s|] == s[1..]
  {
  }

  /** Moving an active case behind the active ones. */
  lemma Deactivated(s: seq<Case>, n: nat, i: nat)
    requires 1 <= i < n <= |s|
    ensures Swapped(s, i, n - 1)[0] == s[0]
    ensures Subs(Swapped(s, i, n - 1)) == Subs(s)
  {
    var t := Swapped(s, i, n - 1);
    SwappedTail(s, i, n - 1, |s|);
    WholeTail(s);
    WholeTail(t);
    SwappedMultiset(s[1..], i - 1, n - 2);
  }

  /** Exchanging an element with the last one and leaving that off. */
  lemma SwapLast(s: seq<Case>, i: nat, last: nat)
    requires i <= last && last + 1 == |s|
    ensures multiset(Swapped(s, i, last)[..last]) + multiset{s[i]} == multiset(s)
  {
    var t := Swapped(s, i, last);
    SwappedMultiset(s, i, last);
    assert t[last] == s[i];
    assert t == t[..last] + [t[last]];
    Snoc(t[..last], s[i]);
  }

  lemma DeactivatedActive(s: seq<Case>, n: nat, i: nat)
    requires 1 <= i < n <= |s|
    ensures Active(Swapped(s, i, n - 1), n - 1) + multiset{s[i]} == Active(s, n)
  {
    SwapLast(s[1..n], i - 1, n - 2);
    SwappedTail(s, i, n - 1, n);
    ShorterTail(Swapped(s, i, n - 1), n - 1, n);
  }

  lemma ShorterTail(s: seq<Case>, m: nat, n: nat)
    requires 1 <= m <= n <= |s|
    ensures s[1..m] == s[1..n][..m - 1]
  {
    var a, b := s[1..m], s[1..n][..m - 1];
    assert |a| == |b|;
    forall k | 0 <= k < m - 1 ensures a[k] == b[k] { assert s[1..n][k] == s[k + 1]; }
  }

  lemma Deleted(s: seq<Case>, index: nat)
    requires 1 <= index < |s|
    ensures Without(s, index)[0] == s[0]
    ensures Subs(Without(s, index)) == Subs(s) - multiset{s[index]}
  {
    WithoutTail(s, index, |s|);
    WholeTail(s);
    WholeTail(Without(s, index));
    WithoutMultiset(s[1..], index - 1);
  }

  /** Deleting a case, in front of the end of the active ones or not. */
  lemma DeletedActive(s: seq<Case>, n: nat, index: nat)
    requires 1 <= index < |s| && 1 <= n <= |s|
    ensures n <= index ==> Active(Without(s, index), n) == Active(s, n)
    ensures index < n ==> Active(Without(s, index), n - 1) + multiset{s[index]} == Active(s, n)
  {
    if index < n {
      WithoutTail(s, index, n);
      WithoutMultiset(s[1..n], index - 1);
    } else {
      WithoutFront(s, index, n);
    }
  }

  /** One waiting subscription is served. */
  lemma ServeOne(waiting: multiset<Case>, rest: multiset<Case>, c: Case, o: Outcome)
    requires Accounted(waiting, o) && rest + multiset{c} == waiting
    ensures Accounted(rest, o.(delivered := o.delivered + multiset{c}, nsent := o.nsent + 1))
  {
    assert FeedKey(0);
  }

  /** One waiting subscription is removed. */
  lemma DropOne(waiting: multiset<Case>, rest: multiset<Case>, c: Case, o: Outcome)
    requires Accounted(waiting, o) && rest + multiset{c} == waiting
    ensures Accounted(rest, o.(dropped := o.dropped + multiset{c}))
  {
    assert FeedKey(0);
  }

  lemma HeldSame(inbox: multiset<Case>, subs: multiset<Case>, same: multiset<Case>, live: multiset<Case>,
                 removing: multiset<Case>)
    requires Held(inbox, subs, live, removing) && same == subs
    ensures Held(inbox, same, live, removing)
  {
    assert FeedKey(0);
  }

  lemma HeldWithout(inbox: multiset<Case>, subs: multiset<Case>, rest: multiset<Case>, live: multiset<Case>,
                    removing: multiset<Case>, c: Case)
    requires Held(inbox, subs, live, removing) && c in removing && rest == subs - multiset{c}
    ensures Held(inbox, rest, live - multiset{c}, removing - multiset{c})
  {
    assert FeedKey(0);
  }

  lemma DeliverAccounts(cs: seq<Case>, n: nat, i: nat, o: Outcome, rest: seq<Case>, next: nat, o': Outcome)
    requires 1 <= i < n <= |cs| && Accounted(Active(cs, n), o) && next + 1 == n && rest == Swapped(cs, i, next)
    requires o' == o.(delivered := o.delivered + multiset{cs[i]}, nsent := o.nsent + 1)
    ensures Accounted(Active(rest, next), o')
  {
    DeactivatedActive(cs, n, i);
    ServeOne(Active(cs, n), Active(rest, next), cs[i], o);
  }

  lemma DeliverHeld(cs: seq<Case>, n: nat, i: nat, rest: seq<Case>, inbox: multiset<Case>, live: multiset<Case>,
                    removing: multiset<Case>)
    requires 1 <= i < n <= |cs| && rest == Swapped(cs, i, n - 1) && Held(inbox, Subs(cs), live, removing)
    ensures |rest| == |cs| && rest[0] == cs[0] && Held(inbox, Subs(rest), live, removing)
  {
    Deactivated(cs, n, i);
    HeldSame(inbox, Subs(cs), Subs(rest), live, removing);
  }

  /** A delivery during a Send. */
  lemma DeliverKeeps(s: State, i: nat)
    requires Inv(s) && !s.phase.Idle? && 1 <= i < s.cases && (s.phase.Trying? ==> s.phase.i == i)
    ensures Deliver(s, i).Some? && Inv(Deliver(s, i).value)
  {
    var sent := Deliver(s, i).value;
    DeliverAccounts(s.sendCases, s.cases, i, s.current, sent.sendCases, sent.cases, sent.current);
    DeliverHeld(s.sendCases, s.cases, i, sent.sendCases, multiset(s.inbox), s.live, s.removing);
  }

  /** Something being removed is found among the send cases. */
  lemma RemovingIsFound(s: State, c: Case)
    requires Inv(s) && c in s.removing
    ensures 1 <= IndexOf(s.sendCases, c) < |s.sendCases|
  {
    assert FeedKey(0);
    assert c in s.sendCases[1..];
    assert c in s.live;
  }

  /** Removing a case while the others wait. */
  lemma RemoveAccounts(cs: seq<Case>, n: nat, index: nat, o: Outcome, rest: seq<Case>, next: nat, o': Outcome)
    requires 1 <= index < |cs| && 1 <= n <= |cs| && Accounted(Active(cs, n), o) && rest == Without(cs, index)
    requires next == if index < n then n - 1 else n
    requires o' == if index < n then o.(dropped := o.dropped + multiset{cs[index]}) else o
    ensures Accounted(Active(rest, next), o')
  {
    DeletedActive(cs, n, index);
    if index < n { DropOne(Active(cs, n), Active(rest, next), cs[index], o); }
  }

  lemma RemoveKeeps(s: State, c: Case)
    requires Inv(s) && c in s.removing && !s.phase.Trying?
    ensures Remove(s, c).Some? && Inv(Remove(s, c).value) && Remove(s, c).value.phase == s.phase
  {
    RemovingIsFound(s, c);
    var index := IndexOf(s.sendCases, c);
    Deleted(s.sendCases, index);
    HeldWithout(multiset(s.inbox), Subs(s.sendCases), Subs(Without(s.sendCases, index)), s.live, s.removing, c);
    var gone := Remove(s, c).value;
    assert Held(multiset(gone.inbox), Subs(gone.sendCases), gone.live, gone.removing);
    if s.phase.Selecting? {
      RemoveAccounts(s.sendCases, s.cases, index, s.current, gone.sendCases, gone.cases, gone.current);
    }
  }

  lemma HeldOutOfInbox(inbox: multiset<Case>, subs: multiset<Case>, live: multiset<Case>, removing: multiset<Case>,
                       c: Case)
    requires Held(inbox, subs, live, removing) && c in live - removing
    ensures c in inbox ==> Held(inbox - multiset{c}, subs, live - multiset{c}, removing)
    ensures c !in inbox ==> Held(inbox, subs, live, removing + multiset{c})
  {
    assert FeedKey(0);
  }

  lemma UnsubscribeKeeps(s: State, ch: Channel)
    requires Inv(s) && Enabled(s, Unsubscribe(ch))
    ensures Step(s, Unsubscribe(ch)).Some? && Inv(Step(s, Unsubscribe(ch)).value)
  {
    var index := IndexOf(s.inbox, SendTo(ch));
    HeldOutOfInbox(multiset(s.inbox), Subs(s.sendCases), s.live, s.removing, SendTo(ch));
    if index != -1 { WithoutMultiset(s.inbox, index); }
  }

  lemma SubscribeKeeps(s: State, ch: Channel, elem: ElemType)
    requires Inv(s)
    ensures Step(s, Subscribe(ch, elem)).Some? && Inv(Step(s, Subscribe(ch, elem)).value)
  {
    assert FeedKey(0);
    Snoc(s.inbox, SendTo(ch));
  }

  /** A Send starts with all live subscriptions. */
  lemma BeginSendKeeps(s: State, elem: ElemType)
    requires Inv(s) && s.phase.Idle?
    ensures Step(s, BeginSend(elem)).Some? && Inv(Step(s, BeginSend(elem)).value)
    ensures TypeOk(s, elem) ==> Step(s, BeginSend(elem)).value.current.merged == s.live
  {
    assert FeedKey(0);
    var merged := s.sendCases + s.inbox;
    assert merged[1..] == s.sendCases[1..] + s.inbox;
    assert Held(multiset([]), Subs(merged), s.live, s.removing);
    assert merged[1..|merged|] == merged[1..];
  }

  lemma EndTryKeeps(s: State)
    requires Inv(s) && Enabled(s, EndTry)
    ensures Step(s, EndTry).Some? && Inv(Step(s, EndTry).value)
  {
    assert FeedKey(0);
    assert s.cases == 1 ==> Active(s.sendCases, 1) == multiset{};
  }

  /** No step panics on a case list, and every step keeps the invariant. */
  lemma StepKeeps(s: State, ev: Event)
    requires Inv(s) && Enabled(s, ev)
    ensures Step(s, ev).Some? && Inv(Step(s, ev).value)
  {
    match ev {
      case Subscribe(ch, elem) => SubscribeKeeps(s, ch, elem);
      case Unsubscribe(ch) => UnsubscribeKeeps(s, ch);
      case RemoveIdle(ch) => RemoveKeeps(s, SendTo(ch));
      case BeginSend(elem) => BeginSendKeeps(s, elem);
      case TrySend(ready) => if ready { DeliverKeeps(s, s.phase.i); }
      case EndTry => EndTryKeeps(s);
      case SelectRemove(ch) => RemoveKeeps(s, SendTo(ch));
      case SelectSend(chosen) => DeliverKeeps(s, chosen);
    }
  }

  /** A possible event leads from one state to the next. */
  ghost predicate Follows(s: State, ev: Event, t: State) {
    forall k {:trigger FeedKey(k)} :: FeedKey(k) ==> Enabled(s, ev) && Step(s, ev) == Some(t)
  }

  /** A run of the feed from its creation. */
  ghost predicate Execution(states: seq<State>, events: seq<Event>) {
    && |states| == |events| + 1 && states[0] == Init()
    && forall k :: 0 <= k < |events| ==> Follows(states[k], events[k], states[k + 1])
  }

  lemma InitInv()
    ensures Inv(Init())
  {
  }

  /** The invariant holds in every state of every run. */
  lemma {:induction false} RunKeeps(states: seq<State>, events: seq<Event>, k: nat)
    requires Execution(states, events) && k < |states|
    ensures Inv(states[k])
  {
    if k == 0 {
      InitInv();
    } else {
      RunKeeps(states, events, k - 1);
      assert Follows(states[k - 1], events[k - 1], states[k]) && FeedKey(0);
      StepKeeps(states[k - 1], events[k - 1]);
    }
  }

  /** The account of a Send in progress since a state: it started with what was live
      then, and what was received since is what it delivered. */
  ghost predicate Since(base: State, s: State) {
    s.current.merged == base.live && s.received == base.received + s.current.delivered
  }

  lemma SinceBegin(s: State, ev: Event)
    requires Inv(s) && Enabled(s, ev) && s.phase.Idle?
    ensures Step(s, ev).Some? && Step(s, ev).value.finished == s.finished
    ensures !Step(s, ev).value.phase.Idle? ==> ev.BeginSend? && Since(s, Step(s, ev).value)
  {
    StepKeeps(s, ev);
    if ev.BeginSend? { BeginSendKeeps(s, ev.elem); }
  }

  lemma SinceDeliver(base: State, s: State, i: nat)
    requires Since(base, s) && Deliver(s, i).Some?
    ensures Since(base, Deliver(s, i).value)
  {
    var c := s.sendCases[i];
    assert base.received + s.current.delivered + multiset{c} == base.received + (s.current.delivered + multiset{c});
  }

  lemma SinceStep(base: State, s: State, ev: Event)
    requires Inv(s) && Enabled(s, ev) && !s.phase.Idle? && Since(base, s)
    ensures Step(s, ev).Some? && Since(base, Step(s, ev).value)
    ensures if Step(s, ev).value.phase.Idle? then ev.EndTry? && Step(s, ev).value.finished == s.finished + [s.current]
            else Step(s, ev).value.finished == s.finished
  {
    StepKeeps(s, ev);
    match ev {
      case TrySend(ready) => if ready { SinceDeliver(base, s, s.phase.i); }
      case SelectSend(chosen) => SinceDeliver(base, s, chosen);
      case _ =>
    }
  }

  /** The Send in progress before event `n` was begun by event `b`. */
  ghost predicate InProgress(states: seq<State>, events: seq<Event>, b: nat, n: nat) {
    && b < n < |states| && n <= |events| && events[b].BeginSend? && states[b].phase.Idle? && Since(states[b], states[n])
    && forall k :: b < k <= n ==> !states[k].phase.Idle?
  }

  /** The Send with this account was begun by event `b` and ended by event `e`. */
  ghost predicate SentBetween(states: seq<State>, events: seq<Event>, b: nat, e: nat, o: Outcome) {
    e < |events| && InProgress(states, events, b, e) && events[e].EndTry? && o == states[e].current
  }

  /** The step before state `n`. */
  lemma StepBefore(states: seq<State>, events: seq<Event>, n: nat)
    requires Execution(states, events) && 0 < n < |states|
    ensures Inv(states[n - 1]) && Enabled(states[n - 1], events[n - 1])
    ensures Step(states[n - 1], events[n - 1]) == Some(states[n])
  {
    RunKeeps(states, events, n - 1);
    assert Follows(states[n - 1], events[n - 1], states[n]) && FeedKey(0);
  }

  lemma {:induction false} WasBegun(states: seq<State>, events: seq<Event>, n: nat) returns (b: nat)
    requires Execution(states, events) && n < |states| && !states[n].phase.Idle?
    ensures InProgress(states, events, b, n)
  {
    if n > 0 {
      StepBefore(states, events, n);
      if states[n - 1].phase.Idle? {
        SinceBegin(states[n - 1], events[n - 1]);
        b := n - 1;
      } else {
        b := WasBegun(states, events, n - 1);
        SinceStep(states[b], states[n - 1], events[n - 1]);
      }
    }
  }

  lemma {:induction false} WasFinished(states: seq<State>, events: seq<Event>, n: nat, i: nat) returns (b: nat, e: nat)
    requires Execution(states, events) && n < |states| && i < |states[n].finished|
    ensures SentBetween(states, events, b, e, states[n].finished[i])
    decreases n
  {
    StepBefore(states, events, n);
    if states[n - 1].phase.Idle? {
      SinceBegin(states[n - 1], events[n - 1]);
      b, e := WasFinished(states, events, n - 1, i);
    } else {
      b := WasBegun(states, events, n - 1);
      SinceStep(states[b], states[n - 1], events[n - 1]);
      if i < |states[n - 1].finished| { b, e := WasFinished(states, events, n - 1, i); } else { e := n - 1; }
    }
  }

  /** Whatever the interleaving: no case list operation panics, in particular a removal
      never looks for a case that is not there; and every finished Send ran from an event
      `b` to an event `e`, delivered the value once to every subscription that was live at
      `b` and not removed while still waiting, counted its deliveries, and nothing else
      was delivered meanwhile. */
  lemma EveryRun(states: seq<State>, events: seq<Event>)
    requires Execution(states, events)
    ensures forall ev :: Enabled(states[|events|], ev) ==> Step(states[|events|], ev).Some?
    ensures forall i :: 0 <= i < |states[|events|].finished| ==>
      SendIsRight(states, events, states[|events|].finished[i])
  {
    var last := states[|events|];
    RunKeeps(states, events, |events|);
    forall ev | Enabled(last, ev) ensures Step(last, ev).Some? { StepKeeps(last, ev); }
    forall i | 0 <= i < |last.finished| ensures SendIsRight(states, events, last.finished[i]) {
      var b, e := WasFinished(states, events, |events|, i);
      assert Complete(last.finished[i]);
    }
  }

  ghost predicate SendIsRight(states: seq<State>, events: seq<Event>, o: Outcome) {
    exists b: nat, e: nat :: SentBetween(states, events, b, e, o)
      && states[b].live == o.delivered + o.dropped && o.nsent == |o.delivered|
      && states[e].received == states[b].received + o.delivered
  }

  lemma CasesAreLive(s: State, i: nat)
    requires Inv(s) && 1 <= i < |s.sendCases|
    ensures s.sendCases[i] in s.live
  {
    assert FeedKey(0);
    assert s.sendCases[i] in s.sendCases[1..];
  }

  lemma DeliverIsLocal(s: State, i: nat, c: Case)
    requires Inv(s) && 1 <= i < s.cases <= |s.sendCases| && c !in s.live
    ensures Deliver(s, i).Some? && Deliver(s, i).value.received[c] == s.received[c]
    ensures Deliver(s, i).value.live == s.live
  {
    CasesAreLive(s, i);
  }

  lemma RemoveIsLocal(s: State, gone: Case, c: Case)
    requires Inv(s) && gone in s.removing && c !in s.live
    ensures Remove(s, gone).Some? && c !in Remove(s, gone).value.live && Remove(s, gone).value.received == s.received
  {
    RemovingIsFound(s, gone);
  }

  /** A step delivers only to live subscriptions, and makes none live but by
      subscribing it. */
  lemma StepIsLocal(s: State, ev: Event, c: Case)
    requires Inv(s) && Enabled(s, ev) && c !in s.live && (ev.Subscribe? ==> SendTo(ev.channel) != c)
    ensures Step(s, ev).Some? && c !in Step(s, ev).value.live
    ensures Step(s, ev).value.received[c] == s.received[c]
  {
    match ev {
      case TrySend(ready) => if ready { DeliverIsLocal(s, s.phase.i, c); }
      case SelectSend(chosen) => DeliverIsLocal(s, chosen, c);
      case RemoveIdle(ch) => RemoveIsLocal(s, SendTo(ch), c);
      case SelectRemove(ch) => RemoveIsLocal(s, SendTo(ch), c);
      case _ =>
    }
  }

  lemma FollowsIsLocal(s: State, ev: Event, t: State, c: Case)
    requires Inv(s) && Follows(s, ev, t) && c !in s.live && (ev.Subscribe? ==> SendTo(ev.channel) != c)
    ensures c !in t.live && t.received[c] == s.received[c]
  {
    assert FeedKey(0);
    StepIsLocal(s, ev, c);
  }

  /** Once the last subscription of a channel is removed, the channel receives nothing
      until it is subscribed again. */
  lemma {:induction false} NothingAfterRemove(states: seq<State>, events: seq<Event>, j: nat, k: nat, c: Case)
    requires Execution(states, events) && j <= k < |states| && c !in states[j].live
    requires forall i :: j <= i < k && events[i].Subscribe? ==> SendTo(events[i].channel) != c
    ensures c !in states[k].live && states[k].received[c] == states[j].received[c]
    decreases k
  {
    if j < k {
      NothingAfterRemove(states, events, j, k - 1, c);
      RunKeeps(states, events, k - 1);
      FollowsIsLocal(states[k - 1], events[k - 1], states[k], c);
    }
  }

  /** A completed removal has ended exactly one subscription, and nothing else. */
  lemma RemovalEndsOne(s: State, ev: Event)
    requires Inv(s) && Enabled(s, ev) && (ev.RemoveIdle? || ev.SelectRemove?)
    ensures Step(s, ev).Some?
    ensures var after := Step(s, ev).value; var c := SendTo(ev.channel);
      after.live == s.live - multiset{c} && c in s.live && after.inbox == s.inbox && after.received == s.received
  {
    assert FeedKey(0);
    StepKeeps(s, ev);
  }

  // ----- subscriptions, from the events alone

  /** The type of the feed is that of the first channel or value. */
  ghost function TypeOf(events: seq<Event>): Option<ElemType> {
    if events == [] then None
    else
      var front, last := TypeOf(events[..|events| - 1]), events[|events| - 1];
      if front.Some? then front
      else if last.Subscribe? || last.BeginSend? then Some(last.elem)
      else None
  }

  /** The event subscribes the channel: it has the right type. */
  ghost predicate Subscribes(events: seq<Event>, ev: Event, ch: Channel) {
    ev.Subscribe? && ev.channel == ch && (TypeOf(events).None? || TypeOf(events).value == ev.elem)
  }

  /** How often the channel was subscribed since the last Send began, and not unsubscribed. */
  ghost function Fresh(events: seq<Event>, ch: Channel): nat {
    if events == [] then 0
    else
      var front, last := events[..|events| - 1], events[|events| - 1];
      if Subscribes(front, last, ch) then Fresh(front, ch) + 1
      else if last == Unsubscribe(ch) && Fresh(front, ch) > 0 then Fresh(front, ch) - 1
      else if last.BeginSend? then 0
      else Fresh(front, ch)
  }

  /** How many subscriptions a channel has: it gets one each time that it is subscribed, and
      loses one each time that it is unsubscribed before a Send has begun, or removed. */
  ghost function Subscriptions(events: seq<Event>, ch: Channel): int {
    if events == [] then 0
    else
      var front, last := events[..|events| - 1], events[|events| - 1];
      var before := Subscriptions(front, ch);
      if Subscribes(front, last, ch) then before + 1
      else if last == Unsubscribe(ch) && Fresh(front, ch) > 0 then before - 1
      else if last == RemoveIdle(ch) || last == SelectRemove(ch) then before - 1
      else before
  }

  /** The state has what the events say. */
  ghost predicate Counts(s: State, events: seq<Event>, ch: Channel) {
    && s.etype == TypeOf(events) && multiset(s.inbox)[SendTo(ch)] == Fresh(events, ch)
    && s.live[SendTo(ch)] == Subscriptions(events, ch)
  }

  lemma CountRemove(s: State, c: Case, d: Case)
    requires Inv(s) && c in s.removing
    ensures Remove(s, c).Some? && Remove(s, c).value.live[d] + (if d == c then 1 else 0) == s.live[d]
    ensures Remove(s, c).value.inbox == s.inbox && Remove(s, c).value.etype == s.etype
  {
    RemovingIsFound(s, c);
    assert c in s.live by { assert FeedKey(0); }
  }

  lemma CountStep(s: State, ev: Event, events: seq<Event>, ch: Channel)
    requires Inv(s) && Enabled(s, ev) && Counts(s, events, ch)
    ensures Step(s, ev).Some? && Counts(Step(s, ev).value, events + [ev], ch)
  {
    AppendCounts(events, ev, ch);
    match ev {
      case Subscribe(other, elem) => CountSubscribe(s, other, elem, ch);
      case Unsubscribe(other) => CountUnsubscribe(s, other, ch);
      case RemoveIdle(other) => CountRemove(s, SendTo(other), SendTo(ch));
      case SelectRemove(other) => CountRemove(s, SendTo(other), SendTo(ch));
      case _ => SendLeaves(s, ev);
    }
  }

  /** Sending leaves the subscriptions alone, but for taking the inbox. */
  lemma SendLeaves(s: State, ev: Event)
    requires Inv(s) && Enabled(s, ev) && (ev.BeginSend? || ev.TrySend? || ev.EndTry? || ev.SelectSend?)
    ensures Step(s, ev).Some?
    ensures var t := Step(s, ev).value;
      && t.live == s.live && t.inbox == (if ev.BeginSend? then [] else s.inbox)
      && t.etype == if ev.BeginSend? && s.etype.None? then Some(ev.elem) else s.etype
  {
    StepKeeps(s, ev);
  }

  lemma AppendCounts(events: seq<Event>, ev: Event, ch: Channel)
    ensures TypeOf(events + [ev])
      == if TypeOf(events).None? && (ev.Subscribe? || ev.BeginSend?) then Some(ev.elem) else TypeOf(events)
    ensures Fresh(events + [ev], ch)
      == if Subscribes(events, ev, ch) then Fresh(events, ch) + 1
         else if ev == Unsubscribe(ch) && Fresh(events, ch) > 0 then Fresh(events, ch) - 1
         else if ev.BeginSend? then 0
         else Fresh(events, ch)
    ensures Subscriptions(events + [ev], ch)
      == if Subscribes(events, ev, ch) then Subscriptions(events, ch) + 1
         else if ev == Unsubscribe(ch) && Fresh(events, ch) > 0 then Subscriptions(events, ch) - 1
         else if ev == RemoveIdle(ch) || ev == SelectRemove(ch) then Subscriptions(events, ch) - 1
         else Subscriptions(events, ch)
  {
    assert (events + [ev])[..|events|] == events;
  }

  lemma CountSubscribe(s: State, other: Channel, elem: ElemType, ch: Channel)
    ensures var t := Step(s, Subscribe(other, elem)).value;
      var more := if TypeOk(s, elem) && other == ch then 1 else 0;
      && t.etype == (if s.etype.None? then Some(elem) else s.etype)
      && multiset(t.inbox)[SendTo(ch)] == multiset(s.inbox)[SendTo(ch)] + more
      && t.live[SendTo(ch)] == s.live[SendTo(ch)] + more
  {
    Snoc(s.inbox, SendTo(other));
  }

  lemma CountUnsubscribe(s: State, other: Channel, ch: Channel)
    requires Inv(s) && Enabled(s, Unsubscribe(other))
    ensures var t, found := Step(s, Unsubscribe(other)).value, multiset(s.inbox)[SendTo(other)] > 0;
      var less := if found && other == ch then 1 else 0;
      && multiset(t.inbox)[SendTo(ch)] == multiset(s.inbox)[SendTo(ch)] - less
      && s.live[SendTo(ch)] - less == t.live[SendTo(ch)]
  {
    var index := IndexOf(s.inbox, SendTo(other));
    assert SendTo(other) in s.inbox <==> SendTo(other) in multiset(s.inbox);
    if index != -1 { WithoutMultiset(s.inbox, index); }
  }

  /** In every state of every run a channel has as many subscriptions as the events say. */
  lemma {:induction false} CountsHold(states: seq<State>, events: seq<Event>, n: nat, ch: Channel)
    requires Execution(states, events) && n < |states|
    ensures Counts(states[n], events[..n], ch)
  {
    if n > 0 {
      var last := n - 1;
      CountsHold(states, events, last, ch);
      StepBefore(states, events, n);
      CountStep(states[last], events[last], events[..last], ch);
      assert events[..n] == events[..last] + [events[last]];
    }
  }

  /** How often a Send in progress since event `b` removed a subscription of the channel. */
  ghost function RemovedSince(events: seq<Event>, b: nat, n: nat, ch: Channel): nat
    requires n <= |events|
  {
    if n <= b then 0 else RemovedSince(events, b, n - 1, ch) + if events[n - 1] == SelectRemove(ch) then 1 else 0
  }

  lemma DropsRemoved(s: State, ev: Event, ch: Channel)
    requires Inv(s) && Enabled(s, ev) && !s.phase.Idle?
    ensures Step(s, ev).Some?
    ensures Step(s, ev).value.current.dropped[SendTo(ch)]
      <= s.current.dropped[SendTo(ch)] + if ev == SelectRemove(ch) then 1 else 0
  {
    StepKeeps(s, ev);
  }

  lemma {:induction false} DroppedBound(states: seq<State>, events: seq<Event>, b: nat, n: nat, ch: Channel)
    requires Execution(states, events) && InProgress(states, events, b, n)
    ensures states[n].current.dropped[SendTo(ch)] <= RemovedSince(events, b, n, ch)
    decreases n
  {
    var last := n - 1;
    StepBefore(states, events, n);
    if b < last {
      InProgressBefore(states, events, b, n);
      DroppedBound(states, events, b, last, ch);
      DropsRemoved(states[last], events[last], ch);
    }
  }

  lemma InProgressBefore(states: seq<State>, events: seq<Event>, b: nat, n: nat)
    requires Execution(states, events) && InProgress(states, events, b, n) && b + 1 < n
    ensures InProgress(states, events, b, n - 1)
  {
    var begun := WasBegun(states, events, n - 1);
    assert !states[b + 1].phase.Idle?;
    assert begun == b;
  }

  /** Every finished Send delivers to a channel once for each subscription that the events
      before it give the channel, but for those removed while it waits. */
  lemma DeliversToSubscribed(states: seq<State>, events: seq<Event>, i: nat, ch: Channel) returns (b: nat, e: nat)
    requires Execution(states, events) && i < |states[|events|].finished|
    ensures SentBetween(states, events, b, e, states[|events|].finished[i])
    ensures var delivered, due := states[|events|].finished[i].delivered[SendTo(ch)], Subscriptions(events[..b], ch);
      delivered <= due <= delivered + RemovedSince(events, b, e, ch)
  {
    var o := states[|events|].finished[i];
    RunKeeps(states, events, |events|);
    b, e := WasFinished(states, events, |events|, i);
    CountsHold(states, events, b, ch);
    DroppedBound(states, events, b, e, ch);
    assert Complete(o);
    assert states[b].live[SendTo(ch)] == o.delivered[SendTo(ch)] + o.dropped[SendTo(ch)];
  }

  /** A Send waits in the select only for somebody. */
  lemma {:induction false} WaitsForSomebody(states: seq<State>, events: seq<Event>, n: nat)
    requires Execution(states, events) && n < |states| && states[n].phase.Selecting?
    ensures states[n].cases > 1
  {
    StepBefore(states, events, n);
    if states[n - 1].phase.Selecting? { WaitsForSomebody(states, events, n - 1); }
  }

  /** Nobody is stuck: a Send can always go on, a subscription that is not being removed can
      be unsubscribed, and one that is being removed goes as soon as a Send waits or none
      runs. */
  lemma AlwaysEnabled(s: State, ch: Channel)
    requires Inv(s) && (s.phase.Selecting? ==> s.cases > 1)
    ensures !s.phase.Idle? ==> exists ev :: OfSend(ev) && !ev.SelectRemove? && Enabled(s, ev)
    ensures s.phase.Idle? ==> forall elem :: Enabled(s, BeginSend(elem))
    ensures s.live[SendTo(ch)] > s.removing[SendTo(ch)] ==> Enabled(s, Unsubscribe(ch))
    ensures SendTo(ch) in s.removing && s.phase.Idle? ==> Enabled(s, RemoveIdle(ch))
    ensures SendTo(ch) in s.removing && s.phase.Selecting? ==> Enabled(s, SelectRemove(ch))
    ensures s.phase.Selecting? ==> forall chosen :: 0 < chosen < s.cases ==> Enabled(s, SelectSend(chosen))
  {
    if s.phase.Trying? {
      assert if s.phase.i < s.cases then Enabled(s, TrySend(true)) else Enabled(s, EndTry);
    } else if s.phase.Selecting? {
      assert Enabled(s, SelectSend(1));
    }
  }

  /** The steps of Send itself. */
  predicate OfSend(ev: Event) { ev.TrySend? || ev.EndTry? || ev.SelectRemove? || ev.SelectSend? }

  ghost function Size(s: State): nat { |s.sendCases| + s.cases }

  ghost function Rank(s: State): nat { if s.phase.Trying? && s.phase.i <= s.cases then s.cases - s.phase.i + 1 else 0 }

  lemma DeliverShrinks(s: State, i: nat)
    requires i < s.cases <= |s.sendCases|
    ensures Deliver(s, i).Some? && Size(Deliver(s, i).value) < Size(s)
  {
  }

  lemma RemoveShrinks(s: State, c: Case)
    requires Inv(s) && c in s.removing
    ensures Remove(s, c).Some? && Size(Remove(s, c).value) < Size(s)
  {
    RemovingIsFound(s, c);
  }

  /** A Send ends: every step of it serves or removes a case or moves on in the fast
      path, and other goroutines do not set it back. */
  lemma SendMakesProgress(s: State, ev: Event)
    requires Inv(s) && Enabled(s, ev) && !s.phase.Idle?
    ensures Step(s, ev).Some?
    ensures var after := Step(s, ev).value;
      if OfSend(ev) then after.phase.Idle? || Size(after) < Size(s) || (Size(after) == Size(s) && Rank(after) < Rank(s))
      else Size(after) == Size(s) && Rank(after) == Rank(s) && after.phase == s.phase
  {
    match ev {
      case SelectRemove(ch) =>
        RemoveShrinks(s, SendTo(ch));
        assert Size(Step(s, ev).value) == Size(Remove(s, SendTo(ch)).value);
      case TrySend(ready) => if ready { DeliverShrinks(s, s.phase.i); }
      case SelectSend(chosen) =>
        DeliverShrinks(s, chosen);
        assert Size(Step(s, ev).value) == Size(Deliver(s, chosen).value);
      case _ =>
    }
  }

  /** The invariant, kept folded. */
  ghost predicate Sound(s: State) {
    forall k {:trigger FeedKey(k)} :: FeedKey(k) ==> Inv(s)
  }

  lemma SoundStep(s: State, ev: Event)
    requires Sound(s) && Enabled(s, ev)
    ensures Step(s, ev).Some? && Sound(Step(s, ev).value)
    ensures !s.phase.Idle? ==> s.cases <= |s.sendCases|
    ensures ev.RemoveIdle? || ev.SelectRemove? ==> 1 <= IndexOf(s.sendCases, SendTo(ev.channel)) < |s.sendCases|
  {
    assert FeedKey(0);
    StepKeeps(s, ev);
    if ev.RemoveIdle? || ev.SelectRemove? { RemovingIsFound(s, SendTo(ev.channel)); }
  }

  lemma CountsDeliveries(s: State)
    requires Sound(s) && !s.phase.Idle?
    ensures s.current.nsent == |s.current.delivered|
  {
    assert FeedKey(0);
  }

  /** What the step of a removal does to the fields the feed itself has. */
  lemma RemovalFields(s: State, ch: Channel)
    requires Enabled(s, SelectRemove(ch)) && IndexOf(s.sendCases, SendTo(ch)) >= 0
    ensures Step(s, SelectRemove(ch)).Some?
    ensures var after, index := Step(s, SelectRemove(ch)).value, IndexOf(s.sendCases, SendTo(ch));
      && after.sendCases == Without(s.sendCases, index) && after.phase == Trying(1)
      && after.cases == (if index < s.cases then s.cases - 1 else s.cases)
      && after.etype == s.etype && after.inbox == s.inbox && after.current.nsent == s.current.nsent
  {
  }

  lemma IdleRemovalFields(s: State, ch: Channel)
    requires Enabled(s, RemoveIdle(ch)) && IndexOf(s.sendCases, SendTo(ch)) >= 0
    ensures Step(s, RemoveIdle(ch)).Some?
    ensures var after := Step(s, RemoveIdle(ch)).value;
      && after.sendCases == Without(s.sendCases, IndexOf(s.sendCases, SendTo(ch))) && after.phase == s.phase
      && after.cases == s.cases && after.etype == s.etype && after.inbox == s.inbox && after.current == s.current
  {
  }

  /** The feed itself: `sendCases` is an array that is permuted and shifted in place,
      and the slice of active cases is its prefix of length `cases`. Each method is one
      step, proved against the state machine. */
  class Feed {
    var etype: Option<ElemType>
    var inbox: seq<Case>
    var sendCases: array<Case>
    var len: nat
    var cases: nat
    var phase: Phase
    var nsent: nat
    ghost var history: State

    ghost function Value(): State
      reads this, sendCases
      requires len <= sendCases.Length
    {
      history.(etype := etype, inbox := inbox, sendCases := sendCases[..len], cases := cases, phase := phase,
               current := history.current.(nsent := nsent))
    }

    ghost predicate Valid()
      reads this, sendCases
    {
      len <= sendCases.Length && Sound(Value())
    }

    constructor ()
      ensures Valid() && Value() == Init() && fresh(sendCases)
    {
      etype, inbox, len, cases, phase, nsent, history := None, [], 1, 0, Idle, 0, Init();
      sendCases := new Case[1](_ => RemoveSub);
      new;
      assert sendCases[..len] == [RemoveSub];
      InitInv();
    }

    method Subscribe(ch: Channel, elem: ElemType) returns (ok: bool)
      requires Valid()
      modifies this
      ensures Valid() && sendCases == old(sendCases) && Step(old(Value()), Event.Subscribe(ch, elem)) == Some(Value())
      ensures ok == TypeOk(old(Value()), elem)
    {
      ghost var before := Value();
      ok := etype.None? || etype.value == elem;
      if ok {
        etype, inbox := Some(elem), inbox + [SendTo(ch)];
      }
      SoundStep(before, Event.Subscribe(ch, elem));
      ghost var after := Step(before, Event.Subscribe(ch, elem)).value;
      history := after;
      assert sendCases[..len] == after.sendCases;
      assert Value() == after;
    }

    /** The part of remove before its select. The result says that the subscription was
        still in the inbox. */
    method Unsubscribe(ch: Channel) returns (removed: bool)
      requires Valid() && Enabled(Value(), Event.Unsubscribe(ch))
      modifies this
      ensures Valid() && sendCases == old(sendCases) && Step(old(Value()), Event.Unsubscribe(ch)) == Some(Value())
      ensures removed == (SendTo(ch) in old(inbox))
    {
      ghost var before := Value();
      var index := IndexOf(inbox, SendTo(ch));
      removed := index != -1;
      if removed { inbox := Without(inbox, index); }
      SoundStep(before, Event.Unsubscribe(ch));
      ghost var after := Step(before, Event.Unsubscribe(ch)).value;
      history := after;
      assert sendCases[..len] == after.sendCases;
      assert Value() == after;
    }

    /** Finds a case that is there and deletes it. */
    method DeleteCase(c: Case) returns (index: nat)
      requires len <= sendCases.Length && c in sendCases[..len]
      modifies `len, sendCases
      ensures len + 1 == old(len) && sendCases == old(sendCases) && index == IndexOf(old(sendCases[..len]), c)
      ensures sendCases[..len] == Without(old(sendCases[..len]), index)
    {
      index := Find(sendCases, len, c);
      Delete(sendCases, len, index);
      len := len - 1;
    }

    /** The remover got the send lock. */
    method RemoveIdle(ch: Channel)
      requires Valid() && Enabled(Value(), Event.RemoveIdle(ch))
      modifies this, sendCases
      ensures Valid() && sendCases == old(sendCases) && Step(old(Value()), Event.RemoveIdle(ch)) == Some(Value())
    {
      ghost var before := Value();
      SoundStep(before, Event.RemoveIdle(ch));
      IdleRemovalFields(before, ch);
      ghost var after := Step(before, Event.RemoveIdle(ch)).value;
      var _ := DeleteCase(SendTo(ch));
      history := after;
      assert sendCases[..len] == after.sendCases;
      assert Value() == after;
    }

    /** The select of a Send received the channel of a remover. */
    method SelectRemove(ch: Channel)
      requires Valid() && Enabled(Value(), Event.SelectRemove(ch))
      modifies this, sendCases
      ensures Valid() && sendCases == old(sendCases) && Step(old(Value()), Event.SelectRemove(ch)) == Some(Value())
    {
      ghost var before := Value();
      SoundStep(before, Event.SelectRemove(ch));
      RemovalFields(before, ch);
      ghost var after := Step(before, Event.SelectRemove(ch)).value;
      DropCase(SendTo(ch));
      phase, history := Trying(1), after;
      assert sendCases[..len] == after.sendCases;
      assert Value() == after;
    }

    /** Deletes a case from both slices. */
    method DropCase(c: Case)
      requires len <= sendCases.Length && c in sendCases[..len]
      modifies `len, `cases, sendCases
      ensures len + 1 == old(len) && sendCases == old(sendCases)
      ensures sendCases[..len] == Without(old(sendCases[..len]), IndexOf(old(sendCases[..len]), c))
      ensures cases == if IndexOf(old(sendCases[..len]), c) < old(cases) then old(cases) - 1 else old(cases)
    {
      var index := DeleteCase(c);
      if index < cases { cases := cases - 1; }
    }

    /** Takes the send lock and merges the inbox. */
    method BeginSend(elem: ElemType) returns (ok: bool)
      requires Valid() && phase.Idle?
      modifies this
      ensures Valid() && fresh(sendCases) && Step(old(Value()), Event.BeginSend(elem)) == Some(Value())
      ensures ok == TypeOk(old(Value()), elem)
    {
      ghost var before := Value();
      SoundStep(before, Event.BeginSend(elem));
      ghost var after := Step(before, Event.BeginSend(elem)).value;
      var merged := sendCases[..len] + inbox;
      sendCases := new Case[|merged|](i requires 0 <= i < |merged| => merged[i]);
      len, inbox := |merged|, [];
      assert sendCases[..len] == merged;
      ok := etype.None? || etype.value == elem;
      if ok { etype, cases, phase, nsent := Some(elem), len, Trying(1), 0; }
      history := after;
      assert sendCases[..len] == after.sendCases;
      assert Value() == after;
    }

    /** The fast path at its current position; the channel is ready or not. */
    method TrySend(ready: bool)
      requires Valid() && phase.Trying? && phase.i < cases
      modifies this, sendCases
      ensures Valid() && sendCases == old(sendCases) && Step(old(Value()), Event.TrySend(ready)) == Some(Value())
    {
      ghost var before := Value();
      SoundStep(before, Event.TrySend(ready));
      ghost var after := Step(before, Event.TrySend(ready)).value;
      if ready {
        Deactivate(sendCases, cases, phase.i);
        cases, nsent := cases - 1, nsent + 1;
      } else {
        phase := Trying(phase.i + 1);
      }
      history := after;
      assert sendCases[..len] == after.sendCases;
      assert Value() == after;
    }

    /** The end of the fast path: the Send is over, or waits in the select. The result of a
        Send is the number of its deliveries. */
    method EndTry() returns (done: bool, sent: nat)
      requires Valid() && phase.Trying? && phase.i >= cases
      modifies this
      ensures Valid() && sendCases == old(sendCases) && Step(old(Value()), Event.EndTry) == Some(Value())
      ensures done == phase.Idle? && sent == |Value().current.delivered|
    {
      ghost var before := Value();
      SoundStep(before, Event.EndTry);
      ghost var after := Step(before, Event.EndTry).value;
      done := cases == 1;
      phase, sent := if done then Idle else Selecting, nsent;
      CountsDeliveries(before);
      history := after;
      assert sendCases[..len] == after.sendCases;
      assert Value() == after;
    }

    /** The select chose the case of a channel. */
    method SelectSend(chosen: nat)
      requires Valid() && phase.Selecting? && 0 < chosen < cases
      modifies this, sendCases
      ensures Valid() && sendCases == old(sendCases) && Step(old(Value()), Event.SelectSend(chosen)) == Some(Value())
    {
      ghost var before := Value();
      SoundStep(before, Event.SelectSend(chosen));
      ghost var after := Step(before, Event.SelectSend(chosen)).value;
      Deactivate(sendCases, cases, chosen);
      assert sendCases[..len] == Swapped(before.sendCases, chosen, cases - 1) == after.sendCases;
      cases, phase, nsent := cases - 1, Trying(1), nsent + 1;
      history := after;
      assert sendCases[..len] == after.sendCases;
      assert Value() == after;
    }
  }
}
