/** The section indexer. Its update runs in two phases: the lock is dropped while a
    section is read from a chain that may be reorganised underneath it. Every method
    below is one locked or atomic step, and the canonical hashes that a step reads are
    a parameter, so that the chain may change in any way between two steps. */
module ChainIndexers {
  import opened Transactions
  import opened Chains

  type Heads = map<nat, Header>

  /** SectionHead: the stored head, or the zero hash. */
  function HeadAt(heads: Heads, section: nat): BlockHash {
    if section in heads then Some(heads[section]) else None
  }

  /** The head a section builds on. */
  function HeadBefore(heads: Heads, section: nat): BlockHash {
    if section == 0 then None else HeadAt(heads, section - 1)
  }

  function Below(heads: Heads, sections: nat): Heads {
    map i | i in heads && i < sections :: heads[i]
  }

  predicate IndexKey(k: nat) { true }

  /** The head of a section and the one before it are stored, and the former descends
      from the latter, one section above it. */
  ghost predicate LinkedAt(heads: Heads, i: nat, size: nat) {
    forall k {:trigger IndexKey(k)} :: IndexKey(k) ==>
      i in heads && (i > 0 ==> i - 1 in heads) && Descends(HeadAt(heads, i), HeadBefore(heads, i), size)
  }

  /** Every stored head is linked to the one before it, except those of checkpoints,
      which are trusted. */
  ghost predicate Linked(heads: Heads, stored: nat, trusted: set<nat>, size: nat) {
    forall k {:trigger IndexKey(k)} :: IndexKey(k) ==>
      && (forall i :: i in heads ==> i < stored)
      && (forall i :: i in heads && i !in trusted ==> LinkedAt(heads, i, size))
  }

  lemma SameLink(heads: Heads, heads': Heads, i: nat, size: nat)
    requires LinkedAt(heads, i, size)
    requires HeadAt(heads', i) == HeadAt(heads, i) && HeadBefore(heads', i) == HeadBefore(heads, i)
    ensures LinkedAt(heads', i, size)
  {
    assert IndexKey(0);
  }

  /** Rolling back keeps the links. */
  lemma RollBack(heads: Heads, stored: nat, trusted: set<nat>, size: nat, sections: nat)
    requires Linked(heads, stored, trusted, size) && sections <= stored
    ensures Linked(Below(heads, sections), sections, trusted, size)
  {
    assert IndexKey(0);
    var heads' := Below(heads, sections);
    forall i | i in heads' && i !in trusted ensures LinkedAt(heads', i, size) { SameLink(heads, heads', i, size); }
  }

  /** Storing the head of a section whose predecessor is stored. */
  lemma Extend(heads: Heads, stored: nat, trusted: set<nat>, size: nat, section: nat, head: Header)
    requires Linked(heads, stored, trusted, size) && (section > 0 ==> section - 1 in heads)
    requires Descends(Some(head), HeadBefore(heads, section), size)
    ensures section <= stored
    ensures Linked(Below(heads[section := head], section + 1), section + 1, trusted - {section}, size)
  {
    assert IndexKey(0);
    var heads' := Below(heads[section := head], section + 1);
    NewLink(heads, heads', section, size, head);
    forall i | i in heads' && i !in trusted - {section} ensures LinkedAt(heads', i, size) {
      if i < section { SameLink(heads, heads', i, size); }
    }
  }

  lemma NewLink(heads: Heads, heads': Heads, section: nat, size: nat, head: Header)
    requires section > 0 ==> section - 1 in heads
    requires Descends(Some(head), HeadBefore(heads, section), size)
    requires HeadAt(heads', section) == Some(head) && HeadBefore(heads', section) == HeadBefore(heads, section)
    ensures LinkedAt(heads', section, size)
  {
  }

  /** Trusting a checkpoint above everything stored. */
  lemma Trust(heads: Heads, stored: nat, trusted: set<nat>, size: nat, section: nat, head: Header)
    requires Linked(heads, stored, trusted, size) && stored <= section
    ensures Linked(Below(heads[section := head], section + 1), section + 1, trusted + {section}, size)
  {
    assert IndexKey(0);
    var heads' := Below(heads[section := head], section + 1);
    forall i | i in heads' && i !in trusted + {section} ensures LinkedAt(heads', i, size) {
      SameLink(heads, heads', i, size);
    }
  }

  /** A section being processed: `last` is the hash of the last header read. */
  datatype Job = Job(section: nat, oldHead: BlockHash, last: BlockHash, number: nat, status: Status)
  datatype Status = Reading | Failed | Committed

  /** What was read so far descends from the old head. Without an old head only the
      first section can be read. */
  ghost predicate JobOk(job: Job, size: nat) {
    forall k {:trigger IndexKey(k)} :: IndexKey(k) ==>
      && (job.section == 0 ==> job.oldHead.None?)
      && job.section * size <= job.number <= (job.section + 1) * size
      && Descends(job.last, job.oldHead, job.number - job.section * size)
      && (job.section > 0 && job.oldHead.None? ==> job.number == job.section * size)
      && (job.status.Committed? ==> job.number == (job.section + 1) * size)
  }

  /** From a canonical head to the one before it. */
  lemma CanonicalBelow(heads: Heads, above: nat, size: nat, canon: map<nat, Header>, tip: Header, top: nat, bottom: nat)
    requires 0 < above && LinkedAt(heads, above, size) && Canonical(canon, tip)
    requires top == bottom + size && top <= Number(tip) && HeadAt(heads, above) == Some(canon[top])
    ensures above - 1 in heads && heads[above - 1] == canon[bottom]
  {
    assert IndexKey(0);
    DescendsIsAncestor(heads[above], heads[above - 1], size);
    AncestorOfAncestor(tip, top, bottom);
  }

  /** If the last stored head is canonical, so are all below it down to the last
      checkpoint: the single comparison of verifyLastHead is enough. */
  lemma {:induction false} AllCanonical(heads: Heads, stored: nat, trusted: set<nat>, size: nat, canon: map<nat,
                                        Header>, tip: Header, i: nat)
    requires size > 0 && Linked(heads, stored, trusted, size) && Canonical(canon, tip)
    requires i < stored && stored * size - 1 <= Number(tip) && (forall j :: i < j < stored ==> j !in trusted)
    requires HeadAt(heads, stored - 1) == Some(canon[stored * size - 1])
    ensures (i + 1) * size - 1 <= Number(tip) && HeadAt(heads, i) == Some(canon[(i + 1) * size - 1])
    decreases stored - i
  {
    if i + 1 < stored {
      var above := i + 1;
      AllCanonical(heads, stored, trusted, size, canon, tip, above);
      assert (above + 1) * size == (i + 1) * size + size;
      assert LinkedAt(heads, above, size) by { assert IndexKey(0); }
      CanonicalBelow(heads, above, size, canon, tip, (above + 1) * size - 1, (i + 1) * size - 1);
    }
  }

  /** Canonical hashes as the database keeps them: by number. */
  ghost predicate Numbered(canon: map<nat, Header>) {
    forall n :: n in canon ==> Number(canon[n]) == n
  }

  function CanonAt(canon: map<nat, Header>, n: nat): BlockHash {
    if n in canon then Some(canon[n]) else None
  }

  lemma JobStarts(section: nat, oldHead: BlockHash, size: nat)
    requires section == 0 ==> oldHead.None?
    ensures JobOk(Job(section, oldHead, oldHead, section * size, Reading), size)
  {
    assert (section + 1) * size == section * size + size;
  }

  lemma JobReads(job: Job, size: nat, header: Header)
    requires JobOk(job, size) && job.number < (job.section + 1) * size && !job.status.Committed?
    requires Number(header) == job.number && ParentHash(header) == job.last
    ensures JobOk(job.(last := Some(header), number := job.number + 1), size)
  {
    assert IndexKey(0);
    if job.section > 0 && size > 0 {
      assert job.section * size >= 1;
    }
  }

  /** A committed section has a head, one section above the old one. */
  lemma JobDone(job: Job, size: nat)
    requires JobOk(job, size) && size > 0 && job.status.Committed?
    ensures job.last.Some? && Descends(job.last, job.oldHead, size) && (job.section > 0 <==> job.oldHead.Some?)
  {
    assert IndexKey(0);
    assert (job.section + 1) * size == job.section * size + size;
  }

  /** The head that a section was built on is still stored. */
  predicate StillBuilds(heads: Heads, job: Job) {
    job.status.Committed? && (job.section == 0 || job.oldHead == HeadAt(heads, job.section - 1))
  }

  /** Storing a committed section whose old head is still stored. */
  lemma JobStores(heads: Heads, stored: nat, trusted: set<nat>, size: nat, job: Job)
    requires Linked(heads, stored, trusted, size) && JobOk(job, size) && size > 0 && StillBuilds(heads, job)
    ensures job.last.Some? && job.section <= stored
    ensures Linked(Below(heads[job.section := job.last.value], job.section + 1), job.section + 1,
                   trusted - {job.section}, size)
  {
    JobDone(job, size);
    Extend(heads, stored, trusted, size, job.section, job.last.value);
  }

  /** What can happen to an indexer; `canon` is what the step reads from the chain. */
  datatype Event =
    | ChainHead(head: nat, reorg: bool, canon: map<nat, Header>)
    | Checkpoint(section: nat, shead: Header)
    | Query(canon: map<nat, Header>)
    | Begin(canon: map<nat, Header>)
    | ResetFailed
    | Read(canon: map<nat, Header>, found: bool, processed: bool)
    | Commit(ok: bool)
    | End(canon: map<nat, Header>)
    | Restart

  /** The indexer as a value. `trusted` are the sections whose head came from a
      checkpoint; a restart forgets the checkpoints but not the heads. */
  datatype Index = Index(
    heads: Heads, stored: nat, known: nat, cascaded: nat, checkpointSections: nat, checkpointHead: BlockHash,
    job: Option<Job>, trusted: set<nat>, restarted: bool)

  ghost predicate Consistent(s: Index, size: nat) {
    && size > 0 && Linked(s.heads, s.stored, s.trusted, size)
    && (s.job.Some? ==> JobOk(s.job.value, size))
    && (!s.restarted ==> forall t :: t in s.trusted ==> t < s.checkpointSections)
  }

  /** The last stored head is canonical, unless the checkpoint vouches for it. */
  ghost predicate Verified(s: Index, canon: map<nat, Header>, size: nat)
    requires size > 0
  {
    || s.stored == 0 || s.stored <= s.checkpointSections
    || HeadAt(s.heads, s.stored - 1) == CanonAt(canon, s.stored * size - 1)
  }

  /** Rolled back to a verified head; what is dropped was not canonical. */
  ghost predicate RolledBack(s: Index, canon: map<nat, Header>, size: nat, t: Index)
    requires size > 0
  {
    && t == s.(heads := Below(s.heads, t.stored), stored := t.stored) && Verified(t, canon, size)
    && t.stored <= s.stored && (t.stored < s.stored ==> s.checkpointSections <= t.stored)
    && forall i :: t.stored <= i < s.stored ==> HeadAt(s.heads, i) != CanonAt(canon, (i + 1) * size - 1)
  }

  /** Without a restart, a verified head beyond the checkpoint makes every head from the
      checkpoint's on canonical: the single comparison of verifyLastHead is enough. */
  lemma VerifiedIsCanonical(s: Index, canon: map<nat, Header>, size: nat, tip: Header, i: nat)
    requires Consistent(s, size) && !s.restarted && Verified(s, canon, size) && Canonical(canon, tip)
    requires s.checkpointSections < s.stored && s.stored * size - 1 <= Number(tip)
    requires s.checkpointSections <= i + 1 && i < s.stored
    ensures (i + 1) * size - 1 <= Number(tip) && HeadAt(s.heads, i) == CanonAt(canon, (i + 1) * size - 1)
  {
    AllCanonical(s.heads, s.stored, s.trusted, size, canon, tip, i);
  }

  /** What a reorganisation to the ancestor at height `head` leaves. */
  ghost function Reorged(s: Index, head: nat, size: nat): Index
    requires size > 0
  {
    var sections := Complete(head + 1, size, s.checkpointSections);
    var stored := Min(s.stored, Max((head + 1) / size, s.checkpointSections));
    s.(heads := Below(s.heads, stored), stored := stored, known := Min(s.known, sections),
       cascaded := Min(s.cascaded, sections * size))
  }

  /** The sections that are known at a new head: the confirmed ones, and above a
      checkpoint only if that is on the chain. */
  ghost function KnownAt(s: Index, head: nat, canon: map<nat, Header>, size: nat, confirms: nat): nat
    requires size > 0
  {
    var sections := if head >= confirms then Complete(head + 1 - confirms, size, s.checkpointSections) else 0;
    if s.known < s.checkpointSections && CanonAt(canon, s.checkpointSections * size - 1) != s.checkpointHead
    then s.known
    else Max(s.known, sections)
  }

  lemma QuotientIs(n: nat, size: nat, k: nat)
    requires size > 0
    ensures k <= n / size <==> k * size <= n
  {
    var q := n / size;
    assert q * size <= n < (q + 1) * size;
    if k <= q { Scaled(k, q, size); } else { Scaled(q + 1, k, size); }
  }

  lemma Scaled(a: nat, b: nat, size: nat)
    requires a <= b
    ensures a * size <= b * size
  {
  }

  /** The section lies at or below the height, or within the checkpoint. */
  ghost predicate Survives(s: Index, i: nat, head: nat, size: nat) {
    (i + 1) * size <= head + 1 || i < s.checkpointSections
  }

  /** A reorganisation leaves exactly the stored heads of sections that end at or below the
      common ancestor or are within the checkpoint. */
  lemma ReorgKeepsHeads(s: Index, head: nat, size: nat, i: nat)
    requires Consistent(s, size)
    ensures var t := Reorged(s, head, size);
      && (i in t.heads <==> i in s.heads && Survives(s, i, head, size))
      && (i in t.heads ==> t.heads[i] == s.heads[i])
  {
    assert forall k :: k in s.heads ==> k < s.stored by { assert IndexKey(0); }
    QuotientIs(head + 1, size, i + 1);
  }

  /** Nothing above the ancestor is stored, known or announced to the children any more; what
      was below it stays so, unless the ancestor lies below the checkpoint, where nothing is
      known. */
  lemma ReorgLowers(s: Index, head: nat, size: nat)
    requires size > 0
    ensures var t := Reorged(s, head, size);
      && t.stored <= s.stored && (t.stored > s.checkpointSections ==> t.stored * size <= head + 1)
      && (t.stored < s.stored ==> s.checkpointSections <= t.stored && head + 1 < (t.stored + 1) * size)
      && t.known <= s.known && t.known * size <= head + 1
      && t.cascaded <= s.cascaded && t.cascaded <= head + 1
      && (s.checkpointSections * size <= head + 1 ==>
            && (t.known < s.known ==> head + 1 < (t.known + 1) * size)
            && (t.cascaded < s.cascaded ==> head + 1 < t.cascaded + size))
      && (head + 1 < s.checkpointSections * size ==> t.known == 0 && t.cascaded == 0)
  {
    var q := (head + 1) / size;
    var sections := Complete(head + 1, size, s.checkpointSections);
    QuotientIs(head + 1, size, s.checkpointSections);
    QuotientIs(head + 1, size, q + 1);
    QuotientIs(head + 1, size, q);
    NextMultiple(q, size);
    assert sections == 0 || sections == q;
    Scaled(Min(s.known, sections), q, size);
    if Reorged(s, head, size).stored <= q { Scaled(Reorged(s, head, size).stored, q, size); }
  }

  lemma NextMultiple(q: nat, size: nat)
    ensures (q + 1) * size == q * size + size
  {
  }

  /** What a new head makes known: if the checkpoint is passed or on the chain, every number
      of sections that was known, or whose last block has the confirmations it needs and
      that reaches beyond a confirmed checkpoint; otherwise nothing new. */
  lemma KnownMeans(s: Index, head: nat, canon: map<nat, Header>, size: nat, confirms: nat, n: nat)
    requires size > 0
    ensures var passed := s.known >= s.checkpointSections
        || CanonAt(canon, s.checkpointSections * size - 1) == s.checkpointHead;
      n <= KnownAt(s, head, canon, size, confirms) <==>
        || n <= s.known
        || (passed && n * size + confirms <= head + 1 && s.checkpointSections * size + confirms <= head + 1)
  {
    if head >= confirms {
      QuotientIs(head + 1 - confirms, size, n);
      QuotientIs(head + 1 - confirms, size, s.checkpointSections);
    } else if n > 0 {
      Scaled(1, n, size);
    }
  }

  /** What trusting a checkpoint leaves: nothing changes unless it is above everything
      stored and above the last one. */
  ghost function Trusted(s: Index, section: nat, shead: Header): Index {
    if section < s.stored || section < s.checkpointSections then s
    else s.(heads := s.heads[section := shead], stored := section + 1, checkpointSections := section + 1,
            checkpointHead := Some(shead), trusted := s.trusted + {section})
  }

  /** The end of an update: the section is stored only if it builds on a stored head. */
  ghost predicate Ended(s: Index, job: Job, canon: map<nat, Header>, size: nat, t: Index)
    requires size > 0
  {
    if StillBuilds(s.heads, job) && job.last.Some? then
      t == s.(heads := Below(s.heads[job.section := job.last.value], job.section + 1), stored := job.section + 1,
              cascaded := (job.section + 1) * size - 1, job := None, trusted := s.trusted - {job.section})
    else RolledBack(s.(known := t.stored, job := None), canon, size, t)
  }

  /** A turn of the loop over the headers of a section. */
  ghost function Reads(job: Job, canon: map<nat, Header>, found: bool, processed: bool): Job {
    var next := CanonAt(canon, job.number);
    if next.Some? && ParentHash(next.value) == job.last && found && processed
    then job.(last := next, number := job.number + 1)
    else job.(status := Failed)
  }

  /** The effect of an event; one that cannot happen now is passed over. */
  ghost predicate StepRel(s: Index, ev: Event, size: nat, confirms: nat, t: Index)
    requires size > 0
  {
    match ev
    case ChainHead(head, reorg, canon) =>
      t == if reorg then Reorged(s, head, size) else s.(known := KnownAt(s, head, canon, size, confirms))
    case Checkpoint(section, shead) => t == Trusted(s, section, shead)
    case Query(canon) => RolledBack(s, canon, size, t)
    case Begin(canon) =>
      if s.job.None? && s.known > s.stored then
        var oldHead := HeadBefore(t.heads, t.stored);
        && t.job == Some(Job(t.stored, oldHead, oldHead, t.stored * size, Reading))
        && RolledBack(s.(job := t.job), canon, size, t)
      else t == s
    case ResetFailed =>
      if s.job.Some? && s.job.value.status.Reading? && s.job.value.number == s.job.value.section * size
      then t == s.(heads := map[], stored := 0, job := Some(s.job.value.(status := Failed)))
      else t == s
    case Read(canon, found, processed) =>
      if s.job.Some? && s.job.value.status.Reading? && s.job.value.number < (s.job.value.section + 1) * size
      then t == s.(job := Some(Reads(s.job.value, OwnNumbers(canon), found, processed)))
      else t == s
    case Commit(ok) =>
      if s.job.Some? && s.job.value.status.Reading? && s.job.value.number == (s.job.value.section + 1) * size
      then t == s.(job := Some(s.job.value.(status := if ok then Committed else Failed)))
      else t == s
    case End(canon) =>
      if s.job.Some? && !s.job.value.status.Reading? then Ended(s, s.job.value, canon, size, t) else t == s
    case Restart =>
      t == s.(known := 0, cascaded := 0, checkpointSections := 0, checkpointHead := None, job := None,
              restarted := true)
  }

  /** Canonical hashes are kept by number: what is under a wrong number is not read. */
  function OwnNumbers(canon: map<nat, Header>): map<nat, Header> {
    map n | n in canon && Number(canon[n]) == n :: canon[n]
  }

  // ----- checkpoints

  /** Everything below the checkpoint counts as stored, and what is being read is above. */
  ghost predicate Above(s: Index) {
    s.stored >= s.checkpointSections && (s.job.Some? ==> s.job.value.section >= s.checkpointSections)
  }

  /** The stored sections never fall below the checkpoint, as long as it is set while no
      section is being read and the backend can be reset. */
  lemma StaysAbove(s: Index, ev: Event, size: nat, confirms: nat, t: Index)
    requires size > 0 && Above(s) && StepRel(s, ev, size, confirms, t)
    requires !ev.ResetFailed? && (ev.Checkpoint? ==> s.job.None?)
    ensures Above(t)
  {
  }

  /** A checkpoint that is set while a section below it is being read is lost if that is
      stored. */
  lemma CheckpointLostIff(s: Index, size: nat, confirms: nat, canon: map<nat, Header>, t: Index)
    requires size > 0 && s.job.Some? && s.job.value.last.Some? && StillBuilds(s.heads, s.job.value)
    requires StepRel(s, End(canon), size, confirms, t)
    ensures t.stored < t.checkpointSections <==> s.job.value.section + 1 < s.checkpointSections
  {
  }

  // ----- progress

  /** The canonical hash below a number, or the zero hash. */
  function Beneath(canon: map<nat, Header>, n: nat): BlockHash {
    if n == 0 then None else CanonAt(canon, n - 1)
  }

  /** A canonical header is read on top of the one before it. */
  lemma ReadsOne(canon: map<nat, Header>, job: Job)
    requires job.last == Beneath(canon, job.number) && OnTop(canon, job.number)
    ensures var next := Reads(job, OwnNumbers(canon), true, true);
      next == job.(last := Beneath(canon, job.number + 1), number := job.number + 1)
  {
    var n := job.number;
    assert CanonAt(OwnNumbers(canon), n) == Some(canon[n]);
  }

  /** The hash at a number is there, and its parent is the one below. */
  ghost predicate OnTop(canon: map<nat, Header>, n: nat) {
    n in canon && Number(canon[n]) == n && ParentHash(canon[n]) == Beneath(canon, n)
  }

  lemma CanonicalIsOnTop(canon: map<nat, Header>, tip: Header, n: nat)
    requires Canonical(canon, tip) && n <= Number(tip)
    ensures OnTop(canon, n)
  {
    assert canon[n] == AncestorAt(tip, n);
    if n > 0 {
      AncestorOfAncestor(tip, n, n - 1);
      assert canon[n - 1] == AncestorAt(tip, n - 1);
    }
  }

  /** The effect of an event, kept folded. */
  ghost predicate Leads(s: Index, ev: Event, size: nat, confirms: nat, t: Index)
    requires size > 0
  {
    forall k {:trigger IndexKey(k)} :: IndexKey(k) ==> StepRel(s, ev, size, confirms, t)
  }

  /** The steps of an update between its locked parts: nothing else happens, the chain stays
      as it is, and the backend does not fail. */
  ghost predicate ReadsSection(states: seq<Index>, size: nat, confirms: nat, canon: map<nat, Header>)
    requires size > 0
  {
    && |states| == size + 1
    && forall k :: 0 <= k < size ==> Leads(states[k], Read(canon, true, true), size, confirms, states[k + 1])
  }

  lemma {:induction false} ReadsAll(states: seq<Index>, size: nat, confirms: nat, canon: map<nat, Header>, tip: Header,
                                    job: Job, k: nat)
    requires size > 0 && ReadsSection(states, size, confirms, canon) && Canonical(canon, tip) && k <= size
    requires states[0].job == Some(job) && job.status.Reading? && job.number == job.section * size
    requires job.last == Beneath(canon, job.number) && job.number + size <= Number(tip) + 1
    ensures states[k] == states[0].(job := Some(job.(last := Beneath(canon, job.number + k), number := job.number + k)))
  {
    if k > 0 {
      var last := k - 1;
      ReadsAll(states, size, confirms, canon, tip, job, last);
      NextMultiple(job.section, size);
      assert Leads(states[last], Read(canon, true, true), size, confirms, states[last + 1]);
      CanonicalIsOnTop(canon, tip, job.number + last);
      ReadsOne(canon, states[last].job.value);
      ReadStep(states[last], states[k], size, confirms, canon, states[last].job.value);
    }
  }

  lemma ReadStep(s: Index, t: Index, size: nat, confirms: nat, canon: map<nat, Header>, job: Job)
    requires size > 0 && s.job == Some(job) && job.status.Reading? && job.number < (job.section + 1) * size
    requires Leads(s, Read(canon, true, true), size, confirms, t)
    ensures t == s.(job := Some(Reads(job, OwnNumbers(canon), true, true)))
  {
    assert IndexKey(0);
  }

  lemma BeginStep(s: Index, t: Index, size: nat, confirms: nat, canon: map<nat, Header>)
    requires size > 0 && s.job.None? && s.known > s.stored && Leads(s, Begin(canon), size, confirms, t)
    requires t.stored <= s.checkpointSections ==> HeadBefore(t.heads, t.stored) == Beneath(canon, t.stored * size)
    ensures t.stored <= s.stored && t.known == s.known && t.heads == Below(s.heads, t.stored)
    ensures t.job == Some(Job(t.stored, Beneath(canon, t.stored * size), Beneath(canon, t.stored * size),
                              t.stored * size, Reading))
    ensures HeadBefore(t.heads, t.stored) == Beneath(canon, t.stored * size)
  {
    assert IndexKey(0);
    if t.stored > 0 { Scaled(1, t.stored, size); }
  }

  /** Committing and storing what was read. */
  lemma EndStep(s: Index, done: Index, t: Index, size: nat, confirms: nat, canon: map<nat, Header>, job: Job)
    requires size > 0 && s.job == Some(job) && job.status.Reading? && job.number == (job.section + 1) * size
    requires job.last.Some? && HeadBefore(s.heads, job.section) == job.oldHead
    requires Leads(s, Commit(true), size, confirms, done) && Leads(done, End(canon), size, confirms, t)
    ensures t == s.(heads := Below(s.heads[job.section := job.last.value], job.section + 1), stored := job.section + 1,
                    cascaded := (job.section + 1) * size - 1, job := None, trusted := s.trusted - {job.section})
  {
    assert IndexKey(0);
  }

  /** A read fails exactly if the header is missing or not on top of the last one, or the
      backend does not take it. */
  lemma ReadFailsIff(s: Index, t: Index, size: nat, confirms: nat, canon: map<nat, Header>, found: bool,
                     processed: bool)
    requires size > 0 && Numbered(canon) && s.job.Some? && s.job.value.status.Reading?
    requires s.job.value.number < (s.job.value.section + 1) * size
    requires StepRel(s, Read(canon, found, processed), size, confirms, t)
    ensures t == s.(job := t.job) && t.job.Some?
    ensures t.job.value.status.Failed? <==>
      !found || !processed || s.job.value.number !in canon
      || ParentHash(canon[s.job.value.number]) != s.job.value.last
  {
  }

  /** An update that failed stores nothing, and is not tried again until the next head. */
  lemma FailureStoresNothing(s: Index, t: Index, size: nat, confirms: nat, canon: map<nat, Header>)
    requires size > 0 && s.job.Some? && s.job.value.status.Failed? && StepRel(s, End(canon), size, confirms, t)
    ensures t.stored <= s.stored && t.known == t.stored && t.job.None? && t.cascaded == s.cascaded
    ensures forall i :: i in t.heads ==> i in s.heads && t.heads[i] == s.heads[i]
  {
  }

  /** An update that nothing interferes with stores one more section, with the canonical
      hash of its last block: from a state that knows more sections than it has stored, once
      the last stored head is verified. */
  lemma UpdateStoresOne(s: Index, states: seq<Index>, done: Index, t: Index, size: nat, confirms: nat,
                        canon: map<nat, Header>, tip: Header)
    requires size > 0 && s.job.None? && s.known > s.stored && |states| == size + 1
    requires Leads(s, Begin(canon), size, confirms, states[0]) && ReadsSection(states, size, confirms, canon)
    requires Leads(states[size], Commit(true), size, confirms, done) && Leads(done, End(canon), size, confirms, t)
    requires Canonical(canon, tip) && (states[0].stored + 1) * size <= Number(tip) + 1
    requires states[0].stored <= s.checkpointSections ==>
      HeadBefore(states[0].heads, states[0].stored) == Beneath(canon, states[0].stored * size)
    ensures t.stored == states[0].stored + 1 <= s.stored + 1 && t.job.None? && t.known == s.known
    ensures HeadAt(t.heads, t.stored - 1) == Some(canon[t.stored * size - 1]) && t.cascaded == t.stored * size - 1
    ensures forall i :: 0 <= i < states[0].stored ==> HeadAt(t.heads, i) == HeadAt(s.heads, i)
  {
    var section, low, high := states[0].stored, states[0].stored * size, (states[0].stored + 1) * size;
    NextMultiple(section, size);
    AllRead(s, states, size, confirms, canon, tip, section, low, high);
    StoreRead(states[0], states[size], done, t, size, confirms, canon, section, high, Beneath(canon, low),
              canon[high - 1]);
  }

  /** The section that is begun has been read. */
  lemma AllRead(s: Index, states: seq<Index>, size: nat, confirms: nat, canon: map<nat, Header>, tip: Header,
                section: nat, low: nat, high: nat)
    requires size > 0 && s.job.None? && s.known > s.stored && |states| == size + 1 && Canonical(canon, tip)
    requires Leads(s, Begin(canon), size, confirms, states[0]) && ReadsSection(states, size, confirms, canon)
    requires section == states[0].stored && low == section * size && high == low + size <= Number(tip) + 1
    requires section <= s.checkpointSections ==> HeadBefore(states[0].heads, section) == Beneath(canon, low)
    ensures states[0].stored <= s.stored && states[0].known == s.known && states[0].heads == Below(s.heads, section)
    ensures HeadBefore(states[0].heads, section) == Beneath(canon, low) && high - 1 in canon
    ensures states[size]
      == states[0].(job := Some(Job(section, Beneath(canon, low), Some(canon[high - 1]), high, Reading)))
  {
    BeginStep(s, states[0], size, confirms, canon);
    ReadsAll(states, size, confirms, canon, tip, states[0].job.value, size);
    CanonicalIsOnTop(canon, tip, high - 1);
  }

  /** It is stored. */
  lemma StoreRead(begun: Index, read: Index, done: Index, t: Index, size: nat, confirms: nat, canon: map<nat, Header>,
                  section: nat, high: nat, oldHead: BlockHash, head: Header)
    requires size > 0 && high == (section + 1) * size && HeadBefore(begun.heads, section) == oldHead
    requires read == begun.(job := Some(Job(section, oldHead, Some(head), high, Reading)))
    requires Leads(read, Commit(true), size, confirms, done) && Leads(done, End(canon), size, confirms, t)
    ensures t.stored == section + 1 && t.job.None? && t.known == begun.known && t.cascaded == high - 1
    ensures HeadAt(t.heads, section) == Some(head)
    ensures forall i :: 0 <= i < section ==> HeadAt(t.heads, i) == HeadAt(begun.heads, i)
  {
    EndStep(read, done, t, size, confirms, canon, read.job.value);
    StoredHeads(begun.heads, section, head);
  }

  lemma StoredHeads(heads: Heads, section: nat, head: Header)
    ensures var stored := Below(heads[section := head], section + 1);
      HeadAt(stored, section) == Some(head) && forall i :: 0 <= i < section ==> HeadAt(stored, i) == HeadAt(heads, i)
  {
  }

  class ChainIndexer {
    const sectionSize: nat
    const confirmsReq: nat
    var heads: Heads                 // the section heads of the index database
    var stored: nat
    var known: nat
    var cascaded: nat
    var checkpointSections: nat
    var checkpointHead: BlockHash
    var job: Option<Job>             // the section read while the lock is dropped
    ghost var trusted: set<nat>      // sections whose head came from a checkpoint
    ghost var restarted: bool

    ghost function Value(): Index
      reads this
    {
      Index(heads, stored, known, cascaded, checkpointSections, checkpointHead, job, trusted, restarted)
    }

    ghost predicate Valid()
      reads this
    {
      Consistent(Value(), sectionSize)
    }

    constructor (sectionSize: nat, confirmsReq: nat)
      requires sectionSize > 0
      ensures Valid() && this.sectionSize == sectionSize && this.confirmsReq == confirmsReq
      ensures Value() == Index(map[], 0, 0, 0, 0, None, None, {}, false)
    {
      this.sectionSize, this.confirmsReq := sectionSize, confirmsReq;
      heads, stored, known, cascaded, checkpointSections, checkpointHead, job := map[], 0, 0, 0, 0, None, None;
      trusted, restarted := {}, false;
    }

    method SetValidSections(sections: nat)
      requires forall i :: i in heads ==> i < stored || i < sections
      modifies `heads, `stored
      ensures stored == sections && heads == Below(old(heads), sections)
    {
      while stored > sections
        invariant stored <= old(stored)
        invariant sections <= old(stored) ==> sections <= stored
        invariant old(stored) < sections ==> stored == old(stored)
        invariant heads == if stored > sections then Below(old(heads), stored) else Below(old(heads), sections)
      {
        stored := stored - 1;
        heads := heads - {stored};
      }
      stored := sections;
    }

    /** Rolls back until the last stored head is canonical; what is dropped was not. */
    method VerifyLastHead(canon: map<nat, Header>)
      requires Valid()
      modifies `heads, `stored
      ensures Valid() && RolledBack(old(Value()), canon, sectionSize, Value())
    {
      assert heads == Below(heads, stored) by { assert IndexKey(0); }
      while stored > 0 && stored > checkpointSections
        invariant Valid() && stored <= old(stored) && heads == Below(old(heads), stored)
        invariant forall i :: stored <= i < old(stored) ==>
          HeadAt(old(heads), i) != CanonAt(canon, (i + 1) * sectionSize - 1)
        invariant stored < old(stored) ==> checkpointSections <= stored
      {
        if HeadAt(heads, stored - 1) == CanonAt(canon, stored * sectionSize - 1) {
          return;
        }
        assert forall i :: i in heads ==> i < stored by { assert IndexKey(0); }
        RollBack(heads, stored, trusted, sectionSize, stored - 1);
        SetValidSections(stored - 1);
      }
    }

    /** A reorganisation to a common ancestor at height `head`. The result is the head
        the children are told of, if they are. */
    method NewReorg(head: nat) returns (cascade: Option<nat>)
      requires Valid()
      modifies `heads, `stored, `known, `cascaded
      ensures Valid() && Value() == Reorged(old(Value()), head, sectionSize)
      ensures cascade == if cascaded < old(cascaded) then Some(cascaded) else None
    {
      cascade := None;
      assert heads == Below(heads, stored) && (forall i :: i in heads ==> i < stored) by { assert IndexKey(0); }
      var k := (head + 1) / sectionSize;
      var s := Max(k, checkpointSections);
      if k < checkpointSections { k := 0; }
      if k < known { known := k; }
      if s < stored {
        RollBack(heads, stored, trusted, sectionSize, s);
        SetValidSections(s);
      }
      if k * sectionSize < cascaded {
        cascaded := k * sectionSize;
        cascade := Some(cascaded);
      }
    }

    /** A new head. Sections become known once they are confirmed, and above a checkpoint
        only if that is on the chain. */
    method NewHead(head: nat, canon: map<nat, Header>)
      requires Valid()
      modifies `known
      ensures Valid() && known == KnownAt(old(Value()), head, canon, sectionSize, confirmsReq)
    {
      if head >= confirmsReq {
        var sections := (head + 1 - confirmsReq) / sectionSize;
        if sections < checkpointSections { sections := 0; }
        if sections > known {
          if known < checkpointSections {
            var canonical := CanonAt(canon, checkpointSections * sectionSize - 1);
            if canonical != checkpointHead { return; }
          }
          known := sections;
        }
      }
    }

    method AddCheckpoint(section: nat, shead: Header)
      requires Valid()
      modifies `heads, `stored, `checkpointSections, `checkpointHead, `trusted
      ensures Valid() && Value() == Trusted(old(Value()), section, shead)
      ensures section >= old(stored) && section >= old(checkpointSections) ==>
        && stored == checkpointSections == section + 1 && HeadAt(heads, section) == checkpointHead == Some(shead)
        && forall i :: i != section ==> HeadAt(heads, i) == HeadAt(old(heads), i)
    {
      if checkpointSections >= section + 1 || section < stored {
        return;
      }
      assert forall i :: i in heads ==> i < stored by { assert IndexKey(0); }
      checkpointSections, checkpointHead := section + 1, Some(shead);
      Trust(heads, stored, trusted, sectionSize, section, shead);
      heads, trusted := heads[section := shead], trusted + {section};
      assert heads == Below(heads, section + 1);
      SetValidSections(section + 1);
    }

    /** The number of valid sections. Unless that is all the checkpoint's, the last one
        is canonical when asked, and with it every one from the checkpoint's on. */
    method Sections(canon: map<nat, Header>, ghost tip: Header) returns (n: nat, head: BlockHash)
      requires Valid()
      modifies `heads, `stored
      ensures Valid() && RolledBack(old(Value()), canon, sectionSize, Value()) && n == stored
      ensures head == HeadBefore(heads, n)
      ensures !restarted && Canonical(canon, tip) && checkpointSections < n && n * sectionSize - 1 <= Number(tip) ==>
        forall i :: 0 <= i < n && checkpointSections <= i + 1 ==>
          HeadAt(heads, i) == CanonAt(canon, (i + 1) * sectionSize - 1)
    {
      VerifyLastHead(canon);
      n, head := stored, HeadBefore(heads, stored);
      if !restarted && Canonical(canon, tip) && checkpointSections < n && n * sectionSize - 1 <= Number(tip) {
        forall i | 0 <= i < n && checkpointSections <= i + 1
          ensures HeadAt(heads, i) == CanonAt(canon, (i + 1) * sectionSize - 1)
        {
          VerifiedIsCanonical(Value(), canon, sectionSize, tip, i);
        }
      }
    }

    /** The locked part of an update before the section is processed. */
    method BeginUpdate(canon: map<nat, Header>)
      requires Valid() && job.None?
      modifies `heads, `stored, `job
      ensures Valid() && StepRel(old(Value()), Begin(canon), sectionSize, confirmsReq, Value())
    {
      if known > stored {
        VerifyLastHead(canon);
        var oldHead := HeadBefore(heads, stored);
        JobStarts(stored, oldHead, sectionSize);
        job := Some(Job(stored, oldHead, oldHead, stored * sectionSize, Reading));
      }
    }

    /** The backend could not be reset: the whole index is given up. */
    method FailReset()
      requires Valid() && job.Some? && job.value.status.Reading? && job.value.number == job.value.section * sectionSize
      modifies `heads, `stored, `job
      ensures Valid() && stored == 0 && heads == map[] && job == Some(old(job).value.(status := Failed))
    {
      assert forall i :: i in heads ==> i < stored by { assert IndexKey(0); }
      RollBack(heads, stored, trusted, sectionSize, 0);
      SetValidSections(0);
      assert JobOk(job.value.(status := Failed), sectionSize) by { assert IndexKey(0); }
      job := Some(job.value.(status := Failed));
    }

    /** One turn of the loop over the headers of the section. */
    method ReadNext(canon: map<nat, Header>, found: bool, processed: bool)
      requires Valid() && Numbered(canon)
      requires job.Some? && job.value.status.Reading? && job.value.number < (job.value.section + 1) * sectionSize
      modifies `job
      ensures Valid() && job == Some(Reads(old(job).value, canon, found, processed))
    {
      var j := job.value;
      var hash := CanonAt(canon, j.number);
      if hash.None? || !found || ParentHash(hash.value) != j.last || !processed {
        assert JobOk(j.(status := Failed), sectionSize) by { assert IndexKey(0); }
        job := Some(j.(status := Failed));
      } else {
        JobReads(j, sectionSize, hash.value);
        job := Some(j.(last := hash, number := j.number + 1));
      }
    }

    method CommitSection(ok: bool)
      requires Valid() && job.Some? && job.value.status.Reading?
      requires job.value.number == (job.value.section + 1) * sectionSize
      modifies `job
      ensures Valid() && job == Some(old(job).value.(status := if ok then Committed else Failed))
    {
      var j := job.value.(status := if ok then Committed else Failed);
      assert JobOk(j, sectionSize) by { assert IndexKey(0); }
      job := Some(j);
    }

    /** The locked part of an update after the section was processed: it is stored only
        if the head it builds on is still stored. */
    method EndUpdate(canon: map<nat, Header>) returns (cascade: Option<nat>)
      requires Valid() && job.Some? && !job.value.status.Reading?
      modifies `heads, `stored, `known, `cascaded, `job, `trusted
      ensures Valid() && Ended(old(Value()), old(job).value, canon, sectionSize, Value())
      ensures cascade == if StillBuilds(old(heads), old(job).value) then Some(stored * sectionSize - 1) else None
    {
      if StillBuilds(heads, job.value) {
        StoreSection(canon);
        cascade := Some(cascaded);
      } else {
        job, cascade := None, None;
        VerifyLastHead(canon);
        known := stored;
      }
    }

    method StoreSection(ghost canon: map<nat, Header>)
      requires Valid() && job.Some? && !job.value.status.Reading? && StillBuilds(heads, job.value)
      modifies `heads, `stored, `known, `cascaded, `job, `trusted
      ensures Valid() && Ended(old(Value()), old(job).value, canon, sectionSize, Value())
      ensures cascaded == stored * sectionSize - 1
    {
      var j := job.value;
      job := None;
      assert forall i :: i in heads ==> i < stored by { assert IndexKey(0); }
      JobStores(heads, stored, trusted, sectionSize, j);
      heads, trusted := heads[j.section := j.last.value], trusted - {j.section};
      SetValidSections(j.section + 1);
      cascaded := stored * sectionSize - 1;
    }

    /** A new process on the same database; checkpoints are not kept there. */
    method Reopen()
      requires Valid()
      modifies `known, `cascaded, `checkpointSections, `checkpointHead, `job, `restarted
      ensures Valid() && StepRel(old(Value()), Restart, sectionSize, confirmsReq, Value())
    {
      known, cascaded, checkpointSections, checkpointHead, job, restarted := 0, 0, 0, None, None, true;
    }

    method Step(ev: Event)
      requires Valid()
      modifies this
      ensures Valid() && StepRel(old(Value()), ev, sectionSize, confirmsReq, Value())
    {
      match ev {
        case ChainHead(head, reorg, canon) => if reorg { var _ := NewReorg(head); } else { NewHead(head, canon); }
        case Checkpoint(section, shead) => AddCheckpoint(section, shead);
        case Query(canon) => var _, _ := Sections(canon, Genesis(0, [], 0));
        case Begin(canon) => if job.None? { BeginUpdate(canon); }
        case ResetFailed =>
          if job.Some? && job.value.status.Reading? && job.value.number == job.value.section * sectionSize {
            FailReset();
          }
        case Read(canon, found, processed) =>
          if job.Some? && job.value.status.Reading? && job.value.number < (job.value.section + 1) * sectionSize {
            ReadNext(OwnNumbers(canon), found, processed);
          }
        case Commit(ok) =>
          if job.Some? && job.value.status.Reading? && job.value.number == (job.value.section + 1) * sectionSize {
            CommitSection(ok);
          }
        case End(canon) => if job.Some? && !job.value.status.Reading? { var _ := EndUpdate(canon); }
        case Restart => Reopen();
      }
    }
  }

  /** The number of complete sections in a chain of so many blocks; a chain that has not
      reached the checkpoint counts as empty. */
  function Complete(blocks: nat, size: nat, checkpoint: nat): nat
    requires size > 0
  {
    if blocks / size < checkpoint then 0 else blocks / size
  }

  function Min(a: nat, b: nat): nat { if a < b then a else b }

  function Max(a: nat, b: nat): nat { if a < b then b else a }

  /** Every interleaving of chain changes, head events, checkpoints, queries, restarts
      and the two-phase update keeps, in every state, each stored head linked to the one
      before it. */
  method Run(sectionSize: nat, confirmsReq: nat, events: seq<Event>) returns (c: ChainIndexer, ghost states: seq<Index>)
    requires sectionSize > 0
    ensures fresh(c) && |states| == |events| + 1 && c.Value() == states[|events|]
    ensures states[0] == Index(map[], 0, 0, 0, 0, None, None, {}, false)
    ensures forall k :: 0 <= k < |events| ==> StepRel(states[k], events[k], sectionSize, confirmsReq, states[k + 1])
    ensures forall k :: 0 <= k < |states| ==> Consistent(states[k], sectionSize)
  {
    c := new ChainIndexer(sectionSize, confirmsReq);
    states := [c.Value()];
    for i := 0 to |events|
      invariant fresh(c) && c.sectionSize == sectionSize && c.confirmsReq == confirmsReq
      invariant |states| == i + 1 && c.Value() == states[i]
      invariant states[0] == Index(map[], 0, 0, 0, 0, None, None, {}, false)
      invariant forall k :: 0 <= k < i ==> StepRel(states[k], events[k], sectionSize, confirmsReq, states[k + 1])
      invariant forall k :: 0 <= k < |states| ==> Consistent(states[k], sectionSize)
    {
      c.Step(events[i]);
      states := states + [c.Value()];
    }
  }
}
