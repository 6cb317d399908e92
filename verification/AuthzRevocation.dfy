/**
 What revoking a Project Grant does to the delegated entries it reaches (authz/cache.go:93-96,
 187-223, 277-289, 329-349).

 A delegated entry is stamped with its grant's counter.  Once the counter moves past the stamp the
 entry stops matching, wherever it is: in Redis, on its way there, or already fetched.  The counter is
 itself a Redis key, so the guarantee lasts exactly as long as the counter is kept; how long that is
 depends on whether the EXPIRE that follows the INCR was applied, which the code does not look at.
*/
module AuthzRevocation {
  import opened Wrappers
  import opened RedisStore
  import opened AuthzKeys
  import opened AuthzCache
  import opened AuthzProtocol
  import opened AuthzFreshness
  import opened GrantSql

  function Count(s: State, g: GrantId): int {
    Generation(s.cells, s.now, g, true)
  }

  predicate IsStamped(doc: Entry, o: Origin, g: GrantId, gen: int, at: nat) {
    doc.GrantsEntry? && doc.via == Some(g) && doc.gen == gen && o.stampedAt == at
  }

  /** A reader that holds a delegated entry, as a document fetched or as one about to be written. */
  predicate ReaderHolds(rd: Reader, g: GrantId, gen: int, at: nat) {
    match rd.pc
    case AskGeneration(h) => IsStamped(h.value, h.origin, g, gen, at)
    case PutKeys(n, stampedAt) => rd.keys.Some? && rd.keys.value.value.1 == Some(g) && n == gen && stampedAt == at
    case _ => false
  }

  /** Some entry of grant `g`, stamped `gen` at instant `at`, exists somewhere. */
  predicate Stamped(s: State, g: GrantId, gen: int, at: nat) {
    || (exists k ::
          k in s.cells && s.cells[k].value.Doc? && IsStamped(s.cells[k].value.doc, OriginAt(s, k), g, gen, at))
    || (exists i :: 0 <= i < |s.inflight| && IsStamped(s.inflight[i].doc, s.inflight[i].origin, g, gen, at))
    || (exists r :: r in s.readers && ReaderHolds(s.readers[r], g, gen, at))
  }

  /** The counter was not lost in this step: a live one is still live, and nothing spoilt it. */
  predicate CounterKept(s: State, s': State, g: GrantId) {
    var before := Read(s.cells, KeyOf(GenerationOf(g)), s.now);
    var after := Read(s'.cells, KeyOf(GenerationOf(g)), s'.now);
    && (before.Some? && before.value.Int? ==> after.Some? && after.value.Int?)
    && (before.None? ==> after.None? || (after.value.Int? && after.value.n >= 0))
  }

  predicate CounterKeptThroughout(s: State, steps: seq<Step>, g: GrantId)
    decreases |steps|
  {
    steps == [] ||
    (CounterKept(s, Apply(s, steps[0]), g) && CounterKeptThroughout(Apply(s, steps[0]), steps[1..], g))
  }

  lemma CountGrows(s: State, step: Step, g: GrantId)
    requires Inv(s) && Count(s, g) >= 0 && CounterKept(s, Apply(s, step), g)
    ensures Count(Apply(s, step), g) >= Count(s, g)
  {
    var key := KeyOf(GenerationOf(g));
    match step
    case Land(i) =>
      if i < |s.inflight| {
        assert Genuine(s, s.inflight[i].doc, s.inflight[i].origin);
        KeysIdentifySubjects(GenerationOf(g), s.inflight[i].origin.subject);
      }
    case Incr(g') => KeysIdentifySubjects(GenerationOf(g), GenerationOf(g'));
    case Expire(g') => KeysIdentifySubjects(GenerationOf(g), GenerationOf(g'));
    case Advance(r, _) =>
      if r in s.readers {
        assert Apply(s, step).cells == s.cells;
      }
    case _ =>
  }

  lemma LandStamps(s: State, i: nat, g: GrantId, gen: int, at: nat)
    requires Stamped(Apply(s, Land(i)), g, gen, at)
    ensures Stamped(s, g, gen, at)
  {
    var s' := Apply(s, Land(i));
    if i < |s.inflight| {
      var key := KeyOf(s.inflight[i].origin.subject);
      assert forall k :: k in s'.cells && k != key ==> s'.cells[k] == s.cells[k] && OriginAt(s', k) == OriginAt(s, k);
      assert forall p :: p in s'.inflight ==> p in s.inflight;
    }
  }

  lemma NextHoldsNewStamps(s: State, r: nat, rd: Reader, up: bool, g: GrantId, gen: int, at: nat)
    requires ReaderHolds(Next(s, r, rd, up), g, gen, at)
    requires r in s.readers && s.readers[r] == rd
    ensures Stamped(s, g, gen, at) || gen == Count(s, g)
  {
    if rd.pc.AskKeys? {
      var key := KeyOf(GrantsOf(rd.org, rd.user, rd.project));
      assert key in s.cells;
    }
  }

  lemma IssuedAreHeld(s: State, rd: Reader, put: Put, g: GrantId, gen: int, at: nat)
    requires put in Issued(s, rd) && IsStamped(put.doc, put.origin, g, gen, at)
    ensures ReaderHolds(rd, g, gen, at)
  {
  }

  lemma AdvanceStamps(s: State, r: nat, up: bool, g: GrantId, gen: int, at: nat)
    requires r in s.readers && Stamped(AdvanceReader(s, r, up), g, gen, at)
    ensures Stamped(s, g, gen, at) || gen == Count(s, g)
  {
    var rd := s.readers[r];
    var s' := AdvanceReader(s, r, up);
    if ReaderHolds(s'.readers[r], g, gen, at) {
      NextHoldsNewStamps(s, r, rd, up, g, gen, at);
    } else if i :| 0 <= i < |s'.inflight| && IsStamped(s'.inflight[i].doc, s'.inflight[i].origin, g, gen, at) {
      if i >= |s.inflight| {
        assert s'.inflight[i] in Issued(s, rd);
        IssuedAreHeld(s, rd, s'.inflight[i], g, gen, at);
      }
    } else {
      assert forall k :: k in s'.cells ==> OriginAt(s', k) == OriginAt(s, k);
    }
  }

  lemma CellStepsStampNothing(s: State, step: Step, g: GrantId, gen: int, at: nat)
    requires step.Del? || step.Incr? || step.Expire? || step.Spoil?
    requires Stamped(Apply(s, step), g, gen, at)
    ensures Stamped(s, g, gen, at)
  {
    var s' := Apply(s, step);
    assert forall k :: k in s'.cells && s'.cells[k].value.Doc? ==>
      k in s.cells && s.cells[k].value == s'.cells[k].value && OriginAt(s', k) == OriginAt(s, k);
  }

  lemma OthersStampNothing(s: State, step: Step, g: GrantId, gen: int, at: nat)
    requires step.Tick? || step.DbWrite? || step.Start? || step.Lose?
    requires Stamped(Apply(s, step), g, gen, at)
    ensures Stamped(s, g, gen, at)
  {
    assert forall p :: p in Apply(s, step).inflight ==> p in s.inflight;
  }

  /** A stamp that was not there before was read off the counter in this very step. */
  lemma NewStampsAreCurrent(s: State, step: Step, g: GrantId, gen: int, at: nat)
    requires Stamped(Apply(s, step), g, gen, at)
    ensures Stamped(s, g, gen, at) || gen == Count(s, g)
  {
    match step
    case Advance(r, up) =>
      if r in s.readers {
        AdvanceStamps(s, r, up, g, gen, at);
      }
    case Land(i) => LandStamps(s, i, g, gen, at);
    case Tick(_) => OthersStampNothing(s, step, g, gen, at);
    case DbWrite(_) => OthersStampNothing(s, step, g, gen, at);
    case Start(_, _, _, _, _) => OthersStampNothing(s, step, g, gen, at);
    case Lose(_) => OthersStampNothing(s, step, g, gen, at);
    case _ => CellStepsStampNothing(s, step, g, gen, at);
  }

  /** As long as the counter is kept, every entry stamped on the way has a stamp it has already reached. */
  lemma {:induction false} StampsStayBelow(s: State, steps: seq<Step>, g: GrantId, gen: int, at: nat)
    requires Inv(s) && Count(s, g) >= 0 && CounterKeptThroughout(s, steps, g)
    ensures Count(Run(s, steps), g) >= Count(s, g)
    ensures Stamped(Run(s, steps), g, gen, at) ==> Stamped(s, g, gen, at) || gen <= Count(Run(s, steps), g)
    decreases |steps|
  {
    if steps != [] {
      var s1 := Apply(s, steps[0]);
      CountGrows(s, steps[0], g);
      StepKeepsInv(s, steps[0]);
      StampsStayBelow(s1, steps[1..], g, gen, at);
      if Stamped(s1, g, gen, at) {
        NewStampsAreCurrent(s, steps[0], g, gen, at);
      }
    }
  }

  lemma {:induction false} KeptAppend(s: State, a: seq<Step>, b: seq<Step>, g: GrantId)
    requires CounterKeptThroughout(s, a, g) && CounterKeptThroughout(Run(s, a), b, g)
    ensures CounterKeptThroughout(s, a + b, g)
    decreases |a|
  {
    if a == [] {
      assert a + b == b;
    } else {
      assert (a + b)[1..] == a[1..] + b;
      KeptAppend(Apply(s, a[0]), a[1..], b, g);
    }
  }

  /** The increment itself: the counter moves past every stamp it has reached, whatever expiry it had. */
  lemma IncrGoesPast(s: State, g: GrantId)
    requires Inv(s) && Count(s, g) >= 0
    ensures Inv(Apply(s, Step.Incr(g))) && Count(Apply(s, Step.Incr(g)), g) == Count(s, g) + 1
  {
    StepKeepsInv(s, Step.Incr(g));
  }

  /**
   A retired entry stays retired.  Take any entry of grant `g` that was stamped between state `s` and the
   INCR of a revocation.  For as long as the counter is kept, before and after, and whatever becomes of the
   EXPIRE, no reader that comes to check that stamp accepts it: however late its SET lands, however long
   anything takes.
  */
  lemma RevokedEntriesAreNeverServed(
    s: State, before: seq<Step>, g: GrantId, gen: int, at: nat, after: seq<Step>, r: nat, at': nat, up: bool)
    requires Inv(s) && Count(s, g) >= 0 && CounterKeptThroughout(s, before, g)
    requires Stamped(Run(s, before), g, gen, at) && !Stamped(s, g, gen, at)
    requires CounterKeptThroughout(Apply(Run(s, before), Step.Incr(g)), after, g)
    requires
      var s2 := Run(Apply(Run(s, before), Step.Incr(g)), after);
      && r in s2.readers && s2.readers[r].pc.AskGeneration?
      && IsStamped(s2.readers[r].pc.entry.value, s2.readers[r].pc.entry.origin, g, gen, at')
    ensures
      var s2 := Run(Apply(Run(s, before), Step.Incr(g)), after);
      !Accepts(s2, s2.readers[r].pc.entry.value, up)
  {
    var s1 := Run(s, before);
    StampsStayBelow(s, before, g, gen, at);
    RunKeepsInv(s, before);
    IncrGoesPast(s1, g);
    StampsStayBelow(Apply(s1, Step.Incr(g)), after, g, gen, at);
    RunKeepsInv(Apply(s1, Step.Incr(g)), after);
    var s2 := Run(Apply(s1, Step.Incr(g)), after);
    assert ValidReader(s2, s2.readers[r]);
  }

  /** What the cache's `InvalidateGrant` leaves is what these two steps leave, as far as each was applied. */
  lemma InvalidateGrantIsTheTwoSteps(s: State, g: GrantId, incr: Fate, expire: Fate)
    ensures
      var counted := if Applied(incr) then Apply(s, Step.Incr(g)) else s;
      var goesOn := incr.Acknowledged? && Applied(expire);
      Readable(s, g) ==>
        AfterInvalidateGrant(s.cells, s.now, g, incr, expire) ==
          (if goesOn then Apply(counted, Step.Expire(g)) else counted).cells
    ensures
      !Readable(s, g) ==> AfterInvalidateGrant(s.cells, s.now, g, incr, expire) == s.cells
  {
  }

  /** The counter is missing or a number; on anything else INCR is an error. */
  predicate Readable(s: State, g: GrantId) {
    match Read(s.cells, KeyOf(GenerationOf(g)), s.now)
    case None => true
    case Some(v) => v.Int?
  }

  // How long the counter is kept by itself.

  /** Nothing deletes or overwrites the counter; it may still expire by itself. */
  predicate NeverEvicts(steps: seq<Step>, g: GrantId) {
    forall step :: step in steps ==>
      step != Del(KeyOf(GenerationOf(g))) && (step.Spoil? ==> step.key != KeyOf(GenerationOf(g)))
  }

  /** Until `deadline` the counter is live and past `gen`. */
  predicate Past(s: State, g: GrantId, gen: int, deadline: nat) {
    s.now < deadline ==>
      var key := KeyOf(GenerationOf(g));
      && Live(s.cells, key, s.now)
      && s.cells[key].value.Int? && s.cells[key].value.n > gen
      && (s.cells[key].expires.Some? ==> s.cells[key].expires.value >= deadline)
  }

  lemma StepStaysPast(s: State, step: Step, g: GrantId, gen: int, deadline: nat)
    requires Inv(s) && Past(s, g, gen, deadline) && NeverEvicts([step], g)
    requires deadline <= s.now + GENERATION_TTL
    ensures Past(Apply(s, step), g, gen, deadline)
  {
    assert step in [step];
    match step
    case Land(i) =>
      if i < |s.inflight| {
        assert Genuine(s, s.inflight[i].doc, s.inflight[i].origin);
        KeysIdentifySubjects(GenerationOf(g), s.inflight[i].origin.subject);
      }
    case Incr(g') => KeysIdentifySubjects(GenerationOf(g), GenerationOf(g'));
    case Expire(g') => KeysIdentifySubjects(GenerationOf(g), GenerationOf(g'));
    case Advance(r, _) =>
      if r in s.readers {
        assert Apply(s, step).cells == s.cells;
      }
    case _ =>
  }

  lemma {:induction false} RunStaysPast(s: State, steps: seq<Step>, g: GrantId, gen: int, deadline: nat)
    requires Inv(s) && Past(s, g, gen, deadline) && NeverEvicts(steps, g)
    requires deadline <= s.now + GENERATION_TTL
    ensures Past(Run(s, steps), g, gen, deadline)
    decreases |steps|
  {
    if steps != [] {
      StepKeepsInv(s, steps[0]);
      assert steps[0] in steps;
      StepStaysPast(s, steps[0], g, gen, deadline);
      RunStaysPast(Apply(s, steps[0]), steps[1..], g, gen, deadline);
    }
  }

  lemma ServedOnlyWhenSlow(s: State, r: nat, g: GrantId, gen: int, at: nat, deadline: nat)
    requires Inv(s) && Past(s, g, gen, deadline) && at + GENERATION_TTL <= deadline
    requires r in s.readers && s.readers[r].pc.AskGeneration?
    requires IsStamped(s.readers[r].pc.entry.value, s.readers[r].pc.entry.origin, g, gen, at)
    ensures
      var h := s.readers[r].pc.entry;
      Accepts(s, h.value, true) ==>
        s.ttl + (h.origin.landedAt - h.origin.stampedAt) + (s.now - h.gotAt) > GENERATION_TTL
  {
    assert ValidReader(s, s.readers[r]);
  }

  /** The revocation as it reaches Redis: INCR, whatever happens between, and an EXPIRE that is applied. */
  function Revoked(s: State, between: seq<Step>, g: GrantId): State {
    Apply(Run(Apply(s, Step.Incr(g)), between), Step.Expire(g))
  }

  lemma RevocationGoesPast(s: State, between: seq<Step>, g: GrantId, gen: int)
    requires Inv(s) && gen <= Count(s, g) && Count(s, g) >= 0
    requires CounterKeptThroughout(Apply(s, Step.Incr(g)), between, g)
    ensures
      var s' := Revoked(s, between, g);
      && Inv(s') && s'.now >= s.now && s'.ttl == s.ttl
      && Past(s', g, gen, s'.now + GENERATION_TTL)
  {
    IncrGoesPast(s, g);
    var s1 := Apply(s, Step.Incr(g));
    StampsStayBelow(s1, between, g, gen, 0);
    RunKeepsInv(s1, between);
    StepKeepsInv(Run(s1, between), Step.Expire(g));
  }

  /**
   With the EXPIRE applied the counter is kept for a day: an entry stamped before the INCR is rejected by
   every reader, unless the entry's own TTL, the time from its stamp to its landing, and the time the reader
   waited between fetching the entry and checking it add up to more than that day.
  */
  lemma ExpireKeepsThemOut(
    s: State, before: seq<Step>, g: GrantId, gen: int, at: nat, between: seq<Step>, after: seq<Step>, r: nat)
    requires Inv(s) && Count(s, g) >= 0 && CounterKeptThroughout(s, before, g)
    requires Stamped(Run(s, before), g, gen, at) && !Stamped(s, g, gen, at) && at <= Run(s, before).now
    requires CounterKeptThroughout(Apply(Run(s, before), Step.Incr(g)), between, g) && NeverEvicts(after, g)
    requires
      var s2 := Run(Revoked(Run(s, before), between, g), after);
      && r in s2.readers && s2.readers[r].pc.AskGeneration?
      && IsStamped(s2.readers[r].pc.entry.value, s2.readers[r].pc.entry.origin, g, gen, at)
    ensures
      var s2 := Run(Revoked(Run(s, before), between, g), after);
      var h := s2.readers[r].pc.entry;
      Accepts(s2, h.value, true) ==>
        s2.ttl + (h.origin.landedAt - h.origin.stampedAt) + (s2.now - h.gotAt) > GENERATION_TTL
  {
    var s1 := Run(s, before);
    StampsStayBelow(s, before, g, gen, at);
    RunKeepsInv(s, before);
    RevocationGoesPast(s1, between, g, gen);
    var s' := Revoked(s1, between, g);
    RunStaysPast(s', after, g, gen, s'.now + GENERATION_TTL);
    RunKeepsInv(s', after);
    ServedOnlyWhenSlow(Run(s', after), r, g, gen, at, s'.now + GENERATION_TTL);
  }

  /** With the default TTL and delays of at most a day less that TTL, such a check rejects it outright. */
  lemma RevocationIsFinal(
    s: State, before: seq<Step>, g: GrantId, gen: int, at: nat, between: seq<Step>, after: seq<Step>, r: nat)
    requires Inv(s) && Count(s, g) >= 0 && CounterKeptThroughout(s, before, g)
    requires Stamped(Run(s, before), g, gen, at) && !Stamped(s, g, gen, at) && at <= Run(s, before).now
    requires CounterKeptThroughout(Apply(Run(s, before), Step.Incr(g)), between, g) && NeverEvicts(after, g)
    requires
      var s2 := Run(Revoked(Run(s, before), between, g), after);
      && r in s2.readers && s2.readers[r].pc.AskGeneration?
      && IsStamped(s2.readers[r].pc.entry.value, s2.readers[r].pc.entry.origin, g, gen, at)
      && s2.ttl == 30_000
      && (s2.readers[r].pc.entry.origin.landedAt - at) + (s2.now - s2.readers[r].pc.entry.gotAt)
           <= 86_400_000 - 30_000
    ensures
      var s2 := Run(Revoked(Run(s, before), between, g), after);
      StepAskGeneration(s2, s2.readers[r], true).keys.None?
  {
    ExpireKeepsThemOut(s, before, g, gen, at, between, after, r);
    StampsStayBelow(s, before, g, gen, at);
    RunKeepsInv(s, before);
    RevocationGoesPast(Run(s, before), between, g, gen);
    RunKeepsInv(Revoked(Run(s, before), between, g), after);
    var s2 := Run(Revoked(Run(s, before), between, g), after);
    assert ValidReader(s2, s2.readers[r]);
  }

  // Exactly how long, whether or not the EXPIRE was applied.

  /** The first instant at which the counter may be gone: its expiry, or a day from now if it is given one now. */
  function DeadlineOf(s: State, g: GrantId): nat {
    var key := KeyOf(GenerationOf(g));
    if key in s.cells && s.cells[key].expires.Some? && s.cells[key].expires.value < s.now + GENERATION_TTL
    then s.cells[key].expires.value
    else s.now + GENERATION_TTL
  }

  /** In no run that leaves the counter alone does a check made up to instant `t` accept the stamp. */
  ghost predicate RefusedUntil(s: State, g: GrantId, gen: int, t: nat) {
    forall steps, r ::
      NeverEvicts(steps, g) && Run(s, steps).now <= t && r in Run(s, steps).readers ==>
        !AcceptsStamp(Run(s, steps), r, g, gen)
  }

  /** Reader `r` is about to check an entry with that stamp, and will accept it. */
  predicate AcceptsStamp(s: State, r: nat, g: GrantId, gen: int)
    requires r in s.readers
  {
    var pc := s.readers[r].pc;
    && pc.AskGeneration? && pc.entry.value.GrantsEntry? && pc.entry.value.via == Some(g) && pc.entry.value.gen == gen
    && Accepts(s, pc.entry.value, true)
  }

  lemma RefusedBeforeTheDeadline(s: State, g: GrantId, gen: int, t: nat)
    requires Inv(s) && 0 <= gen < Count(s, g) && t < DeadlineOf(s, g)
    ensures RefusedUntil(s, g, gen, t)
  {
    var deadline := DeadlineOf(s, g);
    assert Past(s, g, gen, deadline);
    forall steps, r | NeverEvicts(steps, g) && Run(s, steps).now <= t && r in Run(s, steps).readers
      ensures !AcceptsStamp(Run(s, steps), r, g, gen)
    {
      RunStaysPast(s, steps, g, gen, deadline);
    }
  }

  lemma {:induction false} IncrementsEvictNothing(g: GrantId, n: nat)
    ensures NeverEvicts(Increments(g, n), g)
  {
    if n > 0 {
      IncrementsEvictNothing(g, n - 1);
    }
  }

  /** Past the deadline the counter can be gone with nobody touching it. */
  lemma CounterDies(s: State, g: GrantId) returns (steps: seq<Step>)
    requires Live(s.cells, KeyOf(GenerationOf(g)), s.now)
    ensures NeverEvicts(steps, g)
    ensures
      var s' := Run(s, steps);
      && s'.now == DeadlineOf(s, g) && Read(s'.cells, KeyOf(GenerationOf(g)), s'.now).None?
      && s' == s.(cells := s'.cells, now := s'.now)
  {
    var key := KeyOf(GenerationOf(g));
    var wait := Tick(DeadlineOf(s, g) - s.now);
    if s.cells[key].expires.Some? && s.cells[key].expires.value < s.now + GENERATION_TTL {
      steps := [wait];
      RunOne(s, wait);
    } else {
      steps := [Step.Expire(g), wait];
      RunTwo(s, Step.Expire(g), wait);
    }
  }

  /** A SET that lands is fetched by the next check, which then asks for the generation. */
  lemma LandedIsChecked(s: State, i: nat, r: nat, org: Id, user: Id, project: Id, g: GrantId)
    requires Inv(s) && s.ttl > 0 && i < |s.inflight| && r !in s.readers
    requires s.inflight[i].origin.subject == GrantsOf(org, user, project)
    requires s.inflight[i].doc.GrantsEntry? && s.inflight[i].doc.via == Some(g)
    requires Count(s, g) == s.inflight[i].doc.gen
    ensures
      var s' := Run(s, [Land(i), Start(r, org, user, project, ANY_REQUEST), Advance(r, true)]);
      s'.now == s.now && r in s'.readers && AcceptsStamp(s', r, g, s.inflight[i].doc.gen)
  {
    var put := s.inflight[i];
    assert Genuine(s, put.doc, put.origin);
    var steps := [Land(i), Start(r, org, user, project, ANY_REQUEST), Advance(r, true)];
    RunThree(s, steps[0], steps[1], steps[2]);
    var s1 := Apply(s, steps[0]);
    var s2 := Apply(s1, steps[1]);
    assert Read(s2.cells, KeyOf(GrantsOf(org, user, project)), s2.now) == Some(Doc(put.doc));
    KeysIdentifySubjects(GenerationOf(g), GrantsOf(org, user, project));
  }

  /** From the deadline on, a retired entry that is still on its way can be accepted again. */
  lemma AcceptedFromTheDeadline(s: State, i: nat, org: Id, user: Id, project: Id, g: GrantId)
    returns (steps: seq<Step>, r: nat)
    requires Inv(s) && s.ttl > 0 && i < |s.inflight|
    requires s.inflight[i].origin.subject == GrantsOf(org, user, project)
    requires s.inflight[i].doc.GrantsEntry? && s.inflight[i].doc.via == Some(g)
    requires s.inflight[i].doc.gen < Count(s, g)
    ensures NeverEvicts(steps, g)
    ensures
      var s' := Run(s, steps);
      s'.now == DeadlineOf(s, g) && r in s'.readers && AcceptsStamp(s', r, g, s.inflight[i].doc.gen)
  {
    assert Genuine(s, s.inflight[i].doc, s.inflight[i].origin);
    var gen := s.inflight[i].doc.gen;
    var first := CounterDies(s, g);
    var s1 := Run(s, first);
    IncrementsReach(s1, g, gen);
    IncrementsEvictNothing(g, gen);
    var second := Increments(g, gen);
    var s2 := Run(s1, second);
    RunKeepsInv(s, first);
    RunKeepsInv(s1, second);
    r := IdsAreBounded(s.readers.Keys);
    var third := [Land(i), Start(r, org, user, project, ANY_REQUEST), Advance(r, true)];
    LandedIsChecked(s2, i, r, org, user, project, g);
    RunAppend(s1, second, third);
    RunAppend(s, first, second + third);
    steps := first + (second + third);
  }

  /**
   The exact guarantee after an INCR, with or without its EXPIRE: a retired entry that is still on its way is
   refused by every check up to an instant if and only if the counter cannot have expired by then.
  */
  lemma RetiredExactlyUntilTheDeadline(
    s: State, i: nat, org: Id, user: Id, project: Id, g: GrantId, t: nat)
    requires Inv(s) && s.ttl > 0 && i < |s.inflight|
    requires s.inflight[i].origin.subject == GrantsOf(org, user, project)
    requires s.inflight[i].doc.GrantsEntry? && s.inflight[i].doc.via == Some(g)
    requires s.inflight[i].doc.gen < Count(s, g)
    ensures RefusedUntil(s, g, s.inflight[i].doc.gen, t) <==> t < DeadlineOf(s, g)
  {
    assert Genuine(s, s.inflight[i].doc, s.inflight[i].origin);
    if t < DeadlineOf(s, g) {
      RefusedBeforeTheDeadline(s, g, s.inflight[i].doc.gen, t);
    } else {
      var steps, r := AcceptedFromTheDeadline(s, i, org, user, project, g);
      assert AcceptsStamp(Run(s, steps), r, g, s.inflight[i].doc.gen);
    }
  }

  /**
   What the EXPIRE adds.  A revocation whose EXPIRE is applied keeps the entry out for a day.  One whose
   EXPIRE is lost keeps it out only as long as the counter already had, which may be a millisecond; a counter
   that had no expiry of its own, or did not exist, loses nothing.
  */
  lemma LostExpireShortensTheGuarantee(
    s: State, i: nat, org: Id, user: Id, project: Id, g: GrantId, t: nat)
    requires Inv(s) && s.ttl > 0 && i < |s.inflight|
    requires s.inflight[i].origin.subject == GrantsOf(org, user, project)
    requires s.inflight[i].doc.GrantsEntry? && s.inflight[i].doc.via == Some(g)
    requires s.inflight[i].doc.gen <= Count(s, g) && Count(s, g) >= 0
    ensures RefusedUntil(Revoked(s, [], g), g, s.inflight[i].doc.gen, t) <==> t < s.now + 86_400_000
    ensures
      var key := KeyOf(GenerationOf(g));
      RefusedUntil(Apply(s, Step.Incr(g)), g, s.inflight[i].doc.gen, t) <==>
        t < s.now + 86_400_000 &&
        (Live(s.cells, key, s.now) && s.cells[key].expires.Some? ==> t < s.cells[key].expires.value)
  {
    IncrGoesPast(s, g);
    var s1 := Apply(s, Step.Incr(g));
    RetiredExactlyUntilTheDeadline(s1, i, org, user, project, g, t);
    RevocationGoesPast(s, [], g, s.inflight[i].doc.gen);
    RetiredExactlyUntilTheDeadline(Revoked(s, [], g), i, org, user, project, g, t);
  }

  /**
   The counter must not be lost in between.  A delegated SET in flight that was stamped 1 or more, a
   counter lost, and as many revocations as the stamp says: the next check is served the entry that
   every one of those revocations was meant to retire.
  */
  lemma LostCounterRevivesEntries(s: State, i: nat, org: Id, user: Id, project: Id, g: GrantId)
    returns (steps: seq<Step>, r: nat)
    requires Inv(s) && s.ttl > 0 && i < |s.inflight|
    requires s.inflight[i].origin.subject == GrantsOf(org, user, project)
    requires s.inflight[i].doc.GrantsEntry? && s.inflight[i].doc.via == Some(g) && s.inflight[i].doc.gen >= 1
    ensures Step.Incr(g) in steps
    ensures r !in s.readers && r in Run(s, steps).readers
    ensures ServedFrom(Run(s, steps).readers[r], s.inflight[i].origin)
  {
    var n := s.inflight[i].doc.gen;
    var lost := Recount(g, n);
    RecountReaches(s, g, n);
    var s1 := Run(s, lost);
    RunKeepsInv(s, lost);
    r := IdsAreBounded(s.readers.Keys);
    var served := GrantsStragglerIsServed(s1, i, r, org, user, project);
    RunAppend(s, lost, served);
    RecountIncrements(g, n);
    steps := lost + served;
  }

  predicate ServedFrom(rd: Reader, o: Origin) {
    rd.keys.Some? && rd.keys.value.cached && rd.keys.value.origin.version == o.version
  }

  lemma RecountIncrements(g: GrantId, n: nat)
    requires n > 0
    ensures Step.Incr(g) in Recount(g, n)
  {
    assert Increments(g, n)[n - 1] == Step.Incr(g);
  }
  // Such states are reached.

  /** One user, who holds a delegated grant. */
  function Delegated(user: Id, project: Id, g: GrantId): Database {
    Database(map[], {user}, map[(user, project) := UserGrant([], Some(g))], map[g := ProjectGrant([], Active)], map[])
  }

  /**
   From every start: a delegated grant is read, stamped 1 and sent to the cache, where it has not arrived
   when the counter moves on.  So an entry is retired and still on its way.
  */
  lemma RetiredEntriesAreReached(s0: State, org: Id, user: Id, project: Id, g: GrantId) returns (steps: seq<Step>)
    requires Initial(s0)
    ensures
      var s := Run(s0, steps);
      && Inv(s) && s.ttl == s0.ttl && |s.inflight| == 1
      && s.inflight[0].origin.subject == GrantsOf(org, user, project)
      && s.inflight[0].doc.GrantsEntry? && s.inflight[0].doc.via == Some(g) && s.inflight[0].doc.gen == 1
      && Count(s, g) == 2
  {
    var grant := DbWrite(Delegated(user, project, g));
    RunOne(s0, grant);
    var s1 := Run(s0, [grant]);
    RecountReaches(s1, g, 1);
    var s2 := Run(s1, Recount(g, 1));
    var third := ReadsItsKeys(s2, 0, org, user, project);
    var s3 := Run(s2, third);
    assert GrantsAt(CurrentDb(s2), user, project).1 == Some(g);
    var fourth := [Advance(0, true), Advance(0, true), Step.Incr(g)];
    StampedAndSent(s3, org, user, project, g);
    RunAppend(s2, third, fourth);
    RunAppend(s1, Recount(g, 1), third + fourth);
    RunAppend(s0, [grant], Recount(g, 1) + (third + fourth));
    steps := [grant] + (Recount(g, 1) + (third + fourth));
    InitialInv(s0);
    RunKeepsInv(s0, steps);
  }

  lemma StampedAndSent(s: State, org: Id, user: Id, project: Id, g: GrantId)
    requires 0 in s.readers && s.readers[0].pc.Stamp? && s.inflight == [] && Count(s, g) == 1
    requires s.readers[0].keys.Some? && s.readers[0].keys.value.value.1 == Some(g)
    requires s.readers[0].keys.value.origin.subject == GrantsOf(org, user, project)
    ensures
      var s' := Run(s, [Advance(0, true), Advance(0, true), Step.Incr(g)]);
      && s'.ttl == s.ttl && |s'.inflight| == 1
      && s'.inflight[0].origin.subject == GrantsOf(org, user, project)
      && s'.inflight[0].doc.GrantsEntry? && s'.inflight[0].doc.via == Some(g) && s'.inflight[0].doc.gen == 1
      && Count(s', g) == 2
  {
    RunThree(s, Advance(0, true), Advance(0, true), Step.Incr(g));
    var s1 := Apply(s, Advance(0, true));
    assert s1.readers[0].pc == PutKeys(1, s.now);
    var s2 := Apply(s1, Advance(0, true));
    assert s2.cells == s.cells;
  }
}
