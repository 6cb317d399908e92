/**
 The handler's code is a reader of the protocol: run alone, with the same failures, a reader makes the
 decision `CheckAuthorization` makes and leaves the cache `GrantsFor` leaves.
*/
module AuthzSolo {
  import opened Wrappers
  import opened RedisStore
  import opened AuthzKeys
  import opened AuthzCache
  import opened GrantSql
  import opened Decisions
  import opened AuthzHandler
  import opened AuthzProtocol

  datatype Question = Question(org: Id, user: Id, project: Id, request: Request)

  /** Only reader `r` and the cache have moved; no SET is left behind. */
  predicate Alone(s: State, s': State, r: nat) {
    && s'.now == s.now && s'.ttl == s.ttl && s'.db == s.db && s'.inflight == s.inflight
    && r in s'.readers
  }

  predicate Asks(rd: Reader, q: Question) {
    rd.org == q.org && rd.user == q.user && rd.project == q.project && rd.request == q.request
  }

  function KeysHeld(rd: Reader): Option<Keys> {
    if rd.keys.Some? then Some(rd.keys.value.value) else None
  }

  function DefinitionsHeld(rd: Reader): Option<Definitions> {
    if rd.definitions.Some? then Some(rd.definitions.value.value) else None
  }

  /** The grants lookup: one step, or two when the entry came through a Project Grant. */
  lemma LooksUpGrants(s: State, r: nat, q: Question, f: Faults) returns (steps: seq<Step>)
    requires r !in s.readers
    ensures
      var s' := Run(s, steps);
      && Alone(s, s', r) && s'.cells == s.cells && Asks(s'.readers[r], q)
      && s'.readers[r].pc == AskRoles && s'.readers[r].definitions == None
      && KeysHeld(s'.readers[r]) == LookupGrants(s.cells, s.now, q.org, q.user, q.project, f.getKeys, f.getGen)
  {
    var begin, ask := Start(r, q.org, q.user, q.project, q.request), Advance(r, f.getKeys);
    var s1 := Apply(s, begin);
    var s2 := Apply(s1, ask);
    RunTwo(s, begin, ask);
    steps := [begin, ask];
    if s2.readers[r].pc.AskGeneration? {
      RunAppend(s, steps, [Advance(r, f.getGen)]);
      RunOne(s2, Advance(r, f.getGen));
      steps := steps + [Advance(r, f.getGen)];
    }
  }

  lemma LooksUpRoles(s: State, r: nat, q: Question, f: Faults)
    requires r in s.readers && Asks(s.readers[r], q) && s.readers[r].pc == AskRoles && s.readers[r].definitions == None
    ensures
      var s' := Run(s, [Advance(r, f.getRoles)]);
      && Alone(s, s', r) && s'.cells == s.cells && Asks(s'.readers[r], q)
      && KeysHeld(s'.readers[r]) == KeysHeld(s.readers[r])
      && DefinitionsHeld(s'.readers[r]) == LookupRoles(s.cells, s.now, q.org, q.project, f.getRoles)
      && s'.readers[r].pc ==
           if s.readers[r].keys.None? then QueryKeys
           else if s'.readers[r].definitions.None? then QueryRoles
           else Conclude
  {
    RunOne(s, Advance(r, f.getRoles));
  }

  /** A SET that was issued last settles: it lands, or it is lost. */
  function Settle(s: State, fate: Fate): Step {
    if Applied(fate) then Land(|s.inflight|) else Lose(|s.inflight|)
  }

  lemma RemoveLast<T>(xs: seq<T>, x: T)
    ensures Remove(xs + [x], |xs|) == xs
  {
  }

  /** Read the keys, stamp them, and write them back. */
  lemma FillsKeys(s: State, r: nat, q: Question, f: Faults) returns (steps: seq<Step>)
    requires r in s.readers && Asks(s.readers[r], q) && s.readers[r].pc == QueryKeys && f.begin && f.queryKeys
    ensures
      var s' := Run(s, steps);
      var keys := GrantsAt(CurrentDb(s), q.user, q.project);
      && Alone(s, s', r) && Asks(s'.readers[r], q)
      && s'.cells == AfterPutGrants(
           s.cells, s.now, s.ttl, q.org, q.user, q.project, keys.0, keys.1, f.readGen, f.setKeys)
      && KeysHeld(s'.readers[r]) == Some(keys)
      && DefinitionsHeld(s'.readers[r]) == DefinitionsHeld(s.readers[r])
      && s'.readers[r].pc == AfterKeys(s.readers[r])
  {
    var s1 := Apply(s, Advance(r, true));
    RunOne(s, Advance(r, true));
    steps := [Advance(r, true)];
    var s2 := s1;
    if s1.readers[r].pc.Stamp? {
      s2 := Apply(s1, Advance(r, f.readGen));
      RunOne(s1, Advance(r, f.readGen));
      RunAppend(s, steps, [Advance(r, f.readGen)]);
      steps := steps + [Advance(r, f.readGen)];
    }
    if s2.readers[r].pc.PutKeys? {
      var rest := PutSettles(s2, r, f.setKeys);
      RunAppend(s, steps, rest);
      steps := steps + rest;
    }
  }

  lemma PutSettles(s: State, r: nat, fate: Fate) returns (steps: seq<Step>)
    requires r in s.readers && s.readers[r].pc.PutKeys? && s.readers[r].keys.Some?
    ensures
      var s' := Run(s, steps);
      var put := KeysPut(s, s.readers[r]);
      && Alone(s, s', r) && s'.readers[r] == s.readers[r].(pc := AfterKeys(s.readers[r]))
      && s'.cells ==
           if Applied(fate) then AfterSet(s.cells, KeyOf(put.origin.subject), put.doc, s.now, s.ttl) else s.cells
  {
    var put := KeysPut(s, s.readers[r]);
    steps := [Advance(r, true), Settle(s, fate)];
    RunTwo(s, steps[0], steps[1]);
    RemoveLast(s.inflight, put);
    assert Apply(s, steps[0]).inflight == s.inflight + [put];
  }

  lemma FillsRoles(s: State, r: nat, q: Question, f: Faults) returns (steps: seq<Step>)
    requires r in s.readers && Asks(s.readers[r], q) && s.readers[r].pc == QueryRoles && f.queryRoles
    ensures
      var s' := Run(s, steps);
      && Alone(s, s', r) && Asks(s'.readers[r], q)
      && s'.cells == AfterPutRoles(
           s.cells, s.now, s.ttl, q.org, q.project, DefinitionsIn(CurrentDb(s), q.project), f.setRoles)
      && KeysHeld(s'.readers[r]) == KeysHeld(s.readers[r])
      && DefinitionsHeld(s'.readers[r]) == Some(DefinitionsIn(CurrentDb(s), q.project))
      && s'.readers[r].pc == Commit
  {
    var s1 := Apply(s, Advance(r, true));
    RunOne(s, Advance(r, true));
    var put := RolesPut(s1, s1.readers[r]);
    var rest := [Advance(r, true), Settle(s1, f.setRoles)];
    RunTwo(s1, rest[0], rest[1]);
    RemoveLast(s1.inflight, put);
    assert Apply(s1, rest[0]).inflight == s1.inflight + [put];
    RunAppend(s, [Advance(r, true)], rest);
    steps := [Advance(r, true)] + rest;
  }

  /** A reader whose operation errors fails, and touches nothing. */
  lemma FailsAt(s: State, r: nat)
    requires r in s.readers && (s.readers[r].pc.QueryKeys? || s.readers[r].pc.QueryRoles? || s.readers[r].pc.Commit?)
    ensures
      var s' := Run(s, [Advance(r, false)]);
      s' == s.(readers := s'.readers) && Alone(s, s', r) && s'.readers[r].pc == Failed
  {
    RunOne(s, Advance(r, false));
  }

  lemma Concludes(s: State, r: nat) returns (steps: seq<Step>)
    requires r in s.readers && s.readers[r].keys.Some? && s.readers[r].definitions.Some?
    requires s.readers[r].pc.Commit? || s.readers[r].pc.Conclude?
    ensures
      var s' := Run(s, steps);
      var rd := s.readers[r];
      && s' == s.(readers := s'.readers) && Alone(s, s', r)
      && s'.readers[r].pc ==
           Decided(Decide(rd.request, Assemble(rd.keys.value.value.0, rd.definitions.value.value)), s.now)
  {
    if s.readers[r].pc.Commit? {
      steps := [Advance(r, true), Advance(r, true)];
      RunTwo(s, steps[0], steps[1]);
    } else {
      steps := [Advance(r, true)];
      RunOne(s, steps[0]);
    }
  }

  /** Continue a run that has got as far as `s1`. */
  lemma Continue(s: State, a: seq<Step>, s1: State, b: seq<Step>) returns (steps: seq<Step>)
    requires s1 == Run(s, a)
    ensures steps == a + b && Run(s, steps) == Run(s1, b)
  {
    RunAppend(s, a, b);
    steps := a + b;
  }

  predicate Answered(rd: Reader, inputs: Option<Inputs>, req: Request, now: nat) {
    rd.pc ==
      if inputs.None? then Failed
      else Decided(Decide(req, Assemble(inputs.value.keys, inputs.value.definitions)), now)
  }

  function Verdict(req: Request, keys: Keys, roles: Definitions, now: nat): Pc {
    Decided(Decide(req, Assemble(keys.0, roles)), now)
  }

  /** The end of a check that has all its inputs. */
  lemma Finishes(s: State, r: nat, q: Question, f: Faults, keys: Keys, roles: Definitions) returns (steps: seq<Step>)
    requires r in s.readers && Asks(s.readers[r], q)
    requires KeysHeld(s.readers[r]) == Some(keys) && DefinitionsHeld(s.readers[r]) == Some(roles)
    requires s.readers[r].pc.Commit? || s.readers[r].pc.Conclude?
    ensures
      var s' := Run(s, steps);
      && Alone(s, s', r) && s'.cells == s.cells
      && s'.readers[r].pc ==
           if s.readers[r].pc.Commit? && !f.commit then Failed else Verdict(q.request, keys, roles, s.now)
  {
    if s.readers[r].pc.Commit? && !f.commit {
      FailsAt(s, r);
      steps := [Advance(r, false)];
    } else {
      steps := Concludes(s, r);
    }
  }

  /** The end of a check that still lacks the role definitions. */
  lemma FillsRolesAndFinishes(s: State, r: nat, q: Question, f: Faults, keys: Keys) returns (steps: seq<Step>)
    requires r in s.readers && Asks(s.readers[r], q) && s.readers[r].pc == QueryRoles
    requires KeysHeld(s.readers[r]) == Some(keys)
    ensures
      var s' := Run(s, steps);
      var roles := DefinitionsIn(CurrentDb(s), q.project);
      && Alone(s, s', r)
      && s'.cells ==
           (if f.begin && f.queryRoles
            then AfterPutRoles(s.cells, s.now, s.ttl, q.org, q.project, roles, f.setRoles)
            else s.cells)
      && s'.readers[r].pc ==
           if f.begin && f.queryRoles && f.commit then Verdict(q.request, keys, roles, s.now) else Failed
  {
    if !f.begin || !f.queryRoles {
      FailsAt(s, r);
      steps := [Advance(r, false)];
    } else {
      steps := FillsRoles(s, r, q, f);
      var s1 := Run(s, steps);
      var rest := Finishes(s1, r, q, f, keys, DefinitionsIn(CurrentDb(s), q.project));
      steps := Continue(s, steps, s1, rest);
    }
  }

  /** The end of a check whose grants lookup missed and whose query succeeds. */
  lemma FillsKeysAndFinishes(s: State, r: nat, q: Question, f: Faults, hitRoles: Option<Definitions>)
    returns (steps: seq<Step>)
    requires r in s.readers && Asks(s.readers[r], q) && s.readers[r].pc == QueryKeys && f.begin && f.queryKeys
    requires DefinitionsHeld(s.readers[r]) == hitRoles
    ensures
      var s' := Run(s, steps);
      var keys := GrantsAt(CurrentDb(s), q.user, q.project);
      var roles := if hitRoles.Some? then hitRoles.value else DefinitionsIn(CurrentDb(s), q.project);
      && Alone(s, s', r)
      && s'.cells ==
           Filled(true, s.cells, s.now, s.ttl, CurrentDb(s), q.org, q.user, q.project, f, true, hitRoles.None?)
      && s'.readers[r].pc ==
           if (hitRoles.None? && !f.queryRoles) || !f.commit then Failed else Verdict(q.request, keys, roles, s.now)
  {
    var first := FillsKeys(s, r, q, f);
    var s1 := Run(s, first);
    var keys := GrantsAt(CurrentDb(s), q.user, q.project);
    assert CurrentDb(s1) == CurrentDb(s);
    var rest;
    if hitRoles.Some? {
      rest := Finishes(s1, r, q, f, keys, hitRoles.value);
    } else {
      rest := FillsRolesAndFinishes(s1, r, q, f, keys);
    }
    steps := Continue(s, first, s1, rest);
  }

  /** From the roles lookup on. */
  lemma Fills(s: State, r: nat, q: Question, f: Faults, hit: Option<Keys>, hitRoles: Option<Definitions>)
    returns (steps: seq<Step>)
    requires r in s.readers && Asks(s.readers[r], q)
    requires KeysHeld(s.readers[r]) == hit && DefinitionsHeld(s.readers[r]) == hitRoles
    requires s.readers[r].pc == if hit.None? then QueryKeys else if hitRoles.None? then QueryRoles else Conclude
    ensures
      var s' := Run(s, steps);
      && Alone(s, s', r)
      && s'.cells ==
           (if hit.Some? && hitRoles.Some? then s.cells
            else
              Filled(
                true, s.cells, s.now, s.ttl, CurrentDb(s), q.org, q.user, q.project, f, hit.None?, hitRoles.None?))
      && s'.readers[r].pc ==
           (if (hit.None? || hitRoles.None?) &&
               (!f.begin || (hit.None? && !f.queryKeys) || (hitRoles.None? && !f.queryRoles) || !f.commit) then Failed
            else
              Verdict(
                q.request,
                if hit.Some? then hit.value else GrantsAt(CurrentDb(s), q.user, q.project),
                if hitRoles.Some? then hitRoles.value else DefinitionsIn(CurrentDb(s), q.project),
                s.now))
  {
    if hit.Some? {
      if hitRoles.Some? {
        steps := Finishes(s, r, q, f, hit.value, hitRoles.value);
      } else {
        steps := FillsRolesAndFinishes(s, r, q, f, hit.value);
      }
    } else if !f.begin || !f.queryKeys {
      FailsAt(s, r);
      steps := [Advance(r, false)];
    } else {
      steps := FillsKeysAndFinishes(s, r, q, f, hitRoles);
    }
  }

  /** Both lookups. */
  lemma LooksUp(s: State, r: nat, q: Question, f: Faults) returns (steps: seq<Step>)
    requires r !in s.readers
    ensures
      var s' := Run(s, steps);
      && Alone(s, s', r) && s'.cells == s.cells && Asks(s'.readers[r], q)
      && var hit, hitRoles := KeysHeld(s'.readers[r]), DefinitionsHeld(s'.readers[r]);
      && hit == LookupGrants(s.cells, s.now, q.org, q.user, q.project, f.getKeys, f.getGen)
      && hitRoles == LookupRoles(s.cells, s.now, q.org, q.project, f.getRoles)
      && s'.readers[r].pc == if hit.None? then QueryKeys else if hitRoles.None? then QueryRoles else Conclude
  {
    var first := LooksUpGrants(s, r, q, f);
    var s1 := Run(s, first);
    LooksUpRoles(s1, r, q, f);
    steps := Continue(s, first, s1, [Advance(r, f.getRoles)]);
  }

  /** The whole check. */
  lemma SoloReaderIsTheHandler(s: State, r: nat, q: Question, f: Faults) returns (steps: seq<Step>)
    requires r !in s.readers
    ensures
      var s' := Run(s, steps);
      var (inputs, cells) := ReadThrough(
        true, s.cells, s.now, s.ttl, CurrentDb(s), q.org, q.user, q.project, f);
      && s'.inflight == s.inflight && s'.db == s.db && s'.now == s.now
      && s'.cells == cells
      && r in s'.readers && Answered(s'.readers[r], inputs, q.request, s.now)
  {
    var first := LooksUp(s, r, q, f);
    var s1 := Run(s, first);
    var rest := Fills(s1, r, q, f, KeysHeld(s1.readers[r]), DefinitionsHeld(s1.readers[r]));
    steps := Continue(s, first, s1, rest);
  }
}
