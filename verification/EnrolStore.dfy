/** Forced-enrolment state in Redis: a half-finished sign-in, under a key derived from a secret handle. */
module EnrolStore {
  import opened RedisStore
  import opened Wrappers

  type Id = string

  datatype EnrolState = EnrolState(user: Id, org: Id, pending: Id, factor: Id, attempts: int, confirmed: bool)

  /** Fifteen minutes, in milliseconds. */
  const ENROLMENT_TTL := 15 * 60 * 1000

  datatype Problem = NoEnrolment | StoreFailure

  predicate Identified(state: EnrolState) {
    state.user != "" && state.org != "" && state.factor != ""
  }

  /** What a key names: a missing, expired or blank state is no enrolment; a failure to find out is neither. */
  function Lookup(cells: Cells<EnrolState>, key: string, now: nat, up: bool): Result<EnrolState, Problem> {
    if !up then Failure(StoreFailure)
    else
      match Read(cells, key, now)
      case None => Failure(NoEnrolment)
      case Some(Doc(state)) => if Identified(state) then Success(state) else Failure(NoEnrolment)
      case Some(_) => Failure(StoreFailure)
  }

  class Enrolments {
    const client: Redis<EnrolState>
    const digest: string -> string

    constructor (client: Redis<EnrolState>, digest: string -> string)
      ensures this.client == client && this.digest == digest
    {
      this.client, this.digest := client, digest;
    }

    function Key(handle: string): string {
      if handle == "" then "" else "login:enrol:" + digest(handle)
    }

    /** A handle that is taken is refused, never overwritten. */
    method Put(handle: string, state: EnrolState, fate: Fate) returns (ok: bool)
      modifies client`cells
      ensures ok == (fate.Acknowledged? && !Live(old(client.cells), Key(handle), client.now))
      ensures client.cells ==
        if Applied(fate) then AfterSetNX(old(client.cells), Key(handle), state, client.now, ENROLMENT_TTL)
        else old(client.cells)
      ensures ok ==> Lookup(client.cells, Key(handle), client.now, true) ==
                     if Identified(state) then Success(state) else Failure(NoEnrolment)
      ensures ok ==> client.cells == old(client.cells)[Key(handle) := Cell(Doc(state), Some(client.now + 900_000))]
    {
      var acknowledged, wrote := client.SetNX(Key(handle), state, ENROLMENT_TTL, fate);
      ok := acknowledged && wrote;
    }

    method Get(handle: string, up: bool) returns (r: Result<EnrolState, Problem>)
      ensures r == if handle == "" then Failure(NoEnrolment) else Lookup(client.cells, Key(handle), client.now, up)
      ensures r.Success? <==>
        && handle != "" && up && Live(client.cells, Key(handle), client.now)
        && client.cells[Key(handle)].value.Doc?
        && var state := client.cells[Key(handle)].value.doc; state.user != "" && state.org != "" && state.factor != ""
      ensures r.Success? ==> r.value == client.cells[Key(handle)].value.doc
      ensures r == Failure(StoreFailure) <==>
        && handle != ""
        && (!up || (Live(client.cells, Key(handle), client.now) && !client.cells[Key(handle)].value.Doc?))
    {
      if handle == "" {
        return Failure(NoEnrolment);
      }
      var reply := client.Get(Key(handle), up);
      match reply
      case Unreachable => return Failure(StoreFailure);
      case Absent => return Failure(NoEnrolment);
      case Found(Doc(state)) =>
        if !Identified(state) {
          return Failure(NoEnrolment);
        }
        return Success(state);
      case Found(_) => return Failure(StoreFailure);
    }

    /** The expiry stays where it was, and what has expired stays expired. */
    method Replace(handle: string, state: EnrolState, fate: Fate) returns (ok: bool)
      modifies client`cells
      ensures ok == (fate.Acknowledged? && Live(old(client.cells), Key(handle), client.now))
      ensures client.cells ==
        if Applied(fate) then AfterReplace(old(client.cells), Key(handle), state, client.now) else old(client.cells)
      ensures forall k :: Live(client.cells, k, client.now) ==>
        Live(old(client.cells), k, client.now) && client.cells[k].expires == old(client.cells)[k].expires
    {
      var acknowledged, wrote := client.SetXXKeepTTL(Key(handle), state, fate);
      ok := acknowledged && wrote;
    }

    method Delete(handle: string, fate: Fate) returns (ok: bool)
      modifies client`cells
      ensures ok == fate.Acknowledged?
      ensures client.cells == if Applied(fate) then AfterDel(old(client.cells), Key(handle)) else old(client.cells)
    {
      ok := client.Del(Key(handle), fate);
    }
  }
}
