/**
 The part of Redis this service relies on: keys with an expiry, a plain SET, SET NX, SET XX
 KEEPTTL, DEL, INCR and EXPIRE.  A stored string is either a document the reader can decode, a
 decimal integer, or something neither applies to.

 The functions say what each command does to the keyspace.  Class `Redis` is the client the
 callers hold; its methods change the keyspace in place and are specified by the functions.
*/
module RedisStore {
  import opened Wrappers

  datatype Stored<+D> = Doc(doc: D) | Int(n: int) | Junk

  datatype Cell<+D> = Cell(value: Stored<D>, expires: Option<nat>)

  type Cells<+D> = map<string, Cell<D>>

  /** A key whose expiry has passed is gone, whether or not the server has reclaimed it. */
  predicate Live<D>(cells: Cells<D>, key: string, now: nat) {
    key in cells && (cells[key].expires.None? || now < cells[key].expires.value)
  }

  function Read<D>(cells: Cells<D>, key: string, now: nat): Option<Stored<D>> {
    if Live(cells, key, now) then Some(cells[key].value) else None
  }

  function AfterSet<D>(cells: Cells<D>, key: string, doc: D, now: nat, ttl: nat): Cells<D> {
    cells[key := Cell(Doc(doc), Some(now + ttl))]
  }

  function AfterSetNX<D>(cells: Cells<D>, key: string, doc: D, now: nat, ttl: nat): Cells<D> {
    if Live(cells, key, now) then cells else AfterSet(cells, key, doc, now, ttl)
  }

  /** SET XX KEEPTTL: only a live key is overwritten, and its expiry stays where it was. */
  function AfterReplace<D>(cells: Cells<D>, key: string, doc: D, now: nat): Cells<D> {
    if Live(cells, key, now) then cells[key := Cell(Doc(doc), cells[key].expires)] else cells
  }

  function AfterDel<D>(cells: Cells<D>, key: string): Cells<D> {
    cells - {key}
  }

  /** INCR on a missing key starts from zero and sets no expiry; on anything but an integer it errors. */
  function AfterIncr<D>(cells: Cells<D>, key: string, now: nat): Cells<D> {
    match Read(cells, key, now)
    case None => cells[key := Cell(Int(1), None)]
    case Some(Int(n)) => cells[key := Cell(Int(n + 1), cells[key].expires)]
    case Some(_) => cells
  }

  function AfterExpire<D>(cells: Cells<D>, key: string, now: nat, ttl: nat): Cells<D> {
    if Live(cells, key, now) then cells[key := Cell(cells[key].value, Some(now + ttl))] else cells
  }

  /**
   How one command ended for the client.  A failed write may have reached the server before the
   client's deadline passed, so a failure says nothing about whether it was applied.
  */
  datatype Fate = Acknowledged | FailedApplied | FailedLost

  predicate Applied(fate: Fate) { !fate.FailedLost? }

  datatype Reply<+D> = Found(value: Stored<D>) | Absent | Unreachable

  class Redis<D> {
    var cells: Cells<D>
    var now: nat

    constructor ()
      ensures cells == map[] && now == 0
    {
      cells := map[];
      now := 0;
    }

    method Get(key: string, up: bool) returns (reply: Reply<D>)
      ensures !up ==> reply.Unreachable?
      ensures up ==> reply == match Read(cells, key, now) case Some(v) => Found(v) case None => Absent
    {
      if !up {
        return Unreachable;
      }
      if key in cells {
        var cell := cells[key];
        if cell.expires.None? || now < cell.expires.value {
          return Found(cell.value);
        }
      }
      return Absent;
    }

    method Set(key: string, doc: D, ttl: nat, fate: Fate) returns (ok: bool)
      modifies `cells
      ensures ok == fate.Acknowledged?
      ensures cells == if Applied(fate) then AfterSet(old(cells), key, doc, now, ttl) else old(cells)
    {
      if !fate.FailedLost? {
        cells := cells[key := Cell(Doc(doc), Some(now + ttl))];
      }
      ok := fate.Acknowledged?;
    }

    /** `wrote` is the reply; it is meaningful only when the command was acknowledged. */
    method SetNX(key: string, doc: D, ttl: nat, fate: Fate) returns (ok: bool, wrote: bool)
      modifies `cells
      ensures ok == fate.Acknowledged?
      ensures wrote == !Live(old(cells), key, now)
      ensures cells == if Applied(fate) then AfterSetNX(old(cells), key, doc, now, ttl) else old(cells)
    {
      wrote := !Live(cells, key, now);
      if wrote && !fate.FailedLost? {
        cells := cells[key := Cell(Doc(doc), Some(now + ttl))];
      }
      ok := fate.Acknowledged?;
    }

    /** `wrote` is false when XX found nothing to overwrite, which go-redis reports as an error. */
    method SetXXKeepTTL(key: string, doc: D, fate: Fate) returns (ok: bool, wrote: bool)
      modifies `cells
      ensures ok == fate.Acknowledged?
      ensures wrote == Live(old(cells), key, now)
      ensures cells == if Applied(fate) then AfterReplace(old(cells), key, doc, now) else old(cells)
    {
      wrote := Live(cells, key, now);
      if wrote && !fate.FailedLost? {
        cells := cells[key := Cell(Doc(doc), cells[key].expires)];
      }
      ok := fate.Acknowledged?;
    }

    method Del(key: string, fate: Fate) returns (ok: bool)
      modifies `cells
      ensures ok == fate.Acknowledged?
      ensures cells == if Applied(fate) then AfterDel(old(cells), key) else old(cells)
    {
      if !fate.FailedLost? {
        cells := cells - {key};
      }
      ok := fate.Acknowledged?;
    }

    method Incr(key: string, fate: Fate) returns (ok: bool)
      modifies `cells
      ensures ok == (fate.Acknowledged? && (Read(old(cells), key, now).None? || Read(old(cells), key, now).value.Int?))
      ensures cells == if Applied(fate) then AfterIncr(old(cells), key, now) else old(cells)
    {
      ok := fate.Acknowledged?;
      if !fate.FailedLost? {
        if !Live(cells, key, now) {
          cells := cells[key := Cell(Int(1), None)];
        } else if cells[key].value.Int? {
          cells := cells[key := Cell(Int(cells[key].value.n + 1), cells[key].expires)];
        } else {
          ok := false;
        }
      }
    }

    method Expire(key: string, ttl: nat, fate: Fate)
      modifies `cells
      ensures cells == if Applied(fate) then AfterExpire(old(cells), key, now, ttl) else old(cells)
    {
      if !fate.FailedLost? && Live(cells, key, now) {
        cells := cells[key := Cell(cells[key].value, Some(now + ttl))];
      }
    }
  }
}
