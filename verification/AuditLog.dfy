/** Reading the audit log a page at a time, newest first, while events keep arriving. */
module AuditLog {
  import opened Wrappers

  /** `at` is the instant of creation, in microseconds; with the id it is the table's primary key. */
  datatype Entry = Entry(id: int, at: int, kind: string, actor: string)

  predicate Newer(a: Entry, b: Entry) {
    a.at > b.at || (a.at == b.at && a.id > b.id)
  }

  predicate KeysAreUnique(rows: seq<Entry>) {
    forall i, j :: 0 <= i < j < |rows| ==> (rows[i].at, rows[i].id) != (rows[j].at, rows[j].id)
  }

  // The query.

  datatype Filter = Filter(kinds: seq<string>, actor: string, from: Option<int>, to: Option<int>)

  datatype Cursor = Cursor(at: int, id: int)

  predicate Matches(f: Filter, e: Entry) {
    && (f.kinds == [] || e.kind in f.kinds)
    && (f.actor == "" || e.actor == f.actor)
    && (f.from.Some? ==> e.at >= f.from.value)
    && (f.to.Some? ==> e.at < f.to.value)
  }

  predicate Below(e: Entry, c: Option<Cursor>) {
    c.Some? ==> e.at < c.value.at || (e.at == c.value.at && e.id < c.value.id)
  }

  function Where(rows: seq<Entry>, f: Filter, c: Option<Cursor>): seq<Entry> {
    if rows == [] then []
    else (if Matches(f, rows[0]) && Below(rows[0], c) then [rows[0]] else []) + Where(rows[1..], f, c)
  }

  function Insert(e: Entry, rows: seq<Entry>): seq<Entry> {
    if rows == [] || Newer(e, rows[0]) then [e] + rows else [rows[0]] + Insert(e, rows[1..])
  }

  /** ORDER BY created_at DESC, id DESC. */
  function NewestFirst(rows: seq<Entry>): seq<Entry> {
    if rows == [] then [] else Insert(rows[0], NewestFirst(rows[1..]))
  }

  function Select(rows: seq<Entry>, f: Filter, c: Option<Cursor>): seq<Entry> {
    NewestFirst(Where(rows, f, c))
  }

  predicate Descending(rows: seq<Entry>) {
    forall i, j :: 0 <= i < j < |rows| ==> Newer(rows[i], rows[j])
  }

  lemma {:induction false} WhereSelects(rows: seq<Entry>, f: Filter, c: Option<Cursor>)
    ensures forall e :: e in Where(rows, f, c) <==> e in rows && Matches(f, e) && Below(e, c)
    ensures KeysAreUnique(rows) ==> KeysAreUnique(Where(rows, f, c))
  {
    if rows != [] {
      WhereSelects(rows[1..], f, c);
      if KeysAreUnique(rows) {
        forall x | x in Where(rows[1..], f, c) ensures (x.at, x.id) != (rows[0].at, rows[0].id) {
          assert x in rows[1..];
        }
      }
    }
  }

  lemma {:induction false} InsertKeeps(e: Entry, rows: seq<Entry>)
    ensures forall x :: x in Insert(e, rows) <==> x == e || x in rows
    ensures Descending(rows) && (forall x :: x in rows ==> (x.at, x.id) != (e.at, e.id)) ==> Descending(Insert(e, rows))
  {
    if rows != [] && !Newer(e, rows[0]) {
      InsertKeeps(e, rows[1..]);
      var rest := Insert(e, rows[1..]);
      if Descending(rows) && (forall x :: x in rows ==> (x.at, x.id) != (e.at, e.id)) {
        forall j | 0 <= j < |rest| ensures Newer(rows[0], rest[j]) {
          assert rest[j] == e || rest[j] in rows[1..];
        }
      }
    }
  }

  lemma {:induction false} NewestFirstSorts(rows: seq<Entry>)
    ensures forall e :: e in NewestFirst(rows) <==> e in rows
    ensures KeysAreUnique(rows) ==> Descending(NewestFirst(rows))
  {
    if rows != [] {
      var rest := NewestFirst(rows[1..]);
      NewestFirstSorts(rows[1..]);
      InsertKeeps(rows[0], rest);
      if KeysAreUnique(rows) {
        forall x | x in rest ensures (x.at, x.id) != (rows[0].at, rows[0].id) {
          assert x in rows[1..];
        }
      }
    }
  }

  lemma SelectSorts(rows: seq<Entry>, f: Filter, c: Option<Cursor>)
    requires KeysAreUnique(rows)
    ensures Descending(Select(rows, f, c))
    ensures forall e :: e in Select(rows, f, c) <==> e in rows && Matches(f, e) && Below(e, c)
  {
    WhereSelects(rows, f, c);
    NewestFirstSorts(Where(rows, f, c));
  }

  // One page.

  const DEFAULT_SIZE := 20
  const MAX_SIZE := 100
  const MAX_KINDS := 20

  /** The number asked for, or None where it is absent or not a number. */
  function PageSize(requested: Option<int>): (size: nat)
    ensures 1 <= size <= MAX_SIZE
    ensures requested.Some? && 1 <= requested.value <= MAX_SIZE ==> size == requested.value
    ensures requested.Some? && requested.value > MAX_SIZE ==> size == 100
    ensures requested.None? || requested.value <= 0 ==> size == 20
  {
    if requested.None? || requested.value <= 0 then DEFAULT_SIZE
    else if requested.value > MAX_SIZE then MAX_SIZE
    else requested.value
  }

  datatype Page = Page(items: seq<Entry>, next: Option<Cursor>)

  function Position(e: Entry): Cursor { Cursor(e.at, e.id) }

  /** `rows` holds one row more than the page if there is a next page. */
  function Paginate(rows: seq<Entry>, size: nat): Page
    requires size >= 1
  {
    if |rows| <= size then Page(rows, None) else Page(rows[..size], Some(Position(rows[size - 1])))
  }

  function Limit(rows: seq<Entry>, n: nat): seq<Entry> {
    if |rows| <= n then rows else rows[..n]
  }

  function PageOf(table: seq<Entry>, f: Filter, c: Option<Cursor>, size: nat): Page
    requires size >= 1
  {
    Paginate(Limit(Select(table, f, c), size + 1), size)
  }

  /** The id a token carries is text; it may be absent, or not a number the database can compare with. */
  datatype IdText = NoId | Number(n: int) | Words

  /** What a token decodes to: an instant, an id, and whether it carries a name, which is another list's position. */
  datatype Token = NoToken | Garbage | Decoded(at: int, id: IdText, named: bool)

  /** The zero instant, in microseconds of the Unix epoch: year one. */
  const ZERO_INSTANT := -62_135_596_800_000_000

  /** A token must carry exactly one position: an instant with an id, or a name. */
  predicate Accepted(t: Token) {
    t.NoToken? || (t.Decoded? && (t.named <==> (t.id.NoId? || t.at == ZERO_INSTANT)))
  }

  datatype Request = Request(size: Option<int>, token: Token, filter: Filter)

  datatype Fault = InvalidToken | TooManyKinds | EmptyRange | Unavailable

  predicate RangeIsEmpty(f: Filter) {
    f.from.Some? && f.to.Some? && f.to.value <= f.from.value
  }

  /** Only the id decides whether there is a position; a name is not looked at. */
  function CursorOf(t: Token): Option<Cursor> {
    if t.Decoded? && t.id.Number? then Some(Cursor(t.at, t.id.n)) else None
  }

  /** The first thing wrong with a request. */
  function Refusal(q: Request): Option<Fault> {
    if !Accepted(q.token) then Some(InvalidToken)
    else if |q.filter.kinds| > MAX_KINDS then Some(TooManyKinds)
    else if RangeIsEmpty(q.filter) then Some(EmptyRange)
    else None
  }

  /** The answer when the database can be reached. */
  function Answer(table: seq<Entry>, q: Request): Result<Page, Fault> {
    if Refusal(q).Some? then Failure(Refusal(q).value)
    else if q.token.Decoded? && q.token.id.Words? then Failure(Unavailable)
    else Success(PageOf(table, q.filter, CursorOf(q.token), PageSize(q.size)))
  }

  // What an answer is, spelled out.

  /** The row passes every filter given, and lies below the position of the token, if it has one. */
  predicate Asked(q: Request, e: Entry) {
    && (q.filter.kinds == [] || exists i :: 0 <= i < |q.filter.kinds| && q.filter.kinds[i] == e.kind)
    && (q.filter.actor == "" || q.filter.actor == e.actor)
    && (q.filter.from.Some? ==> q.filter.from.value <= e.at)
    && (q.filter.to.Some? ==> e.at < q.filter.to.value)
    && (q.token.Decoded? && q.token.id.Number? ==>
          e.at < q.token.at || (e.at == q.token.at && e.id < q.token.id.n))
  }

  predicate After(a: Entry, b: Entry) { a.at > b.at || (a.at == b.at && a.id > b.id) }

  /** As many as were asked for, and a hundred at most; twenty where no number was given. */
  function Asks(size: Option<int>): int {
    if size.None? || size.value <= 0 then 20 else if size.value > 100 then 100 else size.value
  }

  /**
   The newest rows asked for, newest first; all of them if there is no token to go on with, and otherwise a
   full page whose token is the last row's place, below which is every row left out.
  */
  ghost predicate IsPage(table: seq<Entry>, q: Request, p: Page) {
    && |p.items| <= Asks(q.size)
    && (forall i :: 0 <= i < |p.items| ==> p.items[i] in table && Asked(q, p.items[i]))
    && (forall i, j :: 0 <= i < j < |p.items| ==> After(p.items[i], p.items[j]))
    && (p.next.None? ==> forall e :: e in table && Asked(q, e) ==> e in p.items)
    && (p.next.Some? ==>
          && |p.items| == Asks(q.size)
          && var last := p.items[|p.items| - 1];
             && p.next.value.at == last.at && p.next.value.id == last.id
             && (forall e :: e in table && Asked(q, e) && e !in p.items ==> After(last, e))
             && (exists e :: e in table && Asked(q, e) && e !in p.items))
  }

  lemma SelectIsAsked(q: Request, e: Entry)
    ensures Asked(q, e) <==> Matches(q.filter, e) && Below(e, CursorOf(q.token))
  {
    if e.kind in q.filter.kinds {
      var i :| 0 <= i < |q.filter.kinds| && q.filter.kinds[i] == e.kind;
    }
  }

  lemma AnswerIsAPage(table: seq<Entry>, q: Request)
    requires KeysAreUnique(table) && Answer(table, q).Success?
    ensures IsPage(table, q, Answer(table, q).value)
  {
    var f, c, size := q.filter, CursorOf(q.token), PageSize(q.size);
    assert size == Asks(q.size);
    var p := Answer(table, q).value;
    PageIsTheTop(table, f, c, size);
    SelectSorts(table, f, c);
    forall e ensures Asked(q, e) <==> Matches(f, e) && Below(e, c) {
      SelectIsAsked(q, e);
    }
    if p.next.Some? {
      LeftOut(table, f, c, size);
    }
  }

  /** There is a token only when there is more to see. */
  lemma LeftOut(table: seq<Entry>, f: Filter, c: Option<Cursor>, size: nat)
    requires KeysAreUnique(table) && size >= 1 && PageOf(table, f, c, size).next.Some?
    ensures exists e :: e in table && Matches(f, e) && Below(e, c) && e !in PageOf(table, f, c, size).items
  {
    SelectSorts(table, f, c);
    var all := Select(table, f, c);
    var e := all[size];
    assert e in all;
    assert forall i :: 0 <= i < size ==> Newer(all[i], e);
    assert e !in PageOf(table, f, c, size).items;
  }

  /** What is refused: a token of no list, then too many kinds, then an empty range, then an id that is no number. */
  lemma RefusedIff(table: seq<Entry>, q: Request)
    ensures Answer(table, q) == Failure(InvalidToken) <==>
      || q.token.Garbage?
      || (q.token.Decoded? && q.token.named != (q.token.id.NoId? || q.token.at == -62_135_596_800_000_000))
    ensures Answer(table, q) == Failure(TooManyKinds) <==>
      Answer(table, q) != Failure(InvalidToken) && |q.filter.kinds| > 20
    ensures Answer(table, q) == Failure(EmptyRange) <==>
      && Answer(table, q) != Failure(InvalidToken) && |q.filter.kinds| <= 20
      && q.filter.from.Some? && q.filter.to.Some? && q.filter.to.value <= q.filter.from.value
    ensures Answer(table, q) == Failure(Unavailable) ==> q.token.Decoded? && q.token.id.Words?
    ensures Answer(table, q).Success? ==> !(q.token.Decoded? && q.token.id.Words?)
  {
  }

  method ListEvents(table: seq<Entry>, q: Request, up: bool) returns (r: Result<Page, Fault>)
    ensures r == if up || Refusal(q).Some? then Answer(table, q) else Failure(Unavailable)
    ensures KeysAreUnique(table) && r.Success? ==> IsPage(table, q, r.value)
    ensures up ==> (r == Failure(InvalidToken) <==>
      || q.token.Garbage?
      || (q.token.Decoded? && q.token.named != (q.token.id.NoId? || q.token.at == -62_135_596_800_000_000)))
  {
    if KeysAreUnique(table) && Answer(table, q).Success? {
      AnswerIsAPage(table, q);
    }
    var size := PageSize(q.size);
    if !Accepted(q.token) {
      return Failure(InvalidToken);
    }
    if |q.filter.kinds| > MAX_KINDS {
      return Failure(TooManyKinds);
    }
    if RangeIsEmpty(q.filter) {
      return Failure(EmptyRange);
    }
    if !up || (q.token.Decoded? && q.token.id.Words?) {
      return Failure(Unavailable);
    }
    var selected := Limit(Select(table, q.filter, CursorOf(q.token)), size + 1);
    var rows := [];
    for i := 0 to |selected|
      invariant rows == selected[..i]
    {
      rows := rows + [selected[i]];
    }
    assert rows == selected;
    var page := Paginate(rows, size);
    var out := [];
    for i := 0 to |page.items|
      invariant out == page.items[..i]
    {
      out := out + [page.items[i]];
    }
    assert out == page.items;
    return Success(Page(out, page.next));
  }

  // Which tokens are read as the first page.

  /** A row at or above the position, that the filter lets through, can exist. */
  predicate PositionsWithin(f: Filter, c: Cursor) {
    f.to.Some? ==> c.at < f.to.value
  }

  /** A row the first page has and the page below `c` has not. */
  lemma RowAbove(f: Filter, c: Cursor) returns (e: Entry)
    requires !RangeIsEmpty(f) && PositionsWithin(f, c)
    ensures Matches(f, e) && !Below(e, Some(c))
  {
    var at := if f.from.Some? && f.from.value > c.at then f.from.value else c.at;
    e := Entry(c.id, at, if f.kinds == [] then "" else f.kinds[0], f.actor);
  }

  lemma {:induction false} EverythingIsBelow(table: seq<Entry>, f: Filter, c: Cursor)
    requires !PositionsWithin(f, c)
    ensures Where(table, f, Some(c)) == Where(table, f, None)
  {
    if table != [] {
      EverythingIsBelow(table[1..], f, c);
    }
  }

  ghost predicate ReadsAsFirstPage(q: Request) {
    forall table :: KeysAreUnique(table) ==> Answer(table, q) == Answer(table, q.(token := NoToken))
  }

  /**
   A token of a list ordered by name is accepted and read as the first page.  Among the requests that are
   accepted these are all: no id in the token, or a position past the end of the filter's own range, below
   which everything is.
  */
  lemma FirstPageIff(q: Request)
    requires Refusal(q).None?
    ensures ReadsAsFirstPage(q) <==>
      !q.token.Decoded? || q.token.id.NoId? ||
      (q.token.id.Number? && !PositionsWithin(q.filter, Cursor(q.token.at, q.token.id.n)))
    ensures q.token.Decoded? && q.token.id.NoId? ==> q.token.named
  {
    var f := q.filter;
    if q.token.Decoded? && q.token.id.Words? {
      assert KeysAreUnique([]) && Answer([], q) != Answer([], q.(token := NoToken));
    } else if q.token.Decoded? && q.token.id.Number? {
      var c := Cursor(q.token.at, q.token.id.n);
      if PositionsWithin(f, c) {
        var e := RowAbove(f, c);
        OnlyRow(e, f, c, PageSize(q.size));
        assert KeysAreUnique([e]) && Answer([e], q) != Answer([e], q.(token := NoToken));
      } else {
        forall table | KeysAreUnique(table) ensures Answer(table, q) == Answer(table, q.(token := NoToken)) {
          EverythingIsBelow(table, f, c);
        }
      }
    }
  }

  lemma OnlyRow(e: Entry, f: Filter, c: Cursor, size: nat)
    requires Matches(f, e) && !Below(e, Some(c)) && size >= 1
    ensures PageOf([e], f, Some(c), size).items == [] && PageOf([e], f, None, size).items == [e]
  {
    assert Where([e][1..], f, Some(c)) == Where([e][1..], f, None) == [];
    assert Where([e], f, Some(c)) == [] && Where([e], f, None) == [e] + [];
    assert NewestFirst([e][1..]) == [];
    assert Select([e], f, None) == [e];
  }

  /** A name beside an id is accepted only at the zero instant: a position below every row a clock has stamped. */
  lemma NameWithAnIdIsEmpty(table: seq<Entry>, q: Request)
    requires Refusal(q).None? && q.token.Decoded? && q.token.named && q.token.id.Number?
    requires forall i :: 0 <= i < |table| ==> table[i].at > ZERO_INSTANT
    ensures Answer(table, q) == Success(Page([], None))
  {
    NothingIsBelow(table, q.filter, Cursor(q.token.at, q.token.id.n));
  }

  lemma {:induction false} NothingIsBelow(table: seq<Entry>, f: Filter, c: Cursor)
    requires forall i :: 0 <= i < |table| ==> table[i].at > c.at
    ensures Where(table, f, Some(c)) == []
  {
    if table != [] {
      NothingIsBelow(table[1..], f, c);
    }
  }

  /** A page is the top of what is below the cursor: nothing newer than its last row is left out. */
  lemma PageIsTheTop(table: seq<Entry>, f: Filter, c: Option<Cursor>, size: nat)
    requires KeysAreUnique(table) && size >= 1
    ensures
      var p := PageOf(table, f, c, size);
      && |p.items| <= size && Descending(p.items)
      && (forall e :: e in p.items ==> e in table && Matches(f, e) && Below(e, c))
      && (p.next.None? ==> forall e :: e in table && Matches(f, e) && Below(e, c) ==> e in p.items)
      && (p.next.Some? ==> |p.items| == size && p.next.value == Position(p.items[size - 1]))
      && (p.next.Some? ==>
            forall e :: e in table && Matches(f, e) && Below(e, c) && e !in p.items ==> Below(e, p.next))
  {
    SelectSorts(table, f, c);
    var all := Select(table, f, c);
    var p := PageOf(table, f, c, size);
    if |all| > size {
      assert p.items == all[..size];
      forall e | e in table && Matches(f, e) && Below(e, c) && e !in p.items ensures Below(e, p.next) {
        var i :| 0 <= i < |all| && all[i] == e;
        assert forall k :: 0 <= k < size ==> all[k] in p.items;
        assert Newer(all[size - 1], all[i]);
      }
    } else {
      assert p.items == all;
    }
  }

  // Following the tokens.

  /** What the reader meets: the table at each request, and the size asked for. */
  datatype Visit = Visit(table: seq<Entry>, size: Option<int>)

  /** Events are only ever added. */
  predicate OnlyGrows(visits: seq<Visit>) {
    && (forall i :: 0 <= i < |visits| ==> KeysAreUnique(visits[i].table))
    && (forall i, j, e :: 0 <= i < j < |visits| && e in visits[i].table ==> e in visits[j].table)
  }

  /** The token a page ends in. */
  function TokenOf(c: Cursor): Token { Decoded(c.at, Number(c.id), false) }

  /** What a request to go on from `c` carries; the first one carries nothing. */
  function TokenAt(c: Option<Cursor>): Token {
    if c.None? then NoToken else TokenOf(c.value)
  }

  /** A token this list issued is taken back, unless it is of the zero instant, and gives only rows below it. */
  lemma TokensAreTakenBack(table: seq<Entry>, q: Request, c: Cursor)
    requires KeysAreUnique(table) && q.token == TokenOf(c) && |q.filter.kinds| <= 20
    requires q.filter.from.Some? && q.filter.to.Some? ==> q.filter.from.value < q.filter.to.value
    ensures Answer(table, q).Success? <==> c.at != -62_135_596_800_000_000
    ensures c.at == -62_135_596_800_000_000 ==> Answer(table, q) == Failure(InvalidToken)
    ensures Answer(table, q).Success? ==>
      forall e :: e in Answer(table, q).value.items ==> e.at < c.at || (e.at == c.at && e.id < c.id)
  {
    if Answer(table, q).Success? {
      AnswerIsAPage(table, q);
    }
  }

  /** The rows received, whether the list said it was over, the error that stopped it, and where it stands. */
  datatype Walk = Walk(rows: seq<Entry>, ended: bool, fault: Option<Fault>, at: Option<Cursor>)

  /** Request after request, each with the token of the page before it. */
  function Follow(visits: seq<Visit>, f: Filter, c: Option<Cursor>): Walk
    decreases |visits|
  {
    if visits == [] then Walk([], false, None, c)
    else
      match Answer(visits[0].table, Request(visits[0].size, TokenAt(c), f))
      case Failure(fault) => Walk([], false, Some(fault), c)
      case Success(p) =>
        if p.next.None? then Walk(p.items, true, None, None)
        else
          var w := Follow(visits[1..], f, p.next);
          w.(rows := p.items + w.rows)
  }

  predicate Under(e: Entry, c: Option<Cursor>) {
    c.Some? ==> e.at < c.value.at || (e.at == c.value.at && e.id < c.value.id)
  }

  /** The filter lets the row through. */
  predicate Passes(f: Filter, e: Entry) { Asked(Request(None, NoToken, f), e) }

  lemma AskedIs(q: Request, c: Option<Cursor>, e: Entry)
    requires q.token == TokenAt(c)
    ensures Asked(q, e) <==> Passes(q.filter, e) && Under(e, c)
  {
  }

  lemma Appended(items: seq<Entry>, rest: seq<Entry>)
    requires forall i, j :: 0 <= i < j < |items| ==> After(items[i], items[j])
    requires forall i, j :: 0 <= i < j < |rest| ==> After(rest[i], rest[j])
    requires items != [] && forall j :: 0 <= j < |rest| ==> After(items[|items| - 1], rest[j])
    ensures forall i, j :: 0 <= i < j < |items + rest| ==> After((items + rest)[i], (items + rest)[j])
  {
  }

  /** What a walk from `c` has shown, and what it has not. */
  ghost predicate Shows(visits: seq<Visit>, f: Filter, c: Option<Cursor>, w: Walk) {
    && (forall i, j :: 0 <= i < j < |w.rows| ==> After(w.rows[i], w.rows[j]))
    && (forall i :: 0 <= i < |w.rows| ==>
          && Passes(f, w.rows[i]) && Under(w.rows[i], c)
          && exists v :: 0 <= v < |visits| && w.rows[i] in visits[v].table)
    && (if visits == [] then !w.ended && w.at == c
        else
          forall e :: e in visits[0].table && Passes(f, e) && Under(e, c) && e !in w.rows ==>
            !w.ended && Under(e, w.at))
  }

  /**
   Following the tokens with a fixed filter, whatever is inserted between the requests and whatever sizes
   are asked for: the rows come strictly newest first, so none twice; and every matching row that was there
   at the first request has been returned, or is still ahead.
  */
  lemma {:induction false} FollowingTokens(visits: seq<Visit>, f: Filter, c: Option<Cursor>)
    requires OnlyGrows(visits)
    ensures Shows(visits, f, c, Follow(visits, f, c))
    decreases |visits|
  {
    if visits != [] {
      var q := Request(visits[0].size, TokenAt(c), f);
      var r := Answer(visits[0].table, q);
      forall e ensures Asked(q, e) <==> Passes(f, e) && Under(e, c) {
        AskedIs(q, c, e);
      }
      if r.Success? {
        AnswerIsAPage(visits[0].table, q);
        if r.value.next.Some? {
          FollowingTokens(visits[1..], f, r.value.next);
          OnePageMore(visits, f, c, r.value, Follow(visits[1..], f, r.value.next));
        }
      }
    }
  }

  lemma OnePageMore(visits: seq<Visit>, f: Filter, c: Option<Cursor>, p: Page, w: Walk)
    requires OnlyGrows(visits) && visits != [] && p.next.Some?
    requires IsPage(visits[0].table, Request(visits[0].size, TokenAt(c), f), p)
    requires Shows(visits[1..], f, p.next, w)
    ensures Shows(visits, f, c, w.(rows := p.items + w.rows))
  {
    var q := Request(visits[0].size, TokenAt(c), f);
    forall e ensures Asked(q, e) <==> Passes(f, e) && Under(e, c) {
      AskedIs(q, c, e);
    }
    var last := p.items[|p.items| - 1];
    Appended(p.items, w.rows);
    var rows := p.items + w.rows;
    forall i | 0 <= i < |w.rows|
      ensures Under(w.rows[i], c) && exists v :: 0 <= v < |visits| && w.rows[i] in visits[v].table
    {
      assert Under(last, c) && After(last, w.rows[i]);
      var v :| 0 <= v < |visits[1..]| && w.rows[i] in visits[1..][v].table;
      assert w.rows[i] in visits[v + 1].table;
    }
    forall i | 0 <= i < |p.items| ensures exists v :: 0 <= v < |visits| && p.items[i] in visits[v].table {
      assert p.items[i] in visits[0].table;
    }
    StillAhead(visits, f, c, p, w);
  }

  lemma StillAhead(visits: seq<Visit>, f: Filter, c: Option<Cursor>, p: Page, w: Walk)
    requires OnlyGrows(visits) && visits != [] && p.next.Some?
    requires IsPage(visits[0].table, Request(visits[0].size, TokenAt(c), f), p)
    requires Shows(visits[1..], f, p.next, w)
    ensures forall e ::
      e in visits[0].table && Passes(f, e) && Under(e, c) && e !in p.items + w.rows ==> !w.ended && Under(e, w.at)
  {
    var q := Request(visits[0].size, TokenAt(c), f);
    var last := p.items[|p.items| - 1];
    forall e | e in visits[0].table && Passes(f, e) && Under(e, c) && e !in p.items + w.rows
      ensures !w.ended && Under(e, w.at)
    {
      AskedIs(q, c, e);
      assert e !in p.items && e !in w.rows;
      assert After(last, e);
      if |visits| > 1 {
        assert e in visits[1].table && visits[1..][0] == visits[1];
      }
    }
  }

  // That the walk goes on, and comes to an end.

  /** The filter can be asked for, and no row carries the zero instant. */
  predicate Sound(visits: seq<Visit>, f: Filter) {
    && |f.kinds| <= 20 && (f.from.Some? && f.to.Some? ==> f.from.value < f.to.value)
    && (forall v, i :: 0 <= v < |visits| && 0 <= i < |visits[v].table| ==>
          visits[v].table[i].at != -62_135_596_800_000_000)
  }

  /** No token is refused, and every page but the last brings a row. */
  lemma {:induction false} TheWalkGoesOn(visits: seq<Visit>, f: Filter, c: Option<Cursor>)
    requires OnlyGrows(visits) && Sound(visits, f)
    requires c.Some? ==> c.value.at != -62_135_596_800_000_000
    ensures
      var w := Follow(visits, f, c);
      w.fault.None? && (!w.ended ==> |w.rows| >= |visits|)
    decreases |visits|
  {
    if visits != [] {
      var q := Request(visits[0].size, TokenAt(c), f);
      var r := Answer(visits[0].table, q);
      assert r.Success?;
      AnswerIsAPage(visits[0].table, q);
      if r.value.next.Some? {
        var last := r.value.items[|r.value.items| - 1];
        assert last in visits[0].table;
        TheWalkGoesOn(visits[1..], f, r.value.next);
      }
    }
  }

  lemma {:induction false} DistinctRowsFit(rows: seq<Entry>, table: seq<Entry>)
    requires forall i, j :: 0 <= i < j < |rows| ==> rows[i] != rows[j]
    requires forall i :: 0 <= i < |rows| ==> rows[i] in table
    ensures |rows| <= |table|
    decreases |rows|
  {
    if rows != [] {
      var n := |rows| - 1;
      var k :| 0 <= k < |table| && table[k] == rows[n];
      var others := table[..k] + table[k + 1..];
      forall i | 0 <= i < n ensures rows[..n][i] in others {
        var j :| 0 <= j < |table| && table[j] == rows[i];
        assert j != k;
        assert others[if j < k then j else j - 1] == rows[i];
      }
      DistinctRowsFit(rows[..n], others);
    }
  }

  /**
   From the first request on: no token is refused; more requests than there are rows come to the end; and at
   the end exactly the matching events have been returned that were there, with some that came later, and none twice.
  */
  lemma EveryEventOnce(visits: seq<Visit>, f: Filter)
    requires OnlyGrows(visits) && Sound(visits, f) && visits != []
    ensures
      var w := Follow(visits, f, None);
      && w.fault.None?
      && (|visits| > |visits[|visits| - 1].table| ==> w.ended)
      && (w.ended ==> forall e :: e in visits[0].table && Passes(f, e) ==> e in w.rows)
      && (forall i, j :: 0 <= i < j < |w.rows| ==> w.rows[i] != w.rows[j])
      && (forall i :: 0 <= i < |w.rows| ==>
            Passes(f, w.rows[i]) && exists v :: 0 <= v < |visits| && w.rows[i] in visits[v].table)
  {
    FollowingTokens(visits, f, None);
    TheWalkGoesOn(visits, f, None);
    var w := Follow(visits, f, None);
    var table := visits[|visits| - 1].table;
    forall i | 0 <= i < |w.rows| ensures w.rows[i] in table {
      var v :| 0 <= v < |visits| && w.rows[i] in visits[v].table;
    }
    DistinctRowsFit(w.rows, table);
  }

  /** A row of the zero instant at the end of a full page stops the walk: its token is refused. */
  lemma ZeroInstantStopsTheWalk(later: int, earlier: int, actor: string)
    requires earlier < later
    ensures
      var zero := -62_135_596_800_000_000;
      var table := [Entry(later, zero, "", actor), Entry(earlier, zero, "", actor)];
      var visit := Visit(table, Some(1));
      Follow([visit, visit], Filter([], "", None, None), None).fault == Some(InvalidToken)
  {
    var zero := -62_135_596_800_000_000;
    var a, b := Entry(later, zero, "", actor), Entry(earlier, zero, "", actor);
    var table := [a, b];
    var f, visit := Filter([], "", None, None), Visit(table, Some(1));
    var q := Request(Some(1), NoToken, f);
    assert KeysAreUnique(table) && Answer(table, q).Success?;
    AnswerIsAPage(table, q);
    var p := Answer(table, q).value;
    assert a in table && b in table && Asked(q, a) && Asked(q, b);
    assert p.next.None? ==> a in p.items && b in p.items;
    assert [visit, visit][1..] == [visit];
  }
}
