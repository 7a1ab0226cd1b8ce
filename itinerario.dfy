/** Itineraries (`ItinerarioController`): listing by role, lookup by an id given as text,
    creation from a list of activities at known places, owner-only update, owner-or-admin
    delete, and the search with up to three optional filters. */
module Itineraries {
  import opened Wrappers
  import opened Text
  import opened Seqs
  import opened Domain

  /** One activity of a request body: an optional start date and the place's id. */
  datatype ActividadInput = ActividadInput(fecha: Option<string>, lugarId: string)

  predicate IsAdmin(caller: Payload) {
    caller.role == RoleName(RoleAdmin)
  }

  /** The activity built from its input: the date is set only when it is a non-empty string. */
  function ToActividad(a: ActividadInput): (r: Actividad)
    ensures r.lugarId == a.lugarId
    ensures Truthy(a.fecha) <==> r.fecha.Some?
    ensures r.fecha.Some? ==> r.fecha == a.fecha
  {
    Actividad(if Truthy(a.fecha) then a.fecha else None, a.lugarId)
  }

  /** The activities built from a request body, in input order. */
  function ToActividades(inputs: seq<ActividadInput>): (r: seq<Actividad>)
    ensures |r| == |inputs|
    ensures forall i :: 0 <= i < |r| ==> r[i] == ToActividad(inputs[i])
  {
    seq(|inputs|, i requires 0 <= i < |inputs| => ToActividad(inputs[i]))
  }

  /** `findOneBy({ id_api_place })` on the place table. */
  function FindLugar(lugares: seq<Lugar>, id: string): (r: Option<Lugar>)
    ensures r.Some? ==> r.value in lugares && r.value.id == id
    ensures r.None? <==> forall l :: l in lugares ==> l.id != id
  {
    if lugares == [] then None
    else if lugares[0].id == id then Some(lugares[0])
    else FindLugar(lugares[1..], id)
  }

  /** The first itinerary with the given numeric id, as an index. */
  function FindItinerario(its: seq<Itinerario>, id: int): (r: Option<nat>)
    ensures r.Some? ==> r.value < |its| && its[r.value].id == id
    ensures r.Some? ==> forall j :: 0 <= j < r.value ==> its[j].id != id
    ensures r.None? <==> forall it :: it in its ==> it.id != id
  {
    if its == [] then None
    else if its[0].id == id then Some(0)
    else
      var rest := FindItinerario(its[1..], id);
      if rest.Some? then Some(rest.value + 1) else None
  }

  /** The first itinerary with the given id that belongs to `owner`, as an index. */
  function FindOwned(its: seq<Itinerario>, id: int, owner: Email): (r: Option<nat>)
    ensures r.Some? ==> r.value < |its| && its[r.value].id == id && its[r.value].owner == owner
    ensures r.None? <==> forall it :: it in its ==> it.id != id || it.owner != owner
  {
    if its == [] then None
    else if its[0].id == id && its[0].owner == owner then Some(0)
    else
      var rest := FindOwned(its[1..], id, owner);
      if rest.Some? then Some(rest.value + 1) else None
  }

  function IdOf(it: Itinerario): nat {
    it.id
  }

  /** When ids are unique, the row found by id is the only row with that id. */
  lemma FindItinerarioUnique(its: seq<Itinerario>, k: nat)
    requires KeysDistinct(its, IdOf) && k < |its|
    ensures FindItinerario(its, its[k].id) == Some(k)
  {
    assert its[k] in its;
  }

  /** Some activity names a place the catalogue lacks. */
  predicate UnknownPlace(inputs: seq<ActividadInput>, lugares: seq<Lugar>) {
    exists a :: a in inputs && FindLugar(lugares, a.lugarId).None?
  }

  /** A row of the search query: the itinerary, one of its activities and that activity's
      place (`NULL` when missing); an itinerary without activities gives one row of `NULL`s. */
  datatype Row = Row(it: Itinerario, act: Option<Actividad>, lugar: Option<Lugar>)

  /** The rows the left joins give for one itinerary, its activities in order. */
  function Rows(it: Itinerario, lugares: seq<Lugar>): (r: seq<Row>)
    ensures r != []
    ensures forall row :: row in r ==> row.it == it
    ensures forall row :: row in r && row.act.Some? ==>
      row.act.value in it.actividades && row.lugar == FindLugar(lugares, row.act.value.lugarId)
  {
    if it.actividades == [] then [Row(it, None, None)]
    else
      seq(|it.actividades|, i requires 0 <= i < |it.actividades| =>
        Row(it, Some(it.actividades[i]), FindLugar(lugares, it.actividades[i].lugarId)))
  }

  /** Each activity of an itinerary has its row. */
  lemma RowOfActivity(it: Itinerario, lugares: seq<Lugar>, a: Actividad)
    requires a in it.actividades
    ensures Row(it, Some(a), FindLugar(lugares, a.lugarId)) in Rows(it, lugares)
  {
    var i :| 0 <= i < |it.actividades| && it.actividades[i] == a;
    assert Rows(it, lugares)[i] == Row(it, Some(a), FindLugar(lugares, a.lugarId));
  }

  /** The rows of the joined query, itinerary by itinerary in table order. */
  function JoinRows(its: seq<Itinerario>, lugares: seq<Lugar>): (r: seq<Row>)
    ensures forall row :: row in r ==> row.it in its && row in Rows(row.it, lugares)
    ensures forall it, row :: it in its && row in Rows(it, lugares) ==> row in r
  {
    if its == [] then [] else Rows(its[0], lugares) + JoinRows(its[1..], lugares)
  }

  /** The search term adds a filter only when it is present and not blank. */
  predicate TermFilters(term: Option<string>) {
    Truthy(term) && !IsBlank(term.value)
  }

  /** The reference definition of a row the search keeps: it meets every filter given. */
  predicate RowHit(row: Row, term: Option<string>, categoria: Option<string>, estado: Option<string>) {
    (Truthy(categoria) ==> row.lugar.Some? && row.lugar.value.category == categoria.value) &&
    (Truthy(estado) ==> row.lugar.Some? && row.lugar.value.mexicanState == estado.value) &&
    (TermFilters(term) ==> Like(row.it.title, term.value) || (row.lugar.Some? && Like(row.lugar.value.nombre, term.value)))
  }

  /** An itinerary the search can return: one of its joined rows meets every filter given. */
  predicate SearchHit(it: Itinerario, lugares: seq<Lugar>, term: Option<string>, categoria: Option<string>, estado: Option<string>) {
    exists row :: row in Rows(it, lugares) && RowHit(row, term, categoria, estado)
  }

  /** One `andWhere` of the query builder. */
  datatype Condition = CategoryIs(categoria: string) | StateIs(estado: string) | TitleOrPlaceLike(term: string)

  predicate Holds(c: Condition, row: Row) {
    match c
    case CategoryIs(cat) => row.lugar.Some? && row.lugar.value.category == cat
    case StateIs(e) => row.lugar.Some? && row.lugar.value.mexicanState == e
    case TitleOrPlaceLike(t) => Like(row.it.title, t) || (row.lugar.Some? && Like(row.lugar.value.nombre, t))
  }

  predicate AllHold(conds: seq<Condition>, row: Row) {
    forall c :: c in conds ==> Holds(c, row)
  }

  /** The conditions the builder adds, in its order. */
  predicate BuiltFrom(conds: seq<Condition>, term: Option<string>, categoria: Option<string>, estado: Option<string>) {
    (forall c :: c in conds ==>
      (c.CategoryIs? && Truthy(categoria) && c.categoria == categoria.value) ||
      (c.StateIs? && Truthy(estado) && c.estado == estado.value) ||
      (c.TitleOrPlaceLike? && TermFilters(term) && c.term == term.value)) &&
    (Truthy(categoria) ==> CategoryIs(categoria.value) in conds) &&
    (Truthy(estado) ==> StateIs(estado.value) in conds) &&
    (TermFilters(term) ==> TitleOrPlaceLike(term.value) in conds)
  }

  /** The `WHERE` built from the filters keeps exactly the rows that meet every filter given. */
  lemma RowSelectedIsHit(row: Row, conds: seq<Condition>,
                         term: Option<string>, categoria: Option<string>, estado: Option<string>)
    requires BuiltFrom(conds, term, categoria, estado)
    ensures AllHold(conds, row) <==> RowHit(row, term, categoria, estado)
  {
    if AllHold(conds, row) {
      if Truthy(categoria) { assert Holds(CategoryIs(categoria.value), row); }
      if Truthy(estado) { assert Holds(StateIs(estado.value), row); }
      if TermFilters(term) { assert Holds(TitleOrPlaceLike(term.value), row); }
    }
  }

  /** The search result size limit (`limit(10)`), which the database applies to joined rows. */
  const SearchLimit: nat := 10

  /** The joined rows that meet every filter given, in table order. */
  function MatchRows(its: seq<Itinerario>, lugares: seq<Lugar>, term: Option<string>,
                     categoria: Option<string>, estado: Option<string>): seq<Row> {
    Filter(JoinRows(its, lugares), (row: Row) => RowHit(row, term, categoria, estado))
  }

  /** `getMany()`: each run of consecutive rows of one itinerary becomes that itinerary,
      carrying the activities of those rows only (with unique ids, a run of one itinerary is
      a run of one id). */
  function Hydrate(rows: seq<Row>): (r: seq<Itinerario>)
    ensures |r| <= |rows|
    ensures rows != [] ==> r != [] && r[0] == rows[0].it.(actividades := r[0].actividades)
  {
    if rows == [] then []
    else
      var rest := Hydrate(rows[1..]);
      var here := if rows[0].act.Some? then [rows[0].act.value] else [];
      if |rows| > 1 && rows[1].it == rows[0].it then
        [rows[0].it.(actividades := here + rest[0].actividades)] + rest[1..]
      else [rows[0].it.(actividades := here)] + rest
  }

  /** The activities the rows of one itinerary carry. */
  function ActsOf(rows: seq<Row>, it: Itinerario): set<Actividad> {
    set row | row in rows && row.it == it && row.act.Some? :: row.act.value
  }

  /** The first itinerary read carries only activities of rows of that itinerary. */
  lemma {:induction false} HydrateHead(rows: seq<Row>)
    requires rows != []
    ensures forall a :: a in Hydrate(rows)[0].actividades ==> a in ActsOf(rows, rows[0].it)
  {
    if |rows| > 1 && rows[1].it == rows[0].it {
      HydrateHead(rows[1..]);
      assert forall row :: row in rows[1..] ==> row in rows;
    }
  }

  /** Every itinerary read comes from a row and carries only activities of rows of that
      itinerary. */
  lemma {:induction false} HydrateSound(rows: seq<Row>, x: Itinerario)
    requires x in Hydrate(rows)
    ensures exists i :: 0 <= i < |rows| && x == rows[i].it.(actividades := x.actividades) &&
                        forall a :: a in x.actividades ==> a in ActsOf(rows, rows[i].it)
  {
    if x == Hydrate(rows)[0] {
      HydrateHead(rows);
    } else {
      var rest := Hydrate(rows[1..]);
      assert x in rest;
      HydrateSound(rows[1..], x);
      var i :| 0 <= i < |rows[1..]| && x == rows[1..][i].it.(actividades := x.actividades) &&
               forall a :: a in x.actividades ==> a in ActsOf(rows[1..], rows[1..][i].it);
      assert forall row :: row in rows[1..] ==> row in rows;
      assert rows[i + 1] == rows[1..][i];
    }
  }

  /** Every row's itinerary is read. */
  lemma {:induction false} HydrateComplete(rows: seq<Row>, i: nat) returns (k: nat)
    requires i < |rows|
    ensures k < |Hydrate(rows)| && Hydrate(rows)[k] == rows[i].it.(actividades := Hydrate(rows)[k].actividades)
  {
    var r := Hydrate(rows);
    if i == 0 {
      k := 0;
    } else {
      var rest := Hydrate(rows[1..]);
      var k' := HydrateComplete(rows[1..], i - 1);
      assert rows[1..][i - 1] == rows[i];
      if rows[1].it == rows[0].it && k' == 0 {
        k := 0;
      } else {
        k := HydrateKeepsTail(rows, k');
      }
    }
  }

  /** Reading one more row keeps the itineraries read from the rest, but for the first
      one when the new row is of the same itinerary. */
  lemma HydrateKeepsTail(rows: seq<Row>, k: nat) returns (j: nat)
    requires |rows| > 1 && k < |Hydrate(rows[1..])|
    requires rows[1].it == rows[0].it ==> k > 0
    ensures j < |Hydrate(rows)| && Hydrate(rows)[j] == Hydrate(rows[1..])[k]
  {
    if rows[1].it == rows[0].it {
      j := k;
    } else {
      j := k + 1;
    }
  }

  /** The reference search result: the first ten matching rows, read as itineraries. */
  function SearchResults(its: seq<Itinerario>, lugares: seq<Lugar>, term: Option<string>,
                         categoria: Option<string>, estado: Option<string>): (r: seq<Itinerario>)
    ensures |r| <= SearchLimit
  {
    Hydrate(Take(MatchRows(its, lugares, term, categoria, estado), SearchLimit))
  }

  /** An itinerary of the table cut down to some of its activities, each of which meets
      every filter given. */
  predicate TrimmedHit(x: Itinerario, it: Itinerario, lugares: seq<Lugar>, term: Option<string>,
                       categoria: Option<string>, estado: Option<string>) {
    x == it.(actividades := x.actividades) &&
    forall a :: a in x.actividades ==>
      a in it.actividades && RowHit(Row(it, Some(a), FindLugar(lugares, a.lugarId)), term, categoria, estado)
  }

  /** Every itinerary returned is a search hit of the table, carrying only the activities
      whose rows met the filters. */
  lemma SearchResultsAreHits(its: seq<Itinerario>, lugares: seq<Lugar>, term: Option<string>,
                             categoria: Option<string>, estado: Option<string>, x: Itinerario)
    requires x in SearchResults(its, lugares, term, categoria, estado)
    ensures exists it :: it in its && SearchHit(it, lugares, term, categoria, estado) &&
                         TrimmedHit(x, it, lugares, term, categoria, estado)
  {
    var t := Take(MatchRows(its, lugares, term, categoria, estado), SearchLimit);
    HydrateSound(t, x);
    var i :| 0 <= i < |t| && x == t[i].it.(actividades := x.actividades) &&
             forall a :: a in x.actividades ==> a in ActsOf(t, t[i].it);
    var it := t[i].it;
    MatchRowIsHit(its, lugares, term, categoria, estado, t[i]);
    forall a | a in x.actividades
      ensures a in it.actividades && RowHit(Row(it, Some(a), FindLugar(lugares, a.lugarId)), term, categoria, estado)
    {
      MatchActIsHit(its, lugares, term, categoria, estado, it, a);
    }
    assert TrimmedHit(x, it, lugares, term, categoria, estado);
  }

  /** An activity a matching row of an itinerary carries is one of its activities whose
      row meets the filters. */
  lemma MatchActIsHit(its: seq<Itinerario>, lugares: seq<Lugar>, term: Option<string>,
                      categoria: Option<string>, estado: Option<string>, it: Itinerario, a: Actividad)
    requires a in ActsOf(Take(MatchRows(its, lugares, term, categoria, estado), SearchLimit), it)
    ensures a in it.actividades && RowHit(Row(it, Some(a), FindLugar(lugares, a.lugarId)), term, categoria, estado)
  {
    var t := Take(MatchRows(its, lugares, term, categoria, estado), SearchLimit);
    var row :| row in t && row.it == it && row.act == Some(a);
    MatchRowIsHit(its, lugares, term, categoria, estado, row);
  }

  /** A matching row is a row of an itinerary of the table, and meets the filters. */
  lemma MatchRowIsHit(its: seq<Itinerario>, lugares: seq<Lugar>, term: Option<string>,
                      categoria: Option<string>, estado: Option<string>, row: Row)
    requires row in Take(MatchRows(its, lugares, term, categoria, estado), SearchLimit)
    ensures row.it in its && row in Rows(row.it, lugares) && RowHit(row, term, categoria, estado)
    ensures SearchHit(row.it, lugares, term, categoria, estado)
  {
  }

  /** When fewer than ten rows match, every search hit of the table is returned. */
  lemma FewMatchesAllHits(its: seq<Itinerario>, lugares: seq<Lugar>, term: Option<string>,
                          categoria: Option<string>, estado: Option<string>, it: Itinerario)
    requires |MatchRows(its, lugares, term, categoria, estado)| < SearchLimit
    requires it in its && SearchHit(it, lugares, term, categoria, estado)
    ensures exists x :: x in SearchResults(its, lugares, term, categoria, estado) &&
                        x == it.(actividades := x.actividades)
  {
    var m := MatchRows(its, lugares, term, categoria, estado);
    var row :| row in Rows(it, lugares) && RowHit(row, term, categoria, estado);
    HitRowMatches(its, lugares, term, categoria, estado, it, row);
    assert Take(m, SearchLimit) == m;
    HydrateHas(m, row);
  }

  /** The limit counts rows, not itineraries: when the first itinerary of the table alone
      has ten matching rows, the search returns that itinerary only, whatever else matches. */
  lemma LimitCountsRows(its: seq<Itinerario>, lugares: seq<Lugar>, term: Option<string>,
                        categoria: Option<string>, estado: Option<string>)
    requires its != []
    requires |Filter(Rows(its[0], lugares), (row: Row) => RowHit(row, term, categoria, estado))| >= SearchLimit
    ensures |SearchResults(its, lugares, term, categoria, estado)| == 1
  {
    var t := Take(Filter(Rows(its[0], lugares), (row: Row) => RowHit(row, term, categoria, estado)), SearchLimit);
    FirstRowsOnly(its, lugares, term, categoria, estado);
    forall row | row in t ensures row.it == its[0] {
      assert row in Rows(its[0], lugares);
    }
    HydrateOne(t, its[0]);
  }

  /** When the first itinerary alone has ten matching rows, the limit takes only its rows. */
  lemma FirstRowsOnly(its: seq<Itinerario>, lugares: seq<Lugar>, term: Option<string>,
                      categoria: Option<string>, estado: Option<string>)
    requires its != []
    requires |Filter(Rows(its[0], lugares), (row: Row) => RowHit(row, term, categoria, estado))| >= SearchLimit
    ensures Take(MatchRows(its, lugares, term, categoria, estado), SearchLimit) ==
            Take(Filter(Rows(its[0], lugares), (row: Row) => RowHit(row, term, categoria, estado)), SearchLimit)
  {
    var p := (row: Row) => RowHit(row, term, categoria, estado);
    assert JoinRows(its, lugares) == Rows(its[0], lugares) + JoinRows(its[1..], lugares);
    FilterAppend(Rows(its[0], lugares), JoinRows(its[1..], lugares), p);
    TakePrefix(Filter(Rows(its[0], lugares), p), Filter(JoinRows(its[1..], lugares), p), SearchLimit);
  }

  /** Rows of one itinerary are read as one itinerary. */
  lemma {:induction false} HydrateOne(rows: seq<Row>, it: Itinerario)
    requires rows != [] && forall row :: row in rows ==> row.it == it
    ensures |Hydrate(rows)| == 1
  {
    if |rows| > 1 {
      assert rows[0] in rows && rows[1] in rows;
      assert forall row :: row in rows[1..] ==> row in rows;
      HydrateOne(rows[1..], it);
    }
  }

  /** A row of an itinerary of the table that meets the filters is a matching row. */
  lemma HitRowMatches(its: seq<Itinerario>, lugares: seq<Lugar>, term: Option<string>,
                      categoria: Option<string>, estado: Option<string>, it: Itinerario, row: Row)
    requires it in its && row in Rows(it, lugares) && RowHit(row, term, categoria, estado)
    ensures row in MatchRows(its, lugares, term, categoria, estado)
  {
  }

  /** The itinerary of every row is read. */
  lemma HydrateHas(rows: seq<Row>, row: Row)
    requires row in rows
    ensures exists x :: x in Hydrate(rows) && x == row.it.(actividades := x.actividades)
  {
    var i :| 0 <= i < |rows| && rows[i] == row;
    var k := HydrateComplete(rows, i);
    assert Hydrate(rows)[k] in Hydrate(rows);
  }

  class ItinerarioController {
    var itinerarios: seq<Itinerario>
    var users: seq<User>
    var lugares: seq<Lugar>
    var nextId: nat

    ghost predicate Valid()
      reads this
    {
      KeysDistinct(itinerarios, IdOf) && forall it :: it in itinerarios ==> it.id < nextId
    }

    constructor(users: seq<User>, lugares: seq<Lugar>)
      ensures Valid()
      ensures this.users == users && this.lugares == lugares && itinerarios == []
    {
      this.itinerarios := [];
      this.users := users;
      this.lugares := lugares;
      this.nextId := 1;
    }

    /** `getAllItinerarios(authUser)`: an administrator sees every itinerary, anyone else
        only their own. */
    function GetAll(caller: Payload): (r: seq<Itinerario>)
      reads this
      ensures forall it :: it in r <==> it in itinerarios && (IsAdmin(caller) || it.owner == caller.correo)
      ensures IsAdmin(caller) ==> r == itinerarios
      ensures forall it :: multiset(r)[it] <= multiset(itinerarios)[it]
    {
      if IsAdmin(caller) then itinerarios else Filter(itinerarios, (it: Itinerario) => it.owner == caller.correo)
    }

    /** `getItinerarioById(idString, authUser)`: 404 when no itinerary has the parsed id;
        any caller may read any itinerary (the role only short-cuts the same answer). An
        id that does not parse reaches the database as NaN, which rejects it (500). */
    function GetById(idString: string): (r: Result<Itinerario>)
      reads this
      ensures ParseInt(idString).None? ==> r == Err(InternalError)
      ensures r.Ok? ==> r.value in itinerarios && r.value.id == ParseInt(idString).value
      ensures ParseInt(idString).Some? ==>
        (r == Err(NotFound) <==> forall it :: it in itinerarios ==> it.id != ParseInt(idString).value)
    {
      match ParseInt(idString)
      case None => Err(InternalError)
      case Some(id) =>
        match FindItinerario(itinerarios, id)
        case None => Err(NotFound)
        case Some(k) => Ok(itinerarios[k])
    }

    /** `createItinerario(data, authUser)`: 401 for an unknown owner, 400 without an
        activity list, 404 when some activity names an unknown place; otherwise a new
        itinerary with the activities in input order. */
    method Create(title: string, actividades: Option<seq<ActividadInput>>, caller: Payload) returns (r: Result<Itinerario>)
      requires Valid()
      modifies this
      ensures Valid()
      ensures users == old(users) && lugares == old(lugares)
      ensures FindByCorreo(old(users), caller.correo).None? ==> r == Err(Unauthorized)
      ensures FindByCorreo(old(users), caller.correo).Some? && actividades.None? ==> r == Err(BadRequest)
      ensures FindByCorreo(old(users), caller.correo).Some? && actividades.Some? ==>
        (UnknownPlace(actividades.value, old(lugares)) <==> r == Err(NotFound))
      ensures r.Err? ==> itinerarios == old(itinerarios) && nextId == old(nextId)
      ensures r.Ok? ==>
        actividades.Some? &&
        r.value == Itinerario(old(nextId), title, caller.correo, ToActividades(actividades.value)) &&
        itinerarios == old(itinerarios) + [r.value]
    {
      var owner := FindByCorreo(users, caller.correo);
      if owner.None? {
        return Err(Unauthorized);
      }
      if actividades.None? {
        return Err(BadRequest);
      }
      if UnknownPlace(actividades.value, lugares) {
        return Err(NotFound);
      }
      var it := Itinerario(nextId, title, owner.value.correo, ToActividades(actividades.value));
      KeysDistinctSnoc(itinerarios, it, IdOf);
      itinerarios := itinerarios + [it];
      nextId := nextId + 1;
      r := Ok(it);
    }

    /** `updateItinerario(idString, body, authUser)`: 400 for an id that does not parse,
        404 unless the caller owns an itinerary with that id; an empty title keeps the old
        one, and a given activity list replaces the old list whole. The answer is the row
        read back by id. The old activities are removed before the save, on their own; an
        activity naming a place the catalogue lacks then fails the save on its foreign key
        (500), leaving the itinerary without activities and with its old title. */
    method Update(idString: string, title: string, actividades: Option<seq<ActividadInput>>, caller: Payload)
      returns (r: Result<Itinerario>)
      requires Valid()
      modifies this
      ensures Valid()
      ensures users == old(users) && lugares == old(lugares) && nextId == old(nextId)
      ensures ParseInt(idString).None? ==> r == Err(BadRequest) && itinerarios == old(itinerarios)
      ensures ParseInt(idString).Some? ==>
        match FindOwned(old(itinerarios), ParseInt(idString).value, caller.correo)
        case None => r == Err(NotFound) && itinerarios == old(itinerarios)
        case Some(k) =>
          var was := old(itinerarios)[k];
          if actividades.Some? && UnknownPlace(actividades.value, lugares) then
            r == Err(InternalError) && itinerarios == old(itinerarios)[k := was.(actividades := [])]
          else
          r.Ok? && itinerarios == old(itinerarios)[k := r.value] &&
          r.value.id == was.id && r.value.owner == was.owner &&
          r.value.title == (if title != "" then title else was.title) &&
          r.value.actividades == (if actividades.Some? then ToActividades(actividades.value) else was.actividades)
    {
      var id := ParseInt(idString);
      if id.None? {
        return Err(BadRequest);
      }
      var k := FindOwned(itinerarios, id.value, caller.correo);
      if k.None? {
        return Err(NotFound);
      }
      var it := itinerarios[k.value];
      if actividades.Some? && UnknownPlace(actividades.value, lugares) {
        var emptied := it.(actividades := []);
        ReplaceKeepsIds(itinerarios, k.value, emptied, nextId);
        itinerarios := itinerarios[k.value := emptied];
        return Err(InternalError);
      }
      var newTitle := if title != "" then title else it.title;
      var newActs := if actividades.Some? then ToActividades(actividades.value) else it.actividades;
      var updated := it.(title := newTitle, actividades := newActs);
      ReplaceKeepsIds(itinerarios, k.value, updated, nextId);
      itinerarios := itinerarios[k.value := updated];
      FindItinerarioUnique(itinerarios, k.value);
      r := GetById(idString);
    }

    /** `deleteItinerario(idString, authUser)`: 400 for an id that does not parse, 404 when
        missing, 403 unless the caller owns it or is an administrator; otherwise it is
        removed and returned. */
    method Delete(idString: string, caller: Payload) returns (r: Result<Itinerario>)
      requires Valid()
      modifies this
      ensures Valid()
      ensures users == old(users) && lugares == old(lugares) && nextId == old(nextId)
      ensures ParseInt(idString).None? ==> r == Err(BadRequest)
      ensures ParseInt(idString).Some? ==>
        match FindItinerario(old(itinerarios), ParseInt(idString).value)
        case None => r == Err(NotFound)
        case Some(k) =>
          var it := old(itinerarios)[k];
          if it.owner != caller.correo && !IsAdmin(caller) then r == Err(Forbidden)
          else r == Ok(it) && itinerarios == Filter(old(itinerarios), (x: Itinerario) => x.id != it.id)
      ensures r.Err? ==> itinerarios == old(itinerarios)
      ensures r.Ok? ==> r.value !in itinerarios && |itinerarios| == |old(itinerarios)| - 1
    {
      var id := ParseInt(idString);
      if id.None? {
        return Err(BadRequest);
      }
      var k := FindItinerario(itinerarios, id.value);
      if k.None? {
        return Err(NotFound);
      }
      var it := itinerarios[k.value];
      if it.owner != caller.correo && !IsAdmin(caller) {
        return Err(Forbidden);
      }
      RemoveRow(k.value, it.id);
      r := Ok(it);
    }

    /** `delete({ id })` on the row at `k`, whose id is `id`. */
    method RemoveRow(k: nat, id: nat)
      requires Valid() && k < |itinerarios| && itinerarios[k].id == id
      modifies this
      ensures Valid()
      ensures users == old(users) && lugares == old(lugares) && nextId == old(nextId)
      ensures itinerarios == Filter(old(itinerarios), (x: Itinerario) => x.id != id)
      ensures old(itinerarios)[k] !in itinerarios && |itinerarios| == |old(itinerarios)| - 1
    {
      RemoveOneById(itinerarios, k, nextId);
      itinerarios := Filter(itinerarios, (x: Itinerario) => x.id != id);
    }

    /** `buscarItinerarios(term, categoria, estado)`: 400 when none of the three is given
        (a blank term counts as given, though it adds no filter); otherwise at most ten of
        the itineraries read from the first ten joined rows meeting every filter given. */
    method Buscar(term: Option<string>, categoria: Option<string>, estado: Option<string>)
      returns (r: Result<seq<Itinerario>>)
      ensures r.Err? <==> !Truthy(term) && !Truthy(categoria) && !Truthy(estado)
      ensures r.Err? ==> r.status == BadRequest
      ensures r.Ok? ==> r.value == SearchResults(itinerarios, lugares, term, categoria, estado)
    {
      var conds: seq<Condition> := [];
      if Truthy(categoria) {
        conds := conds + [CategoryIs(categoria.value)];
      }
      if Truthy(estado) {
        conds := conds + [StateIs(estado.value)];
      }
      if TermFilters(term) {
        conds := conds + [TitleOrPlaceLike(term.value)];
      }
      if !Truthy(term) && !Truthy(categoria) && !Truthy(estado) {
        return Err(BadRequest);
      }
      assert BuiltFrom(conds, term, categoria, estado);
      var rows := JoinRows(itinerarios, lugares);
      var selected := Filter(rows, (row: Row) => AllHold(conds, row));
      SameFilter(rows, conds, term, categoria, estado);
      r := Ok(Hydrate(Take(selected, SearchLimit)));
    }
  }

  /** Replacing a row by one with the same id keeps the ids unique and below `bound`. */
  lemma ReplaceKeepsIds(its: seq<Itinerario>, k: nat, x: Itinerario, bound: nat)
    requires KeysDistinct(its, IdOf) && k < |its| && x.id == its[k].id
    requires forall y :: y in its ==> y.id < bound
    ensures KeysDistinct(its[k := x], IdOf)
    ensures forall y :: y in its[k := x] ==> y.id < bound
  {
    var t := its[k := x];
    forall i, j | 0 <= i < j < |t| ensures IdOf(t[i]) != IdOf(t[j]) {
      assert IdOf(t[i]) == IdOf(its[i]) && IdOf(t[j]) == IdOf(its[j]);
    }
    forall y | y in t ensures y.id < bound {
      var i :| 0 <= i < |t| && t[i] == y;
      assert its[i] in its;
    }
  }

  /** With unique ids, deleting by the id of row `k` removes that row only, and the ids
      left stay unique and below `bound`. */
  lemma RemoveOneById(its: seq<Itinerario>, k: nat, bound: nat)
    requires KeysDistinct(its, IdOf) && k < |its|
    requires forall y :: y in its ==> y.id < bound
    ensures var rest := Filter(its, (x: Itinerario) => x.id != its[k].id);
      its[k] !in rest && |rest| == |its| - 1 &&
      KeysDistinct(rest, IdOf) && forall y :: y in rest ==> y.id < bound
  {
    FilterDropsOneKey(its, IdOf, k, (x: Itinerario) => x.id != its[k].id);
  }

  /** The two filters (by the built conditions and by the reference definition) agree. */
  lemma SameFilter(rows: seq<Row>, conds: seq<Condition>,
                   term: Option<string>, categoria: Option<string>, estado: Option<string>)
    requires BuiltFrom(conds, term, categoria, estado)
    ensures Filter(rows, (row: Row) => AllHold(conds, row)) ==
            Filter(rows, (row: Row) => RowHit(row, term, categoria, estado))
  {
    forall row ensures AllHold(conds, row) <==> RowHit(row, term, categoria, estado) {
      RowSelectedIsHit(row, conds, term, categoria, estado);
    }
    FilterExt(rows, (row: Row) => AllHold(conds, row),
                    (row: Row) => RowHit(row, term, categoria, estado));
  }
}
