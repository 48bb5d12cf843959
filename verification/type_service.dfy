/** `DefaultEmitterTypeService`: the six operations on emitter types, each a
    transition from a table (and arguments) to a result and a table.
 */
module TypeService {
  import opened Results
  import opened Text
  import opened Tables
  import opened Entities
  import opened NamedStore
  import Paging

  const NotFoundPrefix: string := "Тип излучателя с идентификатором "
  const NotFoundSuffix: string := " не найден"

  function NotFoundMessage(id: int): string {
    NotFoundPrefix + Show(id) + NotFoundSuffix
  }

  function ConflictMessage(name: Option<string>): string {
    "Тип излучателя с названием \"" + Shown(name) + "\" уже существует"
  }

  /** The not-found message embeds the id: it reads back from between the
      fixed text around it. */
  lemma NotFoundMessageNamesId(id: int)
    ensures var m := NotFoundMessage(id);
      ParseDecimal(m[|NotFoundPrefix| .. |m| - |NotFoundSuffix|]) == Some(id)
  {
    ShowEmbedded(NotFoundPrefix, id, NotFoundSuffix);
  }

  /** `getAllEmitterTypes`: exactly the stored types, each once, by id. */
  function GetAllEmitterTypes(t: NamedTable): (r: seq<EmitterType>)
    ensures StoreOk(t) ==> forall x :: x in r <==> x in t.rows.Values
    ensures StoreOk(t) ==> forall i, j | 0 <= i < j < |r| :: r[i].id.Some? && r[j].id.Some? && r[i].id.value < r[j].id.value
  {
    ListAll(t)
  }

  /** `getEmitterTypeById`. */
  function GetEmitterTypeById(t: NamedTable, id: int): (r: Result<EmitterType>)
    ensures r.Ok? <==> id in t.rows
    ensures r.Ok? ==> r.value == t.rows[id]
    ensures r.Err? ==> r.failure == Failure(NotFound, NotFoundMessage(id))
  {
    match Find(t, id)
    case Some(x) => Ok(x)
    case None => Err(Failure(NotFound, NotFoundMessage(id)))
  }

  /** `getEmitterTypesPage`: page `pageNumber - 1` of the stored types, in the
      requested order. `listing` is the table's rows in the order the sort puts
      them. */
  function GetEmitterTypesPage(listing: seq<EmitterType>, pageNumber: int32, pageSize: int32, sortField: string, sortAsc: bool): (r: Result<Paging.Page<EmitterType>>)
    ensures Paging.PageAnswer(listing, pageNumber, pageSize, sortField, sortAsc, r)
  {
    Paging.FindPage(listing, pageNumber, pageSize, sortField, sortAsc)
  }


  /** `createEmitterType`: a save, with a data integrity violation turned
      into CONFLICT naming the attempted name. */
  function CreateEmitterType(t: NamedTable, e: EmitterType): (s: Step<EmitterType, NamedRecord>)
    ensures s.result.Err? <==> Clashes(t, e)
    ensures s.result.Err? ==> s.result.failure == Failure(Conflict, ConflictMessage(e.name)) && s.store == t
    ensures s.result.Ok? ==> s.result.value.name == e.name && s.result.value.id.Some?
    ensures s.result.Ok? ==> s.store.rows == t.rows[s.result.value.id.value := s.result.value]
    ensures s.result.Ok? && Valid(t) && e.id.None? ==> s.result.value.id.value !in t.rows
    ensures StoreOk(t) ==> StoreOk(s.store)
  {
    if Clashes(t, e) then Step(Err(Failure(Conflict, ConflictMessage(e.name))), t)
    else
      var (saved, t') := Save(t, e);
      Step(Ok(saved), t')
  }

  /** `updateEmitterType`: load the row, replace its name, save it. */
  function UpdateEmitterType(t: NamedTable, id: int, e: EmitterType): (s: Step<EmitterType, NamedRecord>)
    ensures id !in t.rows ==> s == Step(Err(Failure(NotFound, NotFoundMessage(id))), t)
    ensures id in t.rows && s.result.Err? ==> s.result.failure == Failure(Conflict, ConflictMessage(e.name)) && s.store == t
    ensures StoreOk(t) && id in t.rows ==> (s.result.Err? <==> e.name.None? || NameHeldByOther(t, e.name, id))
    ensures StoreOk(t) && s.result.Ok? ==> s.result.value == NamedRecord(Some(id), e.name)
    ensures StoreOk(t) && s.result.Ok? ==> s.store.rows == t.rows[id := s.result.value]
    ensures StoreOk(t) ==> StoreOk(s.store)
  {
    match Find(t, id)
    case None => Step(Err(Failure(NotFound, NotFoundMessage(id))), t)
    case Some(current) =>
      var renamed := current.(name := e.name);
      if Clashes(t, renamed) then Step(Err(Failure(Conflict, ConflictMessage(e.name))), t)
      else
        var (saved, t') := Save(t, renamed);
        Step(Ok(saved), t')
  }

  /** `deleteEmitterType`: an existence check, then the row is removed. */
  function DeleteEmitterType(t: NamedTable, id: int): (s: Step<(), NamedRecord>)
    ensures s.result.Ok? <==> id in t.rows
    ensures s.result.Err? ==> s == Step(Err(Failure(NotFound, NotFoundMessage(id))), t)
    ensures s.result.Ok? ==> s.store.rows == t.rows - {id} && s.store.nextId == t.nextId
    ensures StoreOk(t) ==> StoreOk(s.store)
  {
    match Find(t, id)
    case None => Step(Err(Failure(NotFound, NotFoundMessage(id))), t)
    case Some(_) => Step(Ok(()), Remove(t, id))
  }

  /** A new type, once created, is found under its new id. */
  lemma CreateThenGet(t: NamedTable, e: EmitterType)
    requires StoreOk(t) && CreateEmitterType(t, e).result.Ok?
    ensures var s := CreateEmitterType(t, e);
      GetEmitterTypeById(s.store, s.result.value.id.value) == Ok(s.result.value)
  {
  }

  /** Creating a second type under a name already in use is a CONFLICT and
      leaves the table as it was. */
  lemma DuplicateNameConflicts(t: NamedTable, k: int, e: EmitterType)
    requires StoreOk(t) && k in t.rows && e.id.None? && e.name == t.rows[k].name
    ensures CreateEmitterType(t, e) == Step(Err(Failure(Conflict, ConflictMessage(e.name))), t)
  {
    assert SaveTarget(t, e.id) == t.nextId;
  }

  /** Renaming a type to the name it already has is not a conflict. */
  lemma UpdateToOwnNameSucceeds(t: NamedTable, id: int)
    requires StoreOk(t) && id in t.rows
    ensures UpdateEmitterType(t, id, t.rows[id]).result == Ok(t.rows[id])
    ensures UpdateEmitterType(t, id, t.rows[id]).store.rows == t.rows
  {
  }

  /** Update then get: the row reads back with its old id and the new
      name. */
  lemma UpdateThenGet(t: NamedTable, id: int, e: EmitterType)
    requires StoreOk(t) && UpdateEmitterType(t, id, e).result.Ok?
    ensures GetEmitterTypeById(UpdateEmitterType(t, id, e).store, id) == Ok(NamedRecord(Some(id), e.name))
  {
  }

  /** Delete then get: the id is gone, and only that id. */
  lemma DeleteThenGet(t: NamedTable, id: int, other: int)
    requires id in t.rows && other != id
    ensures GetEmitterTypeById(DeleteEmitterType(t, id).store, id) == Err(Failure(NotFound, NotFoundMessage(id)))
    ensures GetEmitterTypeById(DeleteEmitterType(t, id).store, other) == GetEmitterTypeById(t, other)
  {
  }
}
