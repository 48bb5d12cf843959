/** `DefaultEmitterService`: the six operations on emitters. Only the
    `nullable = false` columns can make a save fail; the factory number is
    not unique, although the conflict message speaks of it.
 */
module EmitterService {
  import opened Results
  import opened Text
  import opened Tables
  import opened Entities
  import NamedStore
  import Paging

  type EmitterTable = Table<Emitter>

  /** The emitter table as the database keeps it: ids are keys and every
      row satisfies the column constraints. */
  predicate EmitterStoreOk(t: EmitterTable) {
    && Valid(t)
    && forall k | k in t.rows :: t.rows[k].id == Some(k) && ColumnsOk(t.rows[k])
  }

  const NotFoundPrefix: string := "Излучатель с идентификатором id="
  const NotFoundSuffix: string := " не найден!"

  function NotFoundMessage(id: int): string {
    NotFoundPrefix + Show(id) + NotFoundSuffix
  }

  function ConflictMessage(factoryNumber: Option<string>): string {
    "Излучатель с заводским номером '" + Shown(factoryNumber) + "' уже существует!"
  }

  /** The not-found message embeds the id. */
  lemma NotFoundMessageNamesId(id: int)
    ensures var m := NotFoundMessage(id);
      ParseDecimal(m[|NotFoundPrefix| .. |m| - |NotFoundSuffix|]) == Some(id)
  {
    ShowEmbedded(NotFoundPrefix, id, NotFoundSuffix);
  }

  /** `getAllEmitters`: exactly the stored emitters, each once, by id. */
  function GetAllEmitters(t: EmitterTable): (r: seq<Emitter>)
    ensures EmitterStoreOk(t) ==> forall x :: x in r <==> x in t.rows.Values
    ensures EmitterStoreOk(t) ==> forall i, j | 0 <= i < j < |r| :: r[i].id.Some? && r[j].id.Some? && r[i].id.value < r[j].id.value
  {
    var rs := FindAll(t);
    assert EmitterStoreOk(t) ==> forall i | 0 <= i < |rs| :: rs[i].id == Some(Ids(t)[i]);
    rs
  }

  /** `getEmitterById`. */
  function GetEmitterById(t: EmitterTable, id: int): (r: Result<Emitter>)
    ensures r.Ok? <==> id in t.rows
    ensures r.Ok? ==> r.value == t.rows[id]
    ensures r.Err? ==> r.failure == Failure(NotFound, NotFoundMessage(id))
  {
    match Find(t, id)
    case Some(x) => Ok(x)
    case None => Err(Failure(NotFound, NotFoundMessage(id)))
  }

  /** `getEmittersPage`: page `pageNumber - 1` of the stored emitters, in the
      requested order. `listing` is the table's rows in the order the sort puts
      them. */
  function GetEmittersPage(listing: seq<Emitter>, pageNumber: int32, pageSize: int32, sortField: string, sortAsc: bool): (r: Result<Paging.Page<Emitter>>)
    ensures Paging.PageAnswer(listing, pageNumber, pageSize, sortField, sortAsc, r)
  {
    Paging.FindPage(listing, pageNumber, pageSize, sortField, sortAsc)
  }


  /** `createEmitter`: a save, with a data integrity violation (a null in a
      `nullable = false` column) turned into CONFLICT naming the factory
      number. */
  function CreateEmitter(t: EmitterTable, e: Emitter): (s: Step<Emitter, Emitter>)
    ensures s.result.Err? <==> !ColumnsOk(e)
    ensures s.result.Err? ==> s.result.failure == Failure(Conflict, ConflictMessage(e.factoryNumber)) && s.store == t
    ensures s.result.Ok? ==> SameFields(s.result.value, e) && s.result.value.id.Some?
    ensures s.result.Ok? ==> s.store.rows == t.rows[s.result.value.id.value := s.result.value]
    ensures s.result.Ok? && e.id.Some? && e.id.value in t.rows ==> s.result.value.id == e.id
    ensures s.result.Ok? && Valid(t) && e.id.None? ==> s.result.value.id.value !in t.rows
    ensures EmitterStoreOk(t) ==> EmitterStoreOk(s.store)
  {
    if !ColumnsOk(e) then Step(Err(Failure(Conflict, ConflictMessage(e.factoryNumber))), t)
    else
      var k := SaveTarget(t, e.id);
      var saved := e.(id := Some(k));
      Step(Ok(saved), Put(t, k, saved))
  }

  /** `updateEmitter`: load the row, copy every column of the argument onto
      it, and save it through `createEmitter`. */
  function UpdateEmitter(t: EmitterTable, id: int, e: Emitter): (s: Step<Emitter, Emitter>)
    ensures id !in t.rows ==> s == Step(Err(Failure(NotFound, NotFoundMessage(id))), t)
    ensures id in t.rows ==> (s.result.Err? <==> !ColumnsOk(e))
    ensures id in t.rows && s.result.Err? ==> s.result.failure == Failure(Conflict, ConflictMessage(e.factoryNumber)) && s.store == t
    ensures s.result.Ok? ==> SameFields(s.result.value, e)
    ensures EmitterStoreOk(t) && s.result.Ok? ==> s.result.value.id == Some(id) && s.store.rows == t.rows[id := s.result.value]
    ensures EmitterStoreOk(t) ==> EmitterStoreOk(s.store)
  {
    match Find(t, id)
    case None => Step(Err(Failure(NotFound, NotFoundMessage(id))), t)
    case Some(current) => CreateEmitter(t, e.(id := current.id))
  }

  /** `deleteEmitter`: an existence check, then the row is removed. */
  function DeleteEmitter(t: EmitterTable, id: int): (s: Step<(), Emitter>)
    ensures s.result.Ok? <==> id in t.rows
    ensures s.result.Err? ==> s == Step(Err(Failure(NotFound, NotFoundMessage(id))), t)
    ensures s.result.Ok? ==> s.store.rows == t.rows - {id} && s.store.nextId == t.nextId
    ensures EmitterStoreOk(t) ==> EmitterStoreOk(s.store)
  {
    match Find(t, id)
    case None => Step(Err(Failure(NotFound, NotFoundMessage(id))), t)
    case Some(_) => Step(Ok(()), Remove(t, id))
  }

  /** Nothing stops two emitters from sharing a factory number: a complete
      new emitter is stored even when another row already has its number. */
  lemma DuplicateFactoryNumberAllowed(t: EmitterTable, k: int, e: Emitter)
    requires EmitterStoreOk(t) && k in t.rows && e.id.None? && ColumnsOk(e)
    requires e.factoryNumber == t.rows[k].factoryNumber
    ensures var s := CreateEmitter(t, e);
      && s.result.Ok?
      && s.result.value.id == Some(t.nextId)
      && s.store.rows[k] == t.rows[k]
      && s.store.rows[t.nextId].factoryNumber == t.rows[k].factoryNumber
  {
  }

  /** A request-sized emitter with a missing required column is refused
      with CONFLICT on create and on update alike. */
  lemma IncompleteEmitterConflicts(t: EmitterTable, id: int, e: Emitter)
    requires id in t.rows && e.factoryNumber.Some? && e.manufactureDate.None?
    ensures CreateEmitter(t, e).result == Err(Failure(Conflict, ConflictMessage(e.factoryNumber)))
    ensures UpdateEmitter(t, id, e) == Step(Err(Failure(Conflict, ConflictMessage(e.factoryNumber))), t)
  {
  }

  /** Update then get: the row reads back with its id and every column of
      the argument. */
  lemma UpdateThenGet(t: EmitterTable, id: int, e: Emitter)
    requires EmitterStoreOk(t) && UpdateEmitter(t, id, e).result.Ok?
    ensures GetEmitterById(UpdateEmitter(t, id, e).store, id) == Ok(e.(id := Some(id)))
  {
  }

  /** Delete then get: the id is gone, and only that id. */
  lemma DeleteThenGet(t: EmitterTable, id: int, other: int)
    requires id in t.rows && other != id
    ensures GetEmitterById(DeleteEmitter(t, id).store, id) == Err(Failure(NotFound, NotFoundMessage(id)))
    ensures GetEmitterById(DeleteEmitter(t, id).store, other) == GetEmitterById(t, other)
  {
  }
}
