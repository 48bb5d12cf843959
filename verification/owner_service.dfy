/** `DefaultEmitterOwnerService`: the six operations on emitter owners.
    Unlike the type service, an update saves by calling `createOwner` again,
    so it shares its conflict handling.
 */
module OwnerService {
  import opened Results
  import opened Text
  import opened Tables
  import opened Entities
  import opened NamedStore
  import Paging
  import TypeService

  const NotFoundPrefix: string := "Владелец излучателя с идентификатором "
  const NotFoundSuffix: string := " не найден"

  function NotFoundMessage(id: int): string {
    NotFoundPrefix + Show(id) + NotFoundSuffix
  }

  function ConflictMessage(name: Option<string>): string {
    "Владелец излучателя с именем '" + Shown(name) + "' уже существует"
  }

  /** The not-found message embeds the id. */
  lemma NotFoundMessageNamesId(id: int)
    ensures var m := NotFoundMessage(id);
      ParseDecimal(m[|NotFoundPrefix| .. |m| - |NotFoundSuffix|]) == Some(id)
  {
    ShowEmbedded(NotFoundPrefix, id, NotFoundSuffix);
  }

  /** `getAllOwners`: exactly the stored owners, each once, by id. */
  function GetAllOwners(t: NamedTable): (r: seq<EmitterOwner>)
    ensures StoreOk(t) ==> forall x :: x in r <==> x in t.rows.Values
    ensures StoreOk(t) ==> forall i, j | 0 <= i < j < |r| :: r[i].id.Some? && r[j].id.Some? && r[i].id.value < r[j].id.value
  {
    ListAll(t)
  }

  /** `getOwnerById`. */
  function GetOwnerById(t: NamedTable, id: int): (r: Result<EmitterOwner>)
    ensures r.Ok? <==> id in t.rows
    ensures r.Ok? ==> r.value == t.rows[id]
    ensures r.Err? ==> r.failure == Failure(NotFound, NotFoundMessage(id))
  {
    match Find(t, id)
    case Some(x) => Ok(x)
    case None => Err(Failure(NotFound, NotFoundMessage(id)))
  }

  /** `getOwnersPage`: page `pageNumber - 1` of the stored owners, in the
      requested order. `listing` is the table's rows in the order the sort puts
      them. */
  function GetOwnersPage(listing: seq<EmitterOwner>, pageNumber: int32, pageSize: int32, sortField: string, sortAsc: bool): (r: Result<Paging.Page<EmitterOwner>>)
    ensures Paging.PageAnswer(listing, pageNumber, pageSize, sortField, sortAsc, r)
  {
    Paging.FindPage(listing, pageNumber, pageSize, sortField, sortAsc)
  }


  /** `createOwner`: a save, with a data integrity violation turned into
      CONFLICT naming the owner's name. */
  function CreateOwner(t: NamedTable, owner: EmitterOwner): (s: Step<EmitterOwner, NamedRecord>)
    ensures s.result.Err? <==> Clashes(t, owner)
    ensures s.result.Err? ==> s.result.failure == Failure(Conflict, ConflictMessage(owner.name)) && s.store == t
    ensures s.result.Ok? ==> s.result.value.name == owner.name && s.result.value.id.Some?
    ensures s.result.Ok? ==> s.store.rows == t.rows[s.result.value.id.value := s.result.value]
    ensures s.result.Ok? && Valid(t) && owner.id.None? ==> s.result.value.id.value !in t.rows
    ensures StoreOk(t) ==> StoreOk(s.store)
  {
    if Clashes(t, owner) then Step(Err(Failure(Conflict, ConflictMessage(owner.name))), t)
    else
      var (saved, t') := Save(t, owner);
      Step(Ok(saved), t')
  }

  /** `updateOwner`: load the row, replace its name, and save it through
      `createOwner`. */
  function UpdateOwner(t: NamedTable, id: int, owner: EmitterOwner): (s: Step<EmitterOwner, NamedRecord>)
    ensures id !in t.rows ==> s == Step(Err(Failure(NotFound, NotFoundMessage(id))), t)
    ensures id in t.rows && s.result.Err? ==> s.result.failure == Failure(Conflict, ConflictMessage(owner.name)) && s.store == t
    ensures StoreOk(t) && id in t.rows ==> (s.result.Err? <==> owner.name.None? || NameHeldByOther(t, owner.name, id))
    ensures StoreOk(t) && s.result.Ok? ==> s.result.value == NamedRecord(Some(id), owner.name)
    ensures StoreOk(t) && s.result.Ok? ==> s.store.rows == t.rows[id := s.result.value]
    ensures StoreOk(t) ==> StoreOk(s.store)
  {
    match Find(t, id)
    case None => Step(Err(Failure(NotFound, NotFoundMessage(id))), t)
    case Some(current) => CreateOwner(t, current.(name := owner.name))
  }

  /** `deleteOwner`: an existence check, then the row is removed. */
  function DeleteOwner(t: NamedTable, id: int): (s: Step<(), NamedRecord>)
    ensures s.result.Ok? <==> id in t.rows
    ensures s.result.Err? ==> s == Step(Err(Failure(NotFound, NotFoundMessage(id))), t)
    ensures s.result.Ok? ==> s.store.rows == t.rows - {id} && s.store.nextId == t.nextId
    ensures StoreOk(t) ==> StoreOk(s.store)
  {
    match Find(t, id)
    case None => Step(Err(Failure(NotFound, NotFoundMessage(id))), t)
    case Some(_) => Step(Ok(()), Remove(t, id))
  }

  /** Creating an owner under a name already in use is a CONFLICT and
      leaves the table as it was; a fresh name is found under its new id. */
  lemma CreateOwnerOutcomes(t: NamedTable, owner: EmitterOwner, k: int)
    requires StoreOk(t) && owner.id.None?
    ensures k in t.rows && owner.name == t.rows[k].name ==>
      CreateOwner(t, owner) == Step(Err(Failure(Conflict, ConflictMessage(owner.name))), t)
    ensures CreateOwner(t, owner).result.Ok? ==>
      var s := CreateOwner(t, owner);
      GetOwnerById(s.store, s.result.value.id.value) == Ok(s.result.value)
  {
    assert SaveTarget(t, owner.id) == t.nextId;
  }

  /** Update then get, and delete then get. */
  lemma UpdateAndDeleteThenGet(t: NamedTable, id: int, owner: EmitterOwner)
    requires StoreOk(t) && id in t.rows
    ensures UpdateOwner(t, id, owner).result.Ok? ==>
      GetOwnerById(UpdateOwner(t, id, owner).store, id) == Ok(NamedRecord(Some(id), owner.name))
    ensures GetOwnerById(DeleteOwner(t, id).store, id) == Err(Failure(NotFound, NotFoundMessage(id)))
  {
  }

  /** An owner update behaves as a type update on the same table: the two
      succeed or fail together and, on success, return the same record and
      leave the same table behind. */
  lemma OwnerUpdateMatchesTypeUpdate(t: NamedTable, id: int, e: NamedRecord)
    requires StoreOk(t)
    ensures var o, y := UpdateOwner(t, id, e), TypeService.UpdateEmitterType(t, id, e);
      && (o.result.Ok? <==> y.result.Ok?)
      && (o.result.Ok? ==> o.result.value == y.result.value && o.store.rows == y.store.rows)
  {
  }
}
