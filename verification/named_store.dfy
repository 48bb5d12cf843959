/** The table shared in shape by emitter types and emitter owners: a name
    column that is `nullable = false, unique = true`. `save` on such a table
    either writes the row or fails with a data integrity violation.
 */
module NamedStore {
  import opened Results
  import opened Tables
  import opened Entities

  type NamedTable = Table<NamedRecord>

  /** The table as the database keeps it: ids are keys, every name is set,
      and no two rows share a name. */
  predicate StoreOk(t: NamedTable) {
    && Valid(t)
    && (forall k | k in t.rows :: t.rows[k].id == Some(k) && t.rows[k].name.Some?)
    && (forall j, k | j in t.rows && k in t.rows && t.rows[j].name == t.rows[k].name :: j == k)
  }

  /** Some row other than `self` holds `name`. */
  predicate NameHeldByOther(t: NamedTable, name: Option<string>, self: int) {
    exists k | k in t.rows && k != self :: t.rows[k].name == name
  }

  /** Saving `r` would violate a constraint of the name column. The
      uniqueness check is against other rows only, so a row keeps its own
      name without a clash. */
  predicate Clashes(t: NamedTable, r: NamedRecord) {
    r.name.None? || NameHeldByOther(t, r.name, SaveTarget(t, r.id))
  }

  /** `save` when no constraint is violated: the record, with the id it is
      stored under, and the table holding it. */
  function Save(t: NamedTable, r: NamedRecord): (out: (NamedRecord, NamedTable))
    ensures out.0 == r.(id := Some(SaveTarget(t, r.id)))
    ensures out.1.rows == t.rows[SaveTarget(t, r.id) := out.0]
    ensures StoreOk(t) && !Clashes(t, r) ==> StoreOk(out.1)
  {
    var k := SaveTarget(t, r.id);
    var saved := r.(id := Some(k));
    (saved, Put(t, k, saved))
  }

  /** `findAll` on a consistent table: every record once, by ascending
      id. */
  function ListAll(t: NamedTable): (r: seq<NamedRecord>)
    ensures StoreOk(t) ==> forall x :: x in r <==> x in t.rows.Values
    ensures StoreOk(t) ==> forall i, j | 0 <= i < j < |r| :: r[i].id.Some? && r[j].id.Some? && r[i].id.value < r[j].id.value
  {
    var rs := FindAll(t);
    assert StoreOk(t) ==> forall i | 0 <= i < |rs| :: rs[i].id == Some(Ids(t)[i]);
    rs
  }
}
