/** The repository behind each service: a table of rows keyed by a
    generated id (`GenerationType.IDENTITY`), with the next id the database
    sequence will hand out.
 */
module Tables {
  import opened Results

  datatype Table<R> = Table(rows: map<int, R>, nextId: int)

  /** One service call: its result and the table after it. */
  datatype Step<T, R> = Step(result: Result<T>, store: Table<R>)

  /** An empty table whose sequence starts at 1. */
  function Empty<R>(): Table<R> {
    Table(map[], 1)
  }

  /** Every id in use was handed out by the sequence. */
  predicate Valid<R>(t: Table<R>) {
    t.nextId >= 1 && forall k | k in t.rows :: 1 <= k < t.nextId
  }

  /** `findById`. */
  function Find<R>(t: Table<R>, id: int): (r: Option<R>)
    ensures r.Some? <==> id in t.rows
    ensures r.Some? ==> r.value == t.rows[id]
  {
    if id in t.rows then Some(t.rows[id]) else None
  }

  /** The row `save` writes to: the record's own id when that row exists,
      otherwise a fresh id from the sequence. */
  function SaveTarget<R>(t: Table<R>, id: Option<int>): (k: int)
    ensures k in t.rows || k == t.nextId
    ensures id.Some? && id.value in t.rows ==> k == id.value
    ensures Valid(t) && (id.None? || id.value !in t.rows) ==> k !in t.rows
  {
    if id.Some? && id.value in t.rows then id.value else t.nextId
  }

  /** Writes `r` at `k`, advancing the sequence when `k` is the fresh id. */
  function Put<R>(t: Table<R>, k: int, r: R): (t': Table<R>)
    requires k in t.rows || k == t.nextId
    ensures t'.rows == t.rows[k := r]
    ensures Valid(t) ==> Valid(t')
  {
    Table(t.rows[k := r], if k == t.nextId then t.nextId + 1 else t.nextId)
  }

  /** `deleteById`. */
  function Remove<R>(t: Table<R>, id: int): (t': Table<R>)
    ensures t'.rows == t.rows - {id}
    ensures Valid(t) ==> Valid(t')
  {
    Table(t.rows - {id}, t.nextId)
  }

  /** The ids in use between `lo` (inclusive) and `hi` (exclusive), in
      ascending order. */
  function IdsBetween<R>(m: map<int, R>, lo: int, hi: int): (ids: seq<int>)
    ensures forall k :: k in ids <==> k in m && lo <= k < hi
    ensures forall i, j | 0 <= i < j < |ids| :: ids[i] < ids[j]
    decreases hi - lo
  {
    if lo >= hi then []
    else
      var rest := IdsBetween(m, lo + 1, hi);
      assert forall j | 0 <= j < |rest| :: rest[j] in rest && lo < rest[j];
      if lo in m then [lo] + rest else rest
  }

  /** The ids of all rows, ascending. */
  function Ids<R>(t: Table<R>): (ids: seq<int>)
    ensures Valid(t) ==> forall k :: k in ids <==> k in t.rows
    ensures forall k | k in ids :: k in t.rows
    ensures forall i, j | 0 <= i < j < |ids| :: ids[i] < ids[j]
  {
    IdsBetween(t.rows, 1, t.nextId)
  }

  /** `findAll`: every row once, by ascending id. */
  function FindAll<R(==)>(t: Table<R>): (rs: seq<R>)
    ensures |rs| == |Ids(t)|
    ensures forall i | 0 <= i < |rs| :: rs[i] == t.rows[Ids(t)[i]]
    ensures forall x | x in rs :: x in t.rows.Values
    ensures Valid(t) ==> forall x | x in t.rows.Values :: x in rs
  {
    var ids := Ids(t);
    var rs := seq(|ids|, i requires 0 <= i < |ids| => t.rows[ids[i]]);
    assert Valid(t) ==> forall x | x in t.rows.Values :: x in rs by {
      if Valid(t) {
        forall x | x in t.rows.Values ensures x in rs {
          var k :| k in t.rows && t.rows[k] == x;
          var i :| 0 <= i < |ids| && ids[i] == k;
          assert rs[i] == x;
        }
      }
    }
    rs
  }
}
