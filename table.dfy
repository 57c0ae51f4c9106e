/** The CREATORS table as an ordered sequence of rows, and the facts about it
    that the repository relies on: lookup by id, removal by id, and the table
    invariant (generated ids present and unique, names valid and unique). */
module CreatorTable {
  import opened Wrappers
  import opened Uuids
  import opened Creators

  predicate Contains(rows: seq<Creator>, id: Uuid) {
    exists i :: 0 <= i < |rows| && rows[i].id == Some(id)
  }

  /** Every row carries a generated id. */
  predicate IdsPresent(rows: seq<Creator>) {
    forall i :: 0 <= i < |rows| ==> rows[i].id.Some?
  }

  predicate IdsUnique(rows: seq<Creator>) {
    forall i, j :: 0 <= i < j < |rows| ==> rows[i].id != rows[j].id
  }

  predicate NamesValid(rows: seq<Creator>) {
    forall i :: 0 <= i < |rows| ==> IsValid(rows[i])
  }

  /** The unique constraint on the `name` column. */
  predicate NamesUnique(rows: seq<Creator>) {
    forall i, j :: 0 <= i < j < |rows| ==> rows[i].name != rows[j].name
  }

  predicate WellFormed(rows: seq<Creator>) {
    IdsPresent(rows) && IdsUnique(rows) && NamesValid(rows) && NamesUnique(rows)
  }

  /** Storing `name` in the row identified by `id` (or in a new row, for
      `id == None`) would break the unique constraint: some other row already
      has that name. */
  predicate NameClash(rows: seq<Creator>, name: Option<string>, id: Option<Uuid>) {
    exists i :: 0 <= i < |rows| && rows[i].name == name && rows[i].id != id
  }

  /** Position of the first row with the given id. */
  function IndexOf(rows: seq<Creator>, id: Uuid): (r: Option<nat>)
    ensures r.Some? ==> r.value < |rows| && rows[r.value].id == Some(id)
    ensures r.None? <==> !Contains(rows, id)
    ensures r.Some? ==> forall i :: 0 <= i < r.value ==> rows[i].id != Some(id)
  {
    if |rows| == 0 then None
    else if rows[0].id == Some(id) then Some(0)
    else
      match IndexOf(rows[1..], id)
      case None => None
      case Some(k) => Some(k + 1)
  }

  /** `findById`: the row with the given id, if any. */
  function Lookup(rows: seq<Creator>, id: Uuid): (r: Option<Creator>)
    ensures r.Some? <==> Contains(rows, id)
    ensures r.Some? ==> r.value in rows && r.value.id == Some(id)
  {
    match IndexOf(rows, id)
    case None => None
    case Some(k) => Some(rows[k])
  }

  /** The table with the row of the given id removed, every other row kept in
      its order. */
  function RemoveId(rows: seq<Creator>, id: Uuid): (r: seq<Creator>)
    ensures forall c :: c in r <==> c in rows && c.id != Some(id)
    ensures !Contains(rows, id) ==> r == rows
    ensures |r| <= |rows|
  {
    if |rows| == 0 then []
    else (if rows[0].id == Some(id) then [] else [rows[0]]) + RemoveId(rows[1..], id)
  }

  /** In a table with unique ids a row is found by its own id. */
  lemma LookupFindsRow(rows: seq<Creator>, k: nat)
    requires IdsUnique(rows)
    requires k < |rows| && rows[k].id.Some?
    ensures Lookup(rows, rows[k].id.value) == Some(rows[k])
  {
    var i := IndexOf(rows, rows[k].id.value).value;
    assert rows[i].id == rows[k].id;
  }

  /** Removing the row with id `id` from a table with unique ids deletes
      exactly position `k` and keeps the order of the rest. */
  lemma {:induction false} RemoveIdAt(rows: seq<Creator>, k: nat)
    requires IdsUnique(rows)
    requires k < |rows| && rows[k].id.Some?
    ensures RemoveId(rows, rows[k].id.value) == rows[..k] + rows[k + 1..]
  {
    if k == 0 {
      RemoveIdHead(rows);
    } else {
      var id := rows[k].id.value;
      var tail := rows[1..];
      TailIdsUnique(rows);
      assert rows[0].id != Some(id);
      assert tail[k - 1] == rows[k];
      RemoveIdAt(tail, k - 1);
      assert RemoveId(rows, id) == [rows[0]] + (tail[..k - 1] + tail[k..]);
      assert tail[..k - 1] == rows[1..k];
      assert tail[k..] == rows[k + 1..];
      assert rows[..k] == [rows[0]] + rows[1..k];
    }
  }

  /** With unique ids, removing the first row's id drops just that row. */
  lemma RemoveIdHead(rows: seq<Creator>)
    requires IdsUnique(rows) && |rows| > 0 && rows[0].id.Some?
    ensures RemoveId(rows, rows[0].id.value) == rows[1..]
  {
    var id := rows[0].id.value;
    var tail := rows[1..];
    assert !Contains(tail, id) by {
      forall i | 0 <= i < |tail| ensures tail[i].id != Some(id) {
        assert tail[i] == rows[i + 1];
      }
    }
    assert RemoveId(rows, id) == [] + RemoveId(tail, id);
  }

  lemma TailIdsUnique(rows: seq<Creator>)
    requires IdsUnique(rows) && |rows| > 0
    ensures IdsUnique(rows[1..])
  {
    var tail := rows[1..];
    forall i, j | 0 <= i < j < |tail| ensures tail[i].id != tail[j].id {
      assert tail[i] == rows[i + 1] && tail[j] == rows[j + 1];
    }
  }

  /** After removing `id`, looking `id` up finds nothing and every other id
      still finds the same row. */
  lemma {:induction false} LookupAfterRemove(rows: seq<Creator>, id: Uuid, other: Uuid)
    ensures Lookup(RemoveId(rows, id), id).None?
    ensures other != id ==> Lookup(RemoveId(rows, id), other) == Lookup(rows, other)
  {
    if |rows| > 0 {
      var head: seq<Creator> := if rows[0].id == Some(id) then [] else [rows[0]];
      var rest := RemoveId(rows[1..], id);
      LookupAfterRemove(rows[1..], id, other);
      assert RemoveId(rows, id) == head + rest;
      if head == [] {
        assert RemoveId(rows, id) == rest;
      } else {
        assert (head + rest)[1..] == rest;
      }
    }
  }

  /** Appending a row with a fresh id and an unclashing valid name keeps the
      table well formed. */
  lemma AppendWellFormed(rows: seq<Creator>, c: Creator)
    requires WellFormed(rows)
    requires c.id.Some? && !Contains(rows, c.id.value)
    requires IsValid(c) && !NameClash(rows, c.name, None)
    ensures WellFormed(rows + [c])
  {
    var r := rows + [c];
    forall i, j | 0 <= i < j < |r| ensures r[i].id != r[j].id && r[i].name != r[j].name {
      if j == |rows| {
        assert r[i] == rows[i];
        assert rows[i].id.Some?;
      }
    }
  }

  /** Overwriting the row at `k` with a row of the same id and an unclashing
      valid name keeps the table well formed. */
  lemma ReplaceWellFormed(rows: seq<Creator>, k: nat, c: Creator)
    requires WellFormed(rows)
    requires k < |rows| && c.id == rows[k].id
    requires IsValid(c) && !NameClash(rows, c.name, c.id)
    ensures WellFormed(rows[k := c])
  {
  }

  lemma RemoveWellFormed(rows: seq<Creator>, id: Uuid)
    requires WellFormed(rows)
    ensures WellFormed(RemoveId(rows, id))
  {
    var i := IndexOf(rows, id);
    if i.Some? {
      var k := i.value;
      RemoveIdAt(rows, k);
      var r := rows[..k] + rows[k + 1..];
      forall a | 0 <= a < |r| ensures r[a] == rows[if a < k then a else a + 1] {
      }
    }
  }

  /** After a row is appended, its id finds it. */
  lemma LookupAfterAppend(rows: seq<Creator>, c: Creator)
    requires IdsUnique(rows) && c.id.Some? && !Contains(rows, c.id.value)
    ensures Lookup(rows + [c], c.id.value) == Some(c)
  {
    var r := rows + [c];
    assert IdsUnique(r) by {
      forall i, j | 0 <= i < j < |r| ensures r[i].id != r[j].id {
        if j == |rows| {
          assert r[i] == rows[i];
        }
      }
    }
    LookupFindsRow(r, |rows|);
  }

  /** After the row at `k` is overwritten with a row of the same id, that id
      finds the new row and every other id finds what it found before. */
  lemma LookupAfterReplace(rows: seq<Creator>, k: nat, c: Creator, other: Uuid)
    requires IdsUnique(rows) && k < |rows| && c.id == rows[k].id && c.id.Some?
    ensures Lookup(rows[k := c], c.id.value) == Some(c)
    ensures Some(other) != c.id ==> Lookup(rows[k := c], other) == Lookup(rows, other)
  {
    var r := rows[k := c];
    assert IdsUnique(r) by {
      forall i, j | 0 <= i < j < |r| ensures r[i].id != r[j].id {
        assert r[i].id == rows[i].id && r[j].id == rows[j].id;
      }
    }
    LookupFindsRow(r, k);
    if Some(other) != c.id {
      var a := IndexOf(rows, other);
      var b := IndexOf(r, other);
      if a.Some? {
        assert a.value != k;
        LookupFindsRow(rows, a.value);
        LookupFindsRow(r, a.value);
      } else {
        assert !Contains(r, other) by {
          forall i | 0 <= i < |r| ensures r[i].id != Some(other) {
            if i != k { assert r[i] == rows[i]; }
          }
        }
      }
    }
  }
}
