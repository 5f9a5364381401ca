/**
 * The row-level effect of the store's `INSERT`, `UPDATE ... WHERE id = ?` and
 * `DELETE ... WHERE id = ?` statements on a table kept as a sequence of rows,
 * proved once for every table.
 */
module Tables {
  import opened Common
  import opened Records

  /** Some row of `t` has primary key `id`. */
  predicate HasId<D>(t: seq<Row<D>>, id: string)
  {
    exists i :: 0 <= i < |t| && t[i].id == id
  }

  /** The PRIMARY KEY constraint: no two rows share an id. */
  predicate UniqueIds<D>(t: seq<Row<D>>)
  {
    forall i, j :: 0 <= i < j < |t| ==> t[i].id != t[j].id
  }

  /** `SELECT ... WHERE id = ?`: the first row with that id, if any. */
  function Find<D>(t: seq<Row<D>>, id: string): (r: Option<Row<D>>)
    ensures r.Some? <==> HasId(t, id)
    ensures r.Some? ==> r.value in t && r.value.id == id
  {
    if t == [] then None
    else if t[0].id == id then Some(t[0])
    else
      var r := Find(t[1..], id);
      assert HasId(t, id) ==> t[0].id == id || HasId(t[1..], id) by {
        if HasId(t, id) {
          var i :| 0 <= i < |t| && t[i].id == id;
          if i > 0 { assert t[1..][i - 1].id == id; }
        }
      }
      assert HasId(t[1..], id) ==> HasId(t, id) by {
        if HasId(t[1..], id) {
          var i :| 0 <= i < |t[1..]| && t[1..][i].id == id;
          assert t[i + 1].id == id;
        }
      }
      r
  }

  /** `UPDATE table SET ... WHERE id = ?`, the new columns being `f` of the old ones. */
  function UpdateWhere<D>(t: seq<Row<D>>, id: string, f: D -> D): (r: seq<Row<D>>)
    ensures |r| == |t|
    ensures forall i :: 0 <= i < |t| && t[i].id == id ==> r[i] == Row(id, f(t[i].fields))
    ensures forall i :: 0 <= i < |t| && t[i].id != id ==> r[i] == t[i]
  {
    if t == [] then []
    else [if t[0].id == id then Row(id, f(t[0].fields)) else t[0]] + UpdateWhere(t[1..], id, f)
  }

  /** `DELETE FROM table WHERE id = ?`: every other row, in order. */
  function DeleteWhere<D>(t: seq<Row<D>>, id: string): (r: seq<Row<D>>)
    ensures IsSubsequence(r, t)
    ensures forall row :: row in r ==> row.id != id
    ensures forall row :: row in t && row.id != id ==> row in r
  {
    Filter(t, (row: Row<D>) => row.id != id)
  }

  /** An update never changes any row's id. */
  lemma UpdateKeepsIds<D>(t: seq<Row<D>>, id: string, f: D -> D)
    ensures forall i :: 0 <= i < |t| ==> UpdateWhere(t, id, f)[i].id == t[i].id
  {
  }

  /** Updating an id no row has leaves the table as it was (and still "succeeds"). */
  lemma UpdateMissing<D>(t: seq<Row<D>>, id: string, f: D -> D)
    requires !HasId(t, id)
    ensures UpdateWhere(t, id, f) == t
  {
    var r := UpdateWhere(t, id, f);
    assert forall i :: 0 <= i < |t| ==> r[i] == t[i];
  }

  /** Deleting an id no row has leaves the table as it was (and still "succeeds"). */
  lemma DeleteMissing<D>(t: seq<Row<D>>, id: string)
    requires !HasId(t, id)
    ensures DeleteWhere(t, id) == t
  {
    FilterKeepsAll(t, (row: Row<D>) => row.id != id);
  }

  /** Every element of a subsequence is an element of the sequence. */
  lemma {:induction false} SubsequenceMembers<T>(r: seq<T>, s: seq<T>)
    requires IsSubsequence(r, s)
    ensures forall x :: x in r ==> x in s
    decreases |s|
  {
    if r != [] {
      if r[0] == s[0] && IsSubsequence(r[1..], s[1..]) {
        SubsequenceMembers(r[1..], s[1..]);
        assert forall x :: x in r ==> x == r[0] || x in r[1..];
      } else {
        SubsequenceMembers(r, s[1..]);
      }
    }
  }

  lemma UniqueIdsCons<D>(t: seq<Row<D>>)
    requires t != []
    ensures UniqueIds(t) <==> (UniqueIds(t[1..]) && forall row :: row in t[1..] ==> row.id != t[0].id)
  {
    if UniqueIds(t[1..]) && forall row :: row in t[1..] ==> row.id != t[0].id {
      forall i, j | 0 <= i < j < |t| ensures t[i].id != t[j].id {
        if i == 0 {
          assert t[j] in t[1..];
        } else {
          assert t[i] == t[1..][i - 1] && t[j] == t[1..][j - 1];
        }
      }
    }
    if UniqueIds(t) {
      forall row | row in t[1..] ensures row.id != t[0].id {
        var k :| 0 <= k < |t[1..]| && t[1..][k] == row;
        assert t[k + 1] == row;
      }
    }
  }

  /** Keeping some of the rows, in order, keeps the ids unique. */
  lemma {:induction false} SubsequenceKeepsUnique<D>(r: seq<Row<D>>, t: seq<Row<D>>)
    requires IsSubsequence(r, t) && UniqueIds(t)
    ensures UniqueIds(r)
    decreases |t|
  {
    if r != [] {
      UniqueIdsCons(t);
      if r[0] == t[0] && IsSubsequence(r[1..], t[1..]) {
        SubsequenceKeepsUnique(r[1..], t[1..]);
        SubsequenceMembers(r[1..], t[1..]);
        UniqueIdsCons(r);
      } else {
        SubsequenceKeepsUnique(r, t[1..]);
      }
    }
  }

  lemma InsertKeepsUnique<D>(t: seq<Row<D>>, row: Row<D>)
    requires UniqueIds(t) && !HasId(t, row.id)
    ensures UniqueIds(t + [row])
  {
  }

  lemma UpdateKeepsUnique<D>(t: seq<Row<D>>, id: string, f: D -> D)
    requires UniqueIds(t)
    ensures UniqueIds(UpdateWhere(t, id, f))
  {
  }

  lemma DeleteKeepsUnique<D>(t: seq<Row<D>>, id: string)
    requires UniqueIds(t)
    ensures UniqueIds(DeleteWhere(t, id))
  {
    SubsequenceKeepsUnique(DeleteWhere(t, id), t);
  }

  /** With unique ids, deleting the row at index `k` removes that row and only that row. */
  lemma DeleteOne<D>(t: seq<Row<D>>, k: int)
    requires UniqueIds(t) && 0 <= k < |t|
    ensures DeleteWhere(t, t[k].id) == t[..k] + t[k + 1..]
    ensures |DeleteWhere(t, t[k].id)| == |t| - 1
  {
    var id := t[k].id;
    var p := (row: Row<D>) => row.id != id;
    var before, after := t[..k], t[k + 1..];
    forall i | 0 <= i < |before| ensures p(before[i]) {
      assert before[i] == t[i];
    }
    forall i | 0 <= i < |after| ensures p(after[i]) {
      assert after[i] == t[k + 1 + i];
    }
    assert t == before + [t[k]] + after;
    FilterDropsOne(before, t[k], after, p);
  }
}
