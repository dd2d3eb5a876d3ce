/**
 * Lists of rows held in page state, each row with its id, and the two updates
 * the pages apply to them after a successful backend call: dropping the rows
 * with an id (`filter(x => x.id !== id)`) and replacing them (`map`).
 */
module Lists {
  import Seqs

  /** A row of a list in page state: its id and its other columns. */
  datatype Listed<E> = Listed(id: int, entry: E)

  /** `list.filter(x => x.id !== id)`. */
  function WithoutId<E>(list: seq<Listed<E>>, id: int): (kept: seq<Listed<E>>)
    ensures forall i :: 0 <= i < |kept| ==> kept[i] in list && kept[i].id != id
    ensures forall i :: 0 <= i < |list| && list[i].id != id ==> list[i] in kept
    ensures multiset(kept) <= multiset(list)
  {
    Seqs.Filter(list, IdIsNot(id))
  }

  /** The rows `filter(x => x.id !== id)` keeps. */
  function IdIsNot<E>(id: int): Listed<E> -> bool {
    (x: Listed<E>) => x.id != id
  }

  /** No two rows of a list share an id. */
  predicate DistinctIds<E>(list: seq<Listed<E>>) {
    forall i, j :: 0 <= i < j < |list| ==> list[i].id != list[j].id
  }

  /** Deleting the id of one listed row removes exactly one row when ids are distinct. */
  lemma {:induction false} WithoutIdRemovesOne<E>(list: seq<Listed<E>>, k: nat)
    requires DistinctIds(list) && k < |list|
    ensures |WithoutId(list, list[k].id)| == |list| - 1
  {
    var id := list[k].id;
    var tail := list[1..];
    assert DistinctIds(tail) by {
      forall i, j | 0 <= i < j < |tail|
        ensures tail[i].id != tail[j].id
      {
        assert tail[i] == list[i + 1] && tail[j] == list[j + 1];
      }
    }
    if k == 0 {
      forall i | 0 <= i < |tail|
        ensures IdIsNot(id)(tail[i])
      {
        assert tail[i] == list[i + 1];
      }
      Seqs.FilterKeepsAll(tail, IdIsNot(id));
      assert WithoutId(list, id) == Seqs.Filter(tail, IdIsNot(id));
    } else {
      assert tail[k - 1] == list[k];
      WithoutIdRemovesOne(tail, k - 1);
      assert IdIsNot(id)(list[0]);
      assert WithoutId(list, id) == [list[0]] + WithoutId(tail, id);
    }
  }

  /** `list.map(p => p.id === e.id ? { ...p, ...e } : p)`.  The edited object is a copy of
      a listed purchase, so it carries every column and the spread yields it. */
  function ReplaceId<E>(list: seq<Listed<E>>, e: Listed<E>): (r: seq<Listed<E>>)
    ensures |r| == |list|
    ensures forall i :: 0 <= i < |list| ==> r[i].id == list[i].id
  {
    if list == [] then []
    else [if list[0].id == e.id then e else list[0]] + ReplaceId(list[1..], e)
  }

  /** An edit touches only the rows with the edited id: deleting that id afterwards gives
      the same list as deleting it without the edit. */
  lemma {:induction false} ReplaceThenDelete<E>(list: seq<Listed<E>>, e: Listed<E>)
    ensures WithoutId(ReplaceId(list, e), e.id) == WithoutId(list, e.id)
  {
    if list != [] {
      var r := ReplaceId(list, e);
      assert r[1..] == ReplaceId(list[1..], e);
      ReplaceThenDelete(list[1..], e);
    }
  }

  /** After an edit the rows with that id are the edited row. */
  lemma {:induction false} ReplaceIdPlaces<E>(list: seq<Listed<E>>, e: Listed<E>, i: nat)
    requires i < |list| && list[i].id == e.id
    ensures ReplaceId(list, e)[i] == e
  {
    if i > 0 {
      ReplaceIdPlaces(list[1..], e, i - 1);
    }
  }

}
