/**
 * A table of records keyed by a numeric id, as the in-memory store keeps
 * them: an ordered sequence searched front to back, where the FIRST record
 * carrying an id is the one every operation sees. Ids are not required to
 * be unique (seed records come with ids of their own, which two seeds or a
 * later counter value may share), so every property here is stated about
 * the first match.
 */
module Tables {

  datatype Option<+T> = None | Some(value: T)

  /** A stored record: the id the store stamps on it, and payload fields
      that no store operation reads. */
  datatype Record<P> = Record(id: int, fields: P)

  /** No record of `t` carries `id`. */
  predicate Absent<P>(t: seq<Record<P>>, id: int)
  {
    forall j :: 0 <= j < |t| ==> t[j].id != id
  }

  /** `i` is the position of the first record of `t` that carries `id`. */
  predicate IsFirstMatch<P>(t: seq<Record<P>>, id: int, i: int)
  {
    0 <= i < |t| && t[i].id == id && forall j :: 0 <= j < i ==> t[j].id != id
  }

  /** The position of the first record carrying `id`, if any. */
  function FirstIndex<P>(t: seq<Record<P>>, id: int): (r: Option<nat>)
    ensures r.None? <==> Absent(t, id)
    ensures r.Some? ==> IsFirstMatch(t, id, r.value)
    decreases |t|
  {
    if |t| == 0 then None
    else if t[0].id == id then Some(0)
    else match FirstIndex(t[1..], id)
      case None => None
      case Some(i) => Some(i + 1)
  }

  /** There is only one first match, so any first match is what FirstIndex finds. */
  lemma FirstMatchUnique<P>(t: seq<Record<P>>, id: int, i: int)
    requires IsFirstMatch(t, id, i)
    ensures FirstIndex(t, id) == Some(i)
  {
  }

  /** Linear search: the index of the first record carrying `id`, or -1. */
  method FindIndex<P>(t: seq<Record<P>>, id: int) returns (index: int)
    ensures index == -1 <==> Absent(t, id)
    ensures index != -1 ==> IsFirstMatch(t, id, index)
  {
    index := 0;
    while index < |t|
      invariant 0 <= index <= |t|
      invariant forall j :: 0 <= j < index ==> t[j].id != id
    {
      if t[index].id == id {
        return;
      }
      index := index + 1;
    }
    index := -1;
  }

  /** The first record carrying `id`, if any. */
  function Lookup<P>(t: seq<Record<P>>, id: int): (r: Option<Record<P>>)
    ensures r.None? <==> Absent(t, id)
    ensures r.Some? ==> r.value.id == id && r.value in t
    ensures r.Some? ==> exists i :: IsFirstMatch(t, id, i) && t[i] == r.value
  {
    match FirstIndex(t, id)
    case None => None
    case Some(i) => Some(t[i])
  }

  /** The table after the first record carrying `id` is replaced by `r` with
      its id forced to `id`; unchanged when no record carries `id`. */
  function Replace<P>(t: seq<Record<P>>, id: int, r: Record<P>): (t': seq<Record<P>>)
    ensures |t'| == |t|
    ensures Absent(t, id) ==> t' == t
    ensures forall i :: IsFirstMatch(t, id, i) ==>
      t'[i] == r.(id := id) && forall j :: 0 <= j < |t| && j != i ==> t'[j] == t[j]
  {
    match FirstIndex(t, id)
    case None => t
    case Some(i) =>
      FirstMatchUniqueAll(t, id);
      t[i := r.(id := id)]
  }

  /** A replacement writes back the id it matched, so the id at every
      position is what it was: an update never creates or removes an id. */
  lemma ReplaceKeepsIds<P>(t: seq<Record<P>>, id: int, r: Record<P>)
    ensures |Replace(t, id, r)| == |t|
    ensures forall j :: 0 <= j < |t| ==> Replace(t, id, r)[j].id == t[j].id
  {
    FirstMatchUniqueAll(t, id);
  }

  /** The table after the first record carrying `id` is cut out, the others
      keeping their order; unchanged when no record carries `id`. */
  function Remove<P>(t: seq<Record<P>>, id: int): (t': seq<Record<P>>)
    ensures Absent(t, id) ==> t' == t
    ensures !Absent(t, id) ==> |t'| == |t| - 1
  {
    match FirstIndex(t, id)
    case None => t
    case Some(i) => t[..i] + t[i + 1..]
  }

  /** Remove cuts out exactly the first match: what precedes it stays in
      place and what follows it moves down by one. */
  lemma RemoveCutsFirstMatch<P>(t: seq<Record<P>>, id: int, i: int)
    requires IsFirstMatch(t, id, i)
    ensures Remove(t, id)[..i] == t[..i]
    ensures Remove(t, id)[i..] == t[i + 1..]
  {
    FirstMatchUnique(t, id, i);
  }

  lemma FirstMatchUniqueAll<P>(t: seq<Record<P>>, id: int)
    ensures forall i :: IsFirstMatch(t, id, i) ==> FirstIndex(t, id) == Some(i)
  {
    forall i | IsFirstMatch(t, id, i) {
      FirstMatchUnique(t, id, i);
    }
  }

  /** How many records of `t` carry `id`. */
  function Count<P>(t: seq<Record<P>>, id: int): (n: nat)
    ensures n <= |t|
    ensures n == 0 <==> Absent(t, id)
  {
    if |t| == 0 then 0
    else (if t[0].id == id then 1 else 0) + Count(t[1..], id)
  }

  lemma {:induction false} CountAppend<P>(a: seq<Record<P>>, b: seq<Record<P>>, id: int)
    ensures Count(a + b, id) == Count(a, id) + Count(b, id)
    decreases |a|
  {
    if |a| == 0 {
      assert a + b == b;
    } else {
      assert (a + b)[1..] == a[1..] + b;
      CountAppend(a[1..], b, id);
    }
  }

  lemma CountSplitAt<P>(t: seq<Record<P>>, i: int, id: int)
    requires 0 <= i < |t|
    ensures Count(t, id) == Count(t[..i], id) + (if t[i].id == id then 1 else 0) + Count(t[i + 1..], id)
  {
    var tail := t[i..];
    assert tail[1..] == t[i + 1..];
    assert t == t[..i] + tail;
    CountAppend(t[..i], tail, id);
  }

  /** Removing a record that is present lowers the number of records
      carrying that id by exactly one. */
  lemma RemoveDecrementsCount<P>(t: seq<Record<P>>, id: int)
    requires !Absent(t, id)
    ensures Count(Remove(t, id), id) == Count(t, id) - 1
  {
    var i := FirstIndex(t, id).value;
    CountSplitAt(t, i, id);
    assert Count(t[..i], id) == 0 by {
      assert Absent(t[..i], id);
    }
    CountAppend(t[..i], t[i + 1..], id);
  }

  /** Removing a record whose id is unique leaves no record with that id, so
      a second removal of the same id finds nothing and changes nothing. */
  lemma RemoveUniqueTwice<P>(t: seq<Record<P>>, id: int)
    requires Count(t, id) == 1
    ensures !Absent(t, id)
    ensures Absent(Remove(t, id), id)
    ensures Remove(Remove(t, id), id) == Remove(t, id)
  {
    RemoveDecrementsCount(t, id);
  }

  /** After a record is appended, looking up its id finds a record with that
      id; it is the appended record itself when the id was new. */
  lemma LookupAppended<P>(t: seq<Record<P>>, r: Record<P>)
    ensures Lookup(t + [r], r.id).Some?
    ensures Lookup(t + [r], r.id).value.id == r.id
    ensures Absent(t, r.id) ==> Lookup(t + [r], r.id) == Some(r)
  {
    var u := t + [r];
    assert u[|t|] == r;
    if Absent(t, r.id) {
      assert IsFirstMatch(u, r.id, |t|);
      FirstMatchUnique(u, r.id, |t|);
    }
  }

  /** Appending a record does not change which record an id already present
      in the table finds. */
  lemma LookupAppendedOther<P>(t: seq<Record<P>>, r: Record<P>, k: int)
    requires !Absent(t, k)
    ensures Lookup(t + [r], k) == Lookup(t, k)
  {
    var i := FirstIndex(t, k).value;
    assert IsFirstMatch(t + [r], k, i);
    FirstMatchUnique(t + [r], k, i);
  }

  /** After a replacement, looking up the replaced id finds the new record,
      and every other id finds what it found before. */
  lemma LookupReplaced<P>(t: seq<Record<P>>, id: int, r: Record<P>, k: int)
    requires !Absent(t, id)
    ensures Lookup(Replace(t, id, r), id) == Some(r.(id := id))
    ensures k != id ==> Lookup(Replace(t, id, r), k) == Lookup(t, k)
  {
    var i := FirstIndex(t, id).value;
    var u := Replace(t, id, r);
    assert IsFirstMatch(u, id, i);
    FirstMatchUnique(u, id, i);
    if k != id {
      assert forall j :: 0 <= j < |t| ==> u[j].id == t[j].id;
      match FirstIndex(t, k)
      case None =>
        assert Absent(u, k);
      case Some(m) =>
        assert IsFirstMatch(u, k, m);
        FirstMatchUnique(u, k, m);
    }
  }

  /** Removing the first record carrying `id` does not change which record
      any other id finds. */
  lemma LookupRemovedOther<P>(t: seq<Record<P>>, id: int, k: int)
    requires k != id
    ensures Lookup(Remove(t, id), k) == Lookup(t, k)
  {
    if !Absent(t, id) {
      var i := FirstIndex(t, id).value;
      var u := Remove(t, id);
      assert forall j :: 0 <= j < i ==> u[j] == t[j];
      assert forall j :: i <= j < |u| ==> u[j] == t[j + 1];
      match FirstIndex(t, k)
      case None =>
        assert Absent(u, k);
      case Some(m) =>
        assert m != i;
        var m' := if m < i then m else m - 1;
        assert IsFirstMatch(u, k, m');
        FirstMatchUnique(u, k, m');
    }
  }
}
