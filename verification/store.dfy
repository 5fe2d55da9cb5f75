/** The two id-based sequence operations both collections are edited with:
    `filter(x => x.id !== id)` for delete and `findIndex(x => x.id === id)`
    followed by an in-place update for edit. `idOf` reads a record's id. */
module Store {
  import opened Wrappers

  /** The number of records of `s` whose id is `id`. */
  function Count<T>(s: seq<T>, idOf: T -> int, id: int): nat
  {
    if s == [] then 0 else (if idOf(s[0]) == id then 1 else 0) + Count(s[1..], idOf, id)
  }

  /** `s.filter(x => idOf(x) !== id)`: every record with that id is gone, the
      result shrinks by the number of them, and nothing changes exactly when
      no record has the id. `RemoveIdKeeps` says every other record is kept,
      `RemoveIdConcat` that the survivors keep their order. */
  function RemoveId<T(==)>(s: seq<T>, idOf: T -> int, id: int): (r: seq<T>)
    ensures |r| == |s| - Count(s, idOf, id)
    ensures forall i :: 0 <= i < |r| ==> idOf(r[i]) != id
    ensures r == s <==> Count(s, idOf, id) == 0
  {
    if s == [] then []
    else if idOf(s[0]) == id then RemoveId(s[1..], idOf, id)
    else [s[0]] + RemoveId(s[1..], idOf, id)
  }

  /** Removal keeps only records of `s`, and keeps every one of them whose id
      differs. */
  lemma {:induction false} RemoveIdKeeps<T>(s: seq<T>, idOf: T -> int, id: int)
    ensures var r := RemoveId(s, idOf, id);
            forall i :: 0 <= i < |r| ==> r[i] in s
    ensures var r := RemoveId(s, idOf, id);
            forall i :: 0 <= i < |s| && idOf(s[i]) != id ==> s[i] in r
  {
    if s != [] {
      RemoveIdKeeps(s[1..], idOf, id);
      var rest := RemoveId(s[1..], idOf, id);
      var r := RemoveId(s, idOf, id);
      assert r == (if idOf(s[0]) == id then rest else [s[0]] + rest);
      forall i | 0 <= i < |r|
        ensures r[i] in s
      {
        if idOf(s[0]) != id && i == 0 {
          assert r[0] == s[0];
        } else {
          var k := if idOf(s[0]) == id then i else i - 1;
          assert r[i] == rest[k];
          assert rest[k] in s[1..];
        }
      }
      forall i | 0 <= i < |s| && idOf(s[i]) != id
        ensures s[i] in r
      {
        if i == 0 {
          assert r[0] == s[0];
        } else {
          assert s[i] == s[1..][i - 1];
        }
      }
    }
  }

  /** Removal distributes over concatenation. Together with its effect on a
      single record this pins `RemoveId` down as the order-preserving
      filter. */
  lemma {:induction false} RemoveIdConcat<T>(a: seq<T>, b: seq<T>, idOf: T -> int, id: int)
    ensures RemoveId(a + b, idOf, id) == RemoveId(a, idOf, id) + RemoveId(b, idOf, id)
  {
    if a == [] {
      assert a + b == b;
    } else {
      assert (a + b)[0] == a[0];
      assert (a + b)[1..] == a[1..] + b;
      RemoveIdConcat(a[1..], b, idOf, id);
      var rest := RemoveId(a[1..], idOf, id);
      if idOf(a[0]) != id {
        assert RemoveId(a, idOf, id) == [a[0]] + rest;
        assert [a[0]] + (rest + RemoveId(b, idOf, id)) == ([a[0]] + rest) + RemoveId(b, idOf, id);
      }
    }
  }

  /** Deleting the same id twice is deleting it once. */
  lemma RemoveIdIdempotent<T>(s: seq<T>, idOf: T -> int, id: int)
    ensures RemoveId(RemoveId(s, idOf, id), idOf, id) == RemoveId(s, idOf, id)
  {
  }

  /** A sequence in which no record has the id counts none of them. */
  lemma {:induction false} CountNone<T>(s: seq<T>, idOf: T -> int, id: int)
    requires forall i :: 0 <= i < |s| ==> idOf(s[i]) != id
    ensures Count(s, idOf, id) == 0
  {
    if s != [] {
      CountNone(s[1..], idOf, id);
    }
  }

  /** Deleting an id no record has leaves the sequence as it is. */
  lemma RemoveAbsent<T>(s: seq<T>, idOf: T -> int, id: int)
    requires forall i :: 0 <= i < |s| ==> idOf(s[i]) != id
    ensures RemoveId(s, idOf, id) == s
  {
    CountNone(s, idOf, id);
  }

  /** Index `k` holds the first record of `s` whose id is `id`. */
  predicate IsFirstMatch<T>(s: seq<T>, idOf: T -> int, id: int, k: int) {
    0 <= k < |s| && idOf(s[k]) == id && forall i :: 0 <= i < k ==> idOf(s[i]) != id
  }

  /** `s.findIndex(x => idOf(x) === id)`, with `None` for JavaScript's -1:
      the index of the first record with the id, or `None` exactly when no
      record has it. */
  function FindIndex<T>(s: seq<T>, idOf: T -> int, id: int): (r: Option<nat>)
    ensures r.None? <==> forall i :: 0 <= i < |s| ==> idOf(s[i]) != id
    ensures r.Some? ==> IsFirstMatch(s, idOf, id, r.value)
  {
    if s == [] then None
    else if idOf(s[0]) == id then Some(0)
    else match FindIndex(s[1..], idOf, id)
      case None => None
      case Some(k) => Some(k + 1)
  }

  /** `const i = s.findIndex(...); if (i !== -1) s[i] = change(s[i])`: only
      the first record with the id is changed, every other position keeps its
      record, the length is unchanged, and without such a record nothing
      changes. */
  function UpdateFirst<T>(s: seq<T>, idOf: T -> int, id: int, change: T -> T): (r: seq<T>)
    ensures |r| == |s|
    ensures forall j :: 0 <= j < |s| ==>
              r[j] == (if IsFirstMatch(s, idOf, id, j) then change(s[j]) else s[j])
    ensures (forall j :: 0 <= j < |s| ==> idOf(s[j]) != id) ==> r == s
  {
    match FindIndex(s, idOf, id)
    case None => s
    case Some(k) => s[k := change(s[k])]
  }
}
