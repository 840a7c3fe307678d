/**
  The pure collection edits behind the repository operations of
  src/lib/storage.ts: `map` replacing every record with a matching id
  (updateX) and `filter` dropping every record with a matching id (deleteX).
  They are generic over the record type and its id function.
*/
module Collections {
  import opened Sequences

  /** Number of records in xs whose id is id. */
  function CountId<T>(xs: seq<T>, key: T -> string, id: string): (n: nat)
    ensures n <= |xs|
  {
    if xs == [] then 0 else (if key(xs[0]) == id then 1 else 0) + CountId(xs[1..], key, id)
  }

  /** `xs.map(x => x.id === r.id ? r : x)` */
  function ReplaceById<T>(xs: seq<T>, key: T -> string, r: T): (ys: seq<T>)
    ensures |ys| == |xs|
    ensures forall i :: 0 <= i < |xs| ==> ys[i] == if key(xs[i]) == key(r) then r else xs[i]
  {
    if xs == [] then [] else [if key(xs[0]) == key(r) then r else xs[0]] + ReplaceById(xs[1..], key, r)
  }

  /** `xs.filter(x => x.id !== id)` */
  function RemoveById<T(==)>(xs: seq<T>, key: T -> string, id: string): (ys: seq<T>)
    ensures |ys| == |xs| - CountId(xs, key, id)
    ensures forall j :: 0 <= j < |ys| ==> key(ys[j]) != id
    ensures IsSubsequence(ys, xs)
  {
    if xs == [] then []
    else if key(xs[0]) == id then RemoveById(xs[1..], key, id)
    else [xs[0]] + RemoveById(xs[1..], key, id)
  }

  /** No record has the id exactly when the count is zero. */
  lemma {:induction false} CountZero<T>(xs: seq<T>, key: T -> string, id: string)
    ensures CountId(xs, key, id) == 0 <==> forall i :: 0 <= i < |xs| ==> key(xs[i]) != id
  {
    if xs != [] {
      CountZero(xs[1..], key, id);
      assert forall i :: 1 <= i < |xs| ==> xs[i] == xs[1..][i - 1];
    }
  }

  /** Appending a record adds one to the count of its own id and nothing to any other. */
  lemma {:induction false} CountAppend<T>(xs: seq<T>, key: T -> string, r: T, id: string)
    ensures CountId(xs + [r], key, id) == CountId(xs, key, id) + (if key(r) == id then 1 else 0)
  {
    if xs == [] {
      assert [r][1..] == [];
    } else {
      assert (xs + [r])[1..] == xs[1..] + [r];
      CountAppend(xs[1..], key, r, id);
    }
  }

  /** Counts add up over concatenated collections. */
  lemma {:induction false} CountConcat<T>(xs: seq<T>, ys: seq<T>, key: T -> string, id: string)
    ensures CountId(xs + ys, key, id) == CountId(xs, key, id) + CountId(ys, key, id)
  {
    if xs == [] {
      assert xs + ys == ys;
    } else {
      assert (xs + ys)[0] == xs[0];
      assert (xs + ys)[1..] == xs[1..] + ys;
      CountConcat(xs[1..], ys, key, id);
    }
  }

  /** Appending never checks for duplicates: an id already present is counted twice. */
  lemma AppendDuplicatesId<T>(xs: seq<T>, key: T -> string, r: T)
    requires CountId(xs, key, key(r)) > 0
    ensures CountId(xs + [r], key, key(r)) == CountId(xs, key, key(r)) + 1 >= 2
  {
    CountAppend(xs, key, r, key(r));
  }

  /** Replacing a record whose id is absent leaves the collection as it was. */
  lemma ReplaceAbsent<T>(xs: seq<T>, key: T -> string, r: T)
    requires CountId(xs, key, key(r)) == 0
    ensures ReplaceById(xs, key, r) == xs
  {
    CountZero(xs, key, key(r));
  }

  /** After a replace, every record with the id is r; the ids in order are unchanged. */
  lemma ReplaceResult<T>(xs: seq<T>, key: T -> string, r: T)
    ensures forall j :: 0 <= j < |xs| ==> key(ReplaceById(xs, key, r)[j]) == key(xs[j])
    ensures forall j :: 0 <= j < |xs| && key(xs[j]) == key(r) ==> ReplaceById(xs, key, r)[j] == r
    ensures ReplaceById(ReplaceById(xs, key, r), key, r) == ReplaceById(xs, key, r)
  {
  }

  /** Removing an absent id leaves the collection as it was. */
  lemma {:induction false} RemoveAbsent<T>(xs: seq<T>, key: T -> string, id: string)
    requires CountId(xs, key, id) == 0
    ensures RemoveById(xs, key, id) == xs
  {
    if xs != [] {
      RemoveAbsent(xs[1..], key, id);
    }
  }

  /** Removal keeps every record with another id: their counts are unchanged. */
  lemma {:induction false} RemoveKeepsOthers<T>(xs: seq<T>, key: T -> string, id: string, other: string)
    requires other != id
    ensures CountId(RemoveById(xs, key, id), key, other) == CountId(xs, key, other)
  {
    if xs != [] {
      RemoveKeepsOthers(xs[1..], key, id, other);
      if key(xs[0]) != id {
        assert ([xs[0]] + RemoveById(xs[1..], key, id))[1..] == RemoveById(xs[1..], key, id);
      }
    }
  }

  /** Removing twice is removing once. */
  lemma RemoveIdempotent<T>(xs: seq<T>, key: T -> string, id: string)
    ensures RemoveById(RemoveById(xs, key, id), key, id) == RemoveById(xs, key, id)
  {
    var ys := RemoveById(xs, key, id);
    CountZero(ys, key, id);
    RemoveAbsent(ys, key, id);
  }
}
