/**
 dashboard/csv.ts chunks and the sort before it: cutting a sequence into database
 batches loses nothing, keeps the order, and repeats no key if the sequence does not.
 */
module Batching {

  /** The code's chunks loop. */
  function Chunks<T>(values: seq<T>, size: nat): seq<seq<T>>
    requires size > 0
    decreases |values|
  {
    if values == [] then []
    else if |values| <= size then [values]
    else [values[..size]] + Chunks(values[size..], size)
  }

  function Flatten<T>(parts: seq<seq<T>>): seq<T> {
    if parts == [] then [] else parts[0] + Flatten(parts[1..])
  }

  method ChunkValues<T>(values: seq<T>, size: nat) returns (result: seq<seq<T>>)
    requires size > 0
    ensures result == Chunks(values, size)
  {
    result := [];
    var index := 0;
    assert values[0..] == values;
    while index < |values|
      invariant index <= |values| ==> result + Chunks(values[index..], size) == Chunks(values, size)
      invariant index > |values| ==> result == Chunks(values, size)
    {
      var end := if index + size <= |values| then index + size else |values|;
      var rest := values[index..];
      if |rest| <= size {
        assert values[index..end] == rest;
        assert Chunks(values[end..], size) == [] && [rest] + [] == [rest];
      } else {
        assert values[index..end] == rest[..size];
        assert values[end..] == rest[size..];
        assert result + ([rest[..size]] + Chunks(rest[size..], size)) == (result + [rest[..size]]) + Chunks(rest[size..], size);
      }
      result := result + [values[index..end]];
      index := index + size;
    }
    assert index == |values| ==> result + [] == result;
  }

  lemma {:induction false} ChunksFlatten<T>(values: seq<T>, size: nat)
    requires size > 0
    ensures Flatten(Chunks(values, size)) == values
    ensures forall i | 0 <= i < |Chunks(values, size)| :: 1 <= |Chunks(values, size)[i]| <= size
    decreases |values|
  {
    if values == [] {
    } else if |values| <= size {
      assert values + [] == values;
      assert Flatten([values]) == values + Flatten<T>([]);
    } else {
      ChunksFlatten(values[size..], size);
      assert values[..size] + values[size..] == values;
      var parts := Chunks(values, size);
      assert parts[1..] == Chunks(values[size..], size);
    }
  }

  lemma {:induction false} FlattenAppended<T>(parts: seq<seq<T>>, last: seq<T>)
    ensures Flatten(parts + [last]) == Flatten(parts) + last
  {
    if parts == [] {
      assert Flatten([last]) == last + Flatten<T>([]);
    } else {
      FlattenAppended(parts[1..], last);
      assert (parts + [last])[1..] == parts[1..] + [last];
    }
  }

  ghost predicate Distinct<T, K(!new)>(values: seq<T>, key: T -> K) {
    forall i, j | 0 <= i < j < |values| :: key(values[i]) != key(values[j])
  }

  /** No chunk repeats a key, and no two chunks share one. */
  lemma {:induction false} ChunksAreDistinct<T, K(!new)>(values: seq<T>, size: nat, key: T -> K)
    requires size > 0 && Distinct(values, key)
    ensures forall c | 0 <= c < |Chunks(values, size)| :: Distinct(Chunks(values, size)[c], key)
    decreases |values|
  {
    if |values| > size {
      var rest := values[size..];
      assert forall i | 0 <= i < |rest| :: rest[i] == values[size + i];
      ChunksAreDistinct(rest, size, key);
    }
  }

  // ---------------------------------------------------------------- the order locks are taken in

  /** JavaScript's < on strings. */
  predicate Less(a: string, b: string) {
    if b == "" then false
    else if a == "" then true
    else a[0] < b[0] || (a[0] == b[0] && Less(a[1..], b[1..]))
  }

  lemma {:induction false} LessIsTotal(a: string, b: string)
    ensures Less(a, b) || Less(b, a) || a == b
    ensures !(Less(a, b) && Less(b, a)) && !Less(a, a)
    decreases |a|
  {
    if a != "" && b != "" {
      LessIsTotal(a[1..], b[1..]);
      LessIsTotal(a[1..], a[1..]);
      assert a == [a[0]] + a[1..] && b == [b[0]] + b[1..];
    } else if a != "" {
      LessIsTotal(a[1..], a[1..]);
    }
  }

  lemma {:induction false} LessIsTransitive(a: string, b: string, c: string)
    requires Less(a, b) && Less(b, c)
    ensures Less(a, c)
    decreases |a|
  {
    if a != "" && a[0] == b[0] == c[0] {
      LessIsTransitive(a[1..], b[1..], c[1..]);
    }
  }

  function Insert<T>(value: T, sorted: seq<T>, key: T -> string): seq<T> {
    if sorted == [] || Less(key(value), key(sorted[0])) then [value] + sorted
    else [sorted[0]] + Insert(value, sorted[1..], key)
  }

  function Sort<T>(values: seq<T>, key: T -> string): seq<T> {
    if values == [] then [] else Insert(values[0], Sort(values[1..], key), key)
  }

  lemma {:induction false} InsertPermutes<T>(value: T, sorted: seq<T>, key: T -> string)
    ensures multiset(Insert(value, sorted, key)) == multiset(sorted) + multiset{value}
  {
    if sorted == [] || Less(key(value), key(sorted[0])) {
    } else {
      InsertPermutes(value, sorted[1..], key);
      assert sorted == [sorted[0]] + sorted[1..];
    }
  }

  lemma {:induction false} SortPermutes<T>(values: seq<T>, key: T -> string)
    ensures multiset(Sort(values, key)) == multiset(values)
    ensures |Sort(values, key)| == |values|
  {
    if values != [] {
      SortPermutes(values[1..], key);
      InsertPermutes(values[0], Sort(values[1..], key), key);
      assert values == [values[0]] + values[1..];
    }
    assert |Sort(values, key)| == |multiset(Sort(values, key))| == |multiset(values)| == |values|;
  }

  predicate Ascending<T>(values: seq<T>, key: T -> string) {
    forall i | 0 < i < |values| :: Less(key(values[i - 1]), key(values[i]))
  }

  lemma {:induction false} InsertAscends<T>(value: T, sorted: seq<T>, key: T -> string)
    requires Ascending(sorted, key) && forall i | 0 <= i < |sorted| :: key(sorted[i]) != key(value)
    ensures Ascending(Insert(value, sorted, key), key)
    ensures var r := Insert(value, sorted, key); r[0] == value || (sorted != [] && r[0] == sorted[0])
  {
    if sorted != [] && !Less(key(value), key(sorted[0])) {
      LessIsTotal(key(value), key(sorted[0]));
      var rest := sorted[1..];
      assert forall i | 0 < i < |rest| :: rest[i - 1] == sorted[i] && rest[i] == sorted[i + 1];
      InsertAscends(value, rest, key);
      assert rest != [] ==> rest[0] == sorted[1];
    }
  }

  /** With distinct keys the sorted order is strictly ascending: every import locks numbers in the same order. */
  lemma {:induction false} SortAscends<T>(values: seq<T>, key: T -> string)
    requires Distinct(values, key)
    ensures Ascending(Sort(values, key), key)
  {
    if values != [] {
      var rest := values[1..];
      assert forall i | 0 <= i < |rest| :: rest[i] == values[i + 1];
      SortAscends(rest, key);
      SortPermutes(rest, key);
      forall i | 0 <= i < |Sort(rest, key)|
        ensures key(Sort(rest, key)[i]) != key(values[0])
      {
        assert Sort(rest, key)[i] in multiset(rest);
        var j :| 0 <= j < |rest| && rest[j] == Sort(rest, key)[i];
      }
      InsertAscends(values[0], Sort(rest, key), key);
    }
  }

  /** Strictly ascending keys are distinct. */
  lemma {:induction false} AscendingIsDistinct<T>(values: seq<T>, key: T -> string)
    requires Ascending(values, key)
    ensures Distinct(values, key)
  {
    if values != [] {
      var rest := values[1..];
      assert forall i | 0 < i < |rest| :: rest[i - 1] == values[i] && rest[i] == values[i + 1];
      AscendingIsDistinct(rest, key);
      forall j | 0 < j < |values|
        ensures Less(key(values[0]), key(values[j]))
      {
        FirstIsLeast(values, key, j);
      }
      forall i, j | 0 <= i < j < |values|
        ensures key(values[i]) != key(values[j])
      {
        if i == 0 {
          LessIsTotal(key(values[0]), key(values[0]));
        } else {
          assert rest[i - 1] == values[i] && rest[j - 1] == values[j];
        }
      }
    }
  }

  lemma {:induction false} FirstIsLeast<T>(values: seq<T>, key: T -> string, j: nat)
    requires Ascending(values, key) && 0 < j < |values|
    ensures Less(key(values[0]), key(values[j]))
  {
    assert Less(key(values[j - 1]), key(values[j]));
    if j > 1 {
      FirstIsLeast(values, key, j - 1);
      LessIsTransitive(key(values[0]), key(values[j - 1]), key(values[j]));
    }
  }
}
