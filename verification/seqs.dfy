/** Sequence operations shared by the pages: the order-preserving filter behind
    every `.eq`/`.in`/`.gte` query and every `Array.filter`, and the exactly-one
    reading of a query answer behind `.single()` and `.maybeSingle()`. */
module Seqs {
  import opened Wrappers

  /** The elements of `s` that satisfy `p`, in their original order. */
  function Filter<T(!new)>(s: seq<T>, p: T -> bool): (r: seq<T>)
    ensures |r| <= |s|
    ensures forall i :: 0 <= i < |r| ==> p(r[i])
    ensures forall x :: x in r <==> x in s && p(x)
  {
    if s == [] then []
    else (if p(s[0]) then [s[0]] else []) + Filter(s[1..], p)
  }

  /** Filtering keeps a sequence whose every element passes. */
  lemma {:induction false} FilterAll<T(!new)>(s: seq<T>, p: T -> bool)
    requires forall i :: 0 <= i < |s| ==> p(s[i])
    ensures Filter(s, p) == s
  {
    if s != [] {
      FilterAll(s[1..], p);
    }
  }

  /** Filtering empties a sequence whose every element fails. */
  lemma {:induction false} FilterNone<T(!new)>(s: seq<T>, p: T -> bool)
    requires forall i :: 0 <= i < |s| ==> !p(s[i])
    ensures Filter(s, p) == []
  {
    if s != [] {
      FilterNone(s[1..], p);
    }
  }

  /** Filtering distributes over concatenation: order is kept piece by piece. */
  lemma {:induction false} FilterConcat<T(!new)>(a: seq<T>, b: seq<T>, p: T -> bool)
    ensures Filter(a + b, p) == Filter(a, p) + Filter(b, p)
  {
    if a == [] {
      assert a + b == b;
    } else {
      assert (a + b)[1..] == a[1..] + b;
      FilterConcat(a[1..], b, p);
    }
  }

  /** Filtering twice with the same test is filtering once. */
  lemma FilterIdempotent<T(!new)>(s: seq<T>, p: T -> bool)
    ensures Filter(Filter(s, p), p) == Filter(s, p)
  {
    FilterAll(Filter(s, p), p);
  }

  /** A filtered query read with `.single()`: the one row of `s` that passes
      `p`, and nothing when none or several pass. */
  function Single<T(!new)>(s: seq<T>, p: T -> bool): (r: Option<T>)
    ensures r.Some? ==> r.value in s && p(r.value)
    ensures r.Some? ==> forall x :: x in s && p(x) ==> x == r.value
    ensures (forall x :: x in s ==> !p(x)) ==> r.None?
  {
    var rows := Filter(s, p);
    if |rows| == 1 then Some(rows[0]) else None
  }

  /** When exactly one position passes, that row is the answer. */
  lemma SingleOfOne<T(!new)>(s: seq<T>, p: T -> bool, k: nat)
    requires k < |s| && p(s[k])
    requires forall j :: 0 <= j < |s| && j != k ==> !p(s[j])
    ensures Single(s, p) == Some(s[k])
  {
    assert s == s[..k] + [s[k]] + s[k + 1..];
    FilterConcat(s[..k] + [s[k]], s[k + 1..], p);
    FilterConcat(s[..k], [s[k]], p);
    FilterNone(s[..k], p);
    FilterNone(s[k + 1..], p);
  }

  /** When two positions pass, there is no answer, even if the rows are equal. */
  lemma SingleOfTwo<T(!new)>(s: seq<T>, p: T -> bool, i: nat, j: nat)
    requires i < j < |s| && p(s[i]) && p(s[j])
    ensures Single(s, p).None?
  {
    assert s == s[..j] + s[j..];
    FilterConcat(s[..j], s[j..], p);
    assert s[i] in Filter(s[..j], p);
    assert s[j] in Filter(s[j..], p);
  }

  /** `.single()` answers exactly when one position of `s` passes `p`: none and
      several both leave it without an answer. */
  lemma SingleIsExactlyOne<T(!new)>(s: seq<T>, p: T -> bool)
    ensures Single(s, p).Some? <==>
      exists k :: 0 <= k < |s| && p(s[k]) && forall j :: 0 <= j < |s| && j != k ==> !p(s[j])
  {
    if Single(s, p).Some? {
      var k :| 0 <= k < |s| && s[k] == Single(s, p).value;
      forall j | 0 <= j < |s| && j != k
        ensures !p(s[j])
      {
        if p(s[j]) {
          if j < k {
            SingleOfTwo(s, p, j, k);
          } else {
            SingleOfTwo(s, p, k, j);
          }
        }
      }
    } else {
      forall k | 0 <= k < |s| && p(s[k])
        ensures exists j :: 0 <= j < |s| && j != k && p(s[j])
      {
        if forall j :: 0 <= j < |s| && j != k ==> !p(s[j]) {
          SingleOfOne(s, p, k);
        }
      }
    }
  }
}
