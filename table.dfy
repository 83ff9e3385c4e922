/** A MongoDB collection seen as a table: a `seq` of documents in insertion order, which is the
    natural order in which `find` and `findOne` visit them. */
module Table {
  import opened Common

  /** The documents of `s` that match `keep`, in table order: what `find` returns, or what a
      `deleteMany` with the negated filter leaves behind. */
  function Select<T(!new)>(s: seq<T>, keep: T -> bool): (r: seq<T>)
    ensures |r| <= |s|
    ensures forall x :: x in r <==> x in s && keep(x)
  {
    if s == [] then []
    else (if keep(s[0]) then [s[0]] else []) + Select(s[1..], keep)
  }

  /** `Select` keeps every matching document as often as the table holds it and drops every
      other document. */
  lemma {:induction false} SelectMultiplicity<T(!new)>(s: seq<T>, keep: T -> bool)
    ensures forall x :: multiset(Select(s, keep))[x] == if keep(x) then multiset(s)[x] else 0
  {
    if s != [] {
      SelectMultiplicity(s[1..], keep);
      assert s == [s[0]] + s[1..];
      assert multiset(s) == multiset([s[0]]) + multiset(s[1..]);
    }
  }

  /** The index of the first document of `s` that matches `keep` (what `findOne` picks). */
  function FirstWhere<T(!new)>(s: seq<T>, keep: T -> bool): (r: Option<nat>)
    ensures r.Some? ==> r.value < |s| && keep(s[r.value])
    ensures r.Some? ==> forall j :: 0 <= j < r.value ==> !keep(s[j])
    ensures r.None? <==> forall j :: 0 <= j < |s| ==> !keep(s[j])
  {
    if s == [] then None
    else if keep(s[0]) then Some(0)
    else match FirstWhere(s[1..], keep)
      case None => None
      case Some(i) => Some(i + 1)
  }

  /** `key` strictly increases along `s`. */
  ghost predicate Increasing<T(!new)>(s: seq<T>, key: T -> int) {
    forall i, j :: 0 <= i < j < |s| ==> key(s[i]) < key(s[j])
  }

  /** A document inserted last is listed last by every filter that matches it, and no
      other filter sees it. */
  lemma {:induction false} SelectAppend<T(!new)>(s: seq<T>, x: T, keep: T -> bool)
    ensures Select(s + [x], keep) == Select(s, keep) + (if keep(x) then [x] else [])
  {
    if s == [] {
      assert s + [x] == [x];
    } else {
      assert (s + [x])[0] == s[0];
      assert (s + [x])[1..] == s[1..] + [x];
      SelectAppend(s[1..], x, keep);
    }
  }

  /** How `Select` treats a table whose first document is `x`. */
  lemma SelectCons<T(!new)>(x: T, t: seq<T>, keep: T -> bool)
    ensures Select([x] + t, keep) == (if keep(x) then [x] else []) + Select(t, keep)
  {
    assert ([x] + t)[0] == x && ([x] + t)[1..] == t;
  }

  /** Filtering twice by the same filter is filtering once: a repeated `deleteMany` removes nothing more. */
  lemma {:induction false} SelectIdempotent<T(!new)>(s: seq<T>, keep: T -> bool)
    ensures Select(Select(s, keep), keep) == Select(s, keep)
  {
    if s != [] {
      SelectIdempotent(s[1..], keep);
      if keep(s[0]) {
        var rest := Select(s[1..], keep);
        assert Select(s, keep) == [s[0]] + rest;
        SelectCons(s[0], rest, keep);
        assert Select([s[0]] + rest, keep) == [s[0]] + Select(rest, keep);
      } else {
        assert Select(s, keep) == Select(s[1..], keep);
      }
    }
  }

  /** Filtering by `p` and then by `q` is filtering by their conjunction `pq`. */
  lemma {:induction false} SelectNarrow<T(!new)>(s: seq<T>, p: T -> bool, q: T -> bool, pq: T -> bool)
    requires forall x :: pq(x) == (p(x) && q(x))
    ensures Select(Select(s, p), q) == Select(s, pq)
  {
    if s != [] {
      SelectNarrow(s[1..], p, q, pq);
      if p(s[0]) {
        var rest := Select(s[1..], p);
        assert Select(s, p) == [s[0]] + rest;
        SelectCons(s[0], rest, q);
      } else {
        assert Select(s, p) == Select(s[1..], p);
      }
    }
  }

  /** Three pairwise disjoint filters inside `whole` select together at most what `whole`
      selects, and exactly as much when every document `whole` selects matches one of them. */
  lemma {:induction false} SelectPartition<T(!new)>(s: seq<T>, whole: T -> bool, a: T -> bool, b: T -> bool, c: T -> bool)
    requires forall x :: (a(x) || b(x) || c(x)) ==> whole(x)
    requires forall x :: !(a(x) && b(x)) && !(a(x) && c(x)) && !(b(x) && c(x))
    ensures |Select(s, a)| + |Select(s, b)| + |Select(s, c)| <= |Select(s, whole)|
    ensures (forall x :: x in s && whole(x) ==> a(x) || b(x) || c(x)) ==>
              |Select(s, a)| + |Select(s, b)| + |Select(s, c)| == |Select(s, whole)|
  {
    if s != [] {
      SelectPartition(s[1..], whole, a, b, c);
      if forall x :: x in s && whole(x) ==> a(x) || b(x) || c(x) {
        forall x | x in s[1..] && whole(x) ensures a(x) || b(x) || c(x) {
          assert x in s;
        }
      }
    }
  }

  /** Filtering keeps the order of the documents, so it keeps any strictly increasing key. */
  lemma {:induction false} SelectIncreasing<T(!new)>(s: seq<T>, keep: T -> bool, key: T -> int)
    requires Increasing(s, key)
    ensures Increasing(Select(s, keep), key)
  {
    if s != [] {
      var tail := s[1..];
      assert Increasing(tail, key) by {
        forall i, j | 0 <= i < j < |tail| ensures key(tail[i]) < key(tail[j]) {
          assert tail[i] == s[i + 1] && tail[j] == s[j + 1];
        }
      }
      SelectIncreasing(tail, keep, key);
      var rest := Select(tail, keep);
      if keep(s[0]) {
        var r := Select(s, keep);
        assert r == [s[0]] + rest;
        forall i, j | 0 <= i < j < |r| ensures key(r[i]) < key(r[j]) {
          assert r[j] == rest[j - 1];
          if i == 0 {
            assert rest[j - 1] in tail;
            var k :| 0 <= k < |tail| && tail[k] == rest[j - 1];
            assert s[k + 1] == r[j];
          } else {
            assert r[i] == rest[i - 1];
          }
        }
      }
    }
  }

  /** Replacing a document by one that matches `keep` exactly when it did leaves `findOne`'s choice unchanged. */
  lemma {:induction false} FirstWhereUpdate<T(!new)>(s: seq<T>, i: nat, x: T, keep: T -> bool)
    requires i < |s| && keep(x) == keep(s[i])
    ensures FirstWhere(s[i := x], keep) == FirstWhere(s, keep)
  {
    if i > 0 && !keep(s[0]) {
      assert s[i := x][1..] == s[1..][i - 1 := x];
      FirstWhereUpdate(s[1..], i - 1, x, keep);
    }
  }

  /** Appending a document never changes `findOne`'s choice when some document already matched. */
  lemma {:induction false} FirstWhereAppend<T(!new)>(s: seq<T>, x: T, keep: T -> bool)
    ensures FirstWhere(s + [x], keep) ==
              if FirstWhere(s, keep).Some? then FirstWhere(s, keep)
              else if keep(x) then Some(|s|) else None
  {
    if s == [] {
      assert s + [x] == [x];
    } else {
      assert (s + [x])[0] == s[0];
      assert (s + [x])[1..] == s[1..] + [x];
      FirstWhereAppend(s[1..], x, keep);
    }
  }
}
