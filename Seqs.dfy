/** Sequence helpers shared by the page discovery and the page registry:
    filtering (lodash `_.filter`), substring search (lodash `_.includes` on a
    string), subsequences, and the two key-order operations a JavaScript `Map`
    performs when entries are inserted in order. */
module Seqs {

  /** The elements of `s` that satisfy `keep`, in their original order. */
  function Filter<T(!new)>(s: seq<T>, keep: T -> bool): (r: seq<T>)
    ensures |r| <= |s|
    ensures forall x :: x in r <==> x in s && keep(x)
  {
    if s == [] then []
    else
      assert s == [s[0]] + s[1..];
      if keep(s[0]) then [s[0]] + Filter(s[1..], keep) else Filter(s[1..], keep)
  }

  /** `a` can be obtained from `b` by deleting elements. */
  predicate IsSubsequence<T(==)>(a: seq<T>, b: seq<T>)
  {
    if a == [] then true
    else if b == [] then false
    else if a[0] == b[0] then IsSubsequence(a[1..], b[1..])
    else IsSubsequence(a, b[1..])
  }

  lemma {:induction false} FilterIsSubsequence<T(!new)>(s: seq<T>, keep: T -> bool)
    ensures IsSubsequence(Filter(s, keep), s)
  {
    if s != [] {
      FilterIsSubsequence(s[1..], keep);
      var r := Filter(s[1..], keep);
      if keep(s[0]) {
        assert Filter(s, keep) == [s[0]] + r;
        assert ([s[0]] + r)[1..] == r;
      } else {
        assert Filter(s, keep) == r;
        SubsequenceOfTail(r, s);
      }
    }
  }

  /** Every occurrence of a kept element survives, and no other element does. */
  lemma {:induction false} FilterCounts<T(!new)>(s: seq<T>, keep: T -> bool)
    ensures forall x :: multiset(Filter(s, keep))[x] == if keep(x) then multiset(s)[x] else 0
  {
    if s != [] {
      FilterCounts(s[1..], keep);
      assert s == [s[0]] + s[1..];
      assert multiset(s) == multiset([s[0]]) + multiset(s[1..]);
      if keep(s[0]) {
        assert multiset(Filter(s, keep)) == multiset([s[0]]) + multiset(Filter(s[1..], keep));
      }
    }
  }

  /** `Filter` on a sequence with a known first element. */
  lemma FilterCons<T(!new)>(x: T, s: seq<T>, keep: T -> bool)
    ensures keep(x) ==> Filter([x] + s, keep) == [x] + Filter(s, keep)
    ensures !keep(x) ==> Filter([x] + s, keep) == Filter(s, keep)
  {
    assert ([x] + s)[0] == x && ([x] + s)[1..] == s;
  }

  /** A subsequence of the tail of `b` is a subsequence of `b`. */
  lemma {:induction false} SubsequenceOfTail<T>(a: seq<T>, b: seq<T>)
    requires b != [] && IsSubsequence(a, b[1..])
    ensures IsSubsequence(a, b)
  {
    if a != [] && a[0] == b[0] {
      // a[0] is matched somewhere in b[1..]; matching it at b[0] instead leaves
      // a[1..] to be matched in b[1..], which is a superset of what it had.
      SubsequenceDropHead(a, b[1..]);
    }
  }

  /** If `a` (non-empty) is a subsequence of `b`, so is `a[1..]`. */
  lemma {:induction false} SubsequenceDropHead<T>(a: seq<T>, b: seq<T>)
    requires a != [] && IsSubsequence(a, b)
    ensures IsSubsequence(a[1..], b)
  {
    assert b != [];
    if a[0] == b[0] {
      if a[1..] != [] {
        SubsequenceOfTail(a[1..], b);
      }
    } else {
      SubsequenceDropHead(a, b[1..]);
      if a[1..] != [] {
        SubsequenceOfTail(a[1..], b);
      }
    }
  }

  /** `t` occurs in `s` as a contiguous block (JavaScript `String.prototype.includes`). */
  predicate Includes<T(==)>(s: seq<T>, t: seq<T>)
    decreases |s|
  {
    |t| <= |s| && (s[..|t|] == t || (s != [] && Includes(s[1..], t)))
  }

  /** `t` occurs in `s` starting at index `i`. */
  ghost predicate OccursAt<T>(s: seq<T>, t: seq<T>, i: int)
  {
    0 <= i <= |s| - |t| && s[i..i + |t|] == t
  }

  /** `Includes` agrees with the positional definition of a substring. */
  lemma {:induction false} IncludesIffOccurs<T>(s: seq<T>, t: seq<T>)
    ensures Includes(s, t) <==> exists i :: OccursAt(s, t, i)
  {
    if |t| <= |s| && s != [] {
      IncludesIffOccurs(s[1..], t);
      if Includes(s, t) {
        if s[..|t|] == t {
          assert OccursAt(s, t, 0);
        } else {
          var i :| OccursAt(s[1..], t, i);
          assert s[i + 1..i + 1 + |t|] == s[1..][i..i + |t|];
          assert OccursAt(s, t, i + 1);
        }
      }
      if exists i :: OccursAt(s, t, i) {
        var i :| OccursAt(s, t, i);
        if i > 0 {
          assert s[1..][i - 1..i - 1 + |t|] == s[i..i + |t|];
          assert OccursAt(s[1..], t, i - 1);
        } else {
          assert s[..|t|] == s[0..0 + |t|];
        }
      }
    } else if |t| <= |s| {
      assert OccursAt(s, t, 0);
    }
  }

  /** A block placed between two sequences occurs in the result. */
  lemma {:induction false} IncludesInfix<T>(a: seq<T>, t: seq<T>, b: seq<T>)
    ensures Includes(a + t + b, t)
  {
    var s := a + t + b;
    if a == [] {
      assert s[..|t|] == t;
    } else {
      IncludesInfix(a[1..], t, b);
      assert s[1..] == a[1..] + t + b;
    }
  }

  /** Every element of an occurring block is an element of the sequence. */
  lemma {:induction false} IncludesMembers<T>(s: seq<T>, t: seq<T>, x: T)
    requires Includes(s, t) && x in t
    ensures x in s
  {
    if s[..|t|] != t {
      IncludesMembers(s[1..], t, x);
    } else {
      assert x in s[..|t|];
    }
  }

  /** No element occurs twice. */
  ghost predicate Distinct<T>(s: seq<T>)
  {
    forall i, j :: 0 <= i < j < |s| ==> s[i] != s[j]
  }

  /** The elements of `s` that are not in `seen`, each at the place of its
      first occurrence in `s`: `s[i]` is kept exactly when it is neither in
      `seen` nor in `s[..i]`. */
  function NewElements<T(==)>(s: seq<T>, seen: set<T>): seq<T>
  {
    if s == [] then []
    else if s[0] in seen then NewElements(s[1..], seen)
    else [s[0]] + NewElements(s[1..], seen + {s[0]})
  }

  /** Each element of `s` once, at the place of its first occurrence. */
  function FirstOccurrences<T(==)>(s: seq<T>): seq<T>
  {
    NewElements(s, {})
  }

  /** The characterisation in `NewElements`'s comment, one prefix at a time:
      extending the input by `s[i]` appends `s[i]` exactly when it is neither
      in `seen` nor in `s[..i]`, and otherwise leaves the result alone. */
  lemma NewElementsKeepsFirstOccurrences<T(!new)>(s: seq<T>, seen: set<T>, i: nat)
    requires i < |s|
    ensures s[i] in seen || s[i] in s[..i] ==> NewElements(s[..i + 1], seen) == NewElements(s[..i], seen)
    ensures s[i] !in seen && s[i] !in s[..i] ==> NewElements(s[..i + 1], seen) == NewElements(s[..i], seen) + [s[i]]
  {
    assert s[..i + 1] == s[..i] + [s[i]];
    NewElementsConcat(s[..i], [s[i]], seen);
    NewElementsCons(s[i], [], seen + Elements(s[..i]));
    assert [s[i]] + [] == [s[i]];
  }

  lemma NewElementsCons<T>(x: T, s: seq<T>, seen: set<T>)
    ensures x in seen ==> NewElements([x] + s, seen) == NewElements(s, seen)
    ensures x !in seen ==> NewElements([x] + s, seen) == [x] + NewElements(s, seen + {x})
  {
    assert ([x] + s)[0] == x && ([x] + s)[1..] == s;
  }

  lemma {:induction false} NewElementsMembers<T>(s: seq<T>, seen: set<T>)
    ensures forall x :: x in NewElements(s, seen) <==> x in s && x !in seen
  {
    if s != [] {
      assert s == [s[0]] + s[1..];
      if s[0] in seen {
        NewElementsMembers(s[1..], seen);
      } else {
        NewElementsMembers(s[1..], seen + {s[0]});
      }
    }
  }

  lemma {:induction false} NewElementsDistinct<T>(s: seq<T>, seen: set<T>)
    ensures Distinct(NewElements(s, seen))
  {
    if s != [] {
      if s[0] in seen {
        NewElementsDistinct(s[1..], seen);
      } else {
        var rest := NewElements(s[1..], seen + {s[0]});
        NewElementsDistinct(s[1..], seen + {s[0]});
        NewElementsMembers(s[1..], seen + {s[0]});
        assert s[0] !in rest;
        assert NewElements(s, seen) == [s[0]] + rest;
      }
    }
  }

  lemma {:induction false} NewElementsIsSubsequence<T>(s: seq<T>, seen: set<T>)
    ensures IsSubsequence(NewElements(s, seen), s)
  {
    if s != [] {
      if s[0] in seen {
        NewElementsIsSubsequence(s[1..], seen);
        SubsequenceOfTail(NewElements(s[1..], seen), s);
      } else {
        var rest := NewElements(s[1..], seen + {s[0]});
        NewElementsIsSubsequence(s[1..], seen + {s[0]});
        assert NewElements(s, seen) == [s[0]] + rest;
        assert ([s[0]] + rest)[1..] == rest;
      }
    }
  }

  /** The set of elements of `s`. */
  function Elements<T(!new)>(s: seq<T>): (r: set<T>)
    ensures forall x :: x in r <==> x in s
  {
    if s == [] then {}
    else
      assert s == [s[0]] + s[1..];
      {s[0]} + Elements(s[1..])
  }

  lemma {:induction false} NewElementsConcat<T(!new)>(a: seq<T>, b: seq<T>, seen: set<T>)
    ensures NewElements(a + b, seen) == NewElements(a, seen) + NewElements(b, seen + Elements(a))
  {
    if a == [] {
      assert a + b == b;
      assert seen + Elements(a) == seen;
    } else {
      var x := a[0];
      assert (a + b)[0] == x && (a + b)[1..] == a[1..] + b;
      if x in seen {
        NewElementsConcat(a[1..], b, seen);
        assert seen + Elements(a[1..]) == seen + Elements(a);
      } else {
        var s1 := seen + {x};
        NewElementsConcat(a[1..], b, s1);
        assert s1 + Elements(a[1..]) == seen + Elements(a);
        var p, q := NewElements(a[1..], s1), NewElements(b, s1 + Elements(a[1..]));
        assert [x] + (p + q) == ([x] + p) + q;
      }
    }
  }

  /** Dropping the elements of a larger set afterwards is dropping them at once. */
  lemma {:induction false} NewElementsTwice<T>(s: seq<T>, seen: set<T>, more: set<T>)
    requires seen <= more
    ensures NewElements(NewElements(s, seen), more) == NewElements(s, more)
  {
    if s != [] {
      var x, rest := s[0], s[1..];
      if x in seen {
        NewElementsTwice(rest, seen, more);
      } else {
        var r := NewElements(rest, seen + {x});
        NewElementsCons(x, r, more);
        if x in more {
          NewElementsTwice(rest, seen + {x}, more);
        } else {
          NewElementsTwice(rest, seen + {x}, more + {x});
        }
      }
    }
  }

  /** A sequence without repetitions, none of whose elements were seen, is
      left as it is. */
  lemma {:induction false} NewElementsOfDistinct<T>(s: seq<T>, seen: set<T>)
    requires Distinct(s)
    requires forall x :: x in s ==> x !in seen
    ensures NewElements(s, seen) == s
  {
    if s != [] {
      assert Distinct(s[1..]);
      assert s[0] !in s[1..];
      NewElementsOfDistinct(s[1..], seen + {s[0]});
      assert s == [s[0]] + s[1..];
    }
  }
}
