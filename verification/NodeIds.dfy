/** Node names and the order Python's `sorted` puts them in: lexicographic by code point. */
module NodeIds {

  type Id = string

  predicate Lt(a: Id, b: Id) {
    b != [] && (a == [] || a[0] < b[0] || (a[0] == b[0] && Lt(a[1..], b[1..])))
  }

  predicate Le(a: Id, b: Id) { a == b || Lt(a, b) }

  lemma {:induction false} LtTotal(a: Id, b: Id)
    ensures Lt(a, b) || a == b || Lt(b, a)
    ensures !(Lt(a, b) && Lt(b, a))
    ensures !Lt(a, a)
  {
    if a != [] && b != [] {
      LtTotal(a[1..], b[1..]);
      if a[0] == b[0] && a[1..] == b[1..] {
        assert a == [a[0]] + a[1..] == b;
      }
    }
    if a == [] {
    } else {
      LtTotal(a[1..], a[1..]);
    }
  }

  /** At the first difference the lesser code point comes first, and a proper prefix before the longer string. */
  ghost predicate DiffersAt(a: Id, b: Id, n: nat) {
    n <= |a| && n < |b| && a[..n] == b[..n] && (n < |a| ==> (a[n] as int) < (b[n] as int))
  }

  lemma {:induction false} LtIff(a: Id, b: Id)
    ensures Lt(a, b) <==> exists n: nat :: DiffersAt(a, b, n)
  {
    if b == [] {
    } else if a == [] || a[0] < b[0] {
      assert DiffersAt(a, b, 0);
    } else {
      LtIff(a[1..], b[1..]);
      if Lt(a, b) {
        var n: nat :| DiffersAt(a[1..], b[1..], n);
        assert a[..n + 1] == [a[0]] + a[1..][..n] && b[..n + 1] == [b[0]] + b[1..][..n];
        assert DiffersAt(a, b, n + 1);
      }
      forall n: nat | DiffersAt(a, b, n) ensures Lt(a, b) {
        assert n > 0 && a[..n][0] == a[0] && b[..n][0] == b[0];
        assert a[1..][..n - 1] == a[..n][1..] && b[1..][..n - 1] == b[..n][1..];
        assert DiffersAt(a[1..], b[1..], n - 1);
      }
    }
  }

  lemma {:induction false} LtTransitive(a: Id, b: Id, c: Id)
    requires Lt(a, b) && Lt(b, c)
    ensures Lt(a, c)
  {
    if a != [] && a[0] == b[0] && b[0] == c[0] {
      LtTransitive(a[1..], b[1..], c[1..]);
    }
  }

  lemma LeTransitive(a: Id, b: Id, c: Id)
    requires Le(a, b) && Le(b, c)
    ensures Le(a, c)
  {
    if Lt(a, b) && Lt(b, c) { LtTransitive(a, b, c); }
  }

  ghost predicate IsLeast(s: set<Id>, x: Id) {
    x in s && forall y :: y in s ==> Le(x, y)
  }

  lemma {:induction false} LeastExists(s: set<Id>)
    requires s != {}
    ensures exists x :: IsLeast(s, x)
  {
    var x :| x in s;
    var rest := s - {x};
    assert s == rest + {x};
    if rest == {} {
      assert IsLeast(s, x);
    } else {
      LeastExists(rest);
      var y :| IsLeast(rest, y);
      LtTotal(x, y);
      if Lt(y, x) {
        assert IsLeast(s, y);
      } else {
        forall z | z in s ensures Le(x, z) {
          if z in rest { LeTransitive(x, y, z); }
        }
        assert IsLeast(s, x);
      }
    }
  }

  lemma LeastUnique(s: set<Id>, x: Id, y: Id)
    requires IsLeast(s, x) && IsLeast(s, y)
    ensures x == y
  {
    LtTotal(x, y);
  }

  ghost predicate SortedIds(s: seq<Id>) {
    forall i, j :: 0 <= i < j < |s| ==> Le(s[i], s[j])
  }

  function Insert(x: Id, s: seq<Id>): (r: seq<Id>)
    ensures multiset(r) == multiset{x} + multiset(s)
  {
    if s == [] || Le(x, s[0]) then [x] + s else
      assert s == [s[0]] + s[1..];
      [s[0]] + Insert(x, s[1..])
  }

  /** Python `sorted`. */
  function Sorted(s: seq<Id>): (r: seq<Id>)
    ensures multiset(r) == multiset(s)
  {
    if s == [] then [] else
      assert s == [s[0]] + s[1..];
      Insert(s[0], Sorted(s[1..]))
  }

  lemma {:induction false} InsertSorted(x: Id, s: seq<Id>)
    requires SortedIds(s)
    ensures SortedIds(Insert(x, s))
  {
    if s == [] {
    } else if Le(x, s[0]) {
      forall j | 0 <= j < |s| ensures Le(x, s[j]) {
        if j > 0 { LeTransitive(x, s[0], s[j]); }
      }
    } else {
      LtTotal(x, s[0]);
      var rest := Insert(x, s[1..]);
      InsertSorted(x, s[1..]);
      forall j | 0 <= j < |rest| ensures Le(s[0], rest[j]) {
        assert rest[j] in multiset(rest);
        assert rest[j] == x || rest[j] in s[1..];
      }
    }
  }

  lemma {:induction false} SortedSorts(s: seq<Id>)
    ensures SortedIds(Sorted(s))
  {
    if s == [] {
    } else {
      SortedSorts(s[1..]);
      InsertSorted(s[0], Sorted(s[1..]));
    }
  }
}
