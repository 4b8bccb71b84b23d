/** Orders on sequences and a stable insertion sort, shared by every component that lists things in a fixed order. */
module Order {

  ghost predicate StrictTotal<T(!new)>(lt: (T, T) -> bool) {
    && (forall x :: !lt(x, x))
    && (forall x, y :: x != y ==> lt(x, y) || lt(y, x))
    && (forall x, y, z :: lt(x, y) && lt(y, z) ==> lt(x, z))
  }

  ghost predicate TotalPreorder<T(!new)>(le: (T, T) -> bool) {
    && (forall x, y :: le(x, y) || le(y, x))
    && (forall x, y, z :: le(x, y) && le(y, z) ==> le(x, z))
  }

  /** Lexicographic order: a proper prefix comes first, otherwise the first difference decides. */
  predicate Lex<T(==)>(lt: (T, T) -> bool, a: seq<T>, b: seq<T>) {
    if |b| == 0 then false
    else if |a| == 0 then true
    else lt(a[0], b[0]) || (a[0] == b[0] && Lex(lt, a[1..], b[1..]))
  }

  lemma {:induction false} LexIrreflexive<T(!new)>(lt: (T, T) -> bool, a: seq<T>)
    requires StrictTotal(lt)
    ensures !Lex(lt, a, a)
  {
    if |a| > 0 {
      LexIrreflexive(lt, a[1..]);
    }
  }

  lemma {:induction false} LexTotal<T(!new)>(lt: (T, T) -> bool, a: seq<T>, b: seq<T>)
    requires StrictTotal(lt)
    ensures a == b || Lex(lt, a, b) || Lex(lt, b, a)
  {
    if |a| > 0 && |b| > 0 && a[0] == b[0] {
      LexTotal(lt, a[1..], b[1..]);
      assert a == [a[0]] + a[1..] && b == [b[0]] + b[1..];
    }
  }

  lemma {:induction false} LexTransitive<T(!new)>(lt: (T, T) -> bool, a: seq<T>, b: seq<T>, c: seq<T>)
    requires StrictTotal(lt) && Lex(lt, a, b) && Lex(lt, b, c)
    ensures Lex(lt, a, c)
  {
    if |a| > 0 && a[0] == b[0] && b[0] == c[0] {
      LexTransitive(lt, a[1..], b[1..], c[1..]);
    }
  }

  lemma LexStrictTotal<T(!new)>(lt: (T, T) -> bool)
    requires StrictTotal(lt)
    ensures forall a: seq<T> :: !Lex(lt, a, a)
    ensures forall a: seq<T>, b: seq<T> :: a == b || Lex(lt, a, b) || Lex(lt, b, a)
    ensures forall a: seq<T>, b: seq<T>, c: seq<T> :: Lex(lt, a, b) && Lex(lt, b, c) ==> Lex(lt, a, c)
  {
    forall a: seq<T> ensures !Lex(lt, a, a) { LexIrreflexive(lt, a); }
    forall a: seq<T>, b: seq<T> ensures a == b || Lex(lt, a, b) || Lex(lt, b, a) { LexTotal(lt, a, b); }
    forall a: seq<T>, b: seq<T>, c: seq<T> | Lex(lt, a, b) && Lex(lt, b, c) ensures Lex(lt, a, c) {
      LexTransitive(lt, a, b, c);
    }
  }

  lemma {:induction false} LexPrefix<T(!new)>(lt: (T, T) -> bool, a: seq<T>, b: seq<T>)
    requires a < b
    ensures Lex(lt, a, b)
  {
    if |a| > 0 {
      LexPrefix(lt, a[1..], b[1..]);
    }
  }

  // ---------- sorting ----------

  ghost predicate Sorted<T>(le: (T, T) -> bool, s: seq<T>) {
    forall i, j | 0 <= i < j < |s| :: le(s[i], s[j])
  }

  function Insert<T>(le: (T, T) -> bool, x: T, s: seq<T>): (r: seq<T>)
    ensures multiset(r) == multiset{x} + multiset(s)
  {
    if |s| == 0 then [x]
    else if le(x, s[0]) then [x] + s
    else
      assert s == [s[0]] + s[1..];
      [s[0]] + Insert(le, x, s[1..])
  }

  function SortBy<T>(le: (T, T) -> bool, s: seq<T>): (r: seq<T>)
    ensures multiset(r) == multiset(s)
    ensures |r| == |s|
  {
    if |s| == 0 then []
    else
      assert s == [s[0]] + s[1..];
      var r := Insert(le, s[0], SortBy(le, s[1..]));
      assert |multiset(r)| == |r| && |multiset(s)| == |s|;
      r
  }

  lemma {:induction false} InsertSorted<T(!new)>(le: (T, T) -> bool, x: T, s: seq<T>)
    requires TotalPreorder(le) && Sorted(le, s)
    ensures Sorted(le, Insert(le, x, s))
  {
    if |s| > 0 && !le(x, s[0]) {
      var t := Insert(le, x, s[1..]);
      InsertSorted(le, x, s[1..]);
      forall k | 0 <= k < |t| ensures le(s[0], t[k]) {
        assert t[k] in multiset(t);
        assert t[k] == x || t[k] in s[1..];
      }
    }
  }

  lemma {:induction false} SortBySorted<T(!new)>(le: (T, T) -> bool, s: seq<T>)
    requires TotalPreorder(le)
    ensures Sorted(le, SortBy(le, s))
  {
    if |s| > 0 {
      SortBySorted(le, s[1..]);
      InsertSorted(le, s[0], SortBy(le, s[1..]));
    }
  }

  lemma SameMembers<T>(s: seq<T>, t: seq<T>)
    requires multiset(s) == multiset(t)
    ensures forall x :: x in s <==> x in t
  {
    forall x ensures x in s <==> x in t {
      assert x in s <==> x in multiset(s);
      assert x in t <==> x in multiset(t);
    }
  }

  /** Items that tie are equal. */
  ghost predicate TieFree<T(!new)>(le: (T, T) -> bool, s: seq<T>) {
    forall x, y | x in s && y in s && le(x, y) && le(y, x) :: x == y
  }

  lemma SortedHead<T(!new)>(le: (T, T) -> bool, s: seq<T>, t: seq<T>)
    requires Sorted(le, s) && Sorted(le, t) && multiset(s) == multiset(t) && |s| > 0
    requires TieFree(le, s)
    ensures |t| > 0 && s[0] == t[0]
  {
    SameMembers(s, t);
    assert s[0] in s;
    assert s[0] in t;
    assert t[0] in t;
    var i :| 0 <= i < |t| && t[i] == s[0];
    var j :| 0 <= j < |s| && s[j] == t[0];
    if i > 0 && j > 0 {
      assert le(s[0], s[j]) && le(t[0], t[i]);
    }
  }

  lemma DropHead<T>(s: seq<T>)
    requires |s| > 0
    ensures multiset(s[1..]) == multiset(s) - multiset{s[0]}
    ensures forall x | x in s[1..] :: x in s
  {
    assert s == [s[0]] + s[1..];
  }

  lemma TieFreeTail<T(!new)>(le: (T, T) -> bool, s: seq<T>)
    requires TieFree(le, s) && |s| > 0
    ensures TieFree(le, s[1..])
  {}

  lemma SortedTail<T(!new)>(le: (T, T) -> bool, s: seq<T>)
    requires Sorted(le, s) && |s| > 0
    ensures Sorted(le, s[1..])
  {}

  /** Two sorted listings of the same bag agree when no two listed items are tied. */
  lemma {:induction false} SortedUnique<T(!new)>(le: (T, T) -> bool, s: seq<T>, t: seq<T>)
    requires Sorted(le, s) && Sorted(le, t) && multiset(s) == multiset(t)
    requires TieFree(le, s)
    ensures s == t
  {
    if |s| == 0 {
      assert |multiset(t)| == |t|;
    } else {
      SortedHead(le, s, t);
      assert multiset(s[1..]) == multiset(t[1..]) by {
        DropHead(s);
        DropHead(t);
      }
      SortedTail(le, s);
      SortedTail(le, t);
      TieFreeTail(le, s);
      hide Sorted, TieFree;
      SortedUnique(le, s[1..], t[1..]);
      assert s == [s[0]] + s[1..] && t == [t[0]] + t[1..];
    }
  }

  lemma {:induction false} OnceEach<T>(s: seq<T>, x: T)
    requires forall i, j | 0 <= i < j < |s| :: s[i] != s[j]
    ensures multiset(s)[x] <= 1
  {
    if |s| > 0 {
      assert s == [s[0]] + s[1..];
      OnceEach(s[1..], x);
      if s[0] == x {
        assert x !in s[1..];
        assert multiset(s[1..])[x] == 0;
      }
    }
  }

  /** A list without repetitions has none in any other order either. */
  lemma DistinctReordered<T>(s: seq<T>, t: seq<T>)
    requires multiset(s) == multiset(t)
    requires forall i, j | 0 <= i < j < |s| :: s[i] != s[j]
    ensures forall i, j | 0 <= i < j < |t| :: t[i] != t[j]
  {
    forall i, j | 0 <= i < j < |t| ensures t[i] != t[j] {
      OnceEach(s, t[i]);
      assert t == t[..i] + [t[i]] + t[i + 1..j] + [t[j]] + t[j + 1..];
      assert t[i] == t[j] ==> multiset(t)[t[i]] >= 2;
    }
  }

  // ---------- the members of a set in order ----------

  ghost predicate IsLeast<T(!new)>(lt: (T, T) -> bool, x: T, s: set<T>) {
    x in s && forall y | y in s && y != x :: lt(x, y)
  }

  lemma LeastOfTwo<T(!new)>(lt: (T, T) -> bool, s: set<T>, x: T, m: T)
    requires StrictTotal(lt) && x in s && IsLeast(lt, m, s - {x})
    ensures IsLeast(lt, if lt(m, x) then m else x, s)
  {}

  lemma {:induction false} HasLeast<T(!new)>(lt: (T, T) -> bool, s: set<T>)
    requires StrictTotal(lt) && s != {}
    ensures exists x :: IsLeast(lt, x, s)
  {
    hide StrictTotal;
    var x :| x in s;
    if s == {x} {
      assert IsLeast(lt, x, s);
    } else {
      var y :| y in s && y != x;
      assert y in s - {x};
      HasLeast(lt, s - {x});
      var m :| IsLeast(lt, m, s - {x});
      LeastOfTwo(lt, s, x, m);
    }
  }

  lemma TotalAt<T(!new)>(lt: (T, T) -> bool, x: T, y: T, z: T)
    requires StrictTotal(lt)
    ensures x != y ==> lt(x, y) || lt(y, x)
    ensures lt(x, y) && lt(y, z) ==> lt(x, z)
    ensures lt(x, y) ==> !lt(y, x) && x != y
  {}

  /** The members of a set in ascending order. */
  function Ascending<T(!new, ==)>(lt: (T, T) -> bool, s: set<T>): (r: seq<T>)
    requires StrictTotal(lt)
    ensures forall x :: x in r <==> x in s
  {
    if s == {} then []
    else
      assert exists x :: x in s && forall y | y in s && y != x :: lt(x, y) by {
        HasLeast(lt, s);
        var x :| IsLeast(lt, x, s);
      }
      var x :| x in s && forall y | y in s && y != x :: lt(x, y);
      [x] + Ascending(lt, s - {x})
  }

  lemma {:induction false} AscendingAscends<T(!new)>(lt: (T, T) -> bool, s: set<T>)
    requires StrictTotal(lt)
    ensures forall i, j | 0 <= i < j < |Ascending(lt, s)| :: lt(Ascending(lt, s)[i], Ascending(lt, s)[j])
  {
    if s != {} {
      hide StrictTotal;
      var r := Ascending(lt, s);
      var rest := Ascending(lt, s - {r[0]});
      AscendingAscends(lt, s - {r[0]});
      forall i, j | 0 <= i < j < |r| ensures lt(r[i], r[j]) {
        assert r[j] == rest[j - 1] && r[j] in rest;
        assert i > 0 ==> r[i] == rest[i - 1];
      }
    }
  }

  /** An ascending listing of the set is that one. */
  lemma {:induction false} AscendingUnique<T(!new)>(lt: (T, T) -> bool, s: set<T>, t: seq<T>)
    requires StrictTotal(lt) && (forall x :: x in t <==> x in s)
    requires forall i, j | 0 <= i < j < |t| :: lt(t[i], t[j])
    ensures t == Ascending(lt, s)
  {
    hide StrictTotal;
    if |t| == 0 {
      assert s == {};
    } else {
      assert t[0] in t && t == [t[0]] + t[1..];
      var x := Ascending(lt, s)[0];
      assert x in t;
      var k :| 0 <= k < |t| && t[k] == x;
      TotalAt(lt, t[0], x, x);
      assert x == t[0];
      forall j | 0 < j < |t| ensures t[j] != t[0] { TotalAt(lt, t[0], t[j], t[j]); }
      AscendingUnique(lt, s - {x}, t[1..]);
    }
  }
}
