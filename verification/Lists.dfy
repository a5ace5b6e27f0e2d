/** What several of the models need of optional values and of lists. */
module Lists {

  datatype Option<T> = None | Some(value: T)

  // ---- lists without repetition ----

  /** Nothing is listed twice. */
  ghost predicate Distinct<T>(s: seq<T>)
  {
    s == [] || (s[|s| - 1] !in s[..|s| - 1] && Distinct(s[..|s| - 1]))
  }

  lemma {:induction false} DistinctPairs<T>(s: seq<T>)
    ensures Distinct(s) <==> forall j, k :: 0 <= j < k < |s| ==> s[j] != s[k]
  {
    if s != [] {
      var n := |s| - 1;
      DistinctPairs(s[..n]);
      if Distinct(s) {
        forall j, k | 0 <= j < k < |s| ensures s[j] != s[k] {
          assert s[j] == s[..n][j];
          assert k < n ==> s[k] == s[..n][k];
        }
      }
    }
  }

  lemma DistinctAppend<T>(s: seq<T>, x: T)
    requires Distinct(s) && x !in s
    ensures Distinct(s + [x])
  {
  }

  lemma DistinctFrom<T>(s: seq<T>, i: nat)
    requires Distinct(s) && i < |s|
    ensures forall k :: 0 <= k < |s| && k != i ==> s[k] != s[i]
  {
    DistinctPairs(s);
  }

  function Insert<T>(s: seq<T>, k: nat, x: T): seq<T>
    requires k <= |s|
  {
    s[..k] + [x] + s[k..]
  }

  function Cut<T>(s: seq<T>, k: nat): seq<T>
    requires k < |s|
  {
    s[..k] + s[k + 1..]
  }

  /** c is s with element x put in at place k. */
  ghost predicate Inserted<T>(c: seq<T>, s: seq<T>, k: nat, x: T)
  {
    && k <= |s| && |c| == |s| + 1 && c[k] == x
    && forall i {:trigger s[i]} :: 0 <= i < |s| ==> s[i] == c[if i < k then i else i + 1]
  }

  lemma InsertIs<T>(s: seq<T>, k: nat, x: T)
    requires k <= |s|
    ensures Inserted(Insert(s, k, x), s, k, x)
  {
  }

  lemma InsertedDistinct<T>(c: seq<T>, s: seq<T>, k: nat, x: T)
    requires Inserted(c, s, k, x)
    ensures Distinct(c) <==> Distinct(s) && x !in s
  {
    DistinctPairs(s);
    DistinctPairs(c);
    if Distinct(s) && x !in s {
      forall i, j | 0 <= i < j < |c| ensures c[i] != c[j] {
        InsertedAt(c, s, k, x, i);
        InsertedAt(c, s, k, x, j);
      }
    }
  }

  lemma InsertedAt<T>(c: seq<T>, s: seq<T>, k: nat, x: T, i: nat)
    requires Inserted(c, s, k, x) && i < |c|
    ensures c[i] == if i < k then s[i] else if i == k then x else s[i - 1]
  {
  }

  lemma InsertedMembers<T>(c: seq<T>, s: seq<T>, k: nat, x: T)
    requires Inserted(c, s, k, x)
    ensures forall u :: u in c <==> u in s || u == x
  {
    forall u | u in c ensures u in s || u == x {
      var i :| 0 <= i < |c| && c[i] == u;
      InsertedAt(c, s, k, x, i);
    }
  }

  lemma DistinctInsert<T>(s: seq<T>, k: nat, x: T)
    requires Distinct(s) && x !in s && k <= |s|
    ensures Distinct(Insert(s, k, x)) && forall u :: u in Insert(s, k, x) <==> u in s || u == x
  {
    InsertIs(s, k, x);
    InsertedDistinct(Insert(s, k, x), s, k, x);
    InsertedMembers(Insert(s, k, x), s, k, x);
  }

  lemma InsertHas<T>(s: seq<T>, k: nat, x: T, u: T)
    requires k <= |s| && u in s
    ensures u in Insert(s, k, x)
  {
    InsertIs(s, k, x);
    InsertedMembers(Insert(s, k, x), s, k, x);
  }

  lemma CutIs<T>(s: seq<T>, k: nat)
    requires k < |s|
    ensures Inserted(s, Cut(s, k), k, s[k])
  {
  }

  lemma DistinctCut<T>(s: seq<T>, k: nat)
    requires Distinct(s) && k < |s|
    ensures Distinct(Cut(s, k)) && forall u :: u in Cut(s, k) <==> u in s && u != s[k]
  {
    CutIs(s, k);
    InsertedDistinct(s, Cut(s, k), k, s[k]);
    InsertedMembers(s, Cut(s, k), k, s[k]);
  }

  lemma DistinctTail<T>(s: seq<T>)
    requires Distinct(s) && s != []
    ensures Distinct(s[1..]) && forall u :: u in s[1..] <==> u in s && u != s[0]
  {
    DistinctCut(s, 0);
    assert Cut(s, 0) == s[1..];
  }

  // ---- counting ----

  /** How often x occurs in s. */
  function Count<T(==)>(s: seq<T>, x: T): nat
  {
    if s == [] then 0 else
      var n := |s| - 1;
      Count(s[..n], x) + if s[n] == x then 1 else 0
  }

  lemma CountSnoc<T>(s: seq<T>, y: T, x: T)
    ensures Count(s + [y], x) == Count(s, x) + if y == x then 1 else 0
  {
    assert (s + [y])[..|s|] == s;
  }

  lemma {:induction false} CountConcat<T>(a: seq<T>, b: seq<T>, x: T)
    ensures Count(a + b, x) == Count(a, x) + Count(b, x)
    decreases |b|
  {
    if b == [] {
      assert a + b == a;
    } else {
      var n := |b| - 1;
      CountConcat(a, b[..n], x);
      CountSnoc(a + b[..n], b[n], x);
      assert (a + b[..n]) + [b[n]] == a + b;
    }
  }
}
