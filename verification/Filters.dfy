/** Sub-sequences: what an in-place scan leaves of a list, and what it takes. */
module Filters {
  import opened Lists

  /** The elements whose flag is down, in order. */
  function Keep<T>(s: seq<T>, drop: seq<bool>): (r: seq<T>)
    requires |s| == |drop|
  {
    if s == [] then [] else
      var n := |s| - 1;
      Keep(s[..n], drop[..n]) + if drop[n] then [] else [s[n]]
  }

  /** The others, in order. */
  function Take<T>(s: seq<T>, drop: seq<bool>): (r: seq<T>)
    requires |s| == |drop|
  {
    if s == [] then [] else
      var n := |s| - 1;
      Take(s[..n], drop[..n]) + if drop[n] then [s[n]] else []
  }

  /** x is in s at a place whose flag is down. */
  ghost predicate Stays<T>(s: seq<T>, drop: seq<bool>, x: T)
    requires |s| == |drop|
  {
    exists k :: 0 <= k < |s| && s[k] == x && !drop[k]
  }

  lemma StaysNext<T>(s: seq<T>, drop: seq<bool>, x: T)
    requires |s| == |drop| && s != []
    ensures var n := |s| - 1; Stays(s, drop, x) <==> Stays(s[..n], drop[..n], x) || (s[n] == x && !drop[n])
  {
    var n := |s| - 1;
    var s0, drop0 := s[..n], drop[..n];
    if Stays(s, drop, x) {
      var k :| 0 <= k < |s| && s[k] == x && !drop[k];
      assert k < n ==> s0[k] == x && !drop0[k];
    }
    if Stays(s0, drop0, x) {
      var k :| 0 <= k < n && s0[k] == x && !drop0[k];
      assert s[k] == x && !drop[k];
    }
  }

  lemma {:induction false} KeepMembers<T>(s: seq<T>, drop: seq<bool>, x: T)
    requires |s| == |drop|
    ensures x in Keep(s, drop) <==> Stays(s, drop, x)
    decreases |s|
  {
    if s != [] {
      var n := |s| - 1;
      KeepMembers(s[..n], drop[..n], x);
      StaysNext(s, drop, x);
    }
  }

  /** One more element. */
  lemma KeepNext<T>(s: seq<T>, drop: seq<bool>, i: nat)
    requires |s| == |drop| && i < |s|
    ensures Keep(s[..i + 1], drop[..i + 1]) == Keep(s[..i], drop[..i]) + if drop[i] then [] else [s[i]]
    ensures Take(s[..i + 1], drop[..i + 1]) == Take(s[..i], drop[..i]) + if drop[i] then [s[i]] else []
  {
    assert s[..i + 1][..i] == s[..i] && drop[..i + 1][..i] == drop[..i];
  }

  /** Nothing is lost: kept and taken together are the list. */
  lemma {:induction false} KeepAndTake<T>(s: seq<T>, drop: seq<bool>, x: T)
    requires |s| == |drop|
    ensures Count(Keep(s, drop), x) + Count(Take(s, drop), x) == Count(s, x)
    decreases |s|
  {
    if s != [] {
      var n := |s| - 1;
      KeepAndTake(s[..n], drop[..n], x);
      var kept, taken := Keep(s[..n], drop[..n]), Take(s[..n], drop[..n]);
      if drop[n] {
        CountSnoc(taken, s[n], x);
        assert Keep(s, drop) == kept + [] == kept;
        assert Take(s, drop) == taken + [s[n]];
      } else {
        CountSnoc(kept, s[n], x);
        assert Keep(s, drop) == kept + [s[n]];
        assert Take(s, drop) == taken + [] == taken;
      }
    }
  }

  /** A scan has passed i elements of s: its place in what is then left of the list. */
  function Place(drop: seq<bool>, i: nat): (k: nat)
    requires i <= |drop|
    ensures k <= i
  {
    if i == 0 then 0 else Place(drop, i - 1) + if drop[i - 1] then 0 else 1
  }

  /** What is then left of the list. */
  function Partly<T>(s: seq<T>, drop: seq<bool>, i: nat): (r: seq<T>)
    requires |drop| == |s| && i <= |s|
    ensures |r| == |s| - i + Place(drop, i)
  {
    if i == 0 then s
    else if drop[i - 1] then Cut(Partly(s, drop, i - 1), Place(drop, i - 1))
    else Partly(s, drop, i - 1)
  }

  /** What it has taken by then. */
  function Gone<T>(s: seq<T>, drop: seq<bool>, i: nat): seq<T>
    requires |drop| == |s| && i <= |s|
  {
    if i == 0 then []
    else if drop[i - 1] then Gone(s, drop, i - 1) + [s[i - 1]]
    else Gone(s, drop, i - 1)
  }

  /** The first of b leaves, or changes over to a. */
  lemma Regroup<T>(a: seq<T>, b: seq<T>)
    requires b != []
    ensures Cut(a + b, |a|) == a + b[1..]
    ensures a + b == (a + [b[0]]) + b[1..]
  {
  }

  lemma {:induction false} PartlyIs<T>(s: seq<T>, drop: seq<bool>, i: nat)
    requires |drop| == |s| && i <= |s|
    ensures Partly(s, drop, i) == Keep(s[..i], drop[..i]) + s[i..]
    ensures Place(drop, i) == |Keep(s[..i], drop[..i])|
    ensures Gone(s, drop, i) == Take(s[..i], drop[..i])
  {
    if i == 0 {
      assert s[..0] == [] && s[0..] == s;
      assert [] + s == s;
    } else {
      PartlyIs(s, drop, i - 1);
      KeepNext(s, drop, i - 1);
      var kept, taken, rest := Keep(s[..i - 1], drop[..i - 1]), Take(s[..i - 1], drop[..i - 1]), s[i - 1..];
      Regroup(kept, rest);
      assert rest[1..] == s[i..] && rest[0] == s[i - 1];
      assert kept + [] == kept && taken + [] == taken;
    }
  }

  lemma PartlyWithin<T>(s: seq<T>, drop: seq<bool>, i: nat)
    requires |drop| == |s| && i <= |s|
    ensures forall j :: 0 <= j < |Partly(s, drop, i)| ==> Partly(s, drop, i)[j] in s
  {
  }

  lemma PartlyNext<T>(s: seq<T>, drop: seq<bool>, i: nat)
    requires |drop| == |s| && i < |s|
    ensures Partly(s, drop, i)[Place(drop, i)] == s[i]
    ensures Place(drop, i) + 1 < |Partly(s, drop, i)| <==> i + 1 < |s|
    ensures i + 1 < |s| ==> Partly(s, drop, i)[Place(drop, i) + 1] == s[i + 1]
    ensures forall j :: 0 <= j < |Partly(s, drop, i)| ==> Partly(s, drop, i)[j] in s
  {
    PartlyIs(s, drop, i);
    PartlyWithin(s, drop, i);
  }

  lemma PartlyAll<T>(s: seq<T>, drop: seq<bool>)
    requires |drop| == |s|
    ensures Partly(s, drop, |s|) == Keep(s, drop) && Gone(s, drop, |s|) == Take(s, drop)
  {
    PartlyIs(s, drop, |s|);
    assert s[..|s|] == s && drop[..|s|] == drop;
  }
}
