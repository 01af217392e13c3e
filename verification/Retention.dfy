/**
 * The retention rule shared by the three version stores: rank the eligible versions newest
 * first (ties broken by the greater name), keep the first N, and delete the unprotected rest.
 */
module Retention {
  import opened Common

  datatype Entry<T> = Entry(key: T, name: string, mtime: int)

  predicate Newer<T>(a: Entry<T>, b: Entry<T>) {
    a.mtime > b.mtime || (a.mtime == b.mtime && LexLess(b.name, a.name))
  }

  /** A directory lists every name once. */
  ghost predicate Listing<T(!new)>(s: set<Entry<T>>) {
    forall a, b :: a in s && b in s && a.name == b.name ==> a == b
  }

  lemma NewerTransitive<T>(a: Entry<T>, b: Entry<T>, c: Entry<T>)
    requires Newer(a, b) && Newer(b, c)
    ensures Newer(a, c)
  {
    if a.mtime == b.mtime == c.mtime {
      LexTransitive(c.name, b.name, a.name);
    }
  }

  lemma NewerIrreflexive<T>(a: Entry<T>)
    ensures !Newer(a, a)
  {
    LexIrreflexive(a.name);
  }

  lemma {:induction false} NewestExists<T(!new)>(s: set<Entry<T>>)
    requires s != {} && Listing(s)
    ensures exists e :: e in s && forall x :: x in s && x != e ==> Newer(e, x)
  {
    var a :| a in s;
    if s == {a} {
      assert a in s && forall x :: x in s && x != a ==> Newer(a, x);
    } else {
      NewestExists(s - {a});
      var e :| e in s - {a} && forall x :: x in s - {a} && x != e ==> Newer(e, x);
      LexTotal(a.name, e.name);
      if Newer(a, e) {
        forall x | x in s && x != a ensures Newer(a, x) {
          if x != e { NewerTransitive(a, e, x); }
        }
        assert a in s && forall x :: x in s && x != a ==> Newer(a, x);
      } else {
        assert Newer(e, a);
        assert e in s && forall x :: x in s && x != e ==> Newer(e, x);
      }
    }
  }

  ghost function Newest<T(!new)>(s: set<Entry<T>>): (e: Entry<T>)
    requires s != {} && Listing(s)
    ensures e in s && forall x :: x in s && x != e ==> Newer(e, x)
  {
    NewestExists(s);
    var e :| e in s && forall x :: x in s && x != e ==> Newer(e, x);
    e
  }

  /** The versions newest first. */
  ghost function ByRank<T(!new)>(s: set<Entry<T>>): (q: seq<Entry<T>>)
    requires Listing(s)
    ensures forall e :: e in q <==> e in s
  {
    if s == {} then []
    else
      var e := Newest(s);
      [e] + ByRank(s - {e})
  }

  /** How many versions are newer than `e`. */
  ghost function Rank<T(!new)>(e: Entry<T>, s: set<Entry<T>>): nat {
    |set x | x in s && Newer(x, e)|
  }

  lemma NewestRanksFirst<T(!new)>(s: set<Entry<T>>)
    requires s != {} && Listing(s)
    ensures Rank(Newest(s), s) == 0
  {
    var e := Newest(s);
    forall x | x in s && Newer(x, e) ensures false {
      if x != e { NewerTransitive(x, e, x); }
      NewerIrreflexive(x);
    }
    assert (set x | x in s && Newer(x, e)) == {};
  }

  lemma RankBehindNewest<T(!new)>(y: Entry<T>, s: set<Entry<T>>)
    requires Listing(s) && y in s && y != Newest(s)
    ensures Rank(y, s) == 1 + Rank(y, s - {Newest(s)})
  {
    var e := Newest(s);
    var behind := set x | x in s - {e} && Newer(x, y);
    assert (set x | x in s && Newer(x, y)) == {e} + behind;
    assert e !in behind;
  }

  lemma {:induction false} RankIsIndex<T(!new)>(s: set<Entry<T>>, i: nat)
    requires Listing(s) && i < |ByRank(s)|
    ensures Rank(ByRank(s)[i], s) == i
  {
    var e := Newest(s);
    if i == 0 {
      NewestRanksFirst(s);
    } else {
      var rest := s - {e};
      var y := ByRank(s)[i];
      assert y == ByRank(rest)[i - 1];
      assert y in ByRank(rest);
      RankIsIndex(rest, i - 1);
      RankBehindNewest(y, s);
    }
  }

  /** The deletion loop as a filter: skip the first `keep` and whatever is protected. */
  function DoomedFrom<T(==)>(q: seq<Entry<T>>, i: nat, protected: set<T>, keep: nat): seq<Entry<T>>
    decreases |q| - i
  {
    if i >= |q| then []
    else if i < keep || q[i].key in protected then DoomedFrom(q, i + 1, protected, keep)
    else [q[i]] + DoomedFrom(q, i + 1, protected, keep)
  }

  ghost function Doomed<T(!new)>(s: set<Entry<T>>, protected: set<T>, keep: nat): seq<Entry<T>>
    requires Listing(s)
  {
    DoomedFrom(ByRank(s), 0, protected, keep)
  }

  /** The loop deletes the entry when it reaches index `k`. */
  predicate DoomedAt<T(==)>(q: seq<Entry<T>>, k: int, protected: set<T>, keep: nat, e: Entry<T>) {
    keep <= k < |q| && q[k] == e && e.key !in protected
  }

  lemma {:induction false} DoomedFromMembers<T>(q: seq<Entry<T>>, i: nat, protected: set<T>, keep: nat, e: Entry<T>)
    ensures e in DoomedFrom(q, i, protected, keep) <==> exists k :: i <= k && DoomedAt(q, k, protected, keep, e)
    decreases |q| - i
  {
    if i < |q| {
      DoomedFromMembers(q, i + 1, protected, keep, e);
      var doomed := i >= keep && q[i].key !in protected;
      assert DoomedAt(q, i, protected, keep, e) <==> doomed && q[i] == e;
      assert DoomedFrom(q, i, protected, keep) == (if doomed then [q[i]] else []) + DoomedFrom(q, i + 1, protected, keep);
    }
  }

  /** Exactly the unprotected versions ranked beyond the newest `keep` are deleted. */
  lemma DoomedExactly<T(!new)>(s: set<Entry<T>>, protected: set<T>, keep: nat, e: Entry<T>)
    requires Listing(s)
    ensures e in Doomed(s, protected, keep) <==> e in s && e.key !in protected && Rank(e, s) >= keep
  {
    var q := ByRank(s);
    DoomedFromMembers(q, 0, protected, keep, e);
    if e in s {
      var k :| 0 <= k < |q| && q[k] == e;
      RankIsIndex(s, k);
      forall j | 0 <= j < |q| && q[j] == e ensures j == k {
        RankIsIndex(s, j);
      }
      assert DoomedAt(q, k, protected, keep, e) <==> e.key !in protected && k >= keep;
    }
  }

  /**
   * Said of modification times: a version is deleted only behind at least `keep` others that are
   * at least as new, those of the same time having greater names.
   */
  lemma DeletedBehindNewer<T(!new)>(s: set<Entry<T>>, protected: set<T>, keep: nat, e: Entry<T>) returns (others: set<Entry<T>>)
    requires Listing(s) && e in Doomed(s, protected, keep)
    ensures others <= s - {e} && |others| >= keep
    ensures forall x <- others :: x.mtime > e.mtime || (x.mtime == e.mtime && LexLess(e.name, x.name))
  {
    DoomedExactly(s, protected, keep, e);
    NewerIrreflexive(e);
    others := set x | x in s && Newer(x, e);
  }

  /** An unprotected version is kept only if fewer than `keep` others are newer. */
  lemma KeptAmongNewest<T(!new)>(s: set<Entry<T>>, protected: set<T>, keep: nat, e: Entry<T>)
    requires Listing(s) && e in s && e.key !in protected && e !in Doomed(s, protected, keep)
    ensures |set x | x in s && x.mtime > e.mtime| < keep
  {
    DoomedExactly(s, protected, keep, e);
    var newer := set x | x in s && Newer(x, e);
    var later := set x | x in s && x.mtime > e.mtime;
    assert newer == later + (newer - later);
  }

  // ---------------------------------------------------------------- sorting

  predicate Sorted<T>(q: seq<Entry<T>>) {
    forall i, j :: 0 <= i < j < |q| ==> Newer(q[i], q[j])
  }

  /** Insert into a sorted sequence; the name must be new to it. */
  function Insert<T(!new)>(e: Entry<T>, q: seq<Entry<T>>): (r: seq<Entry<T>>)
    requires Sorted(q) && forall x :: x in q ==> x.name != e.name
    ensures forall x :: x in r <==> x == e || x in q
    ensures Sorted(r)
  {
    if q == [] then [e]
    else if Newer(e, q[0]) then
      assert forall x :: x in q[1..] ==> Newer(e, x) by {
        forall x | x in q[1..] ensures Newer(e, x) { NewerTransitive(e, q[0], x); }
      }
      [e] + q
    else
      assert Newer(q[0], e) by { LexTotal(e.name, q[0].name); }
      var r := Insert(e, q[1..]);
      assert forall x :: x in r ==> Newer(q[0], x);
      [q[0]] + r
  }

  /** A sorted listing is the ranking, so any sort gives the same order. */
  lemma {:induction false} SortedIsByRank<T(!new)>(q: seq<Entry<T>>, s: set<Entry<T>>)
    requires Listing(s) && Sorted(q)
    requires forall e :: e in q <==> e in s
    ensures q == ByRank(s)
  {
    if q == [] {
      assert s == {};
    } else {
      assert q[0] in s;
      var e := Newest(s);
      assert q[0] == e by {
        if q[0] != e {
          var k :| 0 <= k < |q| && q[k] == e;
          assert q[0] in s;
          NewerTransitive(q[0], e, q[0]);
          NewerIrreflexive(q[0]);
        }
      }
      forall x ensures x in q[1..] <==> x in s - {e} {
        if x in q[1..] {
          NewerIrreflexive(x);
        }
      }
      SortedIsByRank(q[1..], s - {e});
    }
  }

  /** An insertion sort of a listing is its ranking. */
  method Sort<T(==, !new)>(s: set<Entry<T>>) returns (q: seq<Entry<T>>)
    requires Listing(s)
    ensures q == ByRank(s)
  {
    hide Newer, ByRank;
    q := [];
    var todo := s;
    while todo != {}
      invariant todo <= s
      invariant Sorted(q)
      invariant forall e :: e in q <==> e in s - todo
      decreases |todo|
    {
      var e :| e in todo;
      todo := todo - {e};
      q := Insert(e, q);
    }
    SortedIsByRank(q, s);
  }
}
