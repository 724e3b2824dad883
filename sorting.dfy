/** The stable sort of the promotion list by the record comparator. */
module Sorting {
  import opened Records

  /** No record is placed after one that the comparator puts strictly after it. */
  predicate Sorted(s: seq<Promotion>) {
    forall i, j :: 0 <= i < j < |s| ==> Comparator(s[i], s[j]) <= 0
  }

  /** The records of `s` that tie with `k`, in the order they appear in `s`. */
  function Ties(s: seq<Promotion>, k: Promotion): seq<Promotion> {
    if s == [] then []
    else Ties(s[..|s| - 1], k) + (if Tie(s[|s| - 1], k) then [s[|s| - 1]] else [])
  }

  /** A sort is stable when every class of tying records keeps its input order. */
  ghost predicate Stable(input: seq<Promotion>, output: seq<Promotion>) {
    forall k :: Ties(output, k) == Ties(input, k)
  }

  /** Inserts x behind every record that the comparator does not put strictly after x. */
  function Insert(x: Promotion, s: seq<Promotion>): (r: seq<Promotion>)
    ensures |r| == |s| + 1
  {
    if s == [] || Comparator(x, s[|s| - 1]) >= 0 then s + [x]
    else Insert(x, s[..|s| - 1]) + [s[|s| - 1]]
  }

  /** The result of the JavaScript stable sort with the record comparator, as insertion sort from left to right. */
  function StableSort(s: seq<Promotion>): (r: seq<Promotion>)
    ensures |r| == |s|
    ensures multiset(r) == multiset(s)
  {
    if s == [] then []
    else
      assert s == s[..|s| - 1] + [s[|s| - 1]];
      InsertPermutes(s[|s| - 1], StableSort(s[..|s| - 1]));
      Insert(s[|s| - 1], StableSort(s[..|s| - 1]))
  }

  /** Insertion adds x and keeps every other record. */
  lemma {:induction false} InsertPermutes(x: Promotion, s: seq<Promotion>)
    ensures multiset(Insert(x, s)) == multiset(s) + multiset{x}
  {
    if s != [] && Comparator(x, s[|s| - 1]) < 0 {
      var init, last := s[..|s| - 1], s[|s| - 1];
      InsertPermutes(x, init);
      assert s == init + [last];
    }
  }

  lemma {:induction false} InsertSorted(x: Promotion, s: seq<Promotion>)
    requires Sorted(s)
    ensures Sorted(Insert(x, s))
  {
    if s == [] {
    } else if Comparator(x, s[|s| - 1]) >= 0 {
      var last := s[|s| - 1];
      ComparatorAntisymmetric(x, last);
      forall i | 0 <= i < |s|
        ensures Comparator(s[i], x) <= 0
      {
        if i < |s| - 1 {
          ComparatorTransitive(s[i], last, x);
        }
      }
    } else {
      var init, last := s[..|s| - 1], s[|s| - 1];
      ComparatorAntisymmetric(x, last);
      InsertSorted(x, init);
      var t := Insert(x, init);
      InsertPermutes(x, init);
      forall i | 0 <= i < |t|
        ensures Comparator(t[i], last) <= 0
      {
        assert t[i] in multiset(t);
        assert t[i] == x || t[i] in multiset(init);
        if t[i] != x {
          var m :| 0 <= m < |init| && init[m] == t[i];
          assert s[m] == init[m];
        }
      }
      var r := t + [last];
      forall i, j | 0 <= i < j < |r|
        ensures Comparator(r[i], r[j]) <= 0
      {
        if j < |t| {
          assert r[i] == t[i] && r[j] == t[j];
        }
      }
    }
  }

  lemma {:induction false} TiesAppend(s: seq<Promotion>, x: Promotion, k: Promotion)
    ensures Ties(s + [x], k) == Ties(s, k) + (if Tie(x, k) then [x] else [])
  {
    assert (s + [x])[..|s + [x]| - 1] == s;
  }

  lemma {:induction false} InsertTies(x: Promotion, s: seq<Promotion>, k: Promotion)
    ensures Ties(Insert(x, s), k) == Ties(s, k) + (if Tie(x, k) then [x] else [])
  {
    if s == [] || Comparator(x, s[|s| - 1]) >= 0 {
      TiesAppend(s, x, k);
    } else {
      var init, last := s[..|s| - 1], s[|s| - 1];
      assert s == init + [last];
      InsertTies(x, init, k);
      TiesAppend(Insert(x, init), last, k);
      TiesAppend(init, last, k);
      // x moves only past records strictly after it, so x and last never tie with the same k
      assert !(Tie(x, k) && Tie(last, k));
    }
  }

  /** The sorted list is in comparator order. */
  lemma {:induction false} StableSortSorted(s: seq<Promotion>)
    ensures Sorted(StableSort(s))
  {
    if s != [] {
      StableSortSorted(s[..|s| - 1]);
      InsertSorted(s[|s| - 1], StableSort(s[..|s| - 1]));
    }
  }

  /** Records that tie on both keys keep their input order. */
  lemma {:induction false} StableSortStable(s: seq<Promotion>)
    ensures Stable(s, StableSort(s))
  {
    if s != [] {
      var init, last := s[..|s| - 1], s[|s| - 1];
      StableSortStable(init);
      forall k
        ensures Ties(StableSort(s), k) == Ties(s, k)
      {
        InsertTies(last, StableSort(init), k);
      }
    }
  }

  /** Sortedness spelled out on the two keys: orderSeq non-decreasing, createDate non-increasing within equal orderSeq. */
  lemma SortedKeys(s: seq<Promotion>, i: int, j: int)
    requires Sorted(s) && 0 <= i < j < |s|
    ensures s[i].orderSeq <= s[j].orderSeq
    ensures s[i].orderSeq == s[j].orderSeq ==> !Earlier(s[i].createDate, s[j].createDate)
  {
    assert Comparator(s[i], s[j]) <= 0;
  }

  lemma {:induction false} TiesMember(s: seq<Promotion>, k: Promotion, e: Promotion)
    requires e in Ties(s, k)
    ensures e in s && Tie(e, k)
  {
    if s != [] {
      var init := s[..|s| - 1];
      if e in Ties(init, k) {
        TiesMember(init, k, e);
        assert e in init;
      }
    }
  }

  /** The class of a non-empty list's last record is not empty. */
  lemma TiesOfLast(w: seq<Promotion>)
    requires w != []
    ensures Ties(w, w[|w| - 1]) != []
  {
    assert Ties(w, w[|w| - 1]) == Ties(w[..|w| - 1], w[|w| - 1]) + [w[|w| - 1]];
  }

  /** A record of v tying with k is not after the last record of v. */
  lemma TieNotAfterLast(v: seq<Promotion>, k: Promotion)
    requires Sorted(v) && Ties(v, k) != []
    ensures Comparator(k, v[|v| - 1]) <= 0
  {
    var e := Ties(v, k)[0];
    TiesMember(v, k, e);
    var i :| 0 <= i < |v| && v[i] == e;
    assert Comparator(e, v[|v| - 1]) <= 0;
  }

  /** The class of a list's last record ends with that record. */
  lemma TiesOfOwnLast(w: seq<Promotion>, k: Promotion)
    requires w != [] && Tie(w[|w| - 1], k)
    ensures Ties(w, k) == Ties(w[..|w| - 1], k) + [w[|w| - 1]]
    ensures Ties(w, k) != []
  {
  }

  /** Two sorted non-empty lists that agree on the classes of their last records end with the same record. */
  lemma SortedTiesSameLast(u: seq<Promotion>, v: seq<Promotion>)
    requires Sorted(u) && Sorted(v) && u != [] && v != []
    requires Ties(u, u[|u| - 1]) == Ties(v, u[|u| - 1])
    requires Ties(u, v[|v| - 1]) == Ties(v, v[|v| - 1])
    ensures u[|u| - 1] == v[|v| - 1]
  {
    var a, b := u[|u| - 1], v[|v| - 1];
    TiesOfOwnLast(u, a);
    TiesOfOwnLast(v, b);
    TieNotAfterLast(v, a);
    TieNotAfterLast(u, b);
    ComparatorAntisymmetric(a, b);
    assert Tie(b, a);
    TiesOfOwnLast(v, a);
    assert Ties(v, a)[|Ties(v, a)| - 1] == b;
    assert Ties(u, a)[|Ties(u, a)| - 1] == a;
  }

  /** Dropping the same last record from both lists keeps them agreeing on every class. */
  lemma TiesDropLast(u: seq<Promotion>, v: seq<Promotion>, u': seq<Promotion>, v': seq<Promotion>, a: Promotion)
    requires u == u' + [a] && v == v' + [a]
    requires forall k :: Ties(u, k) == Ties(v, k)
    ensures forall k :: Ties(u', k) == Ties(v', k)
  {
    forall k
      ensures Ties(u', k) == Ties(v', k)
    {
      var tail := if Tie(a, k) then [a] else [];
      TiesAppend(u', a, k);
      TiesAppend(v', a, k);
      assert Ties(u', k) == (Ties(u', k) + tail)[..|Ties(u', k)|];
      assert Ties(v', k) == (Ties(v', k) + tail)[..|Ties(v', k)|];
    }
  }

  /** Two sorted lists that agree on every class of tying records are the same list. */
  lemma {:induction false} SortedTiesUnique(u: seq<Promotion>, v: seq<Promotion>)
    requires Sorted(u) && Sorted(v)
    requires forall k :: Ties(u, k) == Ties(v, k)
    ensures u == v
    decreases |u| + |v|
  {
    if u == [] && v == [] {
    } else if u == [] {
      // the class of v's last record is empty in u
      TiesOfLast(v);
      assert false;
    } else if v == [] {
      TiesOfLast(u);
      assert false;
    } else {
      SortedTiesSameLast(u, v);
      var u', v' := u[..|u| - 1], v[..|v| - 1];
      assert u == u' + [u[|u| - 1]] && v == v' + [v[|v| - 1]];
      TiesDropLast(u, v, u', v', u[|u| - 1]);
      assert Sorted(u') && Sorted(v');
      SortedTiesUnique(u', v');
    }
  }

  /** A sorted, stable rearrangement of the input can only be StableSort of it: any stable sort with this comparator agrees. */
  lemma StableSortUnique(s: seq<Promotion>, u: seq<Promotion>)
    requires Sorted(u) && Stable(s, u)
    ensures u == StableSort(s)
  {
    StableSortSorted(s);
    StableSortStable(s);
    SortedTiesUnique(u, StableSort(s));
  }

  /** Before x is placed at j, the records at j.. are those x passed over, so inserting into the prefix finishes the insertion. */
  lemma InsertStep(x: Promotion, p: seq<Promotion>, j: int)
    requires 0 < j <= |p| && Comparator(x, p[j - 1]) < 0
    ensures Insert(x, p[..j]) + p[j..] == Insert(x, p[..j - 1]) + p[j - 1..]
  {
    assert p[..j][..j - 1] == p[..j - 1];
    assert p[j - 1..] == [p[j - 1]] + p[j..];
  }

  /** Swapping x with its left neighbour p[j - 1] moves x one place left in the picture of the array. */
  lemma SwapStep(before: seq<Promotion>, p: seq<Promotion>, x: Promotion, rest: seq<Promotion>, j: int)
    requires 0 < j <= |p| && before == p[..j] + [x] + p[j..] + rest
    ensures before[j - 1] == p[j - 1] && before[j] == x
    ensures before[j - 1 := x][j := p[j - 1]] == p[..j - 1] + [x] + p[j - 1..] + rest
  {
    var after := before[j - 1 := x][j := p[j - 1]];
    var goal := p[..j - 1] + [x] + p[j - 1..] + rest;
    assert |after| == |goal|;
    forall k | 0 <= k < |after|
      ensures after[k] == goal[k]
    {
      if k < j - 1 {
      } else if k == j - 1 {
      } else if k == j {
      } else if k <= |p| {
      } else {
      }
    }
  }

  /** Once x stops behind a record not strictly after it, the array picture is the finished insertion. */
  lemma InsertDone(q: seq<Promotion>, p: seq<Promotion>, x: Promotion, rest: seq<Promotion>, j: int)
    requires 0 <= j <= |p| && q == p[..j] + [x] + p[j..] + rest
    requires Insert(x, p) == Insert(x, p[..j]) + p[j..]
    requires j == 0 || Comparator(x, p[j - 1]) >= 0
    ensures q[..|p| + 1] == Insert(x, p) && q[|p| + 1..] == rest
  {
    assert j > 0 ==> p[..j][j - 1] == p[j - 1];
    assert Insert(x, p[..j]) == p[..j] + [x];
    assert q == Insert(x, p) + rest;
  }

  /** Swaps x, at j, with its left neighbour. */
  method SwapLeft(a: array<Promotion>, j: int, ghost p: seq<Promotion>, ghost x: Promotion, ghost rest: seq<Promotion>)
    requires 0 < j <= |p| && a[..] == p[..j] + [x] + p[j..] + rest
    modifies a
    ensures a[..] == p[..j - 1] + [x] + p[j - 1..] + rest
  {
    SwapStep(a[..], p, x, rest, j);
    a[j - 1], a[j] := a[j], a[j - 1];
  }

  /** Moves a[i] left past every record of the prefix that the comparator puts strictly after it. */
  method InsertAt(a: array<Promotion>, i: int)
    requires 0 <= i < a.Length
    modifies a
    ensures a[..i + 1] == Insert(old(a[i]), old(a[..i]))
    ensures a[i + 1..] == old(a[i + 1..])
  {
    var x := a[i];
    ghost var p, rest := a[..i], a[i + 1..];
    var j := i;
    assert p[..j] == p && p[j..] == [];
    assert a[..] == p[..j] + [x] + p[j..] + rest;
    while j > 0 && Comparator(x, a[j - 1]) < 0
      invariant 0 <= j <= i
      invariant a[..] == p[..j] + [x] + p[j..] + rest
      invariant Insert(x, p) == Insert(x, p[..j]) + p[j..]
    {
      SwapStep(a[..], p, x, rest, j);
      InsertStep(x, p, j);
      SwapLeft(a, j, p, x, rest);
      j := j - 1;
    }
    InsertDone(a[..], p, x, rest, j);
  }

  /** One round of the outer loop: inserting the next record into the sorted prefix extends StableSort by one record. */
  lemma SortStep(o: seq<Promotion>, before: seq<Promotion>, after: seq<Promotion>, i: int)
    requires 0 <= i < |o| == |before| == |after|
    requires before[..i] == StableSort(o[..i]) && before[i..] == o[i..]
    requires after[..i + 1] == Insert(before[i], before[..i]) && after[i + 1..] == before[i + 1..]
    ensures after[..i + 1] == StableSort(o[..i + 1]) && after[i + 1..] == o[i + 1..]
  {
    assert before[i] == o[i] by {
      assert before[i] == before[i..][0];
    }
    StableSortSnoc(o, i);
    assert before[i + 1..] == before[i..][1..];
  }

  /** StableSort of a longer prefix inserts the next record into StableSort of the shorter one. */
  lemma StableSortSnoc(o: seq<Promotion>, i: int)
    requires 0 <= i < |o|
    ensures StableSort(o[..i + 1]) == Insert(o[i], StableSort(o[..i]))
  {
    assert o[..i + 1][..i] == o[..i];
  }

  /** Sorts the array in place with the record comparator, stably (Array.prototype.sort). */
  method SortInPlace(a: array<Promotion>)
    modifies a
    ensures a[..] == StableSort(old(a[..]))
  {
    var i := 0;
    while i < a.Length
      invariant 0 <= i <= a.Length
      invariant a[..i] == StableSort(old(a[..])[..i])
      invariant a[i..] == old(a[..])[i..]
    {
      ghost var before := a[..];
      InsertAt(a, i);
      SortStep(old(a[..]), before, a[..], i);
      i := i + 1;
    }
    assert a[..] == a[..a.Length];
    assert old(a[..]) == old(a[..])[..a.Length];
  }

  /** promotions.sort(comparator) on the array holding the list; returns its contents afterwards. */
  method SortList(list: seq<Promotion>) returns (sorted: seq<Promotion>)
    ensures sorted == StableSort(list)
  {
    var promotions := new Promotion[|list|](i requires 0 <= i < |list| => list[i]);
    assert promotions[..] == list;
    SortInPlace(promotions);
    sorted := promotions[..];
  }
}
