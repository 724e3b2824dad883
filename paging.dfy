/** Client-side pagination of the sorted promotion list (getPromotionsPage). */
module Paging {

  /** promotionsPerPage */
  const PAGE_SIZE: nat := 12

  /** An index argument of Array.prototype.slice resolved against a length: negative counts from the end, then clamped to [0, len]. */
  function SliceIndex(rel: int, len: nat): (k: nat)
    ensures k <= len
    ensures 0 <= rel <= len ==> k == rel
    ensures rel < 0 <= len + rel ==> k == len + rel
    ensures len + rel < 0 ==> k == 0
    ensures rel > len ==> k == len
  {
    if rel < 0 then (if len + rel < 0 then 0 else len + rel)
    else if rel > len then len
    else rel
  }

  /** Array.prototype.slice(start, end). */
  function Slice<T>(s: seq<T>, start: int, end: int): (r: seq<T>)
    ensures var lo, hi := SliceIndex(start, |s|), SliceIndex(end, |s|);
      |r| == (if lo < hi then hi - lo else 0) && forall k :: 0 <= k < |r| ==> r[k] == s[lo + k]
  {
    var lo, hi := SliceIndex(start, |s|), SliceIndex(end, |s|);
    if lo < hi then s[lo..hi] else []
  }

  function Min(a: int, b: int): (m: int)
    ensures m <= a && m <= b && (m == a || m == b)
  {
    if a < b then a else b
  }

  /** getPromotionsPage(page): the slice from (page - 1) * 12 to that plus 12. */
  function Page<T>(s: seq<T>, page: int): (r: seq<T>)
    ensures |r| <= PAGE_SIZE
    ensures page >= 1 ==> Min((page - 1) * PAGE_SIZE, |s|) <= Min(page * PAGE_SIZE, |s|)
    ensures page >= 1 ==> r == s[Min((page - 1) * PAGE_SIZE, |s|)..Min(page * PAGE_SIZE, |s|)]
  {
    var startIndex := (page - 1) * PAGE_SIZE;
    var endIndex := startIndex + PAGE_SIZE;
    Slice(s, startIndex, endIndex)
  }

  /** A 1-based page is empty exactly past the end of the list, and its records are those from (p - 1) * 12 on. */
  lemma PageWindow<T>(s: seq<T>, p: int)
    requires p >= 1
    ensures Page(s, p) == [] <==> (p - 1) * PAGE_SIZE >= |s|
    ensures forall k :: 0 <= k < |Page(s, p)| ==> Page(s, p)[k] == s[(p - 1) * PAGE_SIZE + k]
  {
  }

  /** Pages 1 to n, one after the other. */
  function Pages<T>(s: seq<T>, n: nat): seq<T> {
    if n == 0 then [] else Pages(s, n - 1) + Page(s, n)
  }

  /** Pages 1 to n reproduce the first min(n * 12, |s|) records exactly: no gap, no duplicate. */
  lemma {:induction false} PagesPrefix<T>(s: seq<T>, n: nat)
    ensures Pages(s, n) == s[..Min(n * PAGE_SIZE, |s|)]
  {
    if n > 0 {
      PagesPrefix(s, n - 1);
      PageWindow(s, n);
      assert s[..Min((n - 1) * PAGE_SIZE, |s|)] + s[Min((n - 1) * PAGE_SIZE, |s|)..Min(n * PAGE_SIZE, |s|)]
          == s[..Min(n * PAGE_SIZE, |s|)];
    }
  }

  /** The number of non-empty pages. */
  function PageCount(len: nat): nat {
    (len + PAGE_SIZE - 1) / PAGE_SIZE
  }

  /** Pages 1 to PageCount are non-empty, the next page is the first empty one, and together they are the whole list. */
  lemma PagesPartition<T>(s: seq<T>)
    ensures forall p :: 1 <= p <= PageCount(|s|) ==> Page(s, p) != []
    ensures Page(s, PageCount(|s|) + 1) == []
    ensures Pages(s, PageCount(|s|)) == s
  {
    var n := PageCount(|s|);
    forall p | 1 <= p <= n
      ensures Page(s, p) != []
    {
      PageWindow(s, p);
    }
    PageWindow(s, n + 1);
    PagesPrefix(s, n);
    assert Min(n * PAGE_SIZE, |s|) == |s|;
  }

  /** For 100 records, page 9 holds indices 96 to 99 and page 10 is empty. */
  lemma HundredRecords<T>(s: seq<T>)
    requires |s| == 100
    ensures PageCount(|s|) == 9
    ensures Page(s, 9) == s[96..100] && |Page(s, 9)| == 4
    ensures Page(s, 10) == []
  {
    PageWindow(s, 9);
    PageWindow(s, 10);
  }
}
