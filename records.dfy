/** The promotion record and the comparator that orders records for display. */
module Records {

  /** A calendar date without a time component. */
  datatype Date = Date(year: int, month: int, day: int)

  /** One advertised promotion. */
  datatype Promotion = Promotion(
    title: string,
    imageUrl: string,
    linkUrl: string,
    createDate: Date,
    orderSeq: int)

  /** Chronological order on dates: earlier year, then earlier month, then earlier day. */
  predicate Earlier(a: Date, b: Date) {
    a.year < b.year
    || (a.year == b.year && a.month < b.month)
    || (a.year == b.year && a.month == b.month && a.day < b.day)
  }

  /** The sign of the time difference `a - b`. */
  function DateSign(a: Date, b: Date): (c: int)
    ensures c < 0 <==> Earlier(a, b)
    ensures c > 0 <==> Earlier(b, a)
    ensures c == 0 <==> a == b
    ensures -1 <= c <= 1
  {
    if a.year != b.year then (if a.year < b.year then -1 else 1)
    else if a.month != b.month then (if a.month < b.month then -1 else 1)
    else if a.day != b.day then (if a.day < b.day then -1 else 1)
    else 0
  }

  /** Two records tie when the comparator cannot tell them apart: same orderSeq and same createDate. */
  predicate Tie(a: Promotion, b: Promotion) {
    a.orderSeq == b.orderSeq && a.createDate == b.createDate
  }

  /** The sort comparator: orderSeq ascending, then createDate descending (newer first). */
  function Comparator(a: Promotion, b: Promotion): (c: int)
    ensures c < 0 <==> a.orderSeq < b.orderSeq || (a.orderSeq == b.orderSeq && Earlier(b.createDate, a.createDate))
    ensures c == 0 <==> Tie(a, b)
  {
    if a.orderSeq != b.orderSeq then a.orderSeq - b.orderSeq
    else DateSign(b.createDate, a.createDate)
  }

  /** The comparator is antisymmetric in sign. */
  lemma ComparatorAntisymmetric(a: Promotion, b: Promotion)
    ensures Comparator(a, b) < 0 <==> Comparator(b, a) > 0
    ensures Comparator(a, b) == 0 <==> Comparator(b, a) == 0
  {
  }

  /** "Not after" under the comparator is transitive, so the comparator is a total preorder. */
  lemma ComparatorTransitive(a: Promotion, b: Promotion, c: Promotion)
    requires Comparator(a, b) <= 0 && Comparator(b, c) <= 0
    ensures Comparator(a, c) <= 0
    ensures Comparator(a, b) < 0 || Comparator(b, c) < 0 ==> Comparator(a, c) < 0
  {
  }
}
