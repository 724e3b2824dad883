/** The synthetic promotion list (generateMockData), apart from its random dates. */
module MockSource {
  import opened Records

  /** The fixed pool of titles; record i takes title i % 9. */
  const SAMPLE_TITLES: seq<string> := [
    "해외여행 필수 준비물 데이터 로밍 하셨나요?",
    "아르누보의 거장 알폰스 무하 전 40%",
    "아시아나항공 특가 모음집",
    "산리오 캐릭터 총출동! 도쿄&큐슈 헬로키티 랜드",
    "도쿄 핫플레이스 특가 찬스! 스카이트리 10% 할인",
    "후쿠오카 프리미엄 열차여행 선착순 50% 할인",
    "카리브해 지상 천국 스칼렛 아르떼 리조트 회원 특가",
    "누구나 최대 3만원 할인 숙박세일 페스타",
    "여행 날이 남아도! 일본 항공권만 예약할 사람!"
  ]

  const IMAGE_URL_PREFIX: string :=
    "https://images.unsplash.com/photo-1542051841857-5f90071e7989?w=400&h=200&fit=crop&q=80&seed="

  /** Whether every character of s is a decimal digit. */
  predicate AllDigits(s: string) {
    forall i :: 0 <= i < |s| ==> '0' <= s[i] <= '9'
  }

  /** The number a string of decimal digits spells, most significant digit first. */
  function DigitsValue(s: string): nat
    requires AllDigits(s)
  {
    if s == [] then 0 else DigitsValue(s[..|s| - 1]) * 10 + (s[|s| - 1] as int - '0' as int)
  }

  /** The character of one decimal digit. */
  function DigitChar(d: nat): (c: char)
    requires d < 10
    ensures '0' <= c <= '9' && c as int - '0' as int == d
  {
    (d + '0' as int) as char
  }

  /** The text a template literal prints for a non-negative integer: its canonical decimal digits. */
  function Decimal(n: nat): (s: string)
    ensures |s| >= 1 && AllDigits(s)
    ensures DigitsValue(s) == n
    ensures s[0] == '0' <==> n == 0
  {
    if n < 10 then [DigitChar(n)]
    else
      var prefix := Decimal(n / 10);
      assert (prefix + [DigitChar(n % 10)])[..|prefix|] == prefix;
      prefix + [DigitChar(n % 10)]
  }

  /** A digit string that does not start with '0' spells a positive number. */
  lemma {:induction false} LeadingDigitPositive(s: string)
    requires |s| >= 1 && AllDigits(s) && s[0] != '0'
    ensures DigitsValue(s) >= 1
  {
    if |s| > 1 {
      var init := s[..|s| - 1];
      assert init[0] == s[0];
      LeadingDigitPositive(init);
    }
  }

  /** Decimal(n) is the only digit string without a superfluous leading '0' that spells n. */
  lemma {:induction false} DecimalUnique(s: string, n: nat)
    requires |s| >= 1 && AllDigits(s) && DigitsValue(s) == n
    requires s[0] == '0' ==> |s| == 1
    ensures s == Decimal(n)
  {
    var init, last := s[..|s| - 1], s[|s| - 1];
    var d := last as int - '0' as int;
    if |s| == 1 {
      assert DigitsValue(init) == 0;
      assert [last] == [DigitChar(n)];
    } else {
      assert init[0] == s[0];
      LeadingDigitPositive(init);
      assert n / 10 == DigitsValue(init) && n % 10 == d;
      DecimalUnique(init, n / 10);
      assert last == DigitChar(n % 10);
      assert s == init + [last];
    }
  }

  /** The i-th generated record (1-based), created on `date`. */
  function MockRecord(i: nat, date: Date): (r: Promotion)
    ensures r.title in SAMPLE_TITLES && r.linkUrl == "#" && r.createDate == date
    ensures r.orderSeq >= 1 && (r.orderSeq - 1) * 10 <= i < r.orderSeq * 10
  {
    Promotion(SAMPLE_TITLES[i % |SAMPLE_TITLES|], IMAGE_URL_PREFIX + Decimal(i), "#", date, i / 10 + 1)
  }

  /** The records 1 to count, record i dated dates[i - 1]. */
  function MockData(count: int, dates: seq<Date>): (r: seq<Promotion>)
    requires count <= |dates|
    ensures |r| == if count <= 0 then 0 else count
    decreases count
  {
    if count <= 0 then [] else MockData(count - 1, dates) + [MockRecord(count, dates[count - 1])]
  }

  /** generateMockData(count); the random creation dates are supplied by the caller, one per record. */
  method GenerateMockData(count: int, dates: seq<Date>) returns (data: seq<Promotion>)
    requires count <= |dates|
    ensures data == MockData(count, dates)
  {
    data := [];
    var i := 1;
    while i <= count
      invariant 1 <= i <= (if count < 0 then 0 else count) + 1
      invariant data == MockData(i - 1, dates)
    {
      data := data + [MockRecord(i, dates[i - 1])];
      i := i + 1;
    }
    assert count <= 0 ==> MockData(count, dates) == [];
  }

  lemma {:induction false} MockDataAt(count: int, dates: seq<Date>, k: int)
    requires 0 <= k < count <= |dates|
    ensures |MockData(count, dates)| == count
    ensures MockData(count, dates)[k] == MockRecord(k + 1, dates[k])
    decreases count
  {
    if k < count - 1 {
      MockDataAt(count - 1, dates, k);
    }
  }

  /** count records (none for count <= 0); record k (0-based) has orderSeq (k + 1) / 10 + 1, title index (k + 1) % 9 and date dates[k]. */
  lemma MockDataShape(count: int, dates: seq<Date>)
    requires count <= |dates|
    ensures |MockData(count, dates)| == if count <= 0 then 0 else count
    ensures forall k :: 0 <= k < |MockData(count, dates)| ==>
      var r := MockData(count, dates)[k];
      r.orderSeq == (k + 1) / 10 + 1
      && r.title == SAMPLE_TITLES[(k + 1) % 9]
      && r.imageUrl == IMAGE_URL_PREFIX + Decimal(k + 1)
      && r.linkUrl == "#"
      && r.createDate == dates[k]
  {
    assert |SAMPLE_TITLES| == 9;
    forall k | 0 <= k < |MockData(count, dates)|
      ensures MockData(count, dates)[k] == MockRecord(k + 1, dates[k])
    {
      MockDataAt(count, dates, k);
    }
  }

  /** orderSeq never decreases along the generated list. */
  lemma MockOrderSeqNondecreasing(count: int, dates: seq<Date>)
    requires count <= |dates|
    ensures forall i, j :: 0 <= i < j < |MockData(count, dates)| ==>
      MockData(count, dates)[i].orderSeq <= MockData(count, dates)[j].orderSeq
  {
    MockDataShape(count, dates);
  }
}
