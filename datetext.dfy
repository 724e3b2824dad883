/** The date line of a card: createDate.replaceAll('-', '.') followed by " ~". */
module DateText {

  /** Every '-' of s replaced by '.'. */
  function ReplaceDashes(s: string): (r: string)
    ensures |r| == |s|
    ensures forall i :: 0 <= i < |s| ==> r[i] == (if s[i] == '-' then '.' else s[i])
  {
    if s == [] then [] else ReplaceDashes(s[..|s| - 1]) + [if s[|s| - 1] == '-' then '.' else s[|s| - 1]]
  }

  /** The text shown under a card's title for its creation date. */
  function CardDate(createDate: string): (r: string)
    ensures |r| == |createDate| + 2
    ensures r[|createDate|..] == " ~"
  {
    ReplaceDashes(createDate) + " ~"
  }

  /** The date line has no '-', and keeps every other character of the date in place. */
  lemma CardDateShape(createDate: string)
    ensures '-' !in CardDate(createDate)
    ensures forall i :: 0 <= i < |createDate| && createDate[i] != '-' ==> CardDate(createDate)[i] == createDate[i]
    ensures forall i :: 0 <= i < |createDate| && createDate[i] == '-' ==> CardDate(createDate)[i] == '.'
  {
    var r := CardDate(createDate);
    forall i | 0 <= i < |r|
      ensures r[i] != '-'
    {
      if i < |createDate| {
        assert r[i] == ReplaceDashes(createDate)[i];
      }
    }
  }

  /** "2025-03-20" is shown as "2025.03.20 ~". */
  lemma CardDateExample()
    ensures CardDate("2025-03-20") == "2025.03.20 ~"
  {
    var r := CardDate("2025-03-20");
    assert |r| == 12;
    forall i | 0 <= i < 12
      ensures r[i] == "2025.03.20 ~"[i]
    {
      if i < 10 {
        assert r[i] == ReplaceDashes("2025-03-20")[i];
      }
    }
  }
}
