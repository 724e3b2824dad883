/** The promotion list container as a sequence of items, and what renderPromotions makes of it. */
module Rendering {
  import opened Records

  /** One child of the list container: the "no promotions" message or a card for one record. */
  datatype Item = Placeholder | Card(promotion: Promotion)

  /** One card per record, in order. */
  function Cards(ps: seq<Promotion>): (r: seq<Item>)
    ensures |r| == |ps| && Placeholder !in r
    ensures forall k :: 0 <= k < |r| ==> r[k].promotion == ps[k]
  {
    seq(|ps|, k requires 0 <= k < |ps| => Card(ps[k]))
  }

  /** The records shown by the cards of a container, in display order. */
  function CardRecords(items: seq<Item>): seq<Promotion> {
    if items == [] then []
    else
      var shown := match items[|items| - 1] case Card(p) => [p] case Placeholder => [];
      CardRecords(items[..|items| - 1]) + shown
  }

  /** The number of placeholders in a container. */
  function Placeholders(items: seq<Item>): nat {
    if items == [] then 0
    else Placeholders(items[..|items| - 1]) + (if items[|items| - 1] == Placeholder then 1 else 0)
  }

  /** The container after renderPromotions(ps, append) starting from `container`. */
  function Rendered(container: seq<Item>, ps: seq<Promotion>, append: bool): (r: seq<Item>)
    ensures append ==> |container| <= |r| && r[..|container|] == container
    ensures !append ==> (Placeholder in r <==> ps == [])
  {
    var base := if append then container else [];
    if ps == [] then (if append then base else [Placeholder])
    else base + Cards(ps)
  }

  lemma {:induction false} CardRecordsAppend(a: seq<Item>, b: seq<Item>)
    ensures CardRecords(a + b) == CardRecords(a) + CardRecords(b)
    ensures Placeholders(a + b) == Placeholders(a) + Placeholders(b)
    decreases |b|
  {
    if b == [] {
      assert a + b == a;
    } else {
      var b', last := b[..|b| - 1], b[|b| - 1];
      assert (a + b)[..|a + b| - 1] == a + b';
      CardRecordsAppend(a, b');
    }
  }

  /** The cards for ps show exactly ps, and no placeholder. */
  lemma {:induction false} CardsShow(ps: seq<Promotion>)
    ensures CardRecords(Cards(ps)) == ps
    ensures Placeholders(Cards(ps)) == 0
  {
    if ps != [] {
      var init := ps[..|ps| - 1];
      assert Cards(ps) == Cards(init) + [Card(ps[|ps| - 1])];
      CardsShow(init);
      CardRecordsAppend(Cards(init), [Card(ps[|ps| - 1])]);
      assert CardRecords([Card(ps[|ps| - 1])]) == [ps[|ps| - 1]] by {
        assert [Card(ps[|ps| - 1])][..0] == [];
      }
      assert Placeholders([Card(ps[|ps| - 1])]) == 0 by {
        assert [Card(ps[|ps| - 1])][..0] == [];
      }
      assert init + [ps[|ps| - 1]] == ps;
    }
  }

  /** The cards of two lists one after the other are the cards of the joined list. */
  lemma CardsConcat(a: seq<Promotion>, b: seq<Promotion>)
    ensures Cards(a + b) == Cards(a) + Cards(b)
  {
  }

  /** Replace mode with no records leaves exactly one placeholder and no card. */
  lemma RenderEmptyReplace(container: seq<Item>)
    ensures Rendered(container, [], false) == [Placeholder]
    ensures Placeholders(Rendered(container, [], false)) == 1
    ensures CardRecords(Rendered(container, [], false)) == []
  {
    assert [Placeholder][..0] == [];
  }

  /** Append mode with no records leaves the container as it was. */
  lemma RenderEmptyAppend(container: seq<Item>)
    ensures Rendered(container, [], true) == container
  {
  }

  /** Otherwise the cards for the records follow the old container (append) or nothing (replace), in input order. */
  lemma RenderRecords(container: seq<Item>, ps: seq<Promotion>, append: bool)
    requires ps != []
    ensures CardRecords(Rendered(container, ps, append)) == (if append then CardRecords(container) else []) + ps
    ensures Placeholders(Rendered(container, ps, append)) == if append then Placeholders(container) else 0
    ensures |Rendered(container, ps, append)| == (if append then |container| else 0) + |ps|
  {
    var base := if append then container else [];
    CardRecordsAppend(base, Cards(ps));
    CardsShow(ps);
  }
}
