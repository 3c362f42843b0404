/** The library page: the category chips and the searched, category-filtered
    card list. Lower-casing is the runtime's Unicode case mapping, taken here
    as a parameter `lower`. */
module Library {
  import opened Types
  import Seqs

  const AllChip: string := "All"

  /** The position of the first occurrence of `x`. */
  function FirstIndex(s: seq<string>, x: string): (k: nat)
    requires x in s
    ensures k < |s| && s[k] == x && x !in s[..k]
    decreases |s|
  {
    if s[0] == x then 0
    else
      var k := 1 + FirstIndex(s[1..], x);
      assert s[..k] == [s[0]] + s[1..][..k - 1];
      k
  }

  /** Helper: appending does not move a first occurrence. */
  lemma FirstIndexAppend(s: seq<string>, t: seq<string>, x: string)
    requires x in s
    ensures FirstIndex(s + t, x) == FirstIndex(s, x)
  {
    var k := FirstIndex(s, x);
    assert (s + t)[k] == x;
  }

  /** `Array.from(new Set(s))`: each value once, in order of first
      appearance. */
  function Distinct(s: seq<string>): (r: seq<string>)
    ensures forall x :: x in r <==> x in s
    ensures forall i, j :: 0 <= i < j < |r| ==> r[i] != r[j]
    ensures forall i, j :: 0 <= i < j < |r| ==> FirstIndex(s, r[i]) < FirstIndex(s, r[j])
    ensures |r| <= |s|
    decreases |s|
  {
    if |s| == 0 then []
    else
      var init := s[..|s| - 1];
      var x := s[|s| - 1];
      var d := Distinct(init);
      assert s == init + [x];
      forall y | y in init ensures FirstIndex(s, y) == FirstIndex(init, y) {
        FirstIndexAppend(init, [x], y);
      }
      if x in d then d
      else
        assert FirstIndex(s, x) == |s| - 1;
        d + [x]
  }

  /** `categories`: the chip list, "All" first and then every card category
      once. A card whose category is itself "All" yields a second "All" chip. */
  function Categories(cards: seq<VocabCard>): (r: seq<string>)
    ensures |r| > 0 && r[0] == AllChip
    ensures forall i :: 0 <= i < |cards| ==> cards[i].category in r
    ensures forall x :: x in r[1..] <==> exists i :: 0 <= i < |cards| && cards[i].category == x
    ensures forall i, j :: 1 <= i < j < |r| ==> r[i] != r[j]
  {
    var cats := seq(|cards|, i requires 0 <= i < |cards| => cards[i].category);
    var r := [AllChip] + Distinct(cats);
    assert r[1..] == Distinct(cats);
    assert forall i :: 0 <= i < |cards| ==> cats[i] == cards[i].category && cats[i] in cats;
    assert forall x :: x in cats ==> exists i :: 0 <= i < |cards| && cats[i] == x;
    r
  }

  /** The chips after "All" follow the order in which their categories first
      occur among the cards. */
  lemma CategoriesInOrder(cards: seq<VocabCard>, i: nat, j: nat)
    requires 1 <= i < j < |Categories(cards)|
    ensures var cats := seq(|cards|, k requires 0 <= k < |cards| => cards[k].category);
      var r := Categories(cards);
      r[i] in cats && r[j] in cats && FirstIndex(cats, r[i]) < FirstIndex(cats, r[j])
  {
  }

  /** One card against the search text and the selected chip. */
  function Matches(lower: string -> string, search: string, selected: string, c: VocabCard): bool {
    var q := lower(search);
    (Seqs.Contains(lower(c.term), q) || Seqs.Contains(lower(c.definition), q))
    && (selected == AllChip || c.category == selected)
  }

  function Matcher(lower: string -> string, search: string, selected: string): VocabCard -> bool {
    c => Matches(lower, search, selected, c)
  }

  /** `filteredList`: the matching cards, in library order. */
  function FilteredList(lower: string -> string, cards: seq<VocabCard>, search: string, selected: string): (r: seq<VocabCard>)
    ensures forall c :: c in r <==>
      && c in cards
      && (Seqs.Contains(lower(c.term), lower(search)) || Seqs.Contains(lower(c.definition), lower(search)))
      && (selected == AllChip || c.category == selected)
    ensures forall c :: multiset(r)[c] == if Matches(lower, search, selected, c) then multiset(cards)[c] else 0
    ensures Seqs.IsSubsequence(r, cards)
  {
    Seqs.FilterIsSubsequence(cards, Matcher(lower, search, selected));
    Seqs.Filter(cards, Matcher(lower, search, selected))
  }

  /** Helper: every text contains the empty text. */
  lemma ContainsEmpty(hay: string)
    ensures Seqs.Contains(hay, "")
  {
  }

  /** With an empty search (whose lower case is empty) and the "All" chip the
      whole library is shown. */
  lemma EmptySearchShowsAll(lower: string -> string, cards: seq<VocabCard>)
    requires lower("") == ""
    ensures FilteredList(lower, cards, "", AllChip) == cards
  {
    forall i | 0 <= i < |cards| ensures Matcher(lower, "", AllChip)(cards[i]) {
      ContainsEmpty(lower(cards[i].term));
    }
    Seqs.FilterKeepsAll(cards, Matcher(lower, "", AllChip));
  }

  /** Selecting a chip narrows the "All" result to that category and keeps its
      order. */
  lemma ChipNarrows(lower: string -> string, cards: seq<VocabCard>, search: string, chip: string)
    ensures Seqs.IsSubsequence(FilteredList(lower, cards, search, chip), cards)
    ensures forall c :: c in FilteredList(lower, cards, search, chip) <==>
      c in FilteredList(lower, cards, search, AllChip) && (chip == AllChip || c.category == chip)
  {
  }
}
