/**
 * The emoji picker's catalogue (`EMOJI_INDEX`) and its search filter
 * (`createEmojiPicker.render`): trim and lower-case the query, keep the items
 * whose name or glyph contains it, at most 200 of them.
 */
module Emoji {
  import opened Text
  import opened Seqs

  datatype EmojiItem = EmojiItem(glyph: string, name: string)

  /** `.slice(0, 200)` caps the number of buttons the picker draws. */
  const ResultLimit: nat := 200

  /** The fixed catalogue, in source order. */
  const EmojiIndex: seq<EmojiItem> := [
    EmojiItem("\U{1F4CD}", "pin"),
    EmojiItem("\U{2705}", "check"),
    EmojiItem("\U{274C}", "x cross"),
    EmojiItem("\U{26A0}\U{FE0F}", "warning caution"),
    EmojiItem("\U{1F6A7}", "construction work"),
    EmojiItem("\U{1F3E0}", "house home"),
    EmojiItem("\U{1F3E2}", "office building"),
    EmojiItem("\U{1F333}", "tree park"),
    EmojiItem("\U{1F6B2}", "bike bicycle"),
    EmojiItem("\U{1F697}", "car"),
    EmojiItem("\U{1F691}", "ambulance medical"),
    EmojiItem("\U{1F68C}", "bus transit"),
    EmojiItem("\U{1F687}", "subway train"),
    EmojiItem("\U{1F6E0}\U{FE0F}", "tools repair"),
    EmojiItem("\U{1F9F0}", "toolbox kit"),
    EmojiItem("\U{1F9F1}", "brick wall"),
    EmojiItem("\U{1F4A7}", "water leak"),
    EmojiItem("\U{1F525}", "fire hot"),
    EmojiItem("\U{2744}\U{FE0F}", "snow ice"),
    EmojiItem("\U{1F17F}\U{FE0F}", "parking"),
    EmojiItem("\U{1F9F9}", "cleanup"),
    EmojiItem("\U{267F}", "accessible accessibility"),
    EmojiItem("\U{1F389}", "party event"),
    EmojiItem("\U{1F4F7}", "camera photo")
  ]

  /** `q.trim().toLowerCase()` */
  function SearchTerm(query: string): string
  {
    ToLower(Trim(query))
  }

  /** The filter's predicate: `!term || item.name.includes(term) || item.e.includes(term)`. */
  predicate Matches(item: EmojiItem, term: string)
  {
    term == "" || Contains(item.name, term) || Contains(item.glyph, term)
  }

  /** `items.filter(...)`: exactly the matching items, in their original order. */
  function Filter(items: seq<EmojiItem>, term: string): (r: seq<EmojiItem>)
    ensures |r| <= |items|
    ensures IsSubsequence(r, items)
    ensures forall it :: it in r ==> Matches(it, term)
    ensures forall it :: it in items && Matches(it, term) ==> it in r
    ensures (forall it :: it in items ==> Matches(it, term)) ==> r == items
  {
    if items == [] then []
    else
      var rest := Filter(items[1..], term);
      assert forall it :: it in items[1..] ==> it in items;
      assert forall it :: it in items ==> it == items[0] || it in items[1..];
      if Matches(items[0], term) then
        assert ([items[0]] + rest)[1..] == rest;
        [items[0]] + rest
      else rest
  }
  /** The filter keeps every matching item as often as it occurs, and nothing else. */
  lemma {:induction false} FilterCounts(items: seq<EmojiItem>, term: string, it: EmojiItem)
    ensures multiset(Filter(items, term))[it] == if Matches(it, term) then multiset(items)[it] else 0
  {
    if items != [] {
      FilterCounts(items[1..], term, it);
      assert items == [items[0]] + items[1..];
      assert multiset(items) == multiset{items[0]} + multiset(items[1..]);
    }
  }


  /**
   * `render(q)`'s item list: an in-order selection from `items` of at most 200
   * entries, each matching the trimmed, lower-cased query; a blank query lists
   * the catalogue from the start, and when no more than 200 items match, every
   * matching item is listed.
   */
  function Search(items: seq<EmojiItem>, query: string): (r: seq<EmojiItem>)
    ensures |r| <= ResultLimit
    ensures IsSubsequence(r, items)
    ensures forall it :: it in r ==> Matches(it, SearchTerm(query))
    ensures SearchTerm(query) == "" ==> r == Take(items, ResultLimit)
    ensures |Filter(items, SearchTerm(query))| <= ResultLimit ==>
              forall it :: it in items && Matches(it, SearchTerm(query)) ==> it in r
  {
    var matching := Filter(items, SearchTerm(query));
    var r := Take(matching, ResultLimit);
    PrefixOfSubsequence(matching, items, |r|);
    assert forall it :: it in r ==> it in matching;
    r
  }

  /**
   * Over the fixed catalogue the cap never bites: an item is listed exactly
   * when it matches, and a blank query lists the whole catalogue.
   */
  lemma PickerListsExactlyMatches(query: string)
    ensures forall it :: it in Search(EmojiIndex, query) <==> it in EmojiIndex && Matches(it, SearchTerm(query))
    ensures SearchTerm(query) == "" ==> Search(EmojiIndex, query) == EmojiIndex
  {
    var r := Search(EmojiIndex, query);
    SubsequenceMembers(r, EmojiIndex);
    assert |EmojiIndex| <= ResultLimit;
  }
}
