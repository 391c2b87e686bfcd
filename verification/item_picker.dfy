/** The item picker shown by the outfit studio: the wardrobe's filter chain
    without the tag search. */
module ItemPicker {
  import opened Text
  import opened Sequences
  import opened Wardrobe

  /** The picker's filter: what it offers keeps the wardrobe's order, and
      without a search term it is exactly what the wardrobe screen shows. */
  function PickerFilter(items: seq<Item>, category: string, term: string): (r: seq<Item>)
    ensures IsSubsequence(r, items)
    ensures term == "" ==> r == WardrobeFilter(items, category, term)
  {
    FilterIsSubsequence(items, category, term, false);
    FilterItems(items, category, term, false)
  }

  /** Tags are never searched: with a non-empty term, an item is offered
      exactly when the term occurs in its category, brand or colour. */
  lemma PickerIgnoresTags(items: seq<Item>, category: string, term: string, x: Item)
    requires term != ""
    ensures x in PickerFilter(items, category, term) <==>
            && x in items
            && (category == All || Lower(x.category) == Lower(category))
            && (|| Contains(Lower(x.category), Lower(term))
                || FieldMatches(x.brand, Lower(term))
                || FieldMatches(x.color, Lower(term)))
  {
    FilterMembership(items, category, term, false, x);
  }

  /** The picker offers, in order, a sub-list of what the wardrobe screen shows. */
  lemma PickerWithinWardrobe(items: seq<Item>, category: string, term: string)
    ensures IsSubsequence(PickerFilter(items, category, term), WardrobeFilter(items, category, term))
  {
    var byCategory := if category != All then Apply(items, CategoryStep(category)) else items;
    if term != "" {
      ApplyMonotone(byCategory, SearchStep(Lower(term), false), SearchStep(Lower(term), true));
    } else {
      SubsequenceReflexive(byCategory);
    }
  }
}
