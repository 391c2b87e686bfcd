/** The wardrobe list screen: the item record, the category chips, the
    category-then-search filter over the fetched items, and the screen state
    that the filter is recomputed from. */
module Wardrobe {
  import opened Common
  import opened Text
  import opened Sequences

  datatype Status = PendingProcessing | Processed | ErrorProcessing

  /** A stored price. The number `parseFloat` makes of the entered text is not
      modelled; the text stands for it. */
  datatype Price = Price(text: string)

  /** A wardrobe item document (timestamps left out). */
  datatype Item = Item(
    id: string,
    userId: string,
    originalImageUrl: string,
    processedImageUrl: Nullable<string>,
    category: string,
    brand: Option<string>,
    color: Option<string>,
    size: Option<string>,
    price: Nullable<Price>,
    tags: Option<seq<string>>,
    notes: Option<string>,
    status: Status)

  /** The chip that disables the category step. */
  const All: string := "All"

  const Categories: seq<string> :=
    [All, "Tops", "Bottoms", "Dresses", "Outerwear", "Shoes", "Accessories", "Bags", "Jewelry", "Sportswear"]

  // ----- one filtering step -----

  /** An optional text field is searched only when it is truthy. */
  predicate FieldMatches(field: Option<string>, lowerTerm: string) {
    Truthy(field) && Contains(Lower(field.value), lowerTerm)
  }

  /** `tags.some(tag => tag.toLowerCase().includes(term))` on a present tag list. */
  predicate SomeTagMatches(tags: Option<seq<string>>, lowerTerm: string) {
    tags.Some? && exists t :: t in tags.value && Contains(Lower(t), lowerTerm)
  }

  /** The search predicate: category, brand and colour, plus the tags when searchTags. */
  predicate MatchesTerm(item: Item, lowerTerm: string, searchTags: bool) {
    || Contains(Lower(item.category), lowerTerm)
    || FieldMatches(item.brand, lowerTerm)
    || FieldMatches(item.color, lowerTerm)
    || (searchTags && SomeTagMatches(item.tags, lowerTerm))
  }

  datatype Step =
    | CategoryStep(chip: string)
    | SearchStep(lowerTerm: string, searchTags: bool)

  predicate Keeps(step: Step, item: Item) {
    match step
    case CategoryStep(chip) => Lower(item.category) == Lower(chip)
    case SearchStep(lowerTerm, searchTags) => MatchesTerm(item, lowerTerm, searchTags)
  }

  /** `items.filter(...)` with one step's predicate. */
  function Apply(items: seq<Item>, step: Step): (r: seq<Item>)
    ensures |r| <= |items|
    ensures forall k :: 0 <= k < |r| ==> Keeps(step, r[k])
    decreases |items|
  {
    if items == [] then []
    else if Keeps(step, items[0]) then [items[0]] + Apply(items[1..], step)
    else Apply(items[1..], step)
  }

  lemma {:induction false} ApplyIsSubsequence(items: seq<Item>, step: Step)
    ensures IsSubsequence(Apply(items, step), items)
    decreases |items|
  {
    if items != [] {
      ApplyIsSubsequence(items[1..], step);
      var r := Apply(items, step);
      if Keeps(step, items[0]) {
        assert r[0] == items[0] && r[1..] == Apply(items[1..], step);
      }
    }
  }

  lemma {:induction false} ApplyMembership(items: seq<Item>, step: Step, x: Item)
    ensures x in Apply(items, step) <==> x in items && Keeps(step, x)
    decreases |items|
  {
    if items != [] {
      ApplyMembership(items[1..], step, x);
      assert items == [items[0]] + items[1..];
    }
  }

  /** Each kept item is kept as many times as it occurs: filtering neither
      drops nor duplicates copies. */
  lemma {:induction false} ApplyCount(items: seq<Item>, step: Step, x: Item)
    ensures multiset(Apply(items, step))[x] == if Keeps(step, x) then multiset(items)[x] else 0
    decreases |items|
  {
    if items != [] {
      ApplyCount(items[1..], step, x);
      assert items == [items[0]] + items[1..];
    }
  }

  lemma {:induction false} ApplyIdempotent(items: seq<Item>, step: Step)
    ensures Apply(Apply(items, step), step) == Apply(items, step)
    decreases |items|
  {
    if items != [] {
      ApplyIdempotent(items[1..], step);
      if Keeps(step, items[0]) {
        assert ([items[0]] + Apply(items[1..], step))[1..] == Apply(items[1..], step);
      }
    }
  }

  lemma {:induction false} ApplyCommutes(items: seq<Item>, p: Step, q: Step)
    ensures Apply(Apply(items, p), q) == Apply(Apply(items, q), p)
    decreases |items|
  {
    if items != [] {
      ApplyCommutes(items[1..], p, q);
      var x, rest := items[0], items[1..];
      if Keeps(p, x) {
        assert ([x] + Apply(rest, p))[1..] == Apply(rest, p);
      }
      if Keeps(q, x) {
        assert ([x] + Apply(rest, q))[1..] == Apply(rest, q);
      }
    }
  }

  /** A step that keeps no fewer items keeps a super-sequence. */
  lemma {:induction false} ApplyMonotone(items: seq<Item>, p: Step, q: Step)
    requires forall x :: Keeps(p, x) ==> Keeps(q, x)
    ensures IsSubsequence(Apply(items, p), Apply(items, q))
    decreases |items|
  {
    if items != [] {
      ApplyMonotone(items[1..], p, q);
      var x, rest := items[0], items[1..];
      if Keeps(p, x) {
        assert ([x] + Apply(rest, p))[1..] == Apply(rest, p);
        assert ([x] + Apply(rest, q))[1..] == Apply(rest, q);
      } else if Keeps(q, x) {
        assert ([x] + Apply(rest, q))[1..] == Apply(rest, q);
      }
    }
  }

  // ----- the filter effect -----

  /** The category step (skipped for "All") followed by the search step
      (skipped for an empty term); the picker runs it without tag search. */
  function FilterItems(items: seq<Item>, category: string, term: string, searchTags: bool): (r: seq<Item>)
    ensures |r| <= |items|
    ensures category == All && term == "" ==> r == items
  {
    var byCategory := if category != All then Apply(items, CategoryStep(category)) else items;
    if term != "" then Apply(byCategory, SearchStep(Lower(term), searchTags)) else byCategory
  }

  /** The wardrobe screen's filter, which also searches tags. */
  function WardrobeFilter(items: seq<Item>, category: string, term: string): seq<Item> {
    FilterItems(items, category, term, true)
  }

  /** The result keeps the original order and adds nothing. */
  lemma FilterIsSubsequence(items: seq<Item>, category: string, term: string, searchTags: bool)
    ensures IsSubsequence(FilterItems(items, category, term, searchTags), items)
  {
    var byCategory := if category != All then Apply(items, CategoryStep(category)) else items;
    if category != All {
      ApplyIsSubsequence(items, CategoryStep(category));
    } else {
      SubsequenceReflexive(items);
    }
    if term != "" {
      ApplyIsSubsequence(byCategory, SearchStep(Lower(term), searchTags));
      SubsequenceTransitive(Apply(byCategory, SearchStep(Lower(term), searchTags)), byCategory, items);
    }
  }

  /** Soundness and completeness: an item is shown exactly when it is in the
      list, its category equals the chip case-insensitively (unless the chip is
      "All"), and the lower-cased term occurs in one of its searched fields
      (unless the term is empty). */
  lemma FilterMembership(items: seq<Item>, category: string, term: string, searchTags: bool, x: Item)
    ensures x in FilterItems(items, category, term, searchTags) <==>
            && x in items
            && (category == All || Lower(x.category) == Lower(category))
            && (term == "" || MatchesTerm(x, Lower(term), searchTags))
  {
    var byCategory := if category != All then Apply(items, CategoryStep(category)) else items;
    if category != All {
      ApplyMembership(items, CategoryStep(category), x);
    }
    if term != "" {
      ApplyMembership(byCategory, SearchStep(Lower(term), searchTags), x);
    }
  }

  /** An item shown at all is shown as many times as it occurs in the list. */
  lemma FilterCount(items: seq<Item>, category: string, term: string, searchTags: bool, x: Item)
    ensures multiset(FilterItems(items, category, term, searchTags))[x] ==
            if && (category == All || Lower(x.category) == Lower(category))
               && (term == "" || MatchesTerm(x, Lower(term), searchTags))
            then multiset(items)[x] else 0
  {
    var byCategory := if category != All then Apply(items, CategoryStep(category)) else items;
    if category != All {
      ApplyCount(items, CategoryStep(category), x);
    }
    if term != "" {
      ApplyCount(byCategory, SearchStep(Lower(term), searchTags), x);
    }
  }

  /** Filtering the shown list again with the same chip and term changes nothing. */
  lemma FilterIdempotent(items: seq<Item>, category: string, term: string, searchTags: bool)
    ensures FilterItems(FilterItems(items, category, term, searchTags), category, term, searchTags)
         == FilterItems(items, category, term, searchTags)
  {
    var c, s := CategoryStep(category), SearchStep(Lower(term), searchTags);
    if category != All && term != "" {
      var once := Apply(Apply(items, c), s);
      ApplyCommutes(Apply(items, c), s, c);
      ApplyIdempotent(items, c);
      assert Apply(once, c) == Apply(Apply(items, c), s);
      ApplyIdempotent(Apply(items, c), s);
    } else if category != All {
      ApplyIdempotent(items, c);
    } else if term != "" {
      ApplyIdempotent(items, s);
    }
  }

  /** With a non-empty term, an item whose brand, colour and tags are all
      absent matches exactly when its category contains the term. */
  lemma AbsentFieldsNeverMatch(item: Item, lowerTerm: string, searchTags: bool)
    requires item.brand.None? && item.color.None? && item.tags.None?
    ensures MatchesTerm(item, lowerTerm, searchTags) <==> Contains(Lower(item.category), lowerTerm)
  {
  }

  /** An empty brand or colour matches no non-empty term, like an absent one. */
  lemma EmptyFieldMatchesNothing(lowerTerm: string)
    requires lowerTerm != ""
    ensures !FieldMatches(Some(""), lowerTerm) && !FieldMatches(None, lowerTerm)
  {
  }

  // ----- screen state -----

  /** What the item query returned: no signed-in user, the user's items, or an error. */
  datatype FetchOutcome = NoUser | Fetched(items: seq<Item>) | FetchError

  class WardrobeScreen {
    var allItems: seq<Item>
    var filteredItems: seq<Item>
    var selectedCategory: string
    var searchTerm: string

    /** The filter effect has run on the current state. */
    ghost predicate Valid()
      reads this
    {
      filteredItems == WardrobeFilter(allItems, selectedCategory, searchTerm)
    }

    constructor ()
      ensures Valid()
      ensures allItems == [] && filteredItems == [] && selectedCategory == All && searchTerm == ""
    {
      allItems, filteredItems := [], [];
      selectedCategory, searchTerm := All, "";
    }

    /** The effect that recomputes the shown list from its three inputs. */
    method ApplyFilters()
      modifies this`filteredItems
      ensures Valid()
    {
      filteredItems := WardrobeFilter(allItems, selectedCategory, searchTerm);
    }

    /** A category chip was pressed. */
    method SelectCategory(chip: string)
      modifies this
      ensures Valid()
      ensures selectedCategory == chip
      ensures allItems == old(allItems) && searchTerm == old(searchTerm)
    {
      selectedCategory := chip;
      ApplyFilters();
    }

    /** The search box changed. */
    method SetSearchTerm(term: string)
      modifies this
      ensures Valid()
      ensures searchTerm == term
      ensures allItems == old(allItems) && selectedCategory == old(selectedCategory)
    {
      searchTerm := term;
      ApplyFilters();
    }

    /** Stores what the item query returned; an error keeps the old list. */
    method FetchItems(outcome: FetchOutcome)
      modifies this
      ensures Valid()
      ensures allItems == match outcome
                          case NoUser => []
                          case Fetched(items) => items
                          case FetchError => old(allItems)
      ensures selectedCategory == old(selectedCategory) && searchTerm == old(searchTerm)
    {
      match outcome {
        case NoUser =>
          allItems := [];
          filteredItems := [];
        case Fetched(items) =>
          allItems := items;
        case FetchError =>
      }
      ApplyFilters();
    }

    /** Pull-to-refresh: clears the search, resets the chip and refetches,
        after which every fetched item is shown. */
    method OnRefresh(outcome: FetchOutcome)
      modifies this
      ensures Valid()
      ensures searchTerm == "" && selectedCategory == All
      ensures allItems == match outcome
                          case NoUser => []
                          case Fetched(items) => items
                          case FetchError => old(allItems)
      ensures filteredItems == allItems
    {
      searchTerm := "";
      selectedCategory := All;
      FetchItems(outcome);
    }
  }
}
