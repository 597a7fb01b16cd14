/**
 * The browse page's rules (src/pages/Collections.tsx): case-insensitive search
 * over title, speaker and summary combined with a category filter, the
 * per-category groups and counts, the tab opened by default, and the
 * two-step delete confirmation.
 */
module CollectionsView {
  import opened Types
  import opened Seqs
  import opened Store

  // ---------------------------------------------------------------------------
  // Case-insensitive substring search

  /** `toLowerCase` on one character, for the ASCII letters. */
  function LowerChar(ch: char): (r: char)
    ensures !('A' <= r <= 'Z')
    ensures 'a' <= r <= 'z' <==> 'a' <= ch <= 'z' || 'A' <= ch <= 'Z'
    ensures 'A' <= ch <= 'Z' ==> r as int - 'a' as int == ch as int - 'A' as int
    ensures !('A' <= ch <= 'Z') ==> r == ch
  {
    if 'A' <= ch <= 'Z' then (ch as int + 32) as char else ch
  }

  /** `toLowerCase` on a string, character by character. */
  function Lower(s: string): (r: string)
    ensures |r| == |s|
    ensures forall i :: 0 <= i < |s| ==> r[i] == LowerChar(s[i])
  {
    if s == [] then [] else [LowerChar(s[0])] + Lower(s[1..])
  }

  /** Lowercasing twice is lowercasing once. */
  lemma LowerIdempotent(s: string)
    ensures Lower(Lower(s)) == Lower(s)
  {
  }

  /** `needle` occurs in `hay` starting at position `i`. */
  predicate OccursAt(needle: string, hay: string, i: int) {
    0 <= i && i + |needle| <= |hay| && hay[i..i + |needle|] == needle
  }

  /** `needle` is a substring of `hay`. */
  ghost predicate IsSubstring(needle: string, hay: string) {
    exists i :: OccursAt(needle, hay, i)
  }

  /** `String.prototype.includes`: `needle` occurs somewhere in `hay`. */
  function Includes(hay: string, needle: string): (r: bool)
    ensures r <==> IsSubstring(needle, hay)
    decreases |hay|
  {
    if |needle| > |hay| then false
    else if hay[..|needle|] == needle then
      assert OccursAt(needle, hay, 0);
      true
    else
      var tail := hay[1..];
      var r := Includes(tail, needle);
      if r then
        var i :| OccursAt(needle, tail, i);
        assert tail[i..i + |needle|] == hay[i + 1..i + 1 + |needle|];
        assert OccursAt(needle, hay, i + 1);
        r
      else
        assert forall i :: OccursAt(needle, hay, i) ==> OccursAt(needle, tail, i - 1) by {
          forall i | OccursAt(needle, hay, i) ensures OccursAt(needle, tail, i - 1) {
            assert i != 0;
            assert tail[i - 1..i - 1 + |needle|] == hay[i..i + |needle|];
          }
        }
        r
  }

  /**
   * The search term matches the entry's title, speaker or summary, ignoring case:
   * the lowercased term is a substring of one of the three lowercased fields.
   */
  function MatchesSearch(c: Collection, term: string): (r: bool)
    ensures r <==>
      IsSubstring(Lower(term), Lower(c.title)) ||
      IsSubstring(Lower(term), Lower(c.speaker)) ||
      IsSubstring(Lower(term), Lower(c.summary))
  {
    var t := Lower(term);
    Includes(Lower(c.title), t) || Includes(Lower(c.speaker), t) || Includes(Lower(c.summary), t)
  }

  /** The category filter is "all" or reads back as the entry's category. */
  function MatchesCategory(c: Collection, categoryFilter: string): (r: bool)
    ensures r <==> categoryFilter == "all" || ParseCategory(categoryFilter) == Some(c.category)
  {
    CategoryRoundTrip(c.category);
    categoryFilter == "all" || CategoryName(c.category) == categoryFilter
  }

  /** `filterCollections`: the entries that match both the search term and the category filter. */
  function FilterCollections(cs: seq<Collection>, term: string, categoryFilter: string): (r: seq<Collection>)
    ensures |r| <= |cs|
    ensures forall c :: c in r <==> c in cs && MatchesSearch(c, term) && MatchesCategory(c, categoryFilter)
  {
    FilterMembers(cs, (c: Collection) => MatchesSearch(c, term) && MatchesCategory(c, categoryFilter));
    Filter(cs, (c: Collection) => MatchesSearch(c, term) && MatchesCategory(c, categoryFilter))
  }

  /**
   * An entry is kept iff it matches both the category filter and the search;
   * what is kept keeps its order and its multiplicity.
   */
  lemma FilterCollectionsExact(cs: seq<Collection>, term: string, categoryFilter: string)
    ensures forall c :: c in FilterCollections(cs, term, categoryFilter) <==>
      c in cs && MatchesCategory(c, categoryFilter) && MatchesSearch(c, term)
    ensures IsSubsequence(FilterCollections(cs, term, categoryFilter), cs)
    ensures forall c :: MatchesSearch(c, term) && MatchesCategory(c, categoryFilter) ==>
      multiset(FilterCollections(cs, term, categoryFilter))[c] == multiset(cs)[c]
  {
    var p := (c: Collection) => MatchesSearch(c, term) && MatchesCategory(c, categoryFilter);
    FilterMembers(cs, p);
    FilterCounts(cs, p);
    FilterIsSubsequence(cs, p);
  }

  /** With an empty search term and the filter "all", the filter returns its input unchanged. */
  lemma EmptySearchKeepsAll(cs: seq<Collection>)
    ensures FilterCollections(cs, "", "all") == cs
  {
    var p := (c: Collection) => MatchesSearch(c, "") && MatchesCategory(c, "all");
    forall c | c in cs ensures p(c) {
      assert OccursAt("", Lower(c.title), 0);
    }
    FilterKeepsAll(cs, p);
  }

  /** Searching for a lowercased term finds the same entries as the term itself. */
  lemma SearchIgnoresCase(cs: seq<Collection>, term: string, categoryFilter: string)
    ensures FilterCollections(cs, Lower(term), categoryFilter) == FilterCollections(cs, term, categoryFilter)
  {
    LowerIdempotent(term);
    FilterExt(cs, (c: Collection) => MatchesSearch(c, Lower(term)) && MatchesCategory(c, categoryFilter),
                  (c: Collection) => MatchesSearch(c, term) && MatchesCategory(c, categoryFilter));
  }

  // ---------------------------------------------------------------------------
  // Groups and counts

  /** The entries of one category, in list order (`videoCollections` and its siblings). */
  function ByCategory(cs: seq<Collection>, k: Category): (r: seq<Collection>)
    ensures |r| <= |cs|
    ensures forall c :: c in r <==> c in cs && c.category == k
  {
    FilterMembers(cs, (c: Collection) => c.category == k);
    Filter(cs, (c: Collection) => c.category == k)
  }

  /** A group holds its category's entries in list order, each as often as in the list. */
  lemma ByCategoryExact(cs: seq<Collection>, k: Category)
    ensures IsSubsequence(ByCategory(cs, k), cs)
    ensures forall c: Collection :: c.category == k ==> multiset(ByCategory(cs, k))[c] == multiset(cs)[c]
  {
    FilterIsSubsequence(cs, (c: Collection) => c.category == k);
    FilterCounts(cs, (c: Collection) => c.category == k);
  }

  /** `videoCount`, `audioCount`, `hadistCount`: the number of positions holding an entry of the category. */
  function CountCategory(cs: seq<Collection>, k: Category): (n: nat)
    ensures n <= |cs|
    ensures n == |set i | 0 <= i < |cs| && cs[i].category == k|
  {
    CountPrefix(cs, k, |cs|);
    assert cs[..|cs|] == cs;
    |ByCategory(cs, k)|
  }

  /** The group of the first `m` entries has one member per position of the category among them. */
  lemma {:induction false} CountPrefix(cs: seq<Collection>, k: Category, m: nat)
    requires m <= |cs|
    ensures |ByCategory(cs[..m], k)| == |set i | 0 <= i < m && cs[i].category == k|
  {
    if m > 0 {
      CountPrefix(cs, k, m - 1);
      assert cs[..m] == cs[..m - 1] + [cs[m - 1]];
      GroupOfSnoc(cs[..m - 1], cs[m - 1], k);
      PositionsOfSnoc(cs, k, m);
    }
  }

  /** One more entry at the end adds one to its own category's group and nothing to another's. */
  lemma GroupOfSnoc(s: seq<Collection>, x: Collection, k: Category)
    ensures |ByCategory(s + [x], k)| == |ByCategory(s, k)| + (if x.category == k then 1 else 0)
  {
    var pk := (c: Collection) => c.category == k;
    FilterAppend(s, [x], pk);
    FilterCons(x, [], pk);
  }

  /** The positions of a category among the first `m` entries: those among the first `m - 1`, and maybe `m - 1`. */
  lemma PositionsOfSnoc(cs: seq<Collection>, k: Category, m: nat)
    requires 0 < m <= |cs|
    ensures |set i | 0 <= i < m && cs[i].category == k| ==
            |set i | 0 <= i < m - 1 && cs[i].category == k| + (if cs[m - 1].category == k then 1 else 0)
  {
    var before := set i | 0 <= i < m - 1 && cs[i].category == k;
    var upTo := set i | 0 <= i < m && cs[i].category == k;
    if cs[m - 1].category == k {
      assert upTo == before + {m - 1};
    } else {
      assert upTo == before;
    }
  }

  /** The three counts add up to the number of entries, since every entry has one of the three categories. */
  lemma {:induction false} CountsSum(cs: seq<Collection>)
    ensures CountCategory(cs, Video) + CountCategory(cs, Audio) + CountCategory(cs, Hadist) == |cs|
  {
    if cs != [] {
      CountsSum(cs[1..]);
    }
  }

  /**
   * A filtered group (`filteredVideoCollections` and its siblings) is the category's
   * part of the all-filtered list: only entries of that category, all of them in the
   * all-filtered list, in its order.
   */
  lemma FilteredGroupIsPart(cs: seq<Collection>, k: Category, term: string, categoryFilter: string)
    ensures FilterCollections(ByCategory(cs, k), term, categoryFilter) ==
            ByCategory(FilterCollections(cs, term, categoryFilter), k)
    ensures forall c :: c in FilterCollections(ByCategory(cs, k), term, categoryFilter) ==>
            c.category == k && c in FilterCollections(cs, term, categoryFilter)
    ensures IsSubsequence(FilterCollections(ByCategory(cs, k), term, categoryFilter),
                          FilterCollections(cs, term, categoryFilter))
  {
    var pk := (c: Collection) => c.category == k;
    var pf := (c: Collection) => MatchesSearch(c, term) && MatchesCategory(c, categoryFilter);
    FilterCommutes(cs, pk, pf);
    FilterMembers(Filter(cs, pf), pk);
    FilterIsSubsequence(Filter(cs, pf), pk);
  }

  /** A group of one category is empty once the filter names another category. */
  lemma OtherGroupEmpty(cs: seq<Collection>, k: Category, other: Category, term: string)
    requires k != other
    ensures FilterCollections(ByCategory(cs, k), term, CategoryName(other)) == []
  {
    var pk := (c: Collection) => c.category == k;
    var pf := (c: Collection) => MatchesSearch(c, term) && MatchesCategory(c, CategoryName(other));
    FilterMembers(cs, pk);
    forall c | c in Filter(cs, pk) ensures !pf(c) {
      CategoryRoundTrip(c.category);
      CategoryRoundTrip(other);
    }
    FilterKeepsNone(Filter(cs, pk), pf);
  }

  // ---------------------------------------------------------------------------
  // Tabs

  /** `getDefaultTab`: the filter itself when it names a category, "all" otherwise. */
  function DefaultTab(categoryFilter: string): (tab: string)
    ensures tab in {"all", "video", "audio", "hadist"}
    ensures ParseCategory(categoryFilter).Some? ==> tab == categoryFilter
    ensures ParseCategory(categoryFilter).None? ==> tab == "all"
  {
    if categoryFilter == "video" then "video"
    else if categoryFilter == "audio" then "audio"
    else if categoryFilter == "hadist" then "hadist"
    else "all"
  }

  /** The list a tab shows: the filtered group for a category tab, the all-filtered list otherwise. */
  function TabContents(cs: seq<Collection>, term: string, categoryFilter: string, tab: string): (r: seq<Collection>)
    ensures forall c :: c in r <==>
      c in FilterCollections(cs, term, categoryFilter) &&
      (ParseCategory(tab).None? || c.category == ParseCategory(tab).value)
  {
    match ParseCategory(tab)
    case Some(k) => FilterCollections(ByCategory(cs, k), term, categoryFilter)
    case None => FilterCollections(cs, term, categoryFilter)
  }

  /** The tab opened by default shows every entry that the search and the filter let through. */
  lemma DefaultTabShowsAllMatches(cs: seq<Collection>, term: string, categoryFilter: string)
    ensures TabContents(cs, term, categoryFilter, DefaultTab(categoryFilter)) ==
            FilterCollections(cs, term, categoryFilter)
  {
    var tab := DefaultTab(categoryFilter);
    match ParseCategory(tab)
    case None =>
    case Some(k) =>
      assert CategoryName(k) == categoryFilter;
      FilteredGroupIsPart(cs, k, term, categoryFilter);
      var pk := (c: Collection) => c.category == k;
      var all := FilterCollections(cs, term, categoryFilter);
      FilterCollectionsExact(cs, term, categoryFilter);
      forall c | c in all ensures pk(c) {
        CategoryRoundTrip(c.category);
      }
      FilterKeepsAll(all, pk);
  }

  // ---------------------------------------------------------------------------
  // Delete confirmation

  /** The browse page's state: the store it reads and the delete dialog. */
  class CollectionsPage {
    const store: CollectionStore
    var collectionToDelete: Option<string>
    var isDeleteDialogOpen: bool

    constructor (store: CollectionStore)
      ensures this.store == store && collectionToDelete == None && !isDeleteDialogOpen
    {
      this.store := store;
      collectionToDelete := None;
      isDeleteDialogOpen := false;
    }

    /** `handleDelete`: remembers the identifier and opens the dialog; the store is not touched. */
    method HandleDelete(id: string)
      modifies this
      ensures collectionToDelete == Some(id) && isDeleteDialogOpen
    {
      collectionToDelete := Some(id);
      isDeleteDialogOpen := true;
    }

    /**
     * `confirmDelete`: with a pending identifier (a non-empty string), deletes it
     * from the store, closes the dialog and forgets the identifier; otherwise
     * changes nothing at all.
     */
    method ConfirmDelete()
      modifies this, store
      ensures Truthy(old(collectionToDelete)) ==>
        store.collections == RemoveId(old(store.collections), old(collectionToDelete).value) &&
        !HasId(store.collections, old(collectionToDelete).value) &&
        !isDeleteDialogOpen && collectionToDelete == None
      ensures !Truthy(old(collectionToDelete)) ==> unchanged(this) && unchanged(store)
    {
      if Truthy(collectionToDelete) {
        store.DeleteCollection(collectionToDelete.value);
        isDeleteDialogOpen := false;
        collectionToDelete := None;
      }
    }

    /** The dialog's close action: closes it and keeps the pending identifier. */
    method CloseDialog()
      modifies this
      ensures !isDeleteDialogOpen && collectionToDelete == old(collectionToDelete)
    {
      isDeleteDialogOpen := false;
    }
  }
}
