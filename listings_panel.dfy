/** The listing panel's display logic (frontend/src/components/
    ListingsPanel.tsx): which listings are shown and in what order, how they
    are paged five at a time, the rank badge and score chip of each card, and
    the loading indicator's two counters. */
module ListingsPanel {
  import opened Wrappers
  import opened Json
  import opened Seqs
  import opened Sorting
  import opened Text

  type Listing = Fields

  const ItemsPerPage: nat := 5

  // ---------------------------------------------------------------------
  // Which listings are shown
  // ---------------------------------------------------------------------

  datatype Mode = Matches | Shortlist

  /** `l.score || 0` as the comparator's subtraction reads it: a number is
      itself, `true` is 1, a string of decimal digits is its value, and
      anything falsy is 0. Other strings and arrays or objects (which
      subtraction turns into `NaN` or a parsed number) also read as 0. */
  function ScoreKey(l: Listing): int {
    match Get(l, "score")
    case Num(n) => n
    case Bool(b) => if b then 1 else 0
    case Str(s) => if AllDigits(s) then DigitsValue(s) else 0
    case _ => 0
  }

  /** A score sent as the decimal text of a number ranks as that number,
      exactly like the number itself; a boolean ranks as 1 or 0. */
  lemma ScoreKeyCoerces(l: Listing, n: nat)
    ensures Get(l, "score") == Str(NatToString(n)) ==> ScoreKey(l) == n
    ensures Get(l, "score") == Num(n) ==> ScoreKey(l) == n
    ensures Get(l, "score") == Bool(true) ==> ScoreKey(l) == 1
    ensures !JsTruthy(Get(l, "score")) ==> ScoreKey(l) == 0
  {
    DigitsValueOfNatToString(n);
  }

  /** `!blacklist.includes(l.id)`. */
  function NotBlacklisted(blacklist: seq<string>): Listing -> bool {
    (l: Listing) => !(Get(l, "id").Str? && Get(l, "id").s in blacklist)
  }

  /** `filteredListings`: in matches mode the listings not blacklisted,
      highest score first (stable); in shortlist mode the listings as
      given. */
  function FilteredListings(listings: seq<Listing>, blacklist: seq<string>, mode: Mode): seq<Listing> {
    if mode == Shortlist then listings
    else SortDesc(Keep(listings, NotBlacklisted(blacklist)), ScoreKey)
  }

  /** In matches mode exactly the listings not blacklisted are shown, each
      as many times as it occurs in the input. */
  lemma ShownAreNotBlacklisted(listings: seq<Listing>, blacklist: seq<string>, l: Listing)
    ensures multiset(FilteredListings(listings, blacklist, Matches))[l]
            == if NotBlacklisted(blacklist)(l) then multiset(listings)[l] else 0
  {
    SortDescPermutes(Keep(listings, NotBlacklisted(blacklist)), ScoreKey);
    KeepMultiplicity(listings, NotBlacklisted(blacklist), l);
  }

  /** In matches mode the shown listings are ordered by score, highest
      first, listings with equal scores in their original order. */
  lemma ShownAreRanked(listings: seq<Listing>, blacklist: seq<string>)
    ensures SortedDesc(FilteredListings(listings, blacklist, Matches), ScoreKey)
    ensures forall k :: WithKey(FilteredListings(listings, blacklist, Matches), ScoreKey, k)
                        == WithKey(Keep(listings, NotBlacklisted(blacklist)), ScoreKey, k)
  {
    var kept := Keep(listings, NotBlacklisted(blacklist));
    SortDescSorted(kept, ScoreKey);
    forall k ensures WithKey(SortDesc(kept, ScoreKey), ScoreKey, k) == WithKey(kept, ScoreKey, k) {
      SortDescStable(kept, ScoreKey, k);
    }
  }

  // ---------------------------------------------------------------------
  // Pages
  // ---------------------------------------------------------------------

  /** `Math.ceil(n / 5)`. */
  function TotalPages(n: nat): nat {
    (n + ItemsPerPage - 1) / ItemsPerPage
  }

  /** The page count is the least number of five-item pages that hold n
      items. */
  lemma TotalPagesIsCeiling(n: nat)
    ensures ItemsPerPage * TotalPages(n) >= n
    ensures TotalPages(n) == 0 || ItemsPerPage * (TotalPages(n) - 1) < n
    ensures TotalPages(n) == 0 <==> n == 0
  {
  }

  /** `(page - 1) * 5`. */
  function StartIndex(page: int): int {
    (page - 1) * ItemsPerPage
  }

  /** JavaScript's `Array.prototype.slice(start, end)`: negative positions
      count from the end, and both are clamped to the array. */
  function JsSlice<T>(s: seq<T>, start: int, end: int): (r: seq<T>)
    ensures |r| <= |s|
  {
    var from := if start < 0 then (if |s| + start < 0 then 0 else |s| + start) else (if start > |s| then |s| else start);
    var to := if end < 0 then (if |s| + end < 0 then 0 else |s| + end) else (if end > |s| then |s| else end);
    if from >= to then [] else s[from..to]
  }

  /** `paginatedListings`. */
  function PageItems(listings: seq<Listing>, page: int): seq<Listing> {
    JsSlice(listings, StartIndex(page), StartIndex(page) + ItemsPerPage)
  }

  /** The number on a card's rank badge, from its position on the page. */
  function Badge(page: int, index: nat): int {
    StartIndex(page) + index + 1
  }

  /** A page shows at most five items, the ones starting at its start
      index, and a card's badge is its position in the whole list plus
      one. */
  lemma PageShowsItsSlice(listings: seq<Listing>, page: int)
    requires page >= 1
    ensures |PageItems(listings, page)| <= ItemsPerPage
    ensures StartIndex(page) >= |listings| ==> PageItems(listings, page) == []
    ensures forall i :: 0 <= i < |PageItems(listings, page)| ==>
              0 <= Badge(page, i) - 1 < |listings| && PageItems(listings, page)[i] == listings[Badge(page, i) - 1]
  {
  }

  /** Every listing is shown on exactly one page within the page count: the
      k-th on page k / 5 + 1, in place k % 5. */
  lemma EveryListingHasAPage(listings: seq<Listing>, k: nat)
    requires k < |listings|
    ensures var page := k / ItemsPerPage + 1;
            1 <= page <= TotalPages(|listings|)
            && k % ItemsPerPage < |PageItems(listings, page)|
            && PageItems(listings, page)[k % ItemsPerPage] == listings[k]
    ensures forall p, i :: p >= 1 && 0 <= i < |PageItems(listings, p)| && Badge(p, i) - 1 == k
              ==> p == k / ItemsPerPage + 1 && i == k % ItemsPerPage
  {
    var page := k / ItemsPerPage + 1;
    assert StartIndex(page) == k - k % ItemsPerPage;
  }

  /** The current page number, which the panel resets when the list
      shrinks. */
  class Pager {
    var page: int

    ghost predicate Valid()
      reads this
    {
      page >= 1
    }

    constructor ()
      ensures page == 1 && Valid()
    {
      page := 1;
    }

    /** The reset effect: back to page 1 when the page is past the last one
        and there is at least one page; otherwise unchanged. */
    method ResetIfPastEnd(totalPages: nat)
      requires Valid()
      modifies this
      ensures Valid()
      ensures page == if old(page) > totalPages && totalPages > 0 then 1 else old(page)
      ensures totalPages > 0 ==> page <= totalPages
    {
      if page > totalPages && totalPages > 0 {
        page := 1;
      }
    }
  }

  // ---------------------------------------------------------------------
  // Score chip
  // ---------------------------------------------------------------------

  datatype ChipColor = Success | Warning | Default

  /** The chip beside a card's title: none when the score is absent or 0,
      else coloured by the 70 and 50 thresholds. */
  function Chip(score: Option<int>): Option<ChipColor> {
    match score
    case None => None
    case Some(n) =>
      if n == 0 then None
      else if n >= 70 then Some(Success)
      else if n >= 50 then Some(Warning)
      else Some(Default)
  }

  /** Each colour corresponds to exactly one band of scores. */
  lemma ChipBands(n: int)
    ensures Chip(Some(n)) == Some(Success) <==> n >= 70
    ensures Chip(Some(n)) == Some(Warning) <==> 50 <= n < 70
    ensures Chip(Some(n)) == Some(Default) <==> n < 50 && n != 0
    ensures Chip(Some(n)) == None <==> n == 0
  {
  }

  // ---------------------------------------------------------------------
  // Loading indicator
  // ---------------------------------------------------------------------

  const MessageCount: nat := 6

  /** Progress is kept in half percentage points so that its smallest step
      (0.5) is a whole number: 180 stands for 90%. */
  const ProgressCap: nat := 180

  class LoadingIndicator {
    var messageIndex: nat
    var progress: nat

    ghost predicate Valid()
      reads this
    {
      messageIndex < MessageCount && progress <= ProgressCap
    }

    constructor ()
      ensures messageIndex == 0 && progress == 0 && Valid()
    {
      messageIndex := 0;
      progress := 0;
    }

    /** Every three seconds: the next message, cycling. */
    method NextMessage()
      requires Valid()
      modifies this
      ensures Valid() && progress == old(progress)
      ensures messageIndex == (old(messageIndex) + 1) % MessageCount
    {
      messageIndex := (messageIndex + 1) % MessageCount;
    }

    /** Every 200 ms: 2% below 50%, 1% from 50%, 0.5% from 70%, nothing from
        90%. Progress never decreases and never passes 90%. */
    method Tick()
      requires Valid()
      modifies this
      ensures Valid() && messageIndex == old(messageIndex)
      ensures progress >= old(progress)
      ensures old(progress) < ProgressCap ==> progress > old(progress)
      ensures progress == if old(progress) >= 180 then old(progress)
                          else if old(progress) >= 140 then old(progress) + 1
                          else if old(progress) >= 100 then old(progress) + 2
                          else old(progress) + 4
    {
      if progress >= 180 {
      } else if progress >= 140 {
        progress := progress + 1;
      } else if progress >= 100 {
        progress := progress + 2;
      } else {
        progress := progress + 4;
      }
    }
  }
}
