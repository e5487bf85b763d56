/** The chat page's controller (frontend/src/hooks/useChatController.ts):
    the reducer `handleStreamUpdate` that folds the match stream into the
    listings shown and the scoring progress, the guards and the final reset
    of `searchListings`, and the rule filter of `deleteRule`.

    `View` is the part of the controller's state the reducer touches;
    `Apply` says what one stream value does to it, and the methods of
    `ChatController` are proved against it. A value that makes the reducer
    throw (a missing or null match or listing, a listing whose truthy
    summary is not a string) changes nothing: every throw happens before
    the first update, and the stream client swallows it. */
module ChatController {
  import opened Wrappers
  import opened Json
  import opened Seqs
  import opened Sorting
  import Rent
  import ListingsPanel
  import MatchService
  import ApiClient

  type Listing = Fields

  datatype View = View(listings: seq<Listing>, scored: int, total: Json, loading: bool)

  /** `data.type === t`. */
  predicate IsType(data: Json, t: string) {
    Member(data, "type") == Str(t)
  }

  /** The listing a score value adds: the normalised listing with the
      match's "score" and its reasoning's "overall_reasoning" (missing
      values read as `Null`); `None` when building it throws. A listing
      that is null or missing throws; any other value is spread into the
      new object as `normalizeRent` does, so a number, a boolean, a string
      or an array also gives a listing (without "summary" or "price"). */
  function NewListing(data: Json): Option<Listing> {
    var m := Member(data, "match");
    var listing := Member(m, "listing");
    if listing.Null? then None
    else match Rent.NormalizeRent(Spread(listing))
      case None => None
      case Some(normal) =>
        Some(Set(Set(normal, "score", Member(m, "score")), "reasoning",
                 Member(Member(m, "reasoning"), "overall_reasoning")))
  }

  /** One call of `handleStreamUpdate`. */
  function Apply(v: View, data: Json): View {
    if IsType(data, "init") then View([], 0, Member(data, "total"), v.loading)
    else if IsType(data, "score") then Scored(v, NewListing(data))
    else if IsType(data, "done") then v.(loading := false)
    else v
  }

  /** A `score` value: the listing, if there is one, joins the ranking and
      one more is counted as scored. */
  function Scored(v: View, next: Option<Listing>): View {
    match next
    case None => v
    case Some(l) => View(SortDesc(v.listings + [l], ListingsPanel.ScoreKey), v.scored + 1, v.total, v.loading)
  }

  /** The values of a stream, applied in order. */
  function ApplyAll(v: View, ds: seq<Json>): View {
    if ds == [] then v else Apply(ApplyAll(v, ds[..|ds| - 1]), ds[|ds| - 1])
  }

  // ---------------------------------------------------------------------
  // What each kind of value does
  // ---------------------------------------------------------------------

  /** `init` empties the listings and restarts the progress at 0 of
      `total`. */
  lemma InitResets(v: View, data: Json)
    requires IsType(data, "init")
    ensures Apply(v, data) == View([], 0, Member(data, "total"), v.loading)
  {
  }

  /** `score` adds exactly one listing, keeps the listings ordered by score
      (the new one after those with an equal score), and counts one more
      scored; the total is unchanged. */
  lemma ScoreAddsOne(v: View, data: Json)
    requires IsType(data, "score") && !IsType(data, "init") && NewListing(data).Some?
    ensures var w := Apply(v, data);
            var l := NewListing(data).value;
            multiset(w.listings) == multiset(v.listings) + multiset{l}
            && SortedDesc(w.listings, ListingsPanel.ScoreKey)
            && w.scored == v.scored + 1 && w.total == v.total && w.loading == v.loading
            && WithKey(w.listings, ListingsPanel.ScoreKey, ListingsPanel.ScoreKey(l))
               == WithKey(v.listings, ListingsPanel.ScoreKey, ListingsPanel.ScoreKey(l)) + [l]
  {
    var l := NewListing(data).value;
    ScoreInsertsListing(v, data, l);
    SortDescAppend(v.listings, l, ListingsPanel.ScoreKey);
  }

  /** A listing built from a score value goes into the ranking, and the
      count of scored listings goes up by one. */
  lemma ScoreInsertsListing(v: View, data: Json, l: Listing)
    requires IsType(data, "score") && !IsType(data, "init") && NewListing(data) == Some(l)
    ensures Apply(v, data) == View(SortDesc(v.listings + [l], ListingsPanel.ScoreKey), v.scored + 1, v.total, v.loading)
  {
    ScoreValueApplies(v, data);
    ScoredListing(v, l);
  }

  /** `Scored` with a listing in hand. */
  lemma ScoredListing(v: View, l: Listing)
    ensures Scored(v, Some(l)) == View(SortDesc(v.listings + [l], ListingsPanel.ScoreKey), v.scored + 1, v.total, v.loading)
  {
  }

  /** A score value goes through `Scored`. */
  lemma ScoreValueApplies(v: View, data: Json)
    requires IsType(data, "score") && !IsType(data, "init")
    ensures Apply(v, data) == Scored(v, NewListing(data))
  {
  }

  /** `done` only stops the loading indicator. */
  lemma DoneStopsLoading(v: View, data: Json)
    requires IsType(data, "done")
    ensures Apply(v, data) == v.(loading := false)
  {
    assert !IsType(data, "init") && !IsType(data, "score");
  }

  /** A value of any other type, or one whose handling throws, changes
      nothing. */
  lemma OtherValuesChangeNothing(v: View, data: Json)
    requires !IsType(data, "init") && !IsType(data, "done")
    requires IsType(data, "score") ==> NewListing(data).None?
    ensures Apply(v, data) == v
  {
  }

  /** `normalizeRent` does not throw on a match whose listing is present
      but not an object: the number, boolean, string or array has no
      summary and no price, so it is spread into a listing priced 0 and
      labelled per month, and the score value adds it. */
  lemma ScalarListingIsAdded(data: Json)
    requires var listing := Member(Member(data, "match"), "listing");
             !listing.Null? && !listing.Obj?
    ensures NewListing(data).Some?
    ensures Lookup(NewListing(data).value, "price") == Some(Num(0))
    ensures Lookup(NewListing(data).value, "priceLabel") == Some(Str("£0/month"))
  {
    var listing := Member(Member(data, "match"), "listing");
    assert "summary"[0] == 's' && "price"[0] == 'p';
    SpreadHasOnlyIndices(listing, "summary");
    SpreadHasOnlyIndices(listing, "price");
    Rent.UnpricedIsZeroMonthly(Spread(listing));
    var m := Member(data, "match");
    var normal := Rent.NormalizeRent(Spread(listing)).value;
    var score, reasoning := Member(m, "score"), Member(Member(m, "reasoning"), "overall_reasoning");
    assert NewListing(data) == Some(Set(Set(normal, "score", score), "reasoning", reasoning));
    assert "price"[0] != "score"[0] && "price"[0] != "reasoning"[0];
    assert "priceLabel"[0] != "score"[0] && "priceLabel"[0] != "reasoning"[0];
    SetTwiceElsewhere(normal, "score", score, "reasoning", reasoning, "price");
    SetTwiceElsewhere(normal, "score", score, "reasoning", reasoning, "priceLabel");
  }

  lemma ApplyAllAppend(v: View, a: seq<Json>, b: seq<Json>)
    ensures ApplyAll(v, a + b) == ApplyAll(ApplyAll(v, a), b)
    decreases |b|
  {
    if b != [] {
      assert (a + b)[..|a + b| - 1] == a + b[..|b| - 1];
      ApplyAllAppend(v, a, b[..|b| - 1]);
    } else {
      assert a + b == a;
    }
  }

  /** `scored` counts the listings once an `init` has been seen: every
      value preserves the equality and `init` establishes it. */
  lemma {:induction false} ScoredCountsListings(v: View, ds: seq<Json>)
    requires v.scored == |v.listings| || exists k :: 0 <= k < |ds| && IsType(ds[k], "init")
    ensures ApplyAll(v, ds).scored == |ApplyAll(v, ds).listings|
  {
    if ds != [] {
      var init, last := ds[..|ds| - 1], ds[|ds| - 1];
      if !IsType(last, "init") {
        assert v.scored == |v.listings| || exists k :: 0 <= k < |init| && IsType(init[k], "init") by {
          if v.scored != |v.listings| {
            var k :| 0 <= k < |ds| && IsType(ds[k], "init");
            assert k < |init| && init[k] == ds[k];
          }
        }
        ScoredCountsListings(v, init);
      }
    }
  }

  /** The listings stay ordered by score whatever arrives. */
  lemma {:induction false} ListingsStayRanked(v: View, ds: seq<Json>)
    requires SortedDesc(v.listings, ListingsPanel.ScoreKey)
    ensures SortedDesc(ApplyAll(v, ds).listings, ListingsPanel.ScoreKey)
  {
    if ds != [] {
      ListingsStayRanked(v, ds[..|ds| - 1]);
      ApplyKeepsRanked(ApplyAll(v, ds[..|ds| - 1]), ds[|ds| - 1]);
    }
  }

  lemma ApplyKeepsRanked(w: View, d: Json)
    requires SortedDesc(w.listings, ListingsPanel.ScoreKey)
    ensures SortedDesc(Apply(w, d).listings, ListingsPanel.ScoreKey)
  {
    if IsType(d, "init") {
      InitResets(w, d);
    } else if IsType(d, "score") && NewListing(d).Some? {
      var l := NewListing(d).value;
      ScoreInsertsListing(w, d, l);
      SortDescSorted(w.listings + [l], ListingsPanel.ScoreKey);
    } else if IsType(d, "done") {
      DoneStopsLoading(w, d);
    } else {
      OtherValuesChangeNothing(w, d);
    }
  }

  // ---------------------------------------------------------------------
  // The service's stream, end to end
  // ---------------------------------------------------------------------

  /** One score value: one listing more exactly when it normalises. */
  lemma ApplyScore(u: View, d: Json)
    requires IsType(d, "score") && !IsType(d, "init")
    ensures var w := Apply(u, d);
            w.total == u.total && w.loading == u.loading
            && |w.listings| == |u.listings| + (if NewListing(d).Some? then 1 else 0)
            && w.scored - |w.listings| == u.scored - |u.listings|
  {
    if NewListing(d).Some? {
      var l := NewListing(d).value;
      SortDescPermutes(u.listings + [l], ListingsPanel.ScoreKey);
      assert |multiset(Apply(u, d).listings)| == |multiset(u.listings + [l])|;
    }
  }

  predicate ScoreValue(d: Json) {
    IsType(d, "score") && !IsType(d, "init")
  }

  /** Score values add at most one listing each, exactly one when the
      listing normalises, and leave the total alone. */
  lemma {:induction false} ScoreValuesAddListings(w: View, ds: seq<Json>)
    requires forall k :: 0 <= k < |ds| ==> ScoreValue(ds[k])
    ensures var u := ApplyAll(w, ds);
            u.total == w.total && u.loading == w.loading
            && |u.listings| <= |w.listings| + |ds|
            && u.scored - |u.listings| == w.scored - |w.listings|
            && ((forall k :: 0 <= k < |ds| ==> NewListing(ds[k]).Some?) ==> |u.listings| == |w.listings| + |ds|)
  {
    if ds != [] {
      var init := ds[..|ds| - 1];
      ScoreValuesAddListings(w, init);
      ApplyScore(ApplyAll(w, init), ds[|ds| - 1]);
    }
  }

  /** The service's score event for a match is a score value, and it adds a
      listing exactly when the match's listing normalises. */
  lemma ScoreEventValue(m: MatchService.Match)
    ensures var d := MatchService.EventJson(MatchService.Score(m));
            ScoreValue(d) && (NewListing(d).Some? <==> Rent.NormalizeRent(m.listing).Some?)
  {
    var d := MatchService.EventJson(MatchService.Score(m));
    var df := [("type", Str("score")), ("match", MatchService.MatchJson(m))];
    assert d.fields == df;
    assert Lookup(df, "type") == Some(Str("score"));
    assert "type" != "init" && "type" != "match";
    assert Lookup(df, "match") == Lookup(df[1..], "match");
    var mf := MatchService.MatchJson(m).fields;
    assert "index" != "listing";
    assert Lookup(mf, "listing") == Lookup(mf[1..], "listing");
    assert Member(Member(d, "match"), "listing") == Obj(m.listing);
    ObjectListingNormalises(d, m.listing);
  }

  /** An object listing is spread as its own entries, so the new listing
      exists exactly when those entries normalise. */
  lemma ObjectListingNormalises(data: Json, fields: Fields)
    requires Member(Member(data, "match"), "listing") == Obj(fields)
    ensures NewListing(data).Some? <==> Rent.NormalizeRent(fields).Some?
  {
    assert Spread(Obj(fields)) == fields;
  }

  lemma ApplyAllOne(v: View, d: Json)
    ensures ApplyAll(v, [d]) == Apply(v, d)
  {
    assert [d][..0] == [];
  }

  /** The service's `init` event restarts the progress at its total. */
  lemma InitEventStarts(v: View, total: nat, ideal: Fields, summary: string)
    ensures ApplyAll(v, [MatchService.EventJson(MatchService.Init(total, ideal, summary))])
            == View([], 0, Num(total), v.loading)
  {
    var i := MatchService.EventJson(MatchService.Init(total, ideal, summary));
    ApplyAllOne(v, i);
    assert Lookup(i.fields, "type") == Some(Str("init"));
    assert "type" != "total";
    assert Lookup(i.fields, "total") == Lookup(i.fields[1..], "total");
    InitResets(v, i);
  }

  /** The service's `done` event stops the loading indicator. */
  lemma DoneEventStops(u: View)
    ensures ApplyAll(u, [MatchService.EventJson(MatchService.Done)]) == u.(loading := false)
  {
    var d := MatchService.EventJson(MatchService.Done);
    ApplyAllOne(u, d);
    assert Lookup(d.fields, "type") == Some(Str("done"));
    DoneStopsLoading(u, d);
  }

  /** The service's score events add one listing each when every listing
      normalises. */
  lemma ScoreEventsAddAll(w: View, ms: seq<MatchService.Match>)
    requires forall k :: 0 <= k < |ms| ==> Rent.NormalizeRent(ms[k].listing).Some?
    ensures var u := ApplyAll(w, ApiClient.EventJsons(MatchService.Scores(ms)));
            u.total == w.total && u.loading == w.loading
            && |u.listings| == |w.listings| + |ms|
            && u.scored - |u.listings| == w.scored - |w.listings|
  {
    var s := ApiClient.EventJsons(MatchService.Scores(ms));
    forall k | 0 <= k < |s| ensures ScoreValue(s[k]) && NewListing(s[k]).Some? {
      ScoreEventValue(ms[k]);
    }
    ScoreValuesAddListings(w, s);
  }

  lemma StreamEventJsons(first: MatchService.Event, ms: seq<MatchService.Match>, last: MatchService.Event)
    ensures ApiClient.EventJsons([first] + MatchService.Scores(ms) + [last])
            == [MatchService.EventJson(first)] + ApiClient.EventJsons(MatchService.Scores(ms)) + [MatchService.EventJson(last)]
  {
  }

  /** After a whole stream from the service (one `init`, the score events,
      one `done`), the progress shows the announced total, the indicator has
      stopped, the listings are ranked, `scored` counts them, and there is
      one listing per score event. */
  lemma ServiceStreamView(v: View, total: nat, ideal: Fields, summary: string, ms: seq<MatchService.Match>)
    requires forall k :: 0 <= k < |ms| ==> Rent.NormalizeRent(ms[k].listing).Some?
    ensures var events := [MatchService.Init(total, ideal, summary)] + MatchService.Scores(ms) + [MatchService.Done];
            var u := ApplyAll(v, ApiClient.EventJsons(events));
            u.total == Num(total) && !u.loading && |u.listings| == |ms| && u.scored == |ms|
            && SortedDesc(u.listings, ListingsPanel.ScoreKey)
  {
    var i := MatchService.EventJson(MatchService.Init(total, ideal, summary));
    var d := MatchService.EventJson(MatchService.Done);
    var s := ApiClient.EventJsons(MatchService.Scores(ms));
    StreamEventJsons(MatchService.Init(total, ideal, summary), ms, MatchService.Done);
    ApplyAllAppend(v, [i], s + [d]);
    assert [i] + s + [d] == [i] + (s + [d]);
    ApplyAllAppend(ApplyAll(v, [i]), s, [d]);
    InitEventStarts(v, total, ideal, summary);
    var w := View([], 0, Num(total), v.loading);
    ScoreEventsAddAll(w, ms);
    ListingsStayRanked(w, s);
    DoneEventStops(ApplyAll(w, s));
  }

  // ---------------------------------------------------------------------
  // Rule deletion
  // ---------------------------------------------------------------------

  /** `rules.filter(r => r.field !== field)`. */
  function OtherField(field: string): Json -> bool {
    (r: Json) => Member(r, "field") != Str(field)
  }

  function RemainingRules(rules: seq<Json>, field: string): seq<Json> {
    Keep(rules, OtherField(field))
  }

  /** No rule with the field is left, every other rule is kept, in order,
      and deleting again changes nothing. */
  lemma RemainingRulesDropField(rules: seq<Json>, field: string)
    ensures forall k :: 0 <= k < |RemainingRules(rules, field)| ==> Member(RemainingRules(rules, field)[k], "field") != Str(field)
    ensures forall k :: 0 <= k < |rules| && Member(rules[k], "field") != Str(field) ==> rules[k] in RemainingRules(rules, field)
    ensures IsSubsequence(RemainingRules(rules, field), rules)
    ensures RemainingRules(RemainingRules(rules, field), field) == RemainingRules(rules, field)
  {
    KeepIsSubsequence(rules, OtherField(field));
    KeepKeep(rules, OtherField(field), OtherField(field), OtherField(field));
  }

  // ---------------------------------------------------------------------
  // The controller
  // ---------------------------------------------------------------------

  class ChatController {
    var listings: seq<Listing>
    var scored: int
    var total: Json
    var listingsLoading: bool
    var searchSuggested: bool

    function ViewOf(): View
      reads this
    {
      View(listings, scored, total, listingsLoading)
    }

    constructor ()
      ensures ViewOf() == View([], 0, Num(0), false) && !searchSuggested
    {
      listings := [];
      scored := 0;
      total := Num(0);
      listingsLoading := false;
      searchSuggested := false;
    }

    /** `handleStreamUpdate(data)`. */
    method HandleStreamUpdate(data: Json)
      modifies this
      ensures ViewOf() == Apply(old(ViewOf()), data)
      ensures searchSuggested == old(searchSuggested)
    {
      if IsType(data, "init") {
        StartProgress(data);
      } else if IsType(data, "score") {
        AddScored(data);
      } else if IsType(data, "done") {
        DoneStopsLoading(ViewOf(), data);
        listingsLoading := false;
      } else {
        OtherValuesChangeNothing(ViewOf(), data);
      }
    }

    /** The `init` case of `handleStreamUpdate`. */
    method StartProgress(data: Json)
      requires IsType(data, "init")
      modifies this
      ensures ViewOf() == Apply(old(ViewOf()), data)
      ensures searchSuggested == old(searchSuggested)
    {
      InitResets(ViewOf(), data);
      scored, total := 0, Member(data, "total");
      listings := [];
    }

    /** The `score` case of `handleStreamUpdate`. */
    method AddScored(data: Json)
      requires IsType(data, "score") && !IsType(data, "init")
      modifies this
      ensures ViewOf() == Apply(old(ViewOf()), data)
      ensures searchSuggested == old(searchSuggested)
    {
      match NewListing(data)
      case Some(l) =>
        ScoreInsertsListing(ViewOf(), data, l);
        InsertListing(l);
      case None =>
        OtherValuesChangeNothing(ViewOf(), data);
    }

    /** The listing joins the ranking and one more is counted as scored. */
    method InsertListing(l: Listing)
      modifies this
      ensures ViewOf() == View(SortDesc(old(listings) + [l], ListingsPanel.ScoreKey), old(scored) + 1,
                               old(total), old(listingsLoading))
      ensures searchSuggested == old(searchSuggested)
    {
      listings := SortDesc(listings + [l], ListingsPanel.ScoreKey);
      scored := scored + 1;
    }

    /** `searchListings`: nothing without a conversation or an access token;
        otherwise loading starts, the progress restarts at 0 of 0, the values
        the stream delivers are applied in order, and whether the stream
        completes or throws after `received`, loading ends and the search
        suggestion is cleared. */
    method SearchListings(hasConversation: bool, hasToken: bool, received: seq<Json>)
      modifies this
      ensures !(hasConversation && hasToken) ==> ViewOf() == old(ViewOf()) && searchSuggested == old(searchSuggested)
      ensures hasConversation && hasToken ==>
                var w := ApplyAll(View(old(listings), 0, Num(0), true), received);
                listings == w.listings && scored == w.scored && total == w.total
                && !listingsLoading && !searchSuggested
    {
      if !hasConversation || !hasToken {
        return;
      }
      listingsLoading := true;
      scored, total := 0, Num(0);
      ghost var start := ViewOf();
      for k := 0 to |received|
        invariant ViewOf() == ApplyAll(start, received[..k])
      {
        assert received[..k + 1][..k] == received[..k];
        HandleStreamUpdate(received[k]);
      }
      assert received[..|received|] == received;
      listingsLoading := false;
      searchSuggested := false;
    }

    /** `deleteRule(field)` after the access-token guard: the rules saved are
        those with another field; when the chat has messages a new search
        runs as in `searchListings` (without the final reset), and a throw
        from it stops the loading indicator. */
    method DeleteRule(field: string, hasToken: bool, rules: seq<Json>, hasMessages: bool,
                      received: seq<Json>, threw: bool)
      returns (saved: Option<seq<Json>>)
      modifies this
      ensures !hasToken ==> saved.None? && ViewOf() == old(ViewOf())
      ensures hasToken ==> saved == Some(RemainingRules(rules, field))
      ensures hasToken && !hasMessages ==> ViewOf() == old(ViewOf())
      ensures hasToken && hasMessages ==>
                var w := ApplyAll(View(old(listings), 0, Num(0), true), received);
                listings == w.listings && scored == w.scored && total == w.total
                && listingsLoading == (w.loading && !threw)
      ensures searchSuggested == old(searchSuggested)
    {
      if !hasToken {
        return None;
      }
      saved := Some(RemainingRules(rules, field));
      if hasMessages {
        listingsLoading := true;
        scored, total := 0, Num(0);
        ghost var start := ViewOf();
        for k := 0 to |received|
          invariant ViewOf() == ApplyAll(start, received[..k])
          invariant searchSuggested == old(searchSuggested)
        {
          assert received[..k + 1][..k] == received[..k];
          HandleStreamUpdate(received[k]);
        }
        assert received[..|received|] == received;
        if threw {
          listingsLoading := false;
        }
      }
    }
  }
}
