/** The listing scraper (scrape.py): how a listing page's parsed parts
    become a flat record, how the collected ids are de-duplicated, and the
    column order of the listings table. Fetching pages and walking the HTML
    tree are not modelled: a page is given as the texts the parser picks
    out of it, already stripped as `get_text(strip=True)` returns them. */
module Scrape {
  import opened Wrappers
  import opened Text
  import opened Json
  import opened JsonDump
  import opened Seqs

  // ---------------------------------------------------------------------
  // Key names
  // ---------------------------------------------------------------------

  /** No character of `s` satisfies `bad`. */
  predicate Free(s: string, bad: char -> bool) {
    forall i :: 0 <= i < |s| ==> !bad(s[i])
  }

  function IsSpace(): char -> bool {
    (c: char) => IsPySpace(c)
  }

  function IsUpper(): char -> bool {
    (c: char) => 'A' <= c <= 'Z'
  }

  function Is(c: char): char -> bool {
    (d: char) => d == c
  }

  /** Replacing `c` leaves no bad character when `c` was the only bad
      character there could be and the replacement has none. */
  lemma {:induction false} ReplaceCharFree(s: string, c: char, rep: string, bad: char -> bool)
    requires forall i :: 0 <= i < |s| ==> !bad(s[i]) || s[i] == c
    requires Free(rep, bad)
    ensures Free(ReplaceChar(s, c, rep), bad)
  {
    if s != [] {
      ReplaceCharFree(s[1..], c, rep, bad);
      var head := if s[0] == c then rep else [s[0]];
      assert ReplaceChar(s, c, rep) == head + ReplaceChar(s[1..], c, rep);
    }
  }

  /** `' '.join(key_text.split())` and then lowercasing and the four
      replacements of scrape.py, in their order. */
  function NormaliseKey(keyText: string): (key: string)
    ensures Free(key, IsSpace()) && Free(key, IsUpper())
    ensures Free(key, Is('?')) && Free(key, Is('#')) && '/' !in key
  {
    var words := Words(keyText);
    JoinOnlySpaceSeparators(words);
    var lower := Lower(Join(words, " "));
    LowerOnlySpaces(Join(words, " "));
    ReplacementsFree(lower);
    Replacements(lower)
  }

  /** Lowercasing leaves no upper-case letter and turns no character into
      whitespace. */
  lemma LowerOnlySpaces(s: string)
    requires forall i :: 0 <= i < |s| ==> !IsSpace()(s[i]) || s[i] == ' '
    ensures forall i :: 0 <= i < |Lower(s)| ==> !IsSpace()(Lower(s)[i]) || Lower(s)[i] == ' '
    ensures Free(Lower(s), IsUpper())
  {
  }

  /** The four replacements of a lowercased key: spaces and slashes become
      underscores, question marks are dropped, "#" becomes "num". */
  function Replacements(lower: string): string {
    ReplaceChar(ReplaceChar(ReplaceChar(ReplaceChar(lower, ' ', "_"), '?', ""), '#', "num"), '/', "_")
  }

  lemma ReplacementsFree(lower: string)
    requires forall i :: 0 <= i < |lower| ==> !IsSpace()(lower[i]) || lower[i] == ' '
    requires Free(lower, IsUpper())
    ensures var key := Replacements(lower);
            Free(key, IsSpace()) && Free(key, IsUpper())
            && Free(key, Is('?')) && Free(key, Is('#')) && '/' !in key
  {
    var spaced := ReplaceChar(lower, ' ', "_");
    ReplaceCharFree(lower, ' ', "_", IsSpace());
    ReplaceCharFree(lower, ' ', "_", IsUpper());
    var asked := ReplaceChar(spaced, '?', "");
    ReplaceCharFree(spaced, '?', "", IsSpace());
    ReplaceCharFree(spaced, '?', "", IsUpper());
    ReplaceCharFree(spaced, '?', "", Is('?'));
    LastReplacementsFree(asked);
  }

  lemma LastReplacementsFree(asked: string)
    requires Free(asked, IsSpace()) && Free(asked, IsUpper()) && Free(asked, Is('?'))
    ensures var key := ReplaceChar(ReplaceChar(asked, '#', "num"), '/', "_");
            Free(key, IsSpace()) && Free(key, IsUpper())
            && Free(key, Is('?')) && Free(key, Is('#')) && '/' !in key
  {
    var numbered := ReplaceChar(asked, '#', "num");
    ReplaceCharFree(asked, '#', "num", IsSpace());
    ReplaceCharFree(asked, '#', "num", IsUpper());
    ReplaceCharFree(asked, '#', "num", Is('?'));
    ReplaceCharFree(numbered, '/', "_", IsSpace());
    ReplaceCharFree(numbered, '/', "_", IsUpper());
    ReplaceCharFree(numbered, '/', "_", Is('?'));
    ReplaceCharFree(numbered, '/', "_", Is('#'));
    ReplaceCharFree(numbered, '/', "_", Is('/'));
  }

  /** Normalising a normalised key changes nothing. */
  lemma NormaliseKeyIdempotent(keyText: string)
    ensures NormaliseKey(NormaliseKey(keyText)) == NormaliseKey(keyText)
  {
    var key := NormaliseKey(keyText);
    assert NoPySpace(key) by {
      assert Free(key, IsSpace());
    }
    if key != [] {
      WordsOfUnspaced(key);
    }
    assert Join(Words(key), " ") == key;
    LowerFixesNoUpper(key);
    assert ' ' !in key by {
      assert Free(key, IsSpace());
      assert IsPySpace(' ');
    }
    assert '?' !in key && '#' !in key by {
      assert Free(key, Is('?')) && Free(key, Is('#'));
    }
    ReplaceCharAbsent(key, ' ', "_");
    ReplaceCharAbsent(key, '?', "");
    ReplaceCharAbsent(key, '#', "num");
    ReplaceCharAbsent(key, '/', "_");
  }

  // ---------------------------------------------------------------------
  // A listing page
  // ---------------------------------------------------------------------

  /** `text.split()[0] if text else text`; `None` when the text is not empty
      but has no word, where indexing raises. */
  function Postcode(text: string): Option<string> {
    if text == [] then Some(text)
    else
      var words := Words(text);
      if words == [] then None else Some(words[0])
  }

  /** For a stripped text the postcode is its first word: a non-empty
      prefix without whitespace, ending at the first whitespace; empty text
      is kept as it is. */
  lemma PostcodeIsFirstToken(text: string)
    requires text == [] || (!IsPySpace(text[0]) && !IsPySpace(text[|text| - 1]))
    ensures Postcode(text).Some?
    ensures text == [] ==> Postcode(text) == Some([])
    ensures text != [] ==>
              var p := Postcode(text).value;
              p != [] && NoPySpace(p) && p == text[..|p|] && (|p| == |text| || IsPySpace(text[|p|]))
  {
    if text != [] {
      assert Words(text) == [TakeWord(text)] + Words(text[|TakeWord(text)|..]);
    }
  }

  /** A key feature: the text of the list item and, for the station, the
      text of its distance element if there is one. */
  datatype KeyFeature = KeyFeature(text: string, distance: Option<string>)

  /** The `dt` texts and the `dd` texts of a feature list. */
  datatype FeatureList = FeatureList(keys: seq<string>, values: seq<string>)

  /** A feature section: whether it is the price section, and its feature
      list if it has one. */
  datatype Section = Section(isPrice: bool, list: Option<FeatureList>)

  /** What the parser finds on a listing page; a photo link's href is
      `None` when the attribute is missing. */
  datatype Page = Page(description: Option<string>, keyFeatures: Option<seq<KeyFeature>>,
                       sections: seq<Section>, photoHrefs: seq<Option<string>>)

  /** Every entry keeps its key and its position. */
  predicate KeepsKeys(before: Fields, after: Fields) {
    |before| <= |after| && forall i :: 0 <= i < |before| ==> after[i].0 == before[i].0
  }

  lemma KeepsKeysTrans(a: Fields, b: Fields, c: Fields)
    requires KeepsKeys(a, b) && KeepsKeys(b, c)
    ensures KeepsKeys(a, c)
  {
  }

  /** `'Tube map'` splits the station text; the part before it, stripped. */
  function StationName(text: string): string {
    PyStrip(Split(text, "Tube map")[0])
  }

  /** What the `i`-th key feature writes into the record; `None` when it
      raises. */
  function FeatureStep(listing: Fields, i: nat, f: KeyFeature): (r: Option<Fields>)
    ensures r.Some? ==> KeepsKeys(listing, r.value)
  {
    if i == 0 then Some(Set(listing, "property_type", Str(f.text)))
    else if i == 1 then Some(Set(listing, "location", Str(f.text)))
    else if i == 2 then
      match Postcode(f.text)
      case None => None
      case Some(p) => Some(Set(listing, "postcode", Str(p)))
    else if i == 3 then
      var named := Set(listing, "station", Str(StationName(f.text)));
      if f.distance.Some? then
        KeepsKeysTrans(listing, named, Set(named, "station_distance", Str(f.distance.value)));
        Some(Set(named, "station_distance", Str(f.distance.value)))
      else Some(named)
    else Some(listing)
  }

  /** The key features, in order. */
  function KeyFeatureFields(listing: Fields, fs: seq<KeyFeature>): (r: Option<Fields>)
    ensures r.Some? ==> KeepsKeys(listing, r.value)
  {
    if fs == [] then Some(listing)
    else
      match KeyFeatureFields(listing, fs[..|fs| - 1])
      case None => None
      case Some(l) =>
        var r := FeatureStep(l, |fs| - 1, fs[|fs| - 1]);
        if r.Some? then KeepsKeysTrans(listing, l, r.value); r else r
  }

  /** The first `n` key/value pairs of a feature list, under their
      normalised key names. */
  function PairFields(listing: Fields, fl: FeatureList, n: nat): (r: Fields)
    requires n <= |fl.keys| && n <= |fl.values|
    ensures KeepsKeys(listing, r)
  {
    if n == 0 then listing
    else
      var l := PairFields(listing, fl, n - 1);
      KeepsKeysTrans(listing, l, Set(l, NormaliseKey(fl.keys[n - 1]), Str(fl.values[n - 1])));
      Set(l, NormaliseKey(fl.keys[n - 1]), Str(fl.values[n - 1]))
  }

  function Pairs(fl: FeatureList): nat {
    if |fl.keys| <= |fl.values| then |fl.keys| else |fl.values|
  }

  /** The price section's first `dt` is the rent and its first `dd` the
      room type; every other section contributes its pairs. */
  function PriceFields(listing: Fields, fl: FeatureList): (r: Fields)
    ensures KeepsKeys(listing, r)
    ensures fl.keys != [] ==> Lookup(r, "rent") == Some(Str(fl.keys[0]))
    ensures fl.values != [] ==> Lookup(r, "room_type") == Some(Str(fl.values[0]))
  {
    var withRent := if fl.keys != [] then Set(listing, "rent", Str(fl.keys[0])) else listing;
    KeepsKeysTrans(listing, withRent, if fl.values != [] then Set(withRent, "room_type", Str(fl.values[0])) else withRent);
    if fl.values != [] then Set(withRent, "room_type", Str(fl.values[0])) else withRent
  }

  function SectionFields(listing: Fields, s: Section): (r: Fields)
    ensures KeepsKeys(listing, r)
  {
    match s.list
    case None => listing
    case Some(fl) => if s.isPrice then PriceFields(listing, fl) else PairFields(listing, fl, Pairs(fl))
  }

  function SectionsFields(listing: Fields, ss: seq<Section>): (r: Fields)
    ensures KeepsKeys(listing, r)
  {
    if ss == [] then listing
    else
      var l := SectionsFields(listing, ss[..|ss| - 1]);
      KeepsKeysTrans(listing, l, SectionFields(l, ss[|ss| - 1]));
      SectionFields(l, ss[|ss| - 1])
  }

  /** The non-empty hrefs, in page order. */
  function Images(hrefs: seq<Option<string>>): (images: seq<string>)
    ensures forall k :: 0 <= k < |images| ==> images[k] != []
  {
    if hrefs == [] then []
    else
      var last := hrefs[|hrefs| - 1];
      Images(hrefs[..|hrefs| - 1]) + (if last.Some? && last.value != [] then [last.value] else [])
  }

  function ImagesJson(images: seq<string>): (j: Json)
    ensures j.Arr? && |j.items| == |images|
    ensures forall k :: 0 <= k < |images| ==> j.items[k] == Str(images[k])
  {
    Arr(seq(|images|, k requires 0 <= k < |images| => Str(images[k])))
  }

  /** The record before the sections: the id, the description as "detail"
      when there is one, then the key features; `None` when a key feature
      raises. */
  function Featured(id: string, page: Page): Option<Fields> {
    var start := [("flatshare_id", Str(id))];
    var described := if page.description.Some? then Set(start, "detail", Str(page.description.value)) else start;
    if page.keyFeatures.Some? then KeyFeatureFields(described, page.keyFeatures.value) else Some(described)
  }

  /** `get_listing_details` after the page is parsed: the record, or `None`
      when it raises. */
  function Details(id: string, page: Page): Option<Fields> {
    match Featured(id, page)
    case None => None
    case Some(l) =>
      var sectioned := SectionsFields(l, page.sections);
      Some(Set(sectioned, "images", Str(Dumps(ImagesJson(Images(page.photoHrefs))))))
  }

  /** The key-feature loop: `None` when a feature raises. */
  method FillKeyFeatures(listing: Fields, features: seq<KeyFeature>) returns (r: Option<Fields>)
    ensures r == KeyFeatureFields(listing, features)
  {
    var record := listing;
    for i := 0 to |features|
      invariant KeyFeatureFields(listing, features[..i]) == Some(record)
    {
      assert features[..i + 1][..i] == features[..i];
      var step := FeatureStep(record, i, features[i]);
      if step.None? {
        KeyFeaturesStopAtError(listing, features, i + 1);
        return None;
      }
      record := step.value;
    }
    assert features[..|features|] == features;
    r := Some(record);
  }

  /** One feature section, in place. */
  method FillSection(listing: Fields, section: Section) returns (record: Fields)
    ensures record == SectionFields(listing, section)
  {
    record := listing;
    if section.list.Some? {
      var fl := section.list.value;
      if section.isPrice {
        if fl.keys != [] {
          record := Set(record, "rent", Str(fl.keys[0]));
        }
        if fl.values != [] {
          record := Set(record, "room_type", Str(fl.values[0]));
        }
      } else {
        for k := 0 to Pairs(fl)
          invariant record == PairFields(listing, fl, k)
        {
          record := Set(record, NormaliseKey(fl.keys[k]), Str(fl.values[k]));
        }
      }
    }
  }

  /** The photo loop. */
  method CollectImages(hrefs: seq<Option<string>>) returns (images: seq<string>)
    ensures images == Images(hrefs)
  {
    images := [];
    for h := 0 to |hrefs|
      invariant images == Images(hrefs[..h])
    {
      assert hrefs[..h + 1][..h] == hrefs[..h];
      if hrefs[h].Some? && hrefs[h].value != [] {
        images := images + [hrefs[h].value];
      }
    }
    assert hrefs[..|hrefs|] == hrefs;
  }

  /** `get_listing_details`: the record is filled in place, feature by
      feature, section by section, then the images are collected. */
  method ParseListing(id: string, page: Page) returns (listing: Option<Fields>)
    ensures listing == Details(id, page)
  {
    var featured := StartRecord(id, page);
    if featured.None? {
      return None;
    }
    var record := FillSections(featured.value, page.sections);
    var images := CollectImages(page.photoHrefs);
    listing := Some(Set(record, "images", Str(Dumps(ImagesJson(images)))));
  }

  /** The record is created with the id, takes the description, then is
      filled by the key-feature loop. */
  method StartRecord(id: string, page: Page) returns (featured: Option<Fields>)
    ensures featured == Featured(id, page)
  {
    var record: Fields := [("flatshare_id", Str(id))];
    if page.description.Some? {
      record := Set(record, "detail", Str(page.description.value));
    }
    featured := Some(record);
    if page.keyFeatures.Some? {
      featured := FillKeyFeatures(record, page.keyFeatures.value);
    }
  }

  /** The loop over the sections, each filling the record in turn. */
  method FillSections(listing: Fields, sections: seq<Section>) returns (record: Fields)
    ensures record == SectionsFields(listing, sections)
  {
    record := listing;
    for j := 0 to |sections|
      invariant record == SectionsFields(listing, sections[..j])
    {
      assert sections[..j + 1][..j] == sections[..j];
      record := FillSection(record, sections[j]);
    }
    assert sections[..|sections|] == sections;
  }

  /** Once a key feature raises, the whole list does. */
  lemma {:induction false} KeyFeaturesStopAtError(listing: Fields, fs: seq<KeyFeature>, n: nat)
    requires n <= |fs| && KeyFeatureFields(listing, fs[..n]) == None
    ensures KeyFeatureFields(listing, fs) == None
    decreases |fs| - n
  {
    if n < |fs| {
      assert fs[..n + 1][..n] == fs[..n];
      KeyFeaturesStopAtError(listing, fs, n + 1);
    } else {
      assert fs[..n] == fs;
    }
  }

  /** The record starts with the id column, and "images" always holds the
      JSON list of the non-empty hrefs. */
  lemma DetailsShape(id: string, page: Page)
    requires Details(id, page).Some?
    ensures var r := Details(id, page).value;
            |r| >= 2 && r[0].0 == "flatshare_id"
            && Lookup(r, "images") == Some(Str(Dumps(ImagesJson(Images(page.photoHrefs)))))
  {
    var start := [("flatshare_id", Str(id))];
    assert HasKey(start, "flatshare_id") by {
      assert start[0].0 == "flatshare_id";
    }
    assert !HasKey(start, "images") && !HasKey(start, "detail");
  }

  /** The images are the hrefs that are present and not empty, in page
      order: nothing else is added and none is dropped. */
  lemma {:induction false} ImagesAreNonEmptyHrefs(hrefs: seq<Option<string>>)
    ensures Images(hrefs) == Present(hrefs)
  {
    if hrefs != [] {
      ImagesAreNonEmptyHrefs(hrefs[..|hrefs| - 1]);
      assert hrefs == hrefs[..|hrefs| - 1] + [hrefs[|hrefs| - 1]];
      PresentAppend(hrefs[..|hrefs| - 1], [hrefs[|hrefs| - 1]]);
    }
  }

  /** The present, non-empty hrefs, read front to back. */
  function Present(hrefs: seq<Option<string>>): seq<string> {
    if hrefs == [] then []
    else (if hrefs[0].Some? && hrefs[0].value != [] then [hrefs[0].value] else []) + Present(hrefs[1..])
  }

  lemma {:induction false} PresentAppend(a: seq<Option<string>>, b: seq<Option<string>>)
    ensures Present(a + b) == Present(a) + Present(b)
  {
    if a != [] {
      assert (a + b)[1..] == a[1..] + b;
      PresentAppend(a[1..], b);
    } else {
      assert a + b == b;
    }
  }

  /** The price section writes only "rent" and "room_type": its entries do
      not go through the generic key/value extraction. */
  lemma PriceSectionWritesTwoKeys(listing: Fields, fl: FeatureList, k: string)
    requires k != "rent" && k != "room_type"
    ensures Lookup(SectionFields(listing, Section(true, Some(fl))), k) == Lookup(listing, k)
  {
  }

  lemma SetElsewhere(l: Fields, listing: Fields, key: string, v: Json, k: string)
    requires key != k && Lookup(l, k) == Lookup(listing, k)
    ensures Lookup(Set(l, key, v), k) == Lookup(listing, k)
  {
  }

  lemma PairFieldsLookupStep(listing: Fields, fl: FeatureList, n: nat, k: string)
    requires 0 < n <= |fl.keys| && n <= |fl.values| && NormaliseKey(fl.keys[n - 1]) != k
    ensures Lookup(PairFields(listing, fl, n), k) == Lookup(PairFields(listing, fl, n - 1), k)
  {
  }

  /** A generic section writes only the normalised names of its first
      `Pairs` keys: every other entry reads as before. */
  lemma PairFieldsWriteNormalisedKeys(listing: Fields, fl: FeatureList, k: string)
    requires forall j :: 0 <= j < Pairs(fl) ==> NormaliseKey(fl.keys[j]) != k
    ensures Lookup(SectionFields(listing, Section(false, Some(fl))), k) == Lookup(listing, k)
  {
    NoneNamedFromAll(fl, 0, Pairs(fl), k);
    PairFieldsKeepFrom(listing, fl, 0, Pairs(fl), k);
  }

  /** None of the keys of `fl` at indices `from` up to `n` normalises to `k`. */
  predicate NoneNamedFrom(fl: FeatureList, from: nat, n: nat, k: string)
    requires n <= |fl.keys|
  {
    n <= from || (NormaliseKey(fl.keys[n - 1]) != k && NoneNamedFrom(fl, from, n - 1, k))
  }

  lemma {:induction false} NoneNamedFromAll(fl: FeatureList, from: nat, n: nat, k: string)
    requires n <= |fl.keys|
    requires forall i :: from <= i < n ==> NormaliseKey(fl.keys[i]) != k
    ensures NoneNamedFrom(fl, from, n, k)
  {
    if n > from {
      NoneNamedFromAll(fl, from, n - 1, k);
    }
  }

  /** What the first `from` pairs left under `k` is still there after the
      first `n`, when none of the pairs in between is named `k`. */
  lemma {:induction false} PairFieldsKeepFrom(listing: Fields, fl: FeatureList, from: nat, n: nat, k: string)
    requires from <= n <= |fl.keys| && n <= |fl.values| && NoneNamedFrom(fl, from, n, k)
    ensures Lookup(PairFields(listing, fl, n), k) == Lookup(PairFields(listing, fl, from), k)
  {
    if n != from {
      PairFieldsKeepFrom(listing, fl, from, n - 1, k);
      PairFieldsLookupStep(listing, fl, n, k);
    }
  }

  lemma PairFieldsWriteLast(listing: Fields, fl: FeatureList, from: nat, k: string)
    requires 0 < from <= |fl.keys| && from <= |fl.values| && NormaliseKey(fl.keys[from - 1]) == k
    ensures Lookup(PairFields(listing, fl, from), k) == Some(Str(fl.values[from - 1]))
  {
  }

  /** A generic section stores each zipped value under its key's normalised
      name; of several keys with the same name, the last one wins. */
  lemma GenericSectionWritesPairs(listing: Fields, fl: FeatureList, j: nat)
    requires j < Pairs(fl)
    requires forall i :: j < i < Pairs(fl) ==> NormaliseKey(fl.keys[i]) != NormaliseKey(fl.keys[j])
    ensures Lookup(SectionFields(listing, Section(false, Some(fl))), NormaliseKey(fl.keys[j])) == Some(Str(fl.values[j]))
  {
    var k, from := NormaliseKey(fl.keys[j]), j + 1;
    assert fl.keys[from - 1] == fl.keys[j] && fl.values[from - 1] == fl.values[j];
    NoneNamedFromAll(fl, from, Pairs(fl), k);
    PairFieldsWriteValue(listing, fl, Pairs(fl), from, k);
  }

  /** The value of pair `from - 1` is what the first `n` pairs leave under
      its name `k`, when no later pair among them is named `k`. */
  lemma PairFieldsWriteValue(listing: Fields, fl: FeatureList, n: nat, from: nat, k: string)
    requires 0 < from <= n <= |fl.keys| && n <= |fl.values|
    requires NormaliseKey(fl.keys[from - 1]) == k && NoneNamedFrom(fl, from, n, k)
    ensures Lookup(PairFields(listing, fl, n), k) == Some(Str(fl.values[from - 1]))
  {
    PairFieldsWriteLast(listing, fl, from, k);
    PairFieldsKeepFrom(listing, fl, from, n, k);
  }

  // ---------------------------------------------------------------------
  // De-duplicating the ids
  // ---------------------------------------------------------------------

  /** Each id at its first occurrence, in order of first occurrence. */
  function FirstOccurrences(ids: seq<string>): seq<string> {
    if ids == [] then []
    else
      var init := ids[..|ids| - 1];
      FirstOccurrences(init) + if ids[|ids| - 1] in init then [] else [ids[|ids| - 1]]
  }

  /** The loop of `main` with its `seen` set. */
  method Dedup(ids: seq<string>) returns (unique: seq<string>)
    ensures unique == FirstOccurrences(ids)
  {
    var seen: set<string> := {};
    unique := [];
    for k := 0 to |ids|
      invariant unique == FirstOccurrences(ids[..k])
      invariant forall x :: x in seen <==> x in ids[..k]
    {
      assert ids[..k + 1][..k] == ids[..k];
      if ids[k] !in seen {
        seen := seen + {ids[k]};
        unique := unique + [ids[k]];
      }
      assert forall x :: x in ids[..k + 1] <==> x in ids[..k] || x == ids[k];
    }
    assert ids[..|ids|] == ids;
  }

  /** The index of the first occurrence of `x`. */
  function FirstIndex(s: seq<string>, x: string): (i: nat)
    requires x in s
    ensures i < |s| && s[i] == x && x !in s[..i]
  {
    if s[0] == x then 0
    else
      var i := 1 + FirstIndex(s[1..], x);
      assert s[..i] == [s[0]] + s[1..][..i - 1];
      i
  }

  lemma FirstIndexOfPrefix(s: seq<string>, t: seq<string>, x: string)
    requires x in s
    ensures FirstIndex(s + t, x) == FirstIndex(s, x)
  {
    var i := FirstIndex(s, x);
    var j := FirstIndex(s + t, x);
    assert (s + t)[..i] == s[..i];
    assert (s + t)[i] == x;
    assert forall k :: 0 <= k < i ==> (s + t)[k] in s[..i];
    assert forall k :: 0 <= k < j ==> (s + t)[k] in (s + t)[..j];
  }

  /** The unique ids hold no duplicate, hold exactly the collected ids, and
      list them in the order of their first occurrence. */
  lemma {:induction false} FirstOccurrencesSpec(ids: seq<string>)
    ensures Distinct(FirstOccurrences(ids))
    ensures forall x :: x in FirstOccurrences(ids) <==> x in ids
    ensures forall a, b :: 0 <= a < b < |FirstOccurrences(ids)| ==>
              FirstIndex(ids, FirstOccurrences(ids)[a]) < FirstIndex(ids, FirstOccurrences(ids)[b])
  {
    if ids != [] {
      var init := ids[..|ids| - 1];
      var last := ids[|ids| - 1];
      FirstOccurrencesSpec(init);
      var u := FirstOccurrences(init);
      assert ids == init + [last];
      assert forall x :: x in ids <==> x in init || x == last;
      forall x | x in init ensures FirstIndex(ids, x) == FirstIndex(init, x) {
        FirstIndexOfPrefix(init, [last], x);
      }
      if last !in init {
        var r := u + [last];
        assert FirstIndex(ids, last) == |init| by {
          assert ids[|init|] == last && last !in ids[..|init|];
        }
        forall a, b | 0 <= a < b < |r| ensures r[a] != r[b] {
          if b == |u| {
            assert r[a] in init;
          }
        }
        forall a, b | 0 <= a < b < |r| ensures FirstIndex(ids, r[a]) < FirstIndex(ids, r[b]) {
          assert r[a] in init;
          if b < |u| {
            assert r[b] in init;
          }
        }
      }
    }
  }

  // ---------------------------------------------------------------------
  // Column order
  // ---------------------------------------------------------------------

  predicate Increasing(s: seq<string>) {
    forall i, j :: 0 <= i < j < |s| ==> Less(s[i], s[j])
  }

  /** Adding a key to an increasing list of keys, as a set would. */
  function InsertKey(t: seq<string>, x: string): seq<string> {
    if t == [] then [x]
    else if x == t[0] then t
    else if Less(x, t[0]) then [x] + t
    else [t[0]] + InsertKey(t[1..], x)
  }

  lemma {:induction false} InsertKeySpec(t: seq<string>, x: string)
    requires Increasing(t)
    ensures Increasing(InsertKey(t, x))
    ensures forall y :: y in InsertKey(t, x) <==> y in t || y == x
  {
    if t != [] && x != t[0] {
      if Less(x, t[0]) {
        forall j | 0 < j < |t| ensures Less(x, t[j]) {
          LessTransitive(x, t[0], t[j]);
        }
      } else {
        LessTotal(x, t[0]);
        InsertKeySpec(t[1..], x);
        var rest := InsertKey(t[1..], x);
        forall y | y in rest ensures Less(t[0], y) {
          if y != x {
            var j :| 0 <= j < |t[1..]| && t[1..][j] == y;
            assert t[j + 1] == y;
          }
        }
        assert forall y :: y in t <==> y == t[0] || y in t[1..] by {
          assert t == [t[0]] + t[1..];
        }
      }
    }
  }

  /** The keys in increasing order, each once. */
  function SortKeys(keys: seq<string>): seq<string> {
    if keys == [] then [] else InsertKey(SortKeys(keys[..|keys| - 1]), keys[|keys| - 1])
  }

  lemma {:induction false} SortKeysSpec(keys: seq<string>)
    ensures Increasing(SortKeys(keys))
    ensures forall y :: y in SortKeys(keys) <==> y in keys
  {
    if keys != [] {
      var init := keys[..|keys| - 1];
      SortKeysSpec(init);
      InsertKeySpec(SortKeys(init), keys[|keys| - 1]);
      assert keys == init + [keys[|keys| - 1]];
    }
  }

  /** The first key of an increasing list is below every other key in it. */
  lemma HeadIsLeast(a: seq<string>, y: string)
    requires Increasing(a) && y in a
    ensures y == a[0] || Less(a[0], y)
  {
    var i :| 0 <= i < |a| && a[i] == y;
  }

  lemma TailMembers(a: seq<string>, y: string)
    requires Increasing(a) && a != []
    ensures y in a[1..] <==> y in a && y != a[0]
  {
    assert a == [a[0]] + a[1..];
    if y in a[1..] {
      var i :| 0 <= i < |a[1..]| && a[1..][i] == y;
      assert Less(a[0], a[i + 1]);
      LessIrreflexive(y);
    }
  }

  /** Two increasing lists with the same keys are the same list. */
  lemma {:induction false} IncreasingUnique(a: seq<string>, b: seq<string>)
    requires Increasing(a) && Increasing(b)
    requires forall y :: y in a <==> y in b
    ensures a == b
  {
    if a != [] {
      assert a[0] in b;
    }
    if b != [] {
      assert b[0] in a;
    }
    if a != [] && b != [] {
      HeadIsLeast(b, a[0]);
      HeadIsLeast(a, b[0]);
      LessAsymmetric(a[0], b[0]);
      forall y ensures y in a[1..] <==> y in b[1..] {
        TailMembers(a, y);
        TailMembers(b, y);
      }
      IncreasingUnique(a[1..], b[1..]);
      assert a == [a[0]] + a[1..] && b == [b[0]] + b[1..];
    }
  }

  function NotId(): string -> bool {
    (k: string) => k != "flatshare_id"
  }

  /** `sorted_keys`: "flatshare_id", then every other key once, in
      increasing order. */
  function Columns(allKeys: seq<string>): (columns: seq<string>)
    ensures |columns| >= 1 && columns[0] == "flatshare_id"
    ensures Increasing(columns[1..])
    ensures forall y :: y in columns[1..] <==> y in allKeys && y != "flatshare_id"
  {
    var others := Keep(allKeys, NotId());
    SortKeysSpec(others);
    KeepMembers(allKeys, NotId());
    ["flatshare_id"] + SortKeys(others)
  }

  /** The keys are a set in the source, so the column order must not depend
      on how the set is listed: it does not. */
  lemma ColumnsIgnoreKeyOrder(a: seq<string>, b: seq<string>)
    requires forall y :: y in a <==> y in b
    ensures Columns(a) == Columns(b)
  {
    IncreasingUnique(Columns(a)[1..], Columns(b)[1..]);
    assert Columns(a) == [Columns(a)[0]] + Columns(a)[1..];
    assert Columns(b) == [Columns(b)[0]] + Columns(b)[1..];
  }

  lemma {:induction false} KeepMembers(s: seq<string>, p: string -> bool)
    ensures forall y :: y in Keep(s, p) <==> y in s && p(y)
  {
    if s != [] {
      KeepMembers(s[1..], p);
      KeepCons(s[0], s[1..], p);
      assert s == [s[0]] + s[1..];
    }
  }
}
