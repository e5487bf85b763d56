/** The hard-constraint filter of the match pipeline (`filter_by_ideal` and
    its helpers `_matches_yes` and `_matches_value`), shared by the streaming
    service and the older batch endpoint. The two copies differ only in how
    they read a listing's price: the service defaults a missing price to 0,
    the batch endpoint indexes it directly and so fails on a missing key.

    The filter is a sequence of stages, each a list comprehension over the
    survivors of the previous one. Python raises on a comparison between
    incompatible types or on `.lower()` of a non-string; such a failure is a
    `None` outcome here. */
module ListingFilter {
  import opened Wrappers
  import opened Text
  import opened Json
  import opened Seqs

  type Listing = Fields

  /** The spellings `_matches_yes` accepts, after lowering and stripping:
      membership in `["yes", "y", "true", "1"]`. */
  predicate IsYesWord(w: string) {
    w == "yes" || w == "y" || w == "true" || w == "1"
  }

  const BooleanFields: seq<string> := ["pets_ok", "couples_ok", "bills_included", "parking"]

  const StringFields: seq<string> := ["property_type", "furnishings"]

  // ---------------------------------------------------------------------
  // Helpers
  // ---------------------------------------------------------------------

  /** `_matches_yes(value)`. */
  function MatchesYes(v: Json): bool {
    PyTruthy(v) && IsYesWord(PyStrip(Lower(PyStr(v))))
  }

  lemma MatchesYesOfBool(b: bool)
    ensures MatchesYes(Bool(b)) == b
  {
    if b {
      assert Lower("True") == "true";
      StripKeepsUnpadded("true", IsPySpace);
    }
  }

  lemma MatchesYesOfNum(n: int)
    ensures MatchesYes(Num(n)) == (n == 1)
  {
    var t := IntToString(n);
    assert PyStr(Num(n)) == t;
    LowerFixesNoUpper(t);
    StripKeepsUnpadded(t, IsPySpace);
    assert PyStrip(Lower(t)) == t;
    IntToStringIsOne(n);
    assert t[0] == '-' || '0' <= t[0] <= '9';
    assert IsYesWord(t) <==> t == "1";
  }

  /** `_matches_yes` holds exactly for `True`, the integer 1, and a string
      that reads "yes", "y", "true" or "1" once lowered and stripped. */
  lemma MatchesYesIff(v: Json)
    ensures MatchesYes(v) <==>
              v == Bool(true) || v == Num(1) || (v.Str? && IsYesWord(PyStrip(Lower(v.s))))
  {
    match v
    case Null =>
    case Bool(b) => MatchesYesOfBool(b);
    case Num(n) => MatchesYesOfNum(n);
    case Str(s) =>
    case Arr(_) => NotYesWord(PyStr(v), '[', ']');
    case Obj(_) => NotYesWord(PyStr(v), '{', '}');
  }

  /** The text of a list or dict begins with a bracket, so it is never one
      of the yes-words. */
  lemma NotYesWord(t: string, open: char, close: char)
    requires |t| >= 2 && t[0] == open && t[|t| - 1] == close
    requires open in "[{" && close in "]}"
    ensures !IsYesWord(PyStrip(Lower(t)))
  {
    var l := Lower(t);
    StripKeepsUnpadded(l, IsPySpace);
    assert PyStrip(l)[0] == open;
  }

  /** `_matches_value(listing_val, ideal_val)`: `None` when Python would
      raise, which is when both are truthy and the ideal value is not a
      string (it has no `.lower()`). */
  function MatchesValue(listingVal: Json, idealVal: Json): (r: Option<bool>)
    ensures r.None? <==> PyTruthy(listingVal) && PyTruthy(idealVal) && !idealVal.Str?
    ensures !PyTruthy(listingVal) || !PyTruthy(idealVal) ==> r == Some(true)
  {
    if !PyTruthy(listingVal) || !PyTruthy(idealVal) then Some(true)
    else if !idealVal.Str? then None
    else Some(Contains(Lower(PyStr(listingVal)), Lower(idealVal.s)))
  }

  /** For a present listing value and a non-empty target string, the match is
      a case-insensitive substring test, and the case of the target does not
      matter. */
  lemma MatchesValueIsSubstring(listingVal: Json, target: string)
    requires PyTruthy(listingVal) && target != ""
    ensures MatchesValue(listingVal, Str(target)).Some?
    ensures MatchesValue(listingVal, Str(target)).value
            <==> OccursIn(Lower(PyStr(listingVal)), Lower(target))
    ensures MatchesValue(listingVal, Str(Lower(target))) == MatchesValue(listingVal, Str(target))
  {
    var hay := Lower(PyStr(listingVal));
    ContainsIff(hay, Lower(target));
    assert MatchesValue(listingVal, Str(target)) == Some(Contains(hay, Lower(target)));
    LowerIdempotent(target);
    assert Lower(target) != "" by { assert |Lower(target)| == |target|; }
    assert MatchesValue(listingVal, Str(Lower(target))) == Some(Contains(hay, Lower(Lower(target))));
  }

  lemma LowerIdempotent(s: string)
    ensures Lower(Lower(s)) == Lower(s)
  {
  }

  // ---------------------------------------------------------------------
  // Reading numbers
  // ---------------------------------------------------------------------

  /** The integer a value compares as in Python (`True` is 1, `False` 0);
      `None` for a value that cannot be compared with an integer. */
  function AsInt(v: Json): (r: Option<int>)
    ensures r.Some? <==> v.Num? || v.Bool?
  {
    match v
    case Num(n) => Some(n)
    case Bool(b) => Some(if b then 1 else 0)
    case _ => None
  }

  /** How a copy of the filter reads the price: the service writes
      `l.get("price", 0)`, the batch endpoint `l["price"]`. */
  datatype PriceAccess = DefaultZero | Strict

  function PriceValue(l: Listing, access: PriceAccess): (r: Option<Json>)
    ensures !HasKey(l, "price") ==> r == (if access == DefaultZero then Some(Num(0)) else None)
    ensures HasKey(l, "price") ==> r == Some(Get(l, "price"))
  {
    match Lookup(l, "price")
    case None => if access == DefaultZero then Some(Num(0)) else None
    case Some(v) => Some(v)
  }

  /** The price as an integer, for the rent ceiling: `0 < p` raises unless
      the price is a number. */
  function PriceOf(l: Listing, access: PriceAccess): (r: Option<int>)
    ensures !HasKey(l, "price") ==> r == (if access == DefaultZero then Some(0) else None)
    ensures HasKey(l, "price") ==> r == AsInt(Get(l, "price"))
  {
    match PriceValue(l, access)
    case None => None
    case Some(v) => AsInt(v)
  }

  /** Python's `a >= b` on the values the rent floor compares: integers and
      booleans as numbers, two strings in code-point order; every other
      pair raises a TypeError (`None`). */
  function PyGe(a: Json, b: Json): (r: Option<bool>)
    ensures r.Some? <==> (AsInt(a).Some? && AsInt(b).Some?) || (a.Str? && b.Str?)
  {
    if AsInt(a).Some? && AsInt(b).Some? then Some(AsInt(a).value >= AsInt(b).value)
    else if a.Str? && b.Str? then Some(!Less(a.s, b.s))
    else None
  }

  // ---------------------------------------------------------------------
  // Stages
  // ---------------------------------------------------------------------

  /** One comprehension of `filter_by_ideal`. */
  datatype Stage =
    | MaxRent(bound: Json)             // 0 < price <= max_rent
    | MinRent(bound: Json)             // price >= min_rent
    | RequireYes(field: string)        // _matches_yes(l.get(field))
    | Fuzzy(field: string, target: Json) // _matches_value(l.get(field), target)

  /** Whether a stage keeps a listing; `None` when evaluating it raises. The
      chained comparison `0 < p <= m` stops at `0 < p` when that is false. */
  function Test(st: Stage, l: Listing, access: PriceAccess): Option<bool> {
    match st
    case MaxRent(b) =>
      (match PriceOf(l, access)
       case None => None
       case Some(p) =>
         if !(0 < p) then Some(false)
         else match AsInt(b)
              case None => None
              case Some(m) => Some(p <= m))
    case MinRent(b) =>
      (match PriceValue(l, access)
       case None => None
       case Some(p) => PyGe(p, b))
    case RequireYes(f) => Some(MatchesYes(Get(l, f)))
    case Fuzzy(f, t) => MatchesValue(Get(l, f), t)
  }

  function YesStages(ideal: Fields, fields: seq<string>): (r: seq<Stage>)
    ensures forall st :: st in r <==> st.RequireYes? && st.field in fields && Get(ideal, st.field) == Str("Yes")
  {
    if fields == [] then []
    else (if Get(ideal, fields[0]) == Str("Yes") then [RequireYes(fields[0])] else [])
         + YesStages(ideal, fields[1..])
  }

  function FuzzyStages(ideal: Fields, fields: seq<string>): (r: seq<Stage>)
    ensures forall st :: st in r <==>
              st.Fuzzy? && st.field in fields && PyTruthy(Get(ideal, st.field)) && st.target == Get(ideal, st.field)
  {
    if fields == [] then []
    else (if PyTruthy(Get(ideal, fields[0])) then [Fuzzy(fields[0], Get(ideal, fields[0]))] else [])
         + FuzzyStages(ideal, fields[1..])
  }

  /** The stages `filter_by_ideal` runs for an ideal listing, in order: the
      rent ceiling and floor when truthy, a "Yes" requirement per boolean
      field set to exactly "Yes", a substring test per truthy string field. */
  function Stages(ideal: Fields): seq<Stage> {
    var maxRent := Get(ideal, "max_rent");
    var minRent := Get(ideal, "min_rent");
    (if PyTruthy(maxRent) then [MaxRent(maxRent)] else [])
    + (if PyTruthy(minRent) then [MinRent(minRent)] else [])
    + YesStages(ideal, BooleanFields)
    + FuzzyStages(ideal, StringFields)
  }

  /** Whether evaluating the stage's test raises on some listing. */
  predicate StageRaises(ls: seq<Listing>, st: Stage, access: PriceAccess) {
    exists k :: 0 <= k < |ls| && Test(st, ls[k], access).None?
  }

  function StagePasses(st: Stage, access: PriceAccess): Listing -> bool {
    l => Test(st, l, access) == Some(true)
  }

  /** `[l for l in ls if test(l)]` for one stage: the comprehension raises if
      the test raises on any element, and otherwise keeps the elements the
      test accepts, in order. */
  function ApplyStage(ls: seq<Listing>, st: Stage, access: PriceAccess): Option<seq<Listing>> {
    if StageRaises(ls, st, access) then None else Some(Keep(ls, StagePasses(st, access)))
  }

  /** The stages applied one after another, each to the survivors of the
      previous one. */
  function ApplyStages(ls: seq<Listing>, stages: seq<Stage>, access: PriceAccess): Option<seq<Listing>>
    decreases |stages|
  {
    if stages == [] then Some(ls)
    else
      match ApplyStage(ls, stages[0], access)
      case None => None
      case Some(kept) => ApplyStages(kept, stages[1..], access)
  }

  function Filter(ls: seq<Listing>, ideal: Fields, access: PriceAccess): Option<seq<Listing>> {
    ApplyStages(ls, Stages(ideal), access)
  }

  // ---------------------------------------------------------------------
  // Reference definition: one listing at a time
  // ---------------------------------------------------------------------

  /** The stages as one short-circuit conjunction on a single listing. */
  function Eval(l: Listing, stages: seq<Stage>, access: PriceAccess): Option<bool> {
    if stages == [] then Some(true)
    else
      match Test(stages[0], l, access)
      case None => None
      case Some(false) => Some(false)
      case Some(true) => Eval(l, stages[1..], access)
  }

  function Passes(stages: seq<Stage>, access: PriceAccess): Listing -> bool {
    l => Eval(l, stages, access) == Some(true)
  }

  ghost predicate Raises(ls: seq<Listing>, stages: seq<Stage>, access: PriceAccess) {
    exists k :: 0 <= k < |ls| && Eval(ls[k], stages, access).None?
  }

  /** The staged filter agrees with the listing-at-a-time conjunction: it
      raises exactly when evaluating some listing raises, and otherwise keeps
      exactly the listings that pass every stage, in input order. */
  lemma {:induction false} ApplyStagesIsSelection(ls: seq<Listing>, stages: seq<Stage>, access: PriceAccess)
    ensures ApplyStages(ls, stages, access)
            == if Raises(ls, stages, access) then None else Some(Keep(ls, Passes(stages, access)))
    decreases |stages|
  {
    if stages == [] {
      KeepAll(ls, Passes(stages, access));
    } else if StageRaises(ls, stages[0], access) {
      FirstStageRaises(ls, stages, access);
    } else {
      var kept := Keep(ls, StagePasses(stages[0], access));
      ApplyStagesIsSelection(kept, stages[1..], access);
      LaterStages(ls, stages, access);
    }
  }

  /** A raise in the first stage is a raise of the conjunction on that
      listing. */
  lemma FirstStageRaises(ls: seq<Listing>, stages: seq<Stage>, access: PriceAccess)
    requires stages != [] && StageRaises(ls, stages[0], access)
    ensures ApplyStages(ls, stages, access).None? && Raises(ls, stages, access)
  {
    var k :| 0 <= k < |ls| && Test(stages[0], ls[k], access).None?;
    assert Eval(ls[k], stages, access).None?;
  }

  /** When the first stage does not raise, the later stages see its
      survivors: they raise on them iff the conjunction raises on the whole
      input, and otherwise keep the same listings. */
  lemma LaterStages(ls: seq<Listing>, stages: seq<Stage>, access: PriceAccess)
    requires stages != [] && !StageRaises(ls, stages[0], access)
    ensures var kept := Keep(ls, StagePasses(stages[0], access));
            ApplyStages(ls, stages, access) == ApplyStages(kept, stages[1..], access)
            && (Raises(kept, stages[1..], access) <==> Raises(ls, stages, access))
            && Keep(kept, Passes(stages[1..], access)) == Keep(ls, Passes(stages, access))
  {
    KeptRaises(ls, stages, access);
    KeptDoesNotRaise(ls, stages, access);
    PassesSplit(stages, access);
    KeepKeep(ls, StagePasses(stages[0], access), Passes(stages[1..], access), Passes(stages, access));
  }

  lemma KeptRaises(ls: seq<Listing>, stages: seq<Stage>, access: PriceAccess)
    requires stages != []
    ensures Raises(Keep(ls, StagePasses(stages[0], access)), stages[1..], access) ==> Raises(ls, stages, access)
  {
    var kept := Keep(ls, StagePasses(stages[0], access));
    if Raises(kept, stages[1..], access) {
      var k :| 0 <= k < |kept| && Eval(kept[k], stages[1..], access).None?;
      var j :| 0 <= j < |ls| && ls[j] == kept[k];
      assert Eval(ls[j], stages, access).None?;
    }
  }

  lemma KeptDoesNotRaise(ls: seq<Listing>, stages: seq<Stage>, access: PriceAccess)
    requires stages != [] && !StageRaises(ls, stages[0], access)
    ensures !Raises(Keep(ls, StagePasses(stages[0], access)), stages[1..], access) ==> !Raises(ls, stages, access)
  {
    var kept := Keep(ls, StagePasses(stages[0], access));
    if !Raises(kept, stages[1..], access) {
      forall j | 0 <= j < |ls| ensures Eval(ls[j], stages, access).Some? {
        if Test(stages[0], ls[j], access) == Some(true) {
          var k :| 0 <= k < |kept| && kept[k] == ls[j];
        }
      }
    }
  }

  lemma PassesSplit(stages: seq<Stage>, access: PriceAccess)
    requires stages != []
    ensures forall x :: Passes(stages, access)(x) == (StagePasses(stages[0], access)(x) && Passes(stages[1..], access)(x))
  {
  }

  /** A listing passes the conjunction iff every stage keeps it. */
  lemma {:induction false} EvalAllPass(l: Listing, stages: seq<Stage>, access: PriceAccess)
    ensures Eval(l, stages, access) == Some(true) <==> AllPass(stages, l, access)
  {
    if stages != [] {
      EvalAllPass(l, stages[1..], access);
      assert forall st :: st in stages <==> st == stages[0] || st in stages[1..];
    }
  }

  /** Evaluation raises only when some stage's test raises. */
  lemma {:induction false} EvalRaises(l: Listing, stages: seq<Stage>, access: PriceAccess)
    requires Eval(l, stages, access).None?
    ensures exists st :: st in stages && Test(st, l, access).None?
  {
    if Test(stages[0], l, access).Some? {
      EvalRaises(l, stages[1..], access);
      var st :| st in stages[1..] && Test(st, l, access).None?;
      assert st in stages;
    } else {
      assert stages[0] in stages;
    }
  }

  // ---------------------------------------------------------------------
  // Properties of filter_by_ideal
  // ---------------------------------------------------------------------

  /** What a listing must satisfy to survive, stated field by field. */
  ghost predicate Admits(ideal: Fields, l: Listing, access: PriceAccess) {
    RentCeilingOk(ideal, l, access) && RentFloorOk(ideal, l, access)
    && AmenitiesOk(ideal, l) && TextFieldsOk(ideal, l)
  }

  /** With a truthy `max_rent`: 0 < price <= max_rent. */
  ghost predicate RentCeilingOk(ideal: Fields, l: Listing, access: PriceAccess) {
    var maxRent := Get(ideal, "max_rent");
    var price := PriceOf(l, access);
    PyTruthy(maxRent) ==>
      price.Some? && AsInt(maxRent).Some? && 0 < price.value <= AsInt(maxRent).value
  }

  /** With a truthy `min_rent`: price >= min_rent, as numbers or, when
      both are strings, in code-point order. */
  ghost predicate RentFloorOk(ideal: Fields, l: Listing, access: PriceAccess) {
    var minRent := Get(ideal, "min_rent");
    var price := PriceValue(l, access);
    PyTruthy(minRent) ==>
      price.Some?
      && ((AsInt(price.value).Some? && AsInt(minRent).Some? && AsInt(price.value).value >= AsInt(minRent).value)
          || (price.value.Str? && minRent.Str? && !Less(price.value.s, minRent.s)))
  }

  /** Every boolean field the ideal sets to exactly "Yes" reads as yes. */
  ghost predicate AmenitiesOk(ideal: Fields, l: Listing) {
    forall f :: f in BooleanFields && Get(ideal, f) == Str("Yes") ==> MatchesYes(Get(l, f))
  }

  /** Every truthy text field of the ideal matches as a substring. */
  ghost predicate TextFieldsOk(ideal: Fields, l: Listing) {
    forall f :: f in StringFields && PyTruthy(Get(ideal, f)) ==>
      MatchesValue(Get(l, f), Get(ideal, f)) == Some(true)
  }

  ghost predicate StagesMember(ideal: Fields, st: Stage) {
    (PyTruthy(Get(ideal, "max_rent")) && st == MaxRent(Get(ideal, "max_rent")))
    || (PyTruthy(Get(ideal, "min_rent")) && st == MinRent(Get(ideal, "min_rent")))
    || (st.RequireYes? && st.field in BooleanFields && Get(ideal, st.field) == Str("Yes"))
    || (st.Fuzzy? && st.field in StringFields && PyTruthy(Get(ideal, st.field))
        && st.target == Get(ideal, st.field))
  }

  lemma StagesMembers(ideal: Fields, st: Stage)
    ensures st in Stages(ideal) <==> StagesMember(ideal, st)
  {
  }

  ghost predicate AllPass(stages: seq<Stage>, l: Listing, access: PriceAccess) {
    forall st :: st in stages ==> Test(st, l, access) == Some(true)
  }

  lemma AdmitsFromPasses(ideal: Fields, l: Listing, access: PriceAccess)
    requires AllPass(Stages(ideal), l, access)
    ensures Admits(ideal, l, access)
  {
    var maxRent := Get(ideal, "max_rent");
    var minRent := Get(ideal, "min_rent");
    if PyTruthy(maxRent) {
      StagesMembers(ideal, MaxRent(maxRent));
      assert Test(MaxRent(maxRent), l, access) == Some(true);
    }
    if PyTruthy(minRent) {
      StagesMembers(ideal, MinRent(minRent));
      assert Test(MinRent(minRent), l, access) == Some(true);
    }
    forall f | f in BooleanFields && Get(ideal, f) == Str("Yes") ensures MatchesYes(Get(l, f)) {
      StagesMembers(ideal, RequireYes(f));
      assert Test(RequireYes(f), l, access) == Some(true);
    }
    forall f | f in StringFields && PyTruthy(Get(ideal, f))
      ensures MatchesValue(Get(l, f), Get(ideal, f)) == Some(true)
    {
      StagesMembers(ideal, Fuzzy(f, Get(ideal, f)));
      assert Test(Fuzzy(f, Get(ideal, f)), l, access) == Some(true);
    }
  }

  lemma PassesFromAdmits(ideal: Fields, l: Listing, access: PriceAccess)
    requires Admits(ideal, l, access)
    ensures AllPass(Stages(ideal), l, access)
  {
    forall st | st in Stages(ideal) ensures Test(st, l, access) == Some(true) {
      StagesMembers(ideal, st);
      PassesStage(ideal, l, access, st);
    }
  }

  lemma PassesStage(ideal: Fields, l: Listing, access: PriceAccess, st: Stage)
    requires Admits(ideal, l, access) && StagesMember(ideal, st)
    ensures Test(st, l, access) == Some(true)
  {
    match st
    case MaxRent(_) => assert RentCeilingOk(ideal, l, access);
    case MinRent(_) => assert RentFloorOk(ideal, l, access);
    case RequireYes(f) => assert AmenitiesOk(ideal, l);
    case Fuzzy(f, _) => assert TextFieldsOk(ideal, l);
  }

  /** A listing passes every stage exactly when it satisfies `Admits`. */
  lemma AdmitsIff(ideal: Fields, l: Listing, access: PriceAccess)
    ensures Passes(Stages(ideal), access)(l) <==> Admits(ideal, l, access)
  {
    EvalAllPass(l, Stages(ideal), access);
    if Admits(ideal, l, access) {
      PassesFromAdmits(ideal, l, access);
    }
    if AllPass(Stages(ideal), l, access) {
      AdmitsFromPasses(ideal, l, access);
    }
  }

  /** When the filter returns, it returns the input listings that satisfy
      `Admits`, in their input order and with their multiplicity: a
      subsequence of the input. */
  lemma FilterKeepsAdmitted(ls: seq<Listing>, ideal: Fields, access: PriceAccess)
    requires Filter(ls, ideal, access).Some?
    ensures Filter(ls, ideal, access).value == Keep(ls, Passes(Stages(ideal), access))
    ensures IsSubsequence(Filter(ls, ideal, access).value, ls)
    ensures forall k :: 0 <= k < |ls| ==>
              (ls[k] in Filter(ls, ideal, access).value <==> Admits(ideal, ls[k], access))
  {
    ApplyStagesIsSelection(ls, Stages(ideal), access);
    KeepIsSubsequence(ls, Passes(Stages(ideal), access));
    KeptExactlyAdmitted(ls, ideal, access);
  }

  /** A listing is kept by every stage exactly when it meets the criteria. */
  lemma KeptExactlyAdmitted(ls: seq<Listing>, ideal: Fields, access: PriceAccess)
    ensures forall k :: 0 <= k < |ls| ==>
              (ls[k] in Keep(ls, Passes(Stages(ideal), access)) <==> Admits(ideal, ls[k], access))
  {
    var r := Keep(ls, Passes(Stages(ideal), access));
    forall k | 0 <= k < |ls| ensures ls[k] in r <==> Admits(ideal, ls[k], access) {
      AdmitsIff(ideal, ls[k], access);
      if ls[k] in r {
        var j :| 0 <= j < |r| && r[j] == ls[k];
      }
    }
  }


  /** Filtering the result again with the same ideal changes nothing. */
  lemma FilterIdempotent(ls: seq<Listing>, ideal: Fields, access: PriceAccess)
    requires Filter(ls, ideal, access).Some?
    ensures Filter(Filter(ls, ideal, access).value, ideal, access) == Filter(ls, ideal, access)
  {
    var stages := Stages(ideal);
    var r := Filter(ls, ideal, access).value;
    ApplyStagesIsSelection(ls, stages, access);
    ApplyStagesIsSelection(r, stages, access);
    assert forall k :: 0 <= k < |r| ==> Passes(stages, access)(r[k]);
    KeepAll(r, Passes(stages, access));
  }

  /** Every stage of `ideal` also being a stage of `stricter` means the
      stricter filter keeps a subsequence of what the other keeps. */
  lemma FilterNarrows(ls: seq<Listing>, ideal: Fields, stricter: Fields, access: PriceAccess)
    requires forall st :: st in Stages(ideal) ==> st in Stages(stricter)
    requires Filter(ls, ideal, access).Some? && Filter(ls, stricter, access).Some?
    ensures IsSubsequence(Filter(ls, stricter, access).value, Filter(ls, ideal, access).value)
  {
    ApplyStagesIsSelection(ls, Stages(ideal), access);
    ApplyStagesIsSelection(ls, Stages(stricter), access);
    forall l ensures Passes(Stages(stricter), access)(l) ==> Passes(Stages(ideal), access)(l) {
      EvalAllPass(l, Stages(ideal), access);
      EvalAllPass(l, Stages(stricter), access);
    }
    KeepMonotone(ls, Passes(Stages(ideal), access), Passes(Stages(stricter), access));
  }

  /** Requiring one more amenity ("Yes" on a boolean field) adds a stage and
      removes none, so it never enlarges the result. */
  lemma RequireAmenityNarrows(ls: seq<Listing>, ideal: Fields, f: string, access: PriceAccess)
    requires f in BooleanFields
    requires Filter(ls, ideal, access).Some? && Filter(ls, Set(ideal, f, Str("Yes")), access).Some?
    ensures IsSubsequence(Filter(ls, Set(ideal, f, Str("Yes")), access).value, Filter(ls, ideal, access).value)
  {
    forall st | st in Stages(ideal) ensures st in Stages(Set(ideal, f, Str("Yes"))) {
      RequireAmenityKeepsStage(ideal, f, st);
    }
    FilterNarrows(ls, ideal, Set(ideal, f, Str("Yes")), access);
  }

  lemma RequireAmenityKeepsStage(ideal: Fields, f: string, st: Stage)
    requires f in BooleanFields && st in Stages(ideal)
    ensures st in Stages(Set(ideal, f, Str("Yes")))
  {
    StagesMembers(ideal, st);
    RequireAmenityKeepsMember(ideal, f, st);
    StagesMembers(Set(ideal, f, Str("Yes")), st);
  }

  lemma RequireAmenityKeepsMember(ideal: Fields, f: string, st: Stage)
    requires f in BooleanFields && StagesMember(ideal, st)
    ensures StagesMember(Set(ideal, f, Str("Yes")), st)
  {
    AmenityIsNoOtherCriterion(f);
    match st
    case MaxRent(_) =>
      SetOthers(ideal, f, Str("Yes"), "max_rent");
    case MinRent(_) =>
      SetOthers(ideal, f, Str("Yes"), "min_rent");
    case RequireYes(g) =>
      SetOthers(ideal, f, Str("Yes"), g);
    case Fuzzy(g, _) =>
      SetOthers(ideal, f, Str("Yes"), g);
  }

  /** An amenity flag is neither a rent bound nor a text criterion. */
  lemma AmenityIsNoOtherCriterion(f: string)
    requires f in BooleanFields
    ensures f != "max_rent" && f != "min_rent" && f !in StringFields
  {
  }



  lemma SetOthers(o: Fields, k: string, v: Json, other: string)
    ensures Get(Set(o, k, v), other) == if other == k then v else Get(o, other)
  {
  }

  // ---------------------------------------------------------------------
  // When the filter raises, and the two copies compared
  // ---------------------------------------------------------------------

  lemma {:induction false} EvalDefined(l: Listing, stages: seq<Stage>, access: PriceAccess)
    requires forall st :: st in stages ==> Test(st, l, access).Some?
    ensures Eval(l, stages, access).Some?
  {
    if stages != [] {
      assert stages[0] in stages;
      EvalDefined(l, stages[1..], access);
    }
  }

  /** The rent bounds compare as integers, every truthy text criterion is a
      string, and, when a rent bound is set, every price can be read. */
  ghost predicate WellTyped(ls: seq<Listing>, ideal: Fields, access: PriceAccess) {
    var maxRent := Get(ideal, "max_rent");
    var minRent := Get(ideal, "min_rent");
    (PyTruthy(maxRent) ==> AsInt(maxRent).Some?)
    && (PyTruthy(minRent) ==> AsInt(minRent).Some?)
    && (forall f :: f in StringFields && PyTruthy(Get(ideal, f)) ==> Get(ideal, f).Str?)
    && (PyTruthy(maxRent) || PyTruthy(minRent) ==>
          forall k :: 0 <= k < |ls| ==> PriceOf(ls[k], access).Some?)
  }

  /** On well-typed input the filter never raises. */
  lemma FilterDoesNotRaise(ls: seq<Listing>, ideal: Fields, access: PriceAccess)
    requires WellTyped(ls, ideal, access)
    ensures Filter(ls, ideal, access).Some?
  {
    var stages := Stages(ideal);
    ApplyStagesIsSelection(ls, stages, access);
    forall k | 0 <= k < |ls| ensures Eval(ls[k], stages, access).Some? {
      forall st | st in stages ensures Test(st, ls[k], access).Some? {
        StagesMembers(ideal, st);
        StageDefined(ls, ideal, access, k, st);
      }
      EvalDefined(ls[k], stages, access);
    }
  }

  lemma StageDefined(ls: seq<Listing>, ideal: Fields, access: PriceAccess, k: nat, st: Stage)
    requires WellTyped(ls, ideal, access) && k < |ls| && StagesMember(ideal, st)
    ensures Test(st, ls[k], access).Some?
  {
  }

  lemma {:induction false} EvalSameTests(l: Listing, stages: seq<Stage>)
    requires forall st :: st in stages ==> Test(st, l, Strict) == Test(st, l, DefaultZero)
    ensures Eval(l, stages, Strict) == Eval(l, stages, DefaultZero)
  {
    if stages != [] {
      assert stages[0] in stages;
      EvalSameTests(l, stages[1..]);
    }
  }

  /** When every listing has a price, the batch copy (`l["price"]`) and the
      service copy (`l.get("price", 0)`) give the same outcome. */
  lemma PricedListingsAgree(ls: seq<Listing>, ideal: Fields)
    requires forall k :: 0 <= k < |ls| ==> HasKey(ls[k], "price")
    ensures Filter(ls, ideal, Strict) == Filter(ls, ideal, DefaultZero)
  {
    var stages := Stages(ideal);
    forall k | 0 <= k < |ls| ensures Eval(ls[k], stages, Strict) == Eval(ls[k], stages, DefaultZero) {
      forall st | st in stages ensures Test(st, ls[k], Strict) == Test(st, ls[k], DefaultZero) {
        assert PriceValue(ls[k], Strict) == PriceValue(ls[k], DefaultZero);
        assert PriceOf(ls[k], Strict) == PriceOf(ls[k], DefaultZero);
      }
      EvalSameTests(ls[k], stages);
    }
    assert Raises(ls, stages, Strict) == Raises(ls, stages, DefaultZero);
    ApplyStagesIsSelection(ls, stages, Strict);
    ApplyStagesIsSelection(ls, stages, DefaultZero);
    KeepCongruent(ls, Passes(stages, Strict), Passes(stages, DefaultZero));
  }

  /** With a rent bound set, one listing without a price makes the batch copy
      raise (a KeyError), whatever the other listings hold. */
  lemma MissingPriceRaises(ls: seq<Listing>, ideal: Fields, k: nat)
    requires PyTruthy(Get(ideal, "max_rent")) || PyTruthy(Get(ideal, "min_rent"))
    requires k < |ls| && !HasKey(ls[k], "price")
    ensures Filter(ls, ideal, Strict).None?
  {
    var stages := Stages(ideal);
    assert Test(stages[0], ls[k], Strict).None?;
    assert Eval(ls[k], stages, Strict).None?;
    ApplyStagesIsSelection(ls, stages, Strict);
  }

  /** Python orders two strings without raising, so a text price meets a
      text floor exactly when it does not sort below it ("900" meets
      "1000", since '9' follows '1'). */
  lemma TextRentFloor(l: Listing, access: PriceAccess, p: string, m: string)
    requires Lookup(l, "price") == Some(Str(p))
    ensures Test(MinRent(Str(m)), l, access) == Some(!Less(p, m))
    ensures p == "900" && m == "1000" ==> Test(MinRent(Str(m)), l, access) == Some(true)
  {
    if p == "900" && m == "1000" {
      assert !Less("900", "1000") by {
        assert "900"[0] == '9' && "1000"[0] == '1';
      }
    }
  }

  /** The service copy reads a missing price as 0, so under a rent ceiling
      such a listing is dropped rather than raising. */
  lemma MissingPriceDropped(ideal: Fields, l: Listing)
    requires PyTruthy(Get(ideal, "max_rent")) && !HasKey(l, "price")
    ensures !Admits(ideal, l, DefaultZero)
  {
  }
}
