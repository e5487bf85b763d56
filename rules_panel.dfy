/** The filter chips of the chat page (frontend/src/components/RulesPanel.tsx):
    the label `formatRule` gives each extracted rule, and the field a chip
    hands to `onDelete`. A rule is an object with "field", "value" and an
    optional "unit"; a missing property reads as `Null`. */
module RulesPanel {
  import opened Json

  const PetsLabel := "Pets allowed"
  const BillsLabel := "Bills included"

  /** "£" when the unit is exactly the string "GBP", nothing otherwise. */
  function Currency(unit: Json): string {
    if unit == Str("GBP") then "£" else ""
  }

  /** `formatRule`: a switch on the field with `===`, so only string fields
      select a case; every other label ends with the value as a template
      literal writes it. */
  function FormatRule(rule: Fields): (text: string)
    ensures var field := Get(rule, "field");
            field != Str("pets_allowed") && field != Str("bills_included")
            ==> |JsString(Get(rule, "value"))| <= |text|
                && text[|text| - |JsString(Get(rule, "value"))|..] == JsString(Get(rule, "value"))
  {
    Label(Get(rule, "field"), JsString(Get(rule, "value")), Get(rule, "unit"))
  }

  /** The label for a rule's field, value (as text) and unit. */
  function Label(field: Json, value: string, unit: Json): string {
    if field == Str("max_budget") then "Max " + Currency(unit) + value
    else if field == Str("min_budget") then "Min " + Currency(unit) + value
    else if field == Str("location") then "Location: " + value
    else if field == Str("pets_allowed") then PetsLabel
    else if field == Str("bills_included") then BillsLabel
    else JsString(field) + ": " + value
  }

  /** A budget rule is labelled "Max " or "Min " and then the value, with
      "£" between them exactly when the unit is "GBP". */
  lemma BudgetLabel(rule: Fields)
    requires Get(rule, "field") in {Str("max_budget"), Str("min_budget")}
    ensures var prefix := if Get(rule, "field") == Str("max_budget") then "Max " else "Min ";
            FormatRule(rule) == prefix + Currency(Get(rule, "unit")) + JsString(Get(rule, "value"))
    ensures |FormatRule(rule)| == 4 + |JsString(Get(rule, "value"))| + (if Get(rule, "unit") == Str("GBP") then 1 else 0)
  {
  }

  /** The unit matters only to budget rules. */
  lemma UnitOnlyForBudgets(rule: Fields, unit: Json)
    requires Get(rule, "field") != Str("max_budget") && Get(rule, "field") != Str("min_budget")
    ensures FormatRule(Set(rule, "unit", unit)) == FormatRule(rule)
  {
    var changed := Set(rule, "unit", unit);
    var field, value := Get(rule, "field"), JsString(Get(rule, "value"));
    UnitLeavesFieldAndValue(rule, unit);
    assert FormatRule(changed) == Label(field, value, Get(changed, "unit"));
    LabelIgnoresUnit(field, value, Get(changed, "unit"), Get(rule, "unit"));
  }

  lemma LabelIgnoresUnit(field: Json, value: string, unit: Json, unit': Json)
    requires field != Str("max_budget") && field != Str("min_budget")
    ensures Label(field, value, unit) == Label(field, value, unit')
  {
  }

  lemma UnitLeavesFieldAndValue(rule: Fields, unit: Json)
    ensures Get(Set(rule, "unit", unit), "field") == Get(rule, "field")
    ensures Get(Set(rule, "unit", unit), "value") == Get(rule, "value")
  {
    var u, f, v := "unit", "field", "value";
    assert u[0] != f[0] && u[0] != v[0];
  }

  /** The two flag rules have fixed labels whatever their value and unit. */
  lemma FlagLabelsAreFixed(rule: Fields, value: Json)
    requires Get(rule, "field") == Str("pets_allowed") || Get(rule, "field") == Str("bills_included")
    ensures FormatRule(Set(rule, "value", value)) == FormatRule(rule)
    ensures FormatRule(rule) == if Get(rule, "field") == Str("pets_allowed") then PetsLabel else BillsLabel
  {
    var changed := Set(rule, "value", value);
    assert "value" != "field";
    var field := Get(rule, "field");
    assert Get(changed, "field") == field;
    var fixed := if field == Str("pets_allowed") then PetsLabel else BillsLabel;
    assert FormatRule(rule) == fixed;
    assert FormatRule(changed) == fixed;
  }

  /** A location rule reads "Location: " and the value. */
  lemma LocationLabel(rule: Fields)
    requires Get(rule, "field") == Str("location")
    ensures FormatRule(rule) == "Location: " + JsString(Get(rule, "value"))
  {
  }

  /** Any other field is shown by name: the label is the field, then ": ",
      then the value. */
  lemma OtherFieldsNamed(rule: Fields)
    requires Get(rule, "field") !in {Str("max_budget"), Str("min_budget"), Str("location"),
                                     Str("pets_allowed"), Str("bills_included")}
    ensures FormatRule(rule) == JsString(Get(rule, "field")) + ": " + JsString(Get(rule, "value"))
  {
  }

  /** One chip per rule: its label, and the value `onDelete` receives. */
  datatype Chip = Chip(caption: string, deletes: Json)

  /** `rules.map(rule => <Chip label={formatRule(rule)} onDelete={() =>
      onDelete(rule.field)} />)`. */
  function Chips(rules: seq<Fields>): (chips: seq<Chip>)
    ensures |chips| == |rules|
    ensures forall k :: 0 <= k < |rules| ==> chips[k].caption == FormatRule(rules[k])
    ensures forall k :: 0 <= k < |rules| ==> chips[k].deletes == Get(rules[k], "field")
  {
    seq(|rules|, k requires 0 <= k < |rules| => Chip(FormatRule(rules[k]), Get(rules[k], "field")))
  }

  /** Deleting the chip of a string field asks for exactly that field to be
      removed, so no chip of another field goes with it. */
  lemma DeleteTargetsOwnField(rules: seq<Fields>, k: nat, j: nat)
    requires k < |rules| && j < |rules|
    requires Get(rules[j], "field") != Get(rules[k], "field")
    ensures Chips(rules)[j].deletes != Chips(rules)[k].deletes
  {
  }
}
