/** The rules hook of the chat page (frontend/src/hooks/useRules.ts): the
    list operations `addRule`, `removeRule`, `updateRule` and `clearRules`
    build a new list and hand it to `saveRules`, which stores it and adopts
    it only when the store reports no error; `loadRules` reads the stored
    list back with fallbacks to the empty list. The store is outside the
    model: whether an upsert fails and what a read returns are parameters. */
module UseRules {
  import opened Wrappers
  import opened Json

  type Rule = Json

  // ---------------------------------------------------------------------
  // The new lists
  // ---------------------------------------------------------------------

  /** `[...rules, rule]`. */
  function Appended(rules: seq<Rule>, rule: Rule): (r: seq<Rule>)
    ensures |r| == |rules| + 1 && r[..|rules|] == rules && r[|rules|] == rule
  {
    rules + [rule]
  }

  /** `rules.filter((_, i) => i !== index)`, element by element. */
  function WithoutIndex(rules: seq<Rule>, index: int): seq<Rule> {
    if rules == [] then []
    else
      var last := |rules| - 1;
      WithoutIndex(rules[..last], index) + (if last != index then [rules[last]] else [])
  }

  /** The filter drops exactly the element at `index` and keeps the others
      in order; an index outside the list drops nothing. */
  lemma {:induction false} WithoutIndexIsSplice(rules: seq<Rule>, index: int)
    ensures 0 <= index < |rules| ==> WithoutIndex(rules, index) == rules[..index] + rules[index + 1..]
    ensures !(0 <= index < |rules|) ==> WithoutIndex(rules, index) == rules
  {
    if rules != [] {
      var last := |rules| - 1;
      var init := rules[..last];
      WithoutIndexIsSplice(init, index);
      if 0 <= index < last {
        assert init[..index] == rules[..index];
        assert init[index + 1..] + [rules[last]] == rules[index + 1..];
      } else if index == last {
        assert rules[index + 1..] == [];
      } else {
        assert init + [rules[last]] == rules;
      }
    }
  }

  /** Removing the element just appended gives the old list back. */
  lemma AddThenRemoveRestores(rules: seq<Rule>, rule: Rule)
    ensures WithoutIndex(Appended(rules, rule), |rules|) == rules
  {
    WithoutIndexIsSplice(Appended(rules, rule), |rules|);
  }

  /** `rules.map((rule, i) => i === index ? updatedRule : rule)`. */
  function Replaced(rules: seq<Rule>, index: int, updated: Rule): (r: seq<Rule>)
    ensures |r| == |rules|
    ensures forall k :: 0 <= k < |rules| && k != index ==> r[k] == rules[k]
    ensures 0 <= index < |rules| ==> r[index] == updated
  {
    seq(|rules|, k requires 0 <= k < |rules| => if k == index then updated else rules[k])
  }

  /** An index outside the list changes nothing, and replacing twice at the
      same index is the same as replacing once with the second rule. */
  lemma ReplacedOutOfRange(rules: seq<Rule>, index: int, updated: Rule, again: Rule)
    ensures !(0 <= index < |rules|) ==> Replaced(rules, index, updated) == rules
    ensures Replaced(Replaced(rules, index, updated), index, again) == Replaced(rules, index, again)
  {
  }

  // ---------------------------------------------------------------------
  // The hook's state
  // ---------------------------------------------------------------------

  /** What the read of the stored row returns: an error, no row, or a row
      whose "rules" column is null or a list. */
  datatype Stored = ReadError | NoRow | Row(rules: Option<seq<Rule>>)

  /** `(data.rules as Rule[]) || []` after the error and no-row checks
      (an empty array is truthy, so only null falls back). */
  function LoadedRules(stored: Stored): (r: seq<Rule>)
    ensures stored.Row? && stored.rules.Some? ==> r == stored.rules.value
    ensures !(stored.Row? && stored.rules.Some?) ==> r == []
  {
    match stored
    case Row(Some(rules)) => rules
    case _ => []
  }

  class RulesStore {
    var rules: seq<Rule>
    var loading: bool

    constructor ()
      ensures rules == [] && !loading
    {
      rules := [];
      loading := false;
    }

    /** `loadRules`: nothing without a user and a conversation; otherwise
        the rules become what was stored, or the empty list on an error, on
        no row and on a null column, and loading ends. */
    method LoadRules(hasUser: bool, hasConversation: bool, stored: Stored)
      modifies this
      ensures !(hasUser && hasConversation) ==> rules == old(rules) && loading == old(loading)
      ensures hasUser && hasConversation ==> rules == LoadedRules(stored) && !loading
    {
      if !hasUser || !hasConversation {
        return;
      }
      loading := true;
      if stored.ReadError? {
        rules := [];
      } else if stored.Row? {
        rules := if stored.rules.Some? then stored.rules.value else [];
      } else {
        rules := [];
      }
      loading := false;
    }

    /** The effect run when the user or the conversation changes. */
    method ConversationChanged(hasUser: bool, hasConversation: bool, stored: Stored)
      modifies this
      ensures hasUser && hasConversation ==> rules == LoadedRules(stored) && !loading
      ensures !(hasUser && hasConversation) ==> rules == [] && loading == old(loading)
    {
      if hasUser && hasConversation {
        LoadRules(hasUser, hasConversation, stored);
      } else {
        rules := [];
      }
    }

    /** `saveRules(newRules)`: without a user and a conversation it reports
        an error and changes nothing; otherwise it reports the upsert's
        outcome and adopts the new list exactly when there was no error. */
    method SaveRules(hasUser: bool, hasConversation: bool, newRules: seq<Rule>, upsertFails: bool)
      returns (failed: bool)
      modifies this
      ensures failed == (!(hasUser && hasConversation) || upsertFails)
      ensures rules == if failed then old(rules) else newRules
      ensures loading == old(loading)
    {
      if !hasUser || !hasConversation {
        return true;
      }
      failed := upsertFails;
      if !failed {
        rules := newRules;
      }
    }

    /** `addRule(rule)`. */
    method AddRule(hasUser: bool, hasConversation: bool, rule: Rule, upsertFails: bool)
      returns (failed: bool)
      modifies this
      ensures failed == (!(hasUser && hasConversation) || upsertFails)
      ensures rules == if failed then old(rules) else Appended(old(rules), rule)
      ensures loading == old(loading)
    {
      failed := SaveRules(hasUser, hasConversation, Appended(rules, rule), upsertFails);
    }

    /** `removeRule(index)`. */
    method RemoveRule(hasUser: bool, hasConversation: bool, index: int, upsertFails: bool)
      returns (failed: bool)
      modifies this
      ensures failed == (!(hasUser && hasConversation) || upsertFails)
      ensures rules == if failed then old(rules) else WithoutIndex(old(rules), index)
      ensures loading == old(loading)
    {
      failed := SaveRules(hasUser, hasConversation, WithoutIndex(rules, index), upsertFails);
    }

    /** `updateRule(index, updatedRule)`. */
    method UpdateRule(hasUser: bool, hasConversation: bool, index: int, updated: Rule, upsertFails: bool)
      returns (failed: bool)
      modifies this
      ensures failed == (!(hasUser && hasConversation) || upsertFails)
      ensures rules == if failed then old(rules) else Replaced(old(rules), index, updated)
      ensures loading == old(loading)
    {
      failed := SaveRules(hasUser, hasConversation, Replaced(rules, index, updated), upsertFails);
    }

    /** `clearRules()`. */
    method ClearRules(hasUser: bool, hasConversation: bool, upsertFails: bool)
      returns (failed: bool)
      modifies this
      ensures failed == (!(hasUser && hasConversation) || upsertFails)
      ensures rules == if failed then old(rules) else []
      ensures loading == old(loading)
    {
      failed := SaveRules(hasUser, hasConversation, [], upsertFails);
    }
  }
}
