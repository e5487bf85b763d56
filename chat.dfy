/** The chat turn of the backend: how the text for rule extraction is
    gathered from the conversation (`extract_rules_from_conversation`) and
    how the message list for the chat model is assembled
    (`generate_response`), in the service (backend/app/services/
    chat_service.py) and in the older copy in backend/main.py. The service
    also decides whether to suggest a search and then appends a nudge for
    the model. */
module Chat {
  import opened Wrappers
  import opened Text
  import opened Json
  import opened Seqs

  /** `{"role": ..., "content": ...}`; both are strings in every message the
      endpoints accept. */
  datatype Message = Message(role: string, content: string)

  // ---------------------------------------------------------------------
  // Text for rule extraction
  // ---------------------------------------------------------------------

  function IsUser(): Message -> bool {
    (m: Message) => m.role == "user"
  }

  function Contents(ms: seq<Message>): (r: seq<string>)
    ensures |r| == |ms| && forall k :: 0 <= k < |ms| ==> r[k] == ms[k].content
  {
    seq(|ms|, k requires 0 <= k < |ms| => ms[k].content)
  }

  /** `" ".join(m["content"] for m in conversation if m["role"] == "user")`,
      the message handed to the rule extractor together with an empty list
      of existing rules. */
  function UserText(conversation: seq<Message>): string {
    Join(Contents(Keep(conversation, IsUser())), " ")
  }

  lemma ContentsAppend(a: seq<Message>, b: seq<Message>)
    ensures Contents(a + b) == Contents(a) + Contents(b)
  {
  }

  /** The endpoint extracts rules from the history plus the new message, so
      the new message ends the extracted text, after a single space when an
      earlier user message exists. */
  lemma UserTextEndsWithNewMessage(history: seq<Message>, message: string)
    ensures UserText(history + [Message("user", message)])
            == if Keep(history, IsUser()) == [] then message else UserText(history) + " " + message
  {
    var m := Message("user", message);
    var before := Keep(history, IsUser());
    NewMessageIsKept(history, message);
    ContentsAppend(before, [m]);
    assert Contents(before + [m]) == Contents(before) + [message];
    JoinSnoc(Contents(before), message, " ");
    assert Contents(before) == [] <==> before == [];
  }

  /** A new user message is the last one kept. */
  lemma NewMessageIsKept(history: seq<Message>, message: string)
    ensures Keep(history + [Message("user", message)], IsUser()) == Keep(history, IsUser()) + [Message("user", message)]
  {
    var m := Message("user", message);
    KeepAppend(history, [m], IsUser());
    KeepCons(m, [], IsUser());
    assert [m] + [] == [m];
  }


  /** Messages of other roles never reach the extractor. */
  lemma UserTextIgnoresOtherRoles(conversation: seq<Message>, m: Message)
    requires m.role != "user"
    ensures UserText(conversation + [m]) == UserText(conversation)
  {
    KeepAppend(conversation, [m], IsUser());
    KeepCons(m, [], IsUser());
    assert Keep(conversation + [m], IsUser()) == Keep(conversation, IsUser());
  }

  // ---------------------------------------------------------------------
  // Rules as text
  // ---------------------------------------------------------------------

  /** `f"{r['field']}: {r['value']}"`; `None` when indexing raises (the rule
      is not a dict, or lacks one of the keys). */
  function RuleLine(r: Json): Option<string> {
    if r.Obj? && HasKey(r.fields, "field") && HasKey(r.fields, "value")
    then Some(PyStr(Get(r.fields, "field")) + ": " + PyStr(Get(r.fields, "value")))
    else None
  }

  function RuleLines(rules: seq<Json>): (r: Option<seq<string>>)
    ensures r.Some? <==> forall k :: 0 <= k < |rules| ==> RuleLine(rules[k]).Some?
    ensures r.Some? ==> |r.value| == |rules| && forall k :: 0 <= k < |rules| ==> r.value[k] == RuleLine(rules[k]).value
  {
    if rules == [] then Some([])
    else
      var head := RuleLine(rules[0]);
      var rest := RuleLines(rules[1..]);
      if head.Some? && rest.Some? then
        assert forall k :: 1 <= k < |rules| ==> rules[k] == rules[1..][k - 1];
        Some([head.value] + rest.value)
      else
        assert head.None? || exists k :: 1 <= k < |rules| && RuleLine(rules[k]).None? by {
          if head.Some? {
            var k :| 0 <= k < |rules[1..]| && RuleLine(rules[1..][k]).None?;
            assert RuleLine(rules[k + 1]).None?;
          }
        }
        None
  }

  /** `", ".join(...) or "None yet"`. */
  function RulesText(rules: seq<Json>): Option<string> {
    match RuleLines(rules)
    case None => None
    case Some(lines) =>
      var joined := Join(lines, ", ");
      Some(if joined == "" then "None yet" else joined)
  }

  lemma JoinKeepsColon(parts: seq<string>, sep: string)
    requires |parts| >= 1 && ':' in parts[0]
    ensures ':' in Join(parts, sep)
  {
    if |parts| > 1 {
      assert Join(parts, sep) == parts[0] + (sep + Join(parts[1..], sep));
    }
  }

  /** "None yet" stands for exactly the empty rule list; otherwise the text
      is the rule lines joined with ", ". */
  lemma RulesTextNoneYet(rules: seq<Json>)
    requires RuleLines(rules).Some?
    ensures RulesText(rules) == Some("None yet") <==> rules == []
    ensures rules != [] ==> RulesText(rules) == Some(Join(RuleLines(rules).value, ", "))
  {
    if rules != [] {
      var lines := RuleLines(rules).value;
      assert ':' in lines[0] by {
        assert lines[0] == PyStr(Get(rules[0].fields, "field")) + ": " + PyStr(Get(rules[0].fields, "value"));
        assert lines[0][|PyStr(Get(rules[0].fields, "field"))|] == ':';
      }
      JoinKeepsColon(lines, ", ");
      assert ':' !in "None yet";
      assert Join(lines, ", ") != "";
    }
  }

  // ---------------------------------------------------------------------
  // Message assembly
  // ---------------------------------------------------------------------

  /** `SYSTEM_PROMPT` with its two placeholders, today's date and then the
      rules text; the prose around them is not part of the model. */
  datatype Template = Template(beforeToday: string, beforeRules: string, afterRules: string)

  function Fill(t: Template, today: string, rules: string): string {
    t.beforeToday + today + t.beforeRules + rules + t.afterRules
  }

  const HistoryWindow: nat := 10

  /** `history[-10:]`. */
  function Window(history: seq<Message>): seq<Message> {
    if |history| <= HistoryWindow then history else history[|history| - HistoryWindow..]
  }

  /** The system prompt, the last (at most) ten history messages in order,
      then the new user message (chat_service.py and main.py build it with
      the same loop). */
  method AssembleMessages(message: string, history: seq<Message>, system: string)
    returns (messages: seq<Message>)
    ensures |messages| == 2 + (if |history| < HistoryWindow then |history| else HistoryWindow)
    ensures messages[0] == Message("system", system)
    ensures messages[1..|messages| - 1] == history[|history| - (|messages| - 2)..]
    ensures messages[|messages| - 1] == Message("user", message)
  {
    messages := [Message("system", system)];
    var recent := Window(history);
    for k := 0 to |recent|
      invariant messages == [Message("system", system)] + recent[..k]
    {
      messages := messages + [Message(recent[k].role, recent[k].content)];
    }
    assert recent[..|recent|] == recent;
    messages := messages + [Message("user", message)];
    assert messages[1..|messages| - 1] == recent;
  }

  /** main.py's `generate_response`: the messages sent to the chat model,
      `None` when rendering the rules raises. */
  method GenerateResponseBatch(message: string, history: seq<Message>, rules: seq<Json>,
                               t: Template, today: string)
    returns (messages: Option<seq<Message>>)
    ensures messages.Some? <==> RulesText(rules).Some?
    ensures messages.Some? ==>
              2 <= |messages.value| <= 12
              && messages.value[0] == Message("system", Fill(t, today, RulesText(rules).value))
              && messages.value[1..|messages.value| - 1] == Window(history)
              && messages.value[|messages.value| - 1] == Message("user", message)
  {
    var rulesText := RulesText(rules);
    if rulesText.None? {
      return None;
    }
    var assembled := AssembleMessages(message, history, Fill(t, today, rulesText.value));
    messages := Some(assembled);
  }

  const BudgetField := "max_budget"
  const LocationFields: seq<string> := ["target_location", "max_commute", "location", "postcode"]

  /** `r['field']` is one of `names`. */
  predicate FieldIn(r: Json, names: seq<string>) {
    var f := Member(r, "field");
    f.Str? && f.s in names
  }

  predicate AnyFieldIn(rules: seq<Json>, names: seq<string>) {
    exists k :: 0 <= k < |rules| && FieldIn(rules[k], names)
  }

  /** The instruction appended when a search is suggested. */
  datatype Nudge = Nudge(text: string)

  /** The service's `generate_response`: the messages sent to the chat model
      and the `search_suggested` flag it returns, `None` when rendering the
      rules raises. A search is suggested when there is a budget rule and a
      location rule, or else when the history holds at least four messages
      and there is some rule; the nudge is then the last message. */
  method GenerateResponse(message: string, history: seq<Message>, rules: seq<Json>,
                          t: Template, today: string, nudge: Nudge)
    returns (messages: Option<seq<Message>>, suggested: bool)
    ensures messages.Some? <==> RulesText(rules).Some?
    ensures messages.Some? ==>
              suggested == ((AnyFieldIn(rules, [BudgetField]) && AnyFieldIn(rules, LocationFields))
                            || (|history| >= 4 && |rules| > 0))
    ensures messages.Some? ==>
              var ms := messages.value;
              var n := if |history| < HistoryWindow then |history| else HistoryWindow;
              |ms| == n + 2 + (if suggested then 1 else 0)
              && ms[0] == Message("system", Fill(t, today, RulesText(rules).value))
              && ms[1..n + 1] == history[|history| - n..]
              && ms[n + 1] == Message("user", message)
              && (suggested ==> ms[n + 2] == Message("system", nudge.text))
  {
    var rulesText := RulesText(rules);
    if rulesText.None? {
      return None, false;
    }
    var assembled := AssembleMessages(message, history, Fill(t, today, rulesText.value));
    var hasBudget := AnyFieldIn(rules, [BudgetField]);
    var hasLocation := AnyFieldIn(rules, LocationFields);
    suggested := false;
    if hasBudget && hasLocation {
      suggested := true;
    } else if |history| >= 4 && |rules| > 0 {
      suggested := true;
    }
    if suggested {
      assembled := assembled + [Message("system", nudge.text)];
    }
    messages := Some(assembled);
  }
}
