/** The deterministic part of the language-model client
    (backend/clients/openai_client.py): how a conversation is rendered for
    the summary and ideal-listing requests, how the rule-extraction request
    is built and its reply read back, and how a scoring request is put
    together (criteria text, commute section, attached images, model). The
    completions themselves are not modelled: a reply is a parameter. */
module OpenAiClient {
  import opened Wrappers
  import opened Text
  import opened Json
  import opened JsonDump
  import opened Seqs
  import Chat

  const ChatModel := "gpt-4o-mini"
  const VisionModel := "gpt-4o"

  // ---------------------------------------------------------------------
  // Conversation text
  // ---------------------------------------------------------------------

  function MessageLine(m: Chat.Message): string {
    m.role + ": " + m.content
  }

  function MessageLines(conversation: seq<Chat.Message>): (r: seq<string>)
    ensures |r| == |conversation|
    ensures forall k :: 0 <= k < |r| ==> r[k] == MessageLine(conversation[k])
  {
    seq(|conversation|, k requires 0 <= k < |conversation| => MessageLine(conversation[k]))
  }

  /** `conv_text`: one "role: content" line per message, in order. */
  function ConvText(conversation: seq<Chat.Message>): string {
    Join(MessageLines(conversation), "\n")
  }

  /** Each further message adds exactly one line at the end. */
  lemma ConvTextSnoc(conversation: seq<Chat.Message>, m: Chat.Message)
    ensures ConvText(conversation + [m])
            == if conversation == [] then MessageLine(m) else ConvText(conversation) + "\n" + MessageLine(m)
  {
    assert MessageLines(conversation + [m]) == MessageLines(conversation) + [MessageLine(m)];
    JoinSnoc(MessageLines(conversation), MessageLine(m), "\n");
  }

  // ---------------------------------------------------------------------
  // Rule extraction
  // ---------------------------------------------------------------------

  /** `json.dumps(existing_rules) if existing_rules else "[]"`. */
  function RulesJson(existing: seq<Json>): string {
    if existing == [] then "[]" else Dumps(Arr(existing))
  }

  /** The special case is only a shortcut: the text is always the JSON of
      the existing rules. */
  lemma RulesJsonIsDumps(existing: seq<Json>)
    ensures RulesJson(existing) == Dumps(Arr(existing))
    ensures existing == [] ==> RulesJson(existing) == "[]"
  {
    if existing == [] {
      var parts: seq<string> := [];
      assert Dumps(Arr(existing)) == Bracket('[', Join(parts, ", "), ']', parts);
    }
  }

  /** The user turn of the rule-extraction request. */
  function ExtractRulesPrompt(message: string, existing: seq<Json>): string {
    "Current rules: " + RulesJson(existing) + "\n\nNew message: " + message
  }

  /** `content or "{}"`: an empty reply is read as an empty object. */
  function ReplyText(reply: string): (r: string)
    ensures r != []
    ensures reply != [] ==> r == reply
  {
    if reply == [] then "{}" else reply
  }

  /** What `extract_rules` returns for the parsed reply (`None` when
      `json.loads` fails): the "rules" member of an object that has one, a
      bare list as it is, and the existing rules otherwise. */
  function RulesFromReply(parsed: Option<Json>, existing: seq<Json>): (r: Json)
    ensures parsed.Some? && parsed.value.Obj? && HasKey(parsed.value.fields, "rules")
            ==> r == Get(parsed.value.fields, "rules")
    ensures parsed.Some? && parsed.value.Arr? ==> r == parsed.value
    ensures r != Arr(existing) ==> parsed.Some? && (parsed.value.Arr? || parsed.value.Obj?)
  {
    match parsed
    case None => Arr(existing)
    case Some(result) =>
      if result.Obj? && HasKey(result.fields, "rules") then Get(result.fields, "rules")
      else if result.Arr? then result
      else Arr(existing)
  }

  /** `extract_rules` from the model's reply on, with `parse` standing for
      `json.loads`. */
  function ExtractRules(reply: string, parse: string -> Option<Json>, existing: seq<Json>): Json {
    RulesFromReply(parse(ReplyText(reply)), existing)
  }

  /** Every reply that is neither a list nor an object with "rules" (a
      parse failure, a scalar, an object without the key, an empty reply)
      leaves the rules as they were. */
  lemma UnusableReplyKeepsRules(reply: string, parse: string -> Option<Json>, existing: seq<Json>)
    requires var p := parse(ReplyText(reply));
             p.None? || !(p.value.Arr? || (p.value.Obj? && HasKey(p.value.fields, "rules")))
    ensures ExtractRules(reply, parse, existing) == Arr(existing)
  {
  }

  /** An empty reply parses as the empty object, so the rules are kept. */
  lemma EmptyReplyKeepsRules(parse: string -> Option<Json>, existing: seq<Json>)
    requires parse("{}") == Some(Obj([]))
    ensures ExtractRules("", parse, existing) == Arr(existing)
  {
    assert !HasKey([], "rules");
  }

  // ---------------------------------------------------------------------
  // Scoring request
  // ---------------------------------------------------------------------

  /** `f"- {k}: {v}"`. */
  function CriterionLine(k: string, v: Json): string {
    "- " + k + ": " + PyStr(v)
  }

  function NotNull(): ((string, Json)) -> bool {
    (e: (string, Json)) => e.1 != Null
  }

  /** The criteria lines, entry by entry, skipping entries whose value is
      `None`. */
  function CriteriaLines(ideal: Fields): seq<string> {
    if ideal == [] then []
    else (if ideal[0].1 != Null then [CriterionLine(ideal[0].0, ideal[0].1)] else []) + CriteriaLines(ideal[1..])
  }

  /** `ideal_text`. */
  function IdealText(ideal: Fields): string {
    Join(CriteriaLines(ideal), "\n")
  }

  /** The criteria lines are exactly the entries whose value is not `None`,
      one line each, in key order. */
  lemma {:induction false} CriteriaAreNonNullEntries(ideal: Fields)
    ensures var kept := Keep(ideal, NotNull());
            |CriteriaLines(ideal)| == |kept|
            && forall k :: 0 <= k < |kept| ==> CriteriaLines(ideal)[k] == CriterionLine(kept[k].0, kept[k].1)
  {
    if ideal != [] {
      CriteriaAreNonNullEntries(ideal[1..]);
      KeepCons(ideal[0], ideal[1..], NotNull());
      assert ideal == [ideal[0]] + ideal[1..];
    }
  }

  /** With no criterion set the criteria text is empty. */
  lemma {:induction false} AllNullCriteriaIsEmpty(ideal: Fields)
    requires forall k :: 0 <= k < |ideal| ==> ideal[k].1 == Null
    ensures IdealText(ideal) == ""
  {
    if ideal != [] {
      AllNullCriteriaIsEmpty(ideal[1..]);
    }
  }

  const DefaultCommute := "not specified, assume ~40 minutes"

  /** The values spliced into the commute section of the system prompt. */
  datatype Commute = Commute(target: string, limit: string)

  /** The commute section: present iff "target_location" is truthy; a
      falsy "max_commute" is replaced by the default. */
  function CommuteSection(ideal: Fields): (c: Option<Commute>)
    ensures c.Some? <==> PyTruthy(Get(ideal, "target_location"))
    ensures c.Some? ==> c.value.target == PyStr(Get(ideal, "target_location"))
    ensures c.Some? ==> c.value.limit == if PyTruthy(Get(ideal, "max_commute"))
                                         then PyStr(Get(ideal, "max_commute")) else DefaultCommute
  {
    var target := Get(ideal, "target_location");
    var limit := Get(ideal, "max_commute");
    if PyTruthy(target)
    then Some(Commute(PyStr(target), if PyTruthy(limit) then PyStr(limit) else DefaultCommute))
    else None
  }

  const MaxImages: nat := 5

  /** An entry of the user turn's content list. */
  datatype Part = Text(text: string) | Image(url: string, detail: string)

  datatype ScoreRequest = ScoreRequest(model: string, commute: Option<Commute>, content: seq<Part>)

  /** The first text part. */
  function Heading(summary: string, ideal: Fields, listingSummary: string): string {
    "CONVERSATION SUMMARY:\n" + summary + "\n\nIDEAL LISTING CRITERIA:\n" + IdealText(ideal)
    + "\n\nLISTING TO EVALUATE:\n" + listingSummary
  }

  const ImagesHeading := "\nLISTING IMAGES:"

  /** The urls of the attached images, in order. */
  function AttachedUrls(parts: seq<Part>): seq<string> {
    if parts == [] then []
    else
      var last := parts[|parts| - 1];
      AttachedUrls(parts[..|parts| - 1]) + if last.Image? then [last.url] else []
  }

  lemma AttachedUrlsSnoc(parts: seq<Part>, p: Part)
    ensures AttachedUrls(parts + [p]) == AttachedUrls(parts) + if p.Image? then [p.url] else []
  {
    assert (parts + [p])[..|parts|] == parts;
  }

  /** `score_listing` up to the completion call. The images attached are
      the first five urls, in order, each at "low" detail, and none when
      the list is empty (`None` is passed as the empty list); the vision
      model is chosen exactly when an image is attached. */
  method BuildScoreRequest(summary: string, ideal: Fields, listingSummary: string, imageUrls: seq<string>)
    returns (request: ScoreRequest)
    ensures |request.content| >= 1 && request.content[0] == Text(Heading(summary, ideal, listingSummary))
    ensures AttachedUrls(request.content) == Take(imageUrls, MaxImages)
    ensures |AttachedUrls(request.content)| <= MaxImages
    ensures forall k :: 0 <= k < |request.content| && request.content[k].Image? ==> request.content[k].detail == "low"
    ensures request.model == VisionModel <==> AttachedUrls(request.content) != []
    ensures request.model == ChatModel <==> imageUrls == []
    ensures request.commute == CommuteSection(ideal)
  {
    var content := [Text(Heading(summary, ideal, listingSummary))];
    assert AttachedUrls(content) == [] by {
      assert content[..0] == [];
    }
    if imageUrls != [] {
      AttachedUrlsSnoc(content, Text(ImagesHeading));
      content := content + [Text(ImagesHeading)];
      var shown := Take(imageUrls, MaxImages);
      for k := 0 to |shown|
        invariant |content| == k + 2 && content[0] == Text(Heading(summary, ideal, listingSummary))
        invariant AttachedUrls(content) == shown[..k]
        invariant forall j :: 0 <= j < |content| && content[j].Image? ==> content[j].detail == "low"
      {
        AttachedUrlsSnoc(content, Image(shown[k], "low"));
        assert shown[..k + 1] == shown[..k] + [shown[k]];
        content := content + [Image(shown[k], "low")];
      }
      assert shown[..|shown|] == shown;
    }
    request := ScoreRequest(if imageUrls != [] then VisionModel else ChatModel, CommuteSection(ideal), content);
  }
}
