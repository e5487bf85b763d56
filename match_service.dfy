/** The event stream of the service's match pipeline (`stream_matches` in
    backend/app/services/match_service.py). After the candidates are
    filtered, every candidate is scored concurrently and the stream carries
    one `init` event, one `score` event per unit that succeeded, in the order
    the units complete, and one `done` event. Each event goes on the wire as
    a server-sent-event frame `data: <json>` followed by a blank line.

    The concurrency is abstracted: `order` is the order in which the units
    complete (each exactly once), and `outcomes[i]` is what the scoring call
    for candidate `i` returned, `None` when it raised. */
module MatchService {
  import opened Wrappers
  import opened Json
  import opened JsonDump
  import opened Seqs

  type Listing = Fields

  /** The result of one successful scoring unit. */
  datatype Match = Match(index: nat, listing: Listing, score: Json, reasoning: Json)

  datatype Event =
    | Init(total: nat, ideal: Fields, summary: string)
    | Score(m: Match)
    | Done

  function MatchJson(m: Match): Json {
    Obj([("index", Num(m.index)), ("listing", Obj(m.listing)), ("score", m.score), ("reasoning", m.reasoning)])
  }

  /** The dictionary `stream_matches` passes to `json.dumps` for an event. */
  function EventJson(e: Event): Json {
    match e
    case Init(total, ideal, summary) =>
      Obj([("type", Str("init")), ("total", Num(total)), ("idealListing", Obj(ideal)), ("summary", Str(summary))])
    case Score(m) => Obj([("type", Str("score")), ("match", MatchJson(m))])
    case Done => Obj([("type", Str("done"))])
  }

  /** The text yielded for one event. */
  function Frame(e: Event): string {
    "data: " + Dumps(EventJson(e)) + "\n\n"
  }

  /** The payload of a frame is one line: the blank line at its end is the
      only place a line break occurs. */
  lemma FramePayloadIsOneLine(e: Event)
    ensures Frame(e)[..6] == "data: "
    ensures Frame(e)[|Frame(e)| - 2..] == "\n\n"
    ensures forall i :: 0 <= i < |Frame(e)| - 2 ==> Frame(e)[i] != '\n'
  {
    DumpsHasNoLineBreak(EventJson(e));
    FrameText(Dumps(EventJson(e)));
  }

  lemma FrameText(p: string)
    requires '\n' !in p
    ensures var f := "data: " + p + "\n\n";
            f[..6] == "data: " && f[|f| - 2..] == "\n\n"
            && forall i :: 0 <= i < |f| - 2 ==> f[i] != '\n'
  {
    var f := "data: " + p + "\n\n";
    forall i | 0 <= i < |f| - 2 ensures f[i] != '\n' {
      if i >= 6 {
        assert f[i] == p[i - 6];
      }
    }
  }

  /** `score_one(listing, index)`: reading `listing["summary"]` raises when
      the key is missing, the scoring call may raise, and indexing its result
      by "overall_score" raises unless it is a dict with that key. Any of
      these makes the unit return `None`. */
  function ScoreOne(listing: Listing, index: nat, outcome: Option<Json>): Option<Match> {
    if !HasKey(listing, "summary") then None
    else match outcome
      case None => None
      case Some(s) =>
        if s.Obj? && HasKey(s.fields, "overall_score")
        then Some(Match(index, listing, Get(s.fields, "overall_score"), s))
        else None
  }

  /** Whether the unit for candidate `i` yields a result. */
  function Succeeds(toScore: seq<Listing>, outcomes: seq<Option<Json>>): nat -> bool {
    (i: nat) => i < |toScore| && i < |outcomes| && ScoreOne(toScore[i], i, outcomes[i]).Some?
  }

  /** The candidates whose unit succeeds. */
  ghost function Successful(toScore: seq<Listing>, outcomes: seq<Option<Json>>): set<nat> {
    set i: nat | i < |toScore| && Succeeds(toScore, outcomes)(i)
  }

  /** The results of the units in completion order, failures left out. */
  function Completed(toScore: seq<Listing>, outcomes: seq<Option<Json>>, order: seq<nat>): seq<Match>
    requires |outcomes| == |toScore|
    requires forall k :: 0 <= k < |order| ==> order[k] < |toScore|
  {
    if order == [] then []
    else
      var i := order[|order| - 1];
      Completed(toScore, outcomes, order[..|order| - 1]) + UnitResult(toScore[i], i, outcomes[i])
  }

  /** What one completed unit contributes: its match, or nothing. */
  function UnitResult(listing: Listing, index: nat, outcome: Option<Json>): seq<Match> {
    match ScoreOne(listing, index, outcome)
    case Some(m) => [m]
    case None => []
  }

  lemma UnitIndex(listing: Listing, index: nat, outcome: Option<Json>)
    ensures Indices(UnitResult(listing, index, outcome)) == if ScoreOne(listing, index, outcome).Some? then [index] else []
  {
  }

  function Scores(ms: seq<Match>): (r: seq<Event>)
    ensures |r| == |ms| && forall k :: 0 <= k < |ms| ==> r[k] == Score(ms[k])
  {
    seq(|ms|, k requires 0 <= k < |ms| => Score(ms[k]))
  }

  function Indices(ms: seq<Match>): (r: seq<nat>)
    ensures |r| == |ms| && forall k :: 0 <= k < |ms| ==> r[k] == ms[k].index
  {
    seq(|ms|, k requires 0 <= k < |ms| => ms[k].index)
  }

  /** `stream_matches` from the filtered candidates on: the frames it yields
      and the events they carry. Exactly one `init` first, announcing the
      number of candidates; then only `score` events, one per completed
      successful unit in completion order; exactly one `done` last. */
  method StreamMatches(toScore: seq<Listing>, ideal: Fields, summary: string,
                       order: seq<nat>, outcomes: seq<Option<Json>>)
    returns (events: seq<Event>, frames: seq<string>)
    requires |outcomes| == |toScore|
    requires IsIndexPermutation(order, |toScore|)
    ensures events == [Init(|toScore|, ideal, summary)] + Scores(Completed(toScore, outcomes, order)) + [Done]
    ensures |events| >= 2 && events[0] == Init(|toScore|, ideal, summary) && events[|events| - 1] == Done
    ensures forall k :: 0 < k < |events| - 1 ==> events[k].Score?
    ensures frames == Frames(events)
  {
    var init := Init(|toScore|, ideal, summary);
    events, frames := YieldScores(toScore, order, outcomes, [init], [Frame(init)]);
    FramesSnoc(events, Done);
    events := events + [Done];
    frames := frames + [Frame(Done)];
  }

  /** The loop over the units as they complete: a score event, and its
      frame, for each one that succeeded. */
  method YieldScores(toScore: seq<Listing>, order: seq<nat>, outcomes: seq<Option<Json>>,
                     before: seq<Event>, beforeFrames: seq<string>)
    returns (events: seq<Event>, frames: seq<string>)
    requires |outcomes| == |toScore|
    requires forall k :: 0 <= k < |order| ==> order[k] < |toScore|
    requires beforeFrames == Frames(before)
    ensures events == before + Scores(Completed(toScore, outcomes, order))
    ensures frames == Frames(events)
  {
    events, frames := before, beforeFrames;
    for j := 0 to |order|
      invariant events == before + Scores(Completed(toScore, outcomes, order[..j]))
      invariant frames == Frames(events)
    {
      var i := order[j];
      var result := ScoreOne(toScore[i], i, outcomes[i]);
      if result.Some? {
        var e := Score(result.value);
        YieldScored(toScore, outcomes, order, j, before, events);
        FramesSnoc(events, e);
        events := events + [e];
        frames := frames + [Frame(e)];
      } else {
        YieldSkipped(toScore, outcomes, order, j, before, events);
      }
    }
    assert order[..|order|] == order;
  }

  /** The text of a sequence of events, frame by frame. */
  function Frames(events: seq<Event>): (r: seq<string>)
    ensures |r| == |events|
  {
    seq(|events|, k requires 0 <= k < |events| => Frame(events[k]))
  }

  lemma FramesCons(events: seq<Event>)
    requires events != []
    ensures Frames(events) == [Frame(events[0])] + Frames(events[1..])
  {
    var all, rest := Frames(events), Frames(events[1..]);
    var consed := [Frame(events[0])] + rest;
    forall i | 0 <= i < |all|
      ensures all[i] == consed[i]
    {
      if i > 0 {
        FramesTailAt(events, i);
      }
    }
    assert all == consed;
  }

  lemma FramesTailAt(events: seq<Event>, i: nat)
    requires 0 < i < |events|
    ensures Frames(events)[i] == Frames(events[1..])[i - 1]
  {
    assert events[1..][i - 1] == events[i];
  }

  lemma FramesSnoc(events: seq<Event>, e: Event)
    ensures Frames(events + [e]) == Frames(events) + [Frame(e)]
  {
    var all, init := Frames(events + [e]), Frames(events);
    forall k | 0 <= k < |init|
      ensures all[k] == init[k]
    {
      assert (events + [e])[k] == events[k];
    }
  }

  lemma CompletedStep(toScore: seq<Listing>, outcomes: seq<Option<Json>>, order: seq<nat>, j: nat)
    requires |outcomes| == |toScore|
    requires forall k :: 0 <= k < |order| ==> order[k] < |toScore|
    requires j < |order|
    ensures Completed(toScore, outcomes, order[..j + 1])
            == Completed(toScore, outcomes, order[..j])
               + UnitResult(toScore[order[j]], order[j], outcomes[order[j]])
  {
    assert order[..j + 1][..j] == order[..j];
  }

  /** The `j`-th unit to complete adds one score event if it succeeded and
      none otherwise. */
  /** One turn of the loop in `YieldScores` for a unit that succeeded: its
      score event follows the events so far. */
  lemma YieldScored(toScore: seq<Listing>, outcomes: seq<Option<Json>>, order: seq<nat>, j: nat,
                    before: seq<Event>, events: seq<Event>)
    requires |outcomes| == |toScore|
    requires forall k :: 0 <= k < |order| ==> order[k] < |toScore|
    requires j < |order|
    requires ScoreOne(toScore[order[j]], order[j], outcomes[order[j]]).Some?
    requires events == before + Scores(Completed(toScore, outcomes, order[..j]))
    ensures events + [Score(ScoreOne(toScore[order[j]], order[j], outcomes[order[j]]).value)]
            == before + Scores(Completed(toScore, outcomes, order[..j + 1]))
  {
    var m := ScoreOne(toScore[order[j]], order[j], outcomes[order[j]]).value;
    var done := Completed(toScore, outcomes, order[..j]);
    CompletedStep(toScore, outcomes, order, j);
    assert Completed(toScore, outcomes, order[..j + 1]) == done + [m];
    ScoresSnoc(done, m);
    assert events + [Score(m)] == before + (Scores(done) + [Score(m)]);
  }

  /** One turn of the loop in `YieldScores` for a unit that failed: no
      event is added. */
  lemma YieldSkipped(toScore: seq<Listing>, outcomes: seq<Option<Json>>, order: seq<nat>, j: nat,
                     before: seq<Event>, events: seq<Event>)
    requires |outcomes| == |toScore|
    requires forall k :: 0 <= k < |order| ==> order[k] < |toScore|
    requires j < |order|
    requires ScoreOne(toScore[order[j]], order[j], outcomes[order[j]]).None?
    requires events == before + Scores(Completed(toScore, outcomes, order[..j]))
    ensures events == before + Scores(Completed(toScore, outcomes, order[..j + 1]))
  {
    CompletedStep(toScore, outcomes, order, j);
    assert Completed(toScore, outcomes, order[..j + 1]) == Completed(toScore, outcomes, order[..j]);
  }

  lemma ScoresSnoc(ms: seq<Match>, m: Match)
    ensures Scores(ms + [m]) == Scores(ms) + [Score(m)]
  {
  }

  // ---------------------------------------------------------------------
  // What the score events carry
  // ---------------------------------------------------------------------

  /** Each score event names a candidate index below `total`, carries that
      candidate unchanged, and reports as its score the "overall_score" of
      the scoring result it carries. */
  lemma {:induction false} CompletedAreFaithful(toScore: seq<Listing>, outcomes: seq<Option<Json>>, order: seq<nat>)
    requires |outcomes| == |toScore|
    requires forall k :: 0 <= k < |order| ==> order[k] < |toScore|
    ensures forall k :: 0 <= k < |Completed(toScore, outcomes, order)| ==>
              var m := Completed(toScore, outcomes, order)[k];
              m.index < |toScore| && m.index in order && m.listing == toScore[m.index]
              && outcomes[m.index] == Some(m.reasoning) && m.reasoning.Obj?
              && m.score == Get(m.reasoning.fields, "overall_score")
  {
    if order != [] {
      var init := order[..|order| - 1];
      CompletedAreFaithful(toScore, outcomes, init);
      assert forall x :: x in init ==> x in order;
    }
  }

  /** The indices of the score events are the successful units' indices in
      completion order. */
  lemma {:induction false} CompletedIndices(toScore: seq<Listing>, outcomes: seq<Option<Json>>, order: seq<nat>)
    requires |outcomes| == |toScore|
    requires forall k :: 0 <= k < |order| ==> order[k] < |toScore|
    ensures Indices(Completed(toScore, outcomes, order)) == Keep(order, Succeeds(toScore, outcomes))
  {
    if order != [] {
      var init, last := order[..|order| - 1], order[|order| - 1];
      var succeeds := Succeeds(toScore, outcomes);
      CompletedIndices(toScore, outcomes, init);
      CompletedIndicesStep(toScore, outcomes, order);
      UnitIndex(toScore[last], last, outcomes[last]);
      KeepDropLast(order, succeeds);
      assert succeeds(last) == ScoreOne(toScore[last], last, outcomes[last]).Some?;
    }
  }

  /** The last unit to complete adds its index exactly when it succeeds. */
  lemma CompletedIndicesStep(toScore: seq<Listing>, outcomes: seq<Option<Json>>, order: seq<nat>)
    requires |outcomes| == |toScore| && order != []
    requires forall k :: 0 <= k < |order| ==> order[k] < |toScore|
    ensures Indices(Completed(toScore, outcomes, order))
            == Indices(Completed(toScore, outcomes, order[..|order| - 1]))
               + Indices(UnitResult(toScore[order[|order| - 1]], order[|order| - 1], outcomes[order[|order| - 1]]))
  {
    var last := order[|order| - 1];
    IndicesAppend(Completed(toScore, outcomes, order[..|order| - 1]), UnitResult(toScore[last], last, outcomes[last]));
  }

  lemma IndicesAppend(a: seq<Match>, b: seq<Match>)
    ensures Indices(a + b) == Indices(a) + Indices(b)
  {
  }

  /** No candidate is reported twice. */
  lemma {:induction false} CompletedDistinct(toScore: seq<Listing>, outcomes: seq<Option<Json>>, order: seq<nat>)
    requires |outcomes| == |toScore|
    requires forall k :: 0 <= k < |order| ==> order[k] < |toScore|
    requires Distinct(order)
    ensures Distinct(Indices(Completed(toScore, outcomes, order)))
  {
    if order != [] {
      var init, last := order[..|order| - 1], order[|order| - 1];
      assert Distinct(init);
      CompletedDistinct(toScore, outcomes, init);
      CompletedAreFaithful(toScore, outcomes, init);
      assert last !in init;
    }
  }

  /** A candidate is reported iff its unit succeeds: a failing unit is left
      out and every successful one appears. */
  lemma {:induction false} CompletedCovers(toScore: seq<Listing>, outcomes: seq<Option<Json>>, order: seq<nat>, i: nat)
    requires |outcomes| == |toScore|
    requires forall k :: 0 <= k < |order| ==> order[k] < |toScore|
    requires i in order
    ensures i in Indices(Completed(toScore, outcomes, order)) <==> Succeeds(toScore, outcomes)(i)
  {
    CompletedIndices(toScore, outcomes, order);
    var k :| 0 <= k < |order| && order[k] == i;
    if i in Keep(order, Succeeds(toScore, outcomes)) {
      var j :| 0 <= j < |Keep(order, Succeeds(toScore, outcomes))| && Keep(order, Succeeds(toScore, outcomes))[j] == i;
    }
  }

  /** The number of score events equals the number of units that succeed. */
  lemma CountIsSuccesses(toScore: seq<Listing>, outcomes: seq<Option<Json>>, order: seq<nat>)
    requires |outcomes| == |toScore|
    requires IsIndexPermutation(order, |toScore|)
    ensures |Completed(toScore, outcomes, order)| == |Successful(toScore, outcomes)|
  {
    var ms := Completed(toScore, outcomes, order);
    CompletedDistinct(toScore, outcomes, order);
    forall i | 0 <= i < |toScore| ensures i in Indices(ms) <==> Succeeds(toScore, outcomes)(i) {
      CompletedCovers(toScore, outcomes, order, i);
    }
    CompletedAreFaithful(toScore, outcomes, order);
    forall x: nat ensures x in Indices(ms) <==> x in Successful(toScore, outcomes) {
      if x in Indices(ms) {
        var k :| 0 <= k < |ms| && Indices(ms)[k] == x;
        assert x < |toScore|;
      }
    }
    DistinctCard(Indices(ms), Successful(toScore, outcomes));
  }
}
