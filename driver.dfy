/** The driver of homework.py: the start-up check and the body of main's
    polling loop. One pass polls the API with the cursor, validates the
    answer, announces the newest homework, advances the cursor to the
    answer's `current_date` and sleeps; an exception anywhere skips the rest
    of the pass. The answer of the API is an input (a parsed JSON value, or
    the exception get_api_answer raised) and a sent message is recorded in an
    outbox, since send_message swallows every Telegram error. */
module Driver {
  import opened Outcomes
  import opened JsonValues
  import opened Homework

  /** How a pass ended: normally, or in one of main's two except clauses. */
  datatype Handler =
    | Completed           // the pass ran to time.sleep
    | LoggedAsPracticum   // `except PracticumException`: logged as an error
    | LoggedAsCritical    // `except Exception`: logged as critical

  function HandlerFor(failure: Failure): (h: Handler)
    ensures h == LoggedAsPracticum <==> failure.Practicum?
    ensures h != Completed
  {
    if failure.Practicum? then LoggedAsPracticum else LoggedAsCritical
  }

  /** The effect of one pass, independent of the cursor it started from:
      the messages handed to send_message, and the new cursor if the pass
      reached the assignment of `current_timestamp`. */
  datatype Pass = Pass(sent: seq<string>, advanceTo: Option<Json>, handler: Handler)

  /** The messages a validated list of homeworks gives rise to: one for the
      first homework, none for an empty list. */
  function Announcements(homeworks: seq<Json>, showNested: Json -> string): (r: Outcome<seq<string>>)
    ensures homeworks == [] ==> r == Ok([])
    ensures homeworks != [] ==> match ParseStatus(homeworks[0], showNested)
                                 case Ok(m) => r == Ok([m])
                                 case Raise(f) => r == Raise(f)
  {
    if |homeworks| > 0 then
      var message :- ParseStatus(homeworks[0], showNested);
      Ok([message])
    else Ok([])
  }

  /** One pass of the loop body of main, given what get_api_answer returned. */
  function RunPass(answer: Outcome<Json>, showNested: Json -> string): (p: Pass)
    // at most one message per pass
    ensures |p.sent| <= 1
    // the cursor advances exactly when the pass completes, and the pass sleeps only then
    ensures p.advanceTo.Some? <==> p.handler == Completed
    // a completed pass had a valid answer, and the cursor moves to its `current_date`
    ensures p.handler == Completed ==>
              && answer.Ok?
              && CheckResponse(answer.value).Ok?
              && Index(answer.value, "current_date") == Ok(p.advanceTo.value)
    // a message is the notification of the first homework of a valid answer
    ensures p.sent != [] ==>
              && answer.Ok?
              && CheckResponse(answer.value).Ok?
              && CheckResponse(answer.value).value != []
              && ParseStatus(CheckResponse(answer.value).value[0], showNested) == Ok(p.sent[0])
    // an empty list of homeworks sends nothing
    ensures answer.Ok? && CheckResponse(answer.value) == Ok([]) ==> p.sent == []
    // a failing poll, a failing validation or a failing parse_status: nothing sent, cursor kept
    ensures answer.Raise? ==> p == Pass([], None, HandlerFor(answer.failure))
    ensures answer.Ok? && CheckResponse(answer.value).Raise? ==>
              p == Pass([], None, HandlerFor(CheckResponse(answer.value).failure))
    ensures answer.Ok? && CheckResponse(answer.value).Ok? && CheckResponse(answer.value).value != [] &&
            ParseStatus(CheckResponse(answer.value).value[0], showNested).Raise? ==>
              p == Pass([], None, HandlerFor(ParseStatus(CheckResponse(answer.value).value[0], showNested).failure))
    // a valid answer whose announcement succeeds sends it; the pass completes and moves the
    // cursor to `current_date` when the answer has one, and ends in a critical KeyError otherwise
    ensures answer.Ok? && CheckResponse(answer.value).Ok? &&
            Announcements(CheckResponse(answer.value).value, showNested).Ok? ==>
              p == (var sent := Announcements(CheckResponse(answer.value).value, showNested).value;
                    if "current_date" in answer.value.members
                    then Pass(sent, Some(answer.value.members["current_date"]), Completed)
                    else Pass(sent, None, LoggedAsCritical))
  {
    match answer
    case Raise(f) => Pass([], None, HandlerFor(f))
    case Ok(response) =>
      match CheckResponse(response)
      case Raise(f) => Pass([], None, HandlerFor(f))
      case Ok(homeworks) =>
        match Announcements(homeworks, showNested)
        case Raise(f) => Pass([], None, HandlerFor(f))
        case Ok(sent) =>
          match Index(response, "current_date")
          case Raise(f) => Pass(sent, None, HandlerFor(f))
          case Ok(date) => Pass(sent, Some(date), Completed)
  }

  /** The cursor after a pass that started from `cursor`. */
  function NextCursor(cursor: Json, p: Pass): (c: Json)
    // a pass that did not reach the assignment keeps the cursor
    ensures p.advanceTo.None? ==> c == cursor
    // one that did leaves the cursor at the date it read
    ensures p.advanceTo.Some? ==> c == p.advanceTo.value
  {
    if p.advanceTo.Some? then p.advanceTo.value else cursor
  }

  /** The state main keeps between passes: `current_timestamp`, and the
      messages handed to the bot so far. */
  class Poller {
    var cursor: Json
    var outbox: seq<string>
    /** Python's str() of a list or dict homework name (see Display). */
    const showNested: Json -> string

    constructor (showNested: Json -> string)
      ensures cursor == JInt(0) && outbox == [] && this.showNested == showNested
    {
      cursor := JInt(0);
      outbox := [];
      this.showNested := showNested;
    }

    /** One pass of the loop; `answer` is what get_api_answer(cursor) gave. */
    method Iterate(answer: Outcome<Json>) returns (slept: bool, handler: Handler)
      modifies this
      ensures outbox == old(outbox) + RunPass(answer, showNested).sent
      ensures cursor == NextCursor(old(cursor), RunPass(answer, showNested))
      ensures handler == RunPass(answer, showNested).handler
      ensures slept <==> handler == Completed
    {
      slept := false;
      if answer.Raise? {
        handler := HandlerFor(answer.failure);
        return;
      }
      var response := answer.value;
      var checked := CheckResponse(response);
      if checked.Raise? {
        handler := HandlerFor(checked.failure);
        return;
      }
      var homeworks := checked.value;
      if |homeworks| > 0 {
        var message := ParseStatus(homeworks[0], showNested);
        if message.Raise? {
          handler := HandlerFor(message.failure);
          return;
        }
        outbox := outbox + [message.value];
      }
      var date := Index(response, "current_date");
      if date.Raise? {
        handler := HandlerFor(date.failure);
        return;
      }
      cursor := date.value;
      slept := true;
      handler := Completed;
    }
  }

  /** main's start-up: no loop at all unless check_tokens passes and the bot
      can be built, and a fresh cursor of 0 otherwise. `botCreated` says
      whether `telegram.Bot(token=TELEGRAM_TOKEN)` returned; when it raises
      (an unset or malformed token), main dies before its loop. */
  method Start(env: Environment, botCreated: bool, showNested: Json -> string) returns (poller: Poller?)
    ensures poller == null <==> !CheckTokens(env) || !botCreated
    ensures poller != null ==>
              fresh(poller) && poller.cursor == JInt(0) && poller.outbox == [] && poller.showNested == showNested
  {
    if !CheckTokens(env) {
      return null;
    }
    if !botCreated {
      return null;
    }
    poller := new Poller(showNested);
  }

  // ---------------------------------------------------------------------------
  // Several passes in a row
  // ---------------------------------------------------------------------------

  /** Final cursor and all messages sent, over a sequence of passes. */
  datatype Trace = Trace(cursor: Json, sent: seq<string>)

  /** The passes that a sequence of answers gives, one per answer. */
  function Passes(answers: seq<Outcome<Json>>, showNested: Json -> string): (ps: seq<Pass>)
    ensures |ps| == |answers|
    ensures forall k :: 0 <= k < |answers| ==> ps[k] == RunPass(answers[k], showNested)
  {
    seq(|answers|, k requires 0 <= k < |answers| => RunPass(answers[k], showNested))
  }

  /** The cursor and the messages after the given passes, from `cursor`. */
  function Replay(cursor: Json, passes: seq<Pass>): (t: Trace)
    // no passes: nothing sent, cursor where it started
    ensures passes == [] ==> t == Trace(cursor, [])
    // the messages of the first pass are sent first
    ensures passes != [] ==> passes[0].sent <= t.sent
    decreases |passes|
  {
    if passes == [] then Trace(cursor, [])
    else
      var rest := Replay(NextCursor(cursor, passes[0]), passes[1..]);
      Trace(rest.cursor, passes[0].sent + rest.sent)
  }

  /** Never more messages than passes, when each pass sends at most one, as
      every RunPass does. */
  lemma {:induction false} ReplaySentBound(cursor: Json, passes: seq<Pass>)
    requires forall k :: 0 <= k < |passes| ==> |passes[k].sent| <= 1
    ensures |Replay(cursor, passes).sent| <= |passes|
    decreases |passes|
  {
    if passes != [] {
      assert |passes[0].sent| <= 1;
      ReplaySentBound(NextCursor(cursor, passes[0]), passes[1..]);
    }
  }

  /** Passes that all fail leave the cursor where it was. */
  lemma {:induction false} ReplayKeepsCursorWithoutCompletion(cursor: Json, passes: seq<Pass>)
    requires forall k :: 0 <= k < |passes| ==> passes[k].advanceTo.None?
    ensures Replay(cursor, passes).cursor == cursor
    decreases |passes|
  {
    if passes != [] {
      assert passes[0].advanceTo.None?;
      ReplayKeepsCursorWithoutCompletion(cursor, passes[1..]);
    }
  }

  /** Replaying one more pass is one more step from where the replay ended. */
  lemma {:induction false} ReplayAppend(cursor: Json, passes: seq<Pass>, p: Pass)
    ensures Replay(cursor, passes + [p]) ==
              Trace(NextCursor(Replay(cursor, passes).cursor, p), Replay(cursor, passes).sent + p.sent)
    decreases |passes|
  {
    if passes == [] {
      assert passes + [p] == [p];
    } else {
      var longer := passes + [p];
      assert longer[0] == passes[0];
      assert longer[1..] == passes[1..] + [p];
      ReplayAppend(NextCursor(cursor, passes[0]), passes[1..], p);
    }
  }

  /** After a completed pass the cursor is that pass's `current_date`,
      whatever happened before. */
  lemma ReplayEndsAtLastDate(cursor: Json, passes: seq<Pass>, p: Pass)
    requires p.advanceTo.Some?
    ensures Replay(cursor, passes + [p]).cursor == p.advanceTo.value
  {
    ReplayAppend(cursor, passes, p);
  }

  /** The cursor only ever holds its start value or the `current_date` of
      one of the passes. */
  lemma {:induction false} ReplayCursorOrigin(cursor: Json, passes: seq<Pass>)
    ensures var t := Replay(cursor, passes);
            t.cursor == cursor || exists k :: 0 <= k < |passes| && passes[k].advanceTo == Some(t.cursor)
    decreases |passes|
  {
    if passes != [] {
      var next := NextCursor(cursor, passes[0]);
      var t := Replay(cursor, passes);
      ReplayCursorOrigin(next, passes[1..]);
      if t.cursor != next {
        var k :| 0 <= k < |passes[1..]| && passes[1..][k].advanceTo == Some(t.cursor);
        assert passes[k + 1].advanceTo == Some(t.cursor);
      } else if t.cursor != cursor {
        assert passes[0].advanceTo == Some(t.cursor);
      }
    }
  }

  /** A valid answer that announces a homework but lacks `current_date` sends
      its message and then fails with a KeyError before the cursor moves, so
      the same answer on the next poll sends the same message again. */
  lemma MissingDateRepeatsMessage(cursor: Json, response: Json, showNested: Json -> string)
    requires CheckResponse(response).Ok? && CheckResponse(response).value != []
    requires ParseStatus(CheckResponse(response).value[0], showNested).Ok?
    requires "current_date" !in response.members
    ensures var m := ParseStatus(CheckResponse(response).value[0], showNested).value;
            Replay(cursor, Passes([Ok(response), Ok(response)], showNested)) == Trace(cursor, [m, m])
  {
    var m := ParseStatus(CheckResponse(response).value[0], showNested).value;
    var p := RunPass(Ok(response), showNested);
    assert p == Pass([m], None, LoggedAsCritical);
    var ps := Passes([Ok(response), Ok(response)], showNested);
    assert ps == [p, p];
    assert NextCursor(cursor, p) == cursor;
    assert Replay(cursor, [p]) == Trace(cursor, [m]) by {
      assert [p][1..] == [];
    }
    assert [p, p][1..] == [p];
  }

  /** An answer listing one approved homework sends exactly one message,
      naming it with the approval verdict, and moves the cursor to the
      answer's `current_date`. */
  lemma ApprovedHomeworkIsAnnounced(name: string, date: Json, showNested: Json -> string)
    ensures var homework := JObj(map["homework_name" := JStr(name), "status" := JStr("approved")]);
            var response := JObj(map["homeworks" := JList([homework]), "current_date" := date]);
            RunPass(Ok(response), showNested) ==
              Pass([Notification(name, HomeworkStatuses["approved"])], Some(date), Completed)
  {
    var homework := JObj(map["homework_name" := JStr(name), "status" := JStr("approved")]);
    var response := JObj(map["homeworks" := JList([homework]), "current_date" := date]);
    assert CheckResponse(response) == Ok([homework]);
    ParseStatusOfKnownStatus(name, "approved", showNested);
  }
}
