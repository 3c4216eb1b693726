/** The decision logic of homework.py: the status table, the validation of an
    API response (check_response), the rendering of a status change
    (parse_status) and the configuration check (check_tokens). */
module Homework {
  import opened Outcomes
  import opened JsonValues

  // ---------------------------------------------------------------------------
  // The status table and the notification text
  // ---------------------------------------------------------------------------

  /** HOMEWORK_STATUSES: review status -> verdict shown to the student. */
  const HomeworkStatuses: map<string, string> := map[
    "approved" := "Работа проверена: ревьюеру всё понравилось. Ура!",
    "reviewing" := "Работа взята на проверку ревьюером.",
    "rejected" := "Работа проверена: у ревьюера есть замечания."
  ]

  /** The fixed text before the homework name, up to its opening quote. */
  const Lead: string := "Изменился статус проверки работы \""

  /** The fixed text between the homework name and the verdict. */
  const Link: string := "\". "

  /** The message template of parse_status. */
  function Notification(name: string, verdict: string): (m: string)
    ensures |m| == |Lead| + |name| + |Link| + |verdict|
    ensures m[..|Lead|] == Lead && m[|Lead|..|Lead| + |name|] == name
    ensures m[|Lead| + |name|..] == Link + verdict
  {
    Lead + name + (Link + verdict)
  }

  lemma StatusTableKeys()
    ensures HomeworkStatuses.Keys == {"approved", "reviewing", "rejected"}
  {
  }

  // ---------------------------------------------------------------------------
  // check_response
  // ---------------------------------------------------------------------------

  /** The error check lets `members` through: there is no `error` field, or
      `'error' in members['error']` evaluates to False. */
  predicate PassesErrorCheck(members: map<string, Json>) {
    "error" !in members || Contains(members["error"], "error") == Ok(false)
  }

  /** The server reported a fault as `{"error": {"error": ...}}`. */
  predicate ReportsServerError(response: Json) {
    && response.JObj?
    && "error" in response.members
    && response.members["error"].JObj?
    && "error" in response.members["error"].members
  }

  /** First guard of check_response: an `error` field whose value holds an
      inner `error` raises PracticumException; the exception text indexes
      that inner value, so on a str or a list holding "error" it is a
      TypeError instead. */
  function ServerErrorCheck(response: Json): (r: Outcome<()>)
    ensures ReportsServerError(response) ==> r == Raise(Practicum(ServerError))
    ensures response.JObj? ==> (r.Ok? <==> PassesErrorCheck(response.members))
  {
    var hasError :- Contains(response, "error");
    if !hasError then Ok(())
    else
      var error :- Index(response, "error");
      var hasInner :- Contains(error, "error");
      if !hasInner then Ok(())
      else
        var _ :- Index(error, "error");
        Raise(Practicum(ServerError))
  }

  /** Second guard of check_response: a `code` field raises PracticumException
      with the text of `message`, and so a KeyError when `message` is absent. */
  function CodeCheck(response: Json): (r: Outcome<()>)
    ensures response.JObj? ==> (r.Ok? <==> "code" !in response.members)
    ensures response.JObj? && "code" in response.members ==>
              r == Raise(if "message" in response.members then Practicum(ServerCode) else KeyMissing("message"))
  {
    var hasCode :- Contains(response, "code");
    if !hasCode then Ok(())
    else
      var _ :- Index(response, "message");
      Raise(Practicum(ServerCode))
  }

  /** check_response: the `homeworks` list of a well-formed response. */
  function CheckResponse(response: Json): (r: Outcome<seq<Json>>)
    // any non-object (a list, a string, a number, null) ends in a TypeError
    ensures !response.JObj? ==> r == Raise(WrongType)
    // a server-reported error wins over every later check, `code` included
    ensures ReportsServerError(response) ==> r == Raise(Practicum(ServerError))
    // in summary, a `code` field is rejected whatever else the response holds
    ensures response.JObj? && "code" in response.members ==> r.Raise?
    // ... by the domain error, or by a KeyError when `message` is missing
    ensures response.JObj? && PassesErrorCheck(response.members) && "code" in response.members ==>
              r == Raise(if "message" in response.members then Practicum(ServerCode) else KeyMissing("message"))
    // an `error` value that fails the guard without being an object (a str or a list
    // holding "error", a number, a bool, null) is a TypeError
    ensures response.JObj? && !PassesErrorCheck(response.members) && !ReportsServerError(response) ==>
              r == Raise(WrongType)
    // accepted exactly when every guard passes and `homeworks` is a list ...
    ensures r.Ok? <==>
              && response.JObj?
              && PassesErrorCheck(response.members)
              && "code" !in response.members
              && "homeworks" in response.members
              && response.members["homeworks"].JList?
    // ... and then that list is returned unchanged, the empty list included
    ensures r.Ok? ==> response.members["homeworks"] == JList(r.value)
    // the two domain errors about `homeworks` itself
    ensures response.JObj? && PassesErrorCheck(response.members) && "code" !in response.members ==>
              && ("homeworks" !in response.members ==> r == Raise(KeyMissing("homeworks")))
              && ("homeworks" in response.members && response.members["homeworks"].JNull? ==>
                    r == Raise(Practicum(NoHomeworks)))
              && ("homeworks" in response.members
                  && !response.members["homeworks"].JNull? && !response.members["homeworks"].JList? ==>
                    r == Raise(Practicum(NotAList)))
  {
    var _ :- ServerErrorCheck(response);
    var _ :- CodeCheck(response);
    var homeworks :- Index(response, "homeworks");
    if homeworks.JNull? then Raise(Practicum(NoHomeworks))
    else if !homeworks.JList? then Raise(Practicum(NotAList))
    else Ok(homeworks.items)
  }

  /** An `error` field that passes the error check has no effect at all: the
      response is judged as if the field were absent. */
  lemma ErrorWithoutInnerErrorIsIgnored(members: map<string, Json>)
    requires "error" in members && Contains(members["error"], "error") == Ok(false)
    ensures CheckResponse(JObj(members)) == CheckResponse(JObj(members - {"error"}))
  {
    var without := members - {"error"};
    assert "code" in members <==> "code" in without;
    assert "message" in members <==> "message" in without;
    assert "homeworks" in members <==> "homeworks" in without;
    assert "homeworks" in members ==> members["homeworks"] == without["homeworks"];
  }

  // ---------------------------------------------------------------------------
  // parse_status
  // ---------------------------------------------------------------------------

  /** Python's `status in HOMEWORK_STATUSES`: a str is looked up, a list or a
      dict is unhashable (TypeError), any other value is simply not a key. */
  function InStatusTable(status: Json): (r: Outcome<bool>)
    ensures r == Ok(true) <==> status.JStr? && status.str in HomeworkStatuses
    ensures r.Raise? <==> status.JList? || status.JObj?
    ensures r.Raise? ==> r.failure == WrongType
  {
    match status
    case JStr(s) => Ok(s in HomeworkStatuses)
    case JList(_) => Raise(WrongType)
    case JObj(_) => Raise(WrongType)
    case _ => Ok(false)
  }

  /** parse_status: the notification for one homework record. */
  function ParseStatus(homework: Json, showNested: Json -> string): (r: Outcome<string>)
    // a record that is not a dict cannot be indexed by a str
    ensures !homework.JObj? ==> r == Raise(WrongType)
    // a record lacking `homework_name` or `status` raises KeyError (the name is read first)
    ensures homework.JObj? && "homework_name" !in homework.members ==>
              r == Raise(KeyMissing("homework_name"))
    ensures homework.JObj? && "homework_name" in homework.members && "status" !in homework.members ==>
              r == Raise(KeyMissing("status"))
    // success exactly for a status that is a key of the table ...
    ensures r.Ok? <==>
              && homework.JObj?
              && "homework_name" in homework.members
              && "status" in homework.members
              && homework.members["status"].JStr?
              && homework.members["status"].str in HomeworkStatuses
    // ... and the message is the template filled with the name and that key's verdict
    ensures r.Ok? ==>
              r.value == Notification(Display(homework.members["homework_name"], showNested),
                                      HomeworkStatuses[homework.members["status"].str])
    // any other str, number, bool or null status is the domain error
    ensures homework.JObj? && "homework_name" in homework.members && "status" in homework.members &&
            !homework.members["status"].JList? && !homework.members["status"].JObj? && r.Raise? ==>
              r == Raise(Practicum(UnknownStatus))
    // a list or dict status is unhashable, so the table lookup raises TypeError
    ensures homework.JObj? && "homework_name" in homework.members && "status" in homework.members &&
            (homework.members["status"].JList? || homework.members["status"].JObj?) ==>
              r == Raise(WrongType)
  {
    var name :- Index(homework, "homework_name");
    var status :- Index(homework, "status");
    var known :- InStatusTable(status);
    if !known then Raise(Practicum(UnknownStatus))
    else Ok(Notification(Display(name, showNested), HomeworkStatuses[status.str]))
  }

  /** For each of the three statuses, a record with a str name renders exactly
      the template with that name and the table's verdict. */
  lemma ParseStatusOfKnownStatus(name: string, status: string, showNested: Json -> string)
    requires status in {"approved", "reviewing", "rejected"}
    ensures ParseStatus(JObj(map["homework_name" := JStr(name), "status" := JStr(status)]), showNested)
              == Ok(Notification(name, HomeworkStatuses[status]))
  {
    StatusTableKeys();
  }

  // ---------------------------------------------------------------------------
  // Reading a notification back: the rendering loses nothing
  // ---------------------------------------------------------------------------

  /** What follows the name in the notification for status `key`. */
  function Ending(key: string): string
    requires key in HomeworkStatuses
  {
    Link + HomeworkStatuses[key]
  }

  /** The name between the lead and `ending`, if `message` ends with `ending`. */
  function NameBefore(message: string, ending: string): (r: Option<string>)
    requires |Lead| <= |message| && message[..|Lead|] == Lead
    ensures r.Some? ==> message == Lead + r.value + ending
  {
    if |Lead| + |ending| <= |message| && message[|message| - |ending|..] == ending then
      var name := message[|Lead|..|message| - |ending|];
      assert message == message[..|Lead|] + name + message[|message| - |ending|..];
      Some(name)
    else None
  }

  /** The name, if `message` is the notification of status `key`. */
  function TryStatus(message: string, key: string): (r: Option<(string, string)>)
    requires key in HomeworkStatuses
    requires |Lead| <= |message| && message[..|Lead|] == Lead
    ensures r.Some? ==> r.value.1 == key && message == Notification(r.value.0, HomeworkStatuses[key])
  {
    match NameBefore(message, Ending(key))
    case Some(name) => Some((name, key))
    case None => None
  }

  /** The homework name and the status key that a notification was built
      from. The statuses are tried in the order the table lists them. */
  function DecodeNotification(message: string): (r: Option<(string, string)>)
    ensures r.Some? ==> r.value.1 in HomeworkStatuses
    ensures r.Some? ==> message == Notification(r.value.0, HomeworkStatuses[r.value.1])
  {
    if |message| < |Lead| || message[..|Lead|] != Lead then None
    else
      var approved := TryStatus(message, "approved");
      if approved.Some? then approved
      else
        var reviewing := TryStatus(message, "reviewing");
        if reviewing.Some? then reviewing
        else TryStatus(message, "rejected")
  }

  /** The name is recovered from the notification's own ending. */
  lemma NameBeforeOwnEnding(name: string, ending: string)
    ensures var message := Lead + name + ending;
            |Lead| <= |message| && message[..|Lead|] == Lead && NameBefore(message, ending) == Some(name)
  {
    var message := Lead + name + ending;
    assert message[..|Lead|] == Lead;
    assert message[|message| - |ending|..] == ending;
    assert message[|Lead|..|message| - |ending|] == name;
  }

  /** A string that ends with `ending` ends with the last two characters of `ending`. */
  lemma EndingKeepsLastTwo(message: string, ending: string)
    requires |ending| >= 2
    ensures |message| >= |ending| && message[|message| - |ending|..] == ending ==>
              message[|message| - 2..] == ending[|ending| - 2..]
  {
    if |message| >= |ending| && message[|message| - |ending|..] == ending {
      assert message[|message| - 2..] == message[|message| - |ending|..][|ending| - 2..];
    }
  }

  /** The last two characters of the three verdicts are pairwise different,
      so a notification for one status never ends like one for another. */
  lemma OtherEndingDoesNotMatch(name: string, key: string, other: string)
    requires key in HomeworkStatuses && other in HomeworkStatuses && key != other
    ensures NameBefore(Lead + name + Ending(key), Ending(other)) == None
  {
    var message := Lead + name + Ending(key);
    var ending, wrong := Ending(key), Ending(other);
    NameBeforeOwnEnding(name, ending);
    StatusTableKeys();
    assert ending[|ending| - 2..] != wrong[|wrong| - 2..] by {
      assert ending[|ending| - 2] != wrong[|wrong| - 2] || ending[|ending| - 1] != wrong[|wrong| - 1];
    }
    EndingKeepsLastTwo(message, ending);
    EndingKeepsLastTwo(message, wrong);
  }

  /** Every notification parse_status can produce decodes to the name and the
      status it was made from. */
  lemma DecodeNotificationRoundTrip(name: string, key: string)
    requires key in HomeworkStatuses
    ensures DecodeNotification(Notification(name, HomeworkStatuses[key])) == Some((name, key))
  {
    var message := Notification(name, HomeworkStatuses[key]);
    assert message == Lead + name + Ending(key);
    NameBeforeOwnEnding(name, Ending(key));
    StatusTableKeys();
    if key != "approved" {
      OtherEndingDoesNotMatch(name, key, "approved");
    }
    if key == "rejected" {
      OtherEndingDoesNotMatch(name, key, "reviewing");
    }
  }

  /** Two different (name, status) pairs never give the same notification. */
  lemma NotificationInjective(name1: string, key1: string, name2: string, key2: string)
    requires key1 in HomeworkStatuses && key2 in HomeworkStatuses
    requires Notification(name1, HomeworkStatuses[key1]) == Notification(name2, HomeworkStatuses[key2])
    ensures name1 == name2 && key1 == key2
  {
    DecodeNotificationRoundTrip(name1, key1);
    DecodeNotificationRoundTrip(name2, key2);
  }

  // ---------------------------------------------------------------------------
  // check_tokens
  // ---------------------------------------------------------------------------

  /** The three settings read with os.getenv: None when the variable is unset. */
  datatype Environment = Environment(
    practicumToken: Option<string>,
    telegramToken: Option<string>,
    telegramChatId: Option<string>)

  /** Python's truthiness of an os.getenv result: set and not empty. */
  predicate Truthy(token: Option<string>) {
    token.Some? && token.value != ""
  }

  /** What the docstring of check_tokens promises to check: every token present. */
  predicate AllTokensPresent(env: Environment) {
    Truthy(env.practicumToken) && Truthy(env.telegramToken) && Truthy(env.telegramChatId)
  }

  /** The loop of check_tokens: `return True` sits inside the loop body, so the
      first token decides either way; an empty tuple would fall off the end
      and give None. */
  function FirstTokenVerdict(tokens: seq<Option<string>>): (r: Option<bool>)
    // only an empty tuple gets to the end of the loop
    ensures r.None? <==> tokens == []
    // otherwise the first token alone decides
    ensures r.Some? ==> (r.value <==> Truthy(tokens[0]))
  {
    if tokens == [] then None
    else if !Truthy(tokens[0]) then Some(false)
    else Some(true)
  }

  /** check_tokens, as written. */
  function CheckTokens(env: Environment): (ok: bool)
    // only the Practicum token is inspected
    ensures ok <==> Truthy(env.practicumToken)
    // the docstring's promise holds in the direction "all present ==> True"
    ensures AllTokensPresent(env) ==> ok
  {
    match FirstTokenVerdict([env.practicumToken, env.telegramToken, env.telegramChatId])
    case Some(verdict) => verdict
    case None => false
  }

  /** The docstring says check_tokens returns False when any variable is
      missing; it returns True with the Telegram token and chat id unset. */
  lemma CheckTokensMissesLaterTokens()
    ensures exists env :: CheckTokens(env) && !AllTokensPresent(env)
  {
    var env := Environment(Some("practicum"), None, None);
    assert CheckTokens(env) && !AllTokensPresent(env);
  }
}
