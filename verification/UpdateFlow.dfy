/** The update client: reading fields out of status responses, waiting for a command to finish,
    and the check, apply, reboot sequence built on it. */
module UpdateFlow {
  import opened Wrappers
  import opened Json

  // --------------------------------------------------------------------------- response fields

  /** A response body; the JSON is absent when the text does not parse. */
  datatype Body = Body(text: string, json: Option<Json>)

  /** The value the cursor ends on: it stops at the first missing component. */
  function Walk(v: Json, field: seq<string>): Json {
    if field != [] && v.Object? && field[0] in v.members then Walk(v.members[field[0]], field[1..]) else v
  }

  function AsStr(v: Json): Option<string> { if v.String? then Some(v.s) else None }

  function ResponseField(field: seq<string>, body: Body): Option<string> {
    if body.json.None? then None else AsStr(Walk(body.json.value, field))
  }

  /** `response_field` with its cursor. */
  method ReadResponseField(field: seq<string>, body: Body) returns (r: Option<string>)
    ensures r == ResponseField(field, body)
  {
    if body.json.None? {
      return None;
    }
    var cursor, i := body.json.value, 0;
    while i < |field|
      invariant i <= |field|
      invariant Walk(body.json.value, field) == Walk(cursor, field[i..])
    {
      if cursor.Object? && field[i] in cursor.members {
        cursor := cursor.members[field[i]];
      } else {
        break;
      }
      i := i + 1;
    }
    r := AsStr(cursor);
  }

  /** The string nested at exactly this place. */
  function Nested(v: Json, field: seq<string>): Option<string> {
    if field == [] then AsStr(v)
    else if v.Object? && field[0] in v.members then Nested(v.members[field[0]], field[1..])
    else None
  }

  /** The path runs into a string before its end. */
  predicate StringOnTheWay(v: Json, field: seq<string>) {
    field != [] && (v.String? || (v.Object? && field[0] in v.members && StringOnTheWay(v.members[field[0]], field[1..])))
  }

  /** The field read is the nested field, except when the path runs into a string: then that
      string is returned where there is no such field. */
  lemma {:induction false} FieldIsNestedIff(v: Json, field: seq<string>)
    ensures AsStr(Walk(v, field)) == Nested(v, field) <==> !StringOnTheWay(v, field)
    ensures StringOnTheWay(v, field) ==> Nested(v, field).None?
  {
    if field != [] && v.Object? && field[0] in v.members {
      FieldIsNestedIff(v.members[field[0]], field[1..]);
    }
  }

  /** The string that a path runs into before its end. */
  function Met(v: Json, field: seq<string>): Option<string> {
    if field == [] then None
    else if v.String? then Some(v.s)
    else if v.Object? && field[0] in v.members then Met(v.members[field[0]], field[1..])
    else None
  }

  /** What a body says in a field: the nested string, else the string the path runs into. */
  function Told(body: Body, field: seq<string>): Option<string> {
    if body.json.None? then None
    else if Nested(body.json.value, field).Some? then Nested(body.json.value, field)
    else Met(body.json.value, field)
  }

  lemma {:induction false} WalkEnds(v: Json, field: seq<string>)
    ensures AsStr(Walk(v, field)) == if Nested(v, field).Some? then Nested(v, field) else Met(v, field)
  {
    if field != [] && v.Object? && field[0] in v.members {
      WalkEnds(v.members[field[0]], field[1..]);
    }
  }

  lemma FieldTold(body: Body, field: seq<string>)
    ensures ResponseField(field, body) == Told(body, field)
  {
    if body.json.Some? {
      WalkEnds(body.json.value, field);
    }
  }

  /** A string in place of the record is read as its command type. */
  lemma RecordReadAsType()
    ensures var v := Object(map["most_recent_command" := String("x")]);
            AsStr(Walk(v, CMD_TYPE)) == Some("x") && Nested(v, CMD_TYPE).None?
  {
    TwoLevels(Object(map["most_recent_command" := String("x")]), "most_recent_command", "cmd_type");
  }

  // ----------------------------------------------------------------------------- status polling

  datatype Reply = Unreachable | Reply(code: nat, body: Body)

  datatype WaitPolicy = WaitPolicy(betweenAttempts: nat, maxAttempts: nat)

  datatype Error =
    | GetStatus
    | MissingStatus(code: nat, body: Body)
    | RequestFailed(command: string)
    | TimedOut
    | StatusCheck(failures: nat)
    | CommandFailed(command: string, status: string, stderr: string)
    | PrepareUpdate(source: Error)

  const NOT_FOUND: nat := 404
  const LOCKED: nat := 423
  const MAX_FAILURES: nat := 5
  const NOTIFY_EVERY: nat := 5000

  predicate IsSuccess(code: nat) { 200 <= code < 300 }

  const TIMESTAMP: seq<string> := ["most_recent_command", "timestamp"]
  const CMD_TYPE: seq<string> := ["most_recent_command", "cmd_type"]
  const CMD_STATUS: seq<string> := ["most_recent_command", "cmd_status"]
  const STDERR: seq<string> := ["most_recent_command", "stderr"]

  function Or(r: Option<string>, other: string): string { if r.Some? then r.value else other }

  /** The timestamp to compare with, from the first status call. */
  function Before(initial: Reply): Result<string, Error> {
    if initial.Unreachable? then Err(GetStatus)
    else if initial.code == NOT_FOUND then Ok("first call")
    else if IsSuccess(initial.code) then Ok(Or(ResponseField(TIMESTAMP, initial.body), "first call"))
    else Err(MissingStatus(initial.code, initial.body))
  }

  datatype Verdict = Failure | Undecided | Succeeded | Refused(status: string, stderr: string)
  {
    predicate Decisive() { Succeeded? || Refused? }
  }

  /** What one poll says about the command. */
  function Judge(reply: Reply, command: string, before: string): Verdict {
    if reply.Unreachable? then Failure
    else if reply.code == LOCKED then Undecided
    else if !IsSuccess(reply.code) then Failure
    else
      var after := Or(ResponseField(TIMESTAMP, reply.body), "missing");
      var kind := Or(ResponseField(CMD_TYPE, reply.body), "missing");
      if kind != command || before == after then Undecided
      else
        var status := Or(ResponseField(CMD_STATUS, reply.body), "missing");
        if status == "Success" then Succeeded
        else Refused(status, Or(ResponseField(STDERR, reply.body), "<missing>"))
  }

  type Polls = nat -> Reply

  /** How many of the first n polls failed. */
  function Failures(polls: Polls, command: string, before: string, n: nat): nat {
    if n == 0 then 0
    else Failures(polls, command, before, n - 1) + (if Judge(polls(n - 1), command, before).Failure? then 1 else 0)
  }

  ghost predicate NoneDecisive(polls: Polls, command: string, before: string, n: nat) {
    forall j: nat :: j < n ==> !Judge(polls(j), command, before).Decisive()
  }

  /** Poll i is the first decisive one and within budget. */
  ghost predicate Decides(polls: Polls, command: string, before: string, max: nat, i: nat) {
    && i + 1 < max
    && NoneDecisive(polls, command, before, i)
    && Failures(polls, command, before, i) < MAX_FAILURES
    && Judge(polls(i), command, before).Decisive()
  }

  /** `wait_request` after the real request was made. */
  method AwaitStatus(polls: Polls, command: string, before: string, wait: WaitPolicy)
    returns (r: Result<Body, Error>, made: nat)
    ensures made == 0 || made < wait.maxAttempts
    ensures Failures(polls, command, before, made) <= MAX_FAILURES
    ensures r.Ok? ==>
              && made > 0 && Decides(polls, command, before, wait.maxAttempts, made - 1)
              && Judge(polls(made - 1), command, before).Succeeded?
              && r.value == polls(made - 1).body
    ensures r.Err? ==> match r.error {
        case CommandFailed(c, status, stderr) =>
          && made > 0 && Decides(polls, command, before, wait.maxAttempts, made - 1)
          && c == command && Judge(polls(made - 1), command, before) == Refused(status, stderr)
        case TimedOut =>
          made + 1 >= wait.maxAttempts && NoneDecisive(polls, command, before, made)
        case StatusCheck(failures) =>
          && failures == MAX_FAILURES == Failures(polls, command, before, made)
          && made + 1 < wait.maxAttempts && NoneDecisive(polls, command, before, made)
        case _ => false
      }
  {
    hide ResponseField, IsSuccess;
    var attempt, failures, waited := 0, 0, 0;
    made := 0;
    while true
      invariant made == attempt && (attempt == 0 || attempt < wait.maxAttempts)
      invariant failures == Failures(polls, command, before, made) <= MAX_FAILURES
      invariant NoneDecisive(polls, command, before, made)
      decreases wait.maxAttempts - attempt
    {
      attempt := attempt + 1;
      if attempt >= wait.maxAttempts {
        return Err(TimedOut), made;
      }
      if failures >= MAX_FAILURES {
        return Err(StatusCheck(failures)), made;
      }
      if attempt > 1 && waited >= NOTIFY_EVERY {
        waited := 0;
        TimeLeft(wait.maxAttempts, attempt, wait.betweenAttempts);
        var remaining: nat := wait.maxAttempts * wait.betweenAttempts - attempt * wait.betweenAttempts;
      }
      waited := waited + wait.betweenAttempts;
      var reply := polls(made);
      made := made + 1;
      if reply.Unreachable? {
        failures := failures + 1;
        continue;
      }
      if reply.code == LOCKED {
        continue;
      } else if !IsSuccess(reply.code) {
        failures := failures + 1;
        continue;
      }
      var stamp := ReadResponseField(TIMESTAMP, reply.body);
      var kind := ReadResponseField(CMD_TYPE, reply.body);
      if Or(kind, "missing") == command && before != Or(stamp, "missing") {
        var status := ReadResponseField(CMD_STATUS, reply.body);
        if Or(status, "missing") != "Success" {
          var stderr := ReadResponseField(STDERR, reply.body);
          return Err(CommandFailed(command, Or(status, "missing"), Or(stderr, "<missing>"))), made;
        }
        return Ok(reply.body), made;
      }
    }
  }

  // --------------------------------------------------------------------- what a status reply means

  predicate Failing(reply: Reply) {
    reply.Unreachable? || (reply.code != 423 && !(200 <= reply.code < 300))
  }

  predicate Busy(reply: Reply) { reply.Reply? && reply.code == 423 }

  /** The reply records the command, under another timestamp than before. */
  predicate Records(reply: Reply, command: string, before: string) {
    && reply.Reply? && 200 <= reply.code < 300
    && Or(Told(reply.body, ["most_recent_command", "cmd_type"]), "missing") == command
    && Or(Told(reply.body, ["most_recent_command", "timestamp"]), "missing") != before
  }

  /** Every poll fails, leaves the matter open, succeeds or refuses, by its code and its record. */
  lemma JudgeMeaning(reply: Reply, command: string, before: string)
    ensures Judge(reply, command, before).Failure? <==> Failing(reply)
    ensures Judge(reply, command, before).Undecided? <==>
            !Failing(reply) && (Busy(reply) || !Records(reply, command, before))
    ensures Judge(reply, command, before).Succeeded? <==>
            && Records(reply, command, before)
            && Told(reply.body, ["most_recent_command", "cmd_status"]) == Some("Success")
    ensures Judge(reply, command, before).Refused? ==>
            && Judge(reply, command, before).status ==
               Or(Told(reply.body, ["most_recent_command", "cmd_status"]), "missing")
            && Judge(reply, command, before).stderr ==
               Or(Told(reply.body, ["most_recent_command", "stderr"]), "<missing>")
  {
    hide Told, ResponseField;
    if reply.Reply? {
      FieldTold(reply.body, ["most_recent_command", "timestamp"]);
      FieldTold(reply.body, ["most_recent_command", "cmd_type"]);
      FieldTold(reply.body, ["most_recent_command", "cmd_status"]);
      FieldTold(reply.body, ["most_recent_command", "stderr"]);
    }
  }

  /** What the first status says: a system that never had a command answers 404. */
  lemma BeforeMeaning(initial: Reply)
    ensures Before(initial) ==
            if initial.Unreachable? then Err(GetStatus)
            else if initial.code == 404 then Ok("first call")
            else if 200 <= initial.code < 300 then
              Ok(Or(Told(initial.body, ["most_recent_command", "timestamp"]), "first call"))
            else Err(MissingStatus(initial.code, initial.body))
  {
    if initial.Reply? {
      FieldTold(initial.body, ["most_recent_command", "timestamp"]);
    }
  }

  function FailingPolls(polls: Polls, n: nat): nat {
    if n == 0 then 0 else FailingPolls(polls, n - 1) + (if Failing(polls(n - 1)) then 1 else 0)
  }

  lemma {:induction false} FailuresCounted(polls: Polls, command: string, before: string, n: nat)
    ensures Failures(polls, command, before, n) == FailingPolls(polls, n)
  {
    if n > 0 {
      FailuresCounted(polls, command, before, n - 1);
      JudgeMeaning(polls(n - 1), command, before);
    }
  }

  /** A dated record of the command's success. */
  predicate Done(reply: Reply, command: string, before: string) {
    && reply.Reply? && 200 <= reply.code < 300 && reply.body.json.Some?
    && Nested(reply.body.json.value, ["most_recent_command", "cmd_type"]) == Some(command)
    && Nested(reply.body.json.value, ["most_recent_command", "cmd_status"]) == Some("Success")
    && Nested(reply.body.json.value, ["most_recent_command", "timestamp"]).Some?
    && Nested(reply.body.json.value, ["most_recent_command", "timestamp"]) != Some(before)
  }

  lemma DoneSucceeds(reply: Reply, command: string, before: string)
    requires Done(reply, command, before)
    ensures Judge(reply, command, before).Succeeded?
  {
    hide Nested, Judge;
    JudgeMeaning(reply, command, before);
  }

  lemma TimeLeft(max: nat, attempt: nat, between: nat)
    requires attempt <= max
    ensures attempt * between <= max * between
  {
  }

  /** There is at most one deciding poll, so the outcome is a function of the replies. */
  lemma DecidesOnce(polls: Polls, command: string, before: string, max: nat, i: nat, j: nat)
    requires Decides(polls, command, before, max, i) && Decides(polls, command, before, max, j)
    ensures i == j
  {
    assert i < j ==> !Judge(polls(i), command, before).Decisive();
    assert j < i ==> !Judge(polls(j), command, before).Decisive();
  }

  lemma {:induction false} FailuresGrow(polls: Polls, command: string, before: string, m: nat, n: nat)
    requires m <= n
    ensures Failures(polls, command, before, m) <= Failures(polls, command, before, n)
  {
    if m < n {
      FailuresGrow(polls, command, before, m, n - 1);
    }
  }

  /** A deciding poll is never missed: giving up means there was none. */
  lemma GivingUpMeansNone(polls: Polls, command: string, before: string, max: nat, made: nat, i: nat)
    requires NoneDecisive(polls, command, before, made)
    requires made + 1 >= max || Failures(polls, command, before, made) >= MAX_FAILURES
    ensures !Decides(polls, command, before, max, i)
  {
    if i >= made {
      FailuresGrow(polls, command, before, made, i);
    }
    assert i < made ==> !Judge(polls(i), command, before).Decisive();
  }

  /** Success is only reported on a genuine record of the command: although a field read may fall
      back to a string higher up, a type and a status that differ cannot both have done so.  The
      record's timestamp, if it has one, is not the earlier one. */
  lemma SuccessIsGenuine(reply: Reply, command: string, before: string)
    requires Judge(reply, command, before).Succeeded? && command != "Success"
    ensures reply.Reply? && IsSuccess(reply.code) && reply.body.json.Some?
    ensures command != "missing" ==> Nested(reply.body.json.value, CMD_TYPE) == Some(command)
    ensures Nested(reply.body.json.value, CMD_STATUS) == Some("Success")
    ensures match Nested(reply.body.json.value, TIMESTAMP) {
        case Some(t) => t != before
        case None => before != "missing"
      }
  {
    TwoLevels(reply.body.json.value, "most_recent_command", "cmd_type");
    TwoLevels(reply.body.json.value, "most_recent_command", "cmd_status");
    TwoLevels(reply.body.json.value, "most_recent_command", "timestamp");
  }

  /** The timestamp a status reply records; an answer of NOT_FOUND has no status. */
  function Recorded(reply: Reply): Option<string> {
    if reply.Unreachable? || reply.code == NOT_FOUND || reply.body.json.None? then None
    else Nested(reply.body.json.value, TIMESTAMP)
  }

  /** The wait is for the timestamp to change.  A poll with the timestamp of the first status is
      accepted as the command's success exactly when it records that command as successful and
      neither has a timestamp, unless the first reads as "missing" by falling back to a string: the
      first then reads "first call", or that string, and the poll "missing". */
  lemma UnchangedAcceptedIff(initial: Reply, poll: Reply, command: string)
    requires Before(initial).Ok?
    requires command != "Success" && command != "missing"
    ensures Judge(poll, command, Before(initial).value).Succeeded? && Recorded(initial) == Recorded(poll) <==>
            && poll.Reply? && IsSuccess(poll.code) && poll.body.json.Some?
            && Nested(poll.body.json.value, CMD_TYPE) == Some(command)
            && Nested(poll.body.json.value, CMD_STATUS) == Some("Success")
            && Recorded(poll).None? && Recorded(initial).None? && Before(initial).value != "missing"
  {
    hide Walk, Nested;
    if poll.Reply? && poll.body.json.Some? {
      TwoLevels(poll.body.json.value, "most_recent_command", "cmd_type");
      TwoLevels(poll.body.json.value, "most_recent_command", "cmd_status");
      TwoLevels(poll.body.json.value, "most_recent_command", "timestamp");
    }
    if initial.body.json.Some? {
      TwoLevels(initial.body.json.value, "most_recent_command", "timestamp");
    }
  }

  lemma TwoLevels(v: Json, outer: string, inner: string)
    ensures Walk(v, [outer, inner]) ==
            if !v.Object? || outer !in v.members then v
            else
              var m := v.members[outer];
              if m.Object? && inner in m.members then m.members[inner] else m
    ensures Nested(v, [outer, inner]) ==
            if !v.Object? || outer !in v.members then None
            else
              var m := v.members[outer];
              if m.Object? && inner in m.members then AsStr(m.members[inner]) else None
  {
    assert [outer, inner][1..] == [inner] && [inner][1..] == [];
    if v.Object? && outer in v.members {
      var m := v.members[outer];
      assert Walk(m, [inner]) == if m.Object? && inner in m.members then m.members[inner] else m;
      assert Nested(m, [inner]) == if m.Object? && inner in m.members then AsStr(m.members[inner]) else None;
    }
  }

  // --------------------------------------------------------------------------------- whole runs

  /** What a run does that others can see: commands issued, and successes observed. */
  datatype Event = Issued(command: string) | Observed(command: string)

  /** Everything the server answers to one `wait_request`. */
  datatype Script = Script(initial: Reply, request: Reply, polls: Polls)

  /** Poll i is the one that shows the requested command done. */
  ghost predicate SucceedsAt(script: Script, command: string, max: nat, i: nat) {
    && Before(script.initial).Ok?
    && script.request.Reply? && IsSuccess(script.request.code)
    && Decides(script.polls, command, Before(script.initial).value, max, i)
    && Judge(script.polls(i), command, Before(script.initial).value).Succeeded?
  }

  ghost predicate Succeeds(script: Script, command: string, max: nat) {
    exists i: nat :: SucceedsAt(script, command, max, i)
  }

  ghost function Trace(script: Script, command: string, max: nat): seq<Event> {
    if Before(script.initial).Err? then []
    else if Succeeds(script, command, max) then [Issued(command), Observed(command)]
    else [Issued(command)]
  }

  /** The command is requested once its earlier state is known, and seen to succeed exactly when
      the first decisive poll within budget says so. */
  method WaitRequest(script: Script, command: string, wait: WaitPolicy)
    returns (r: Result<(Body, Body), Error>, events: seq<Event>)
    ensures events == Trace(script, command, wait.maxAttempts)
    ensures r.Ok? <==> Succeeds(script, command, wait.maxAttempts)
    ensures Before(script.initial).Err? ==> r == Err(Before(script.initial).error)
    ensures r.Err? ==> !r.error.PrepareUpdate?
    ensures Before(script.initial).Ok? && (script.request.Unreachable? || !IsSuccess(script.request.code)) ==>
              r == Err(RequestFailed(command))
    ensures r.Ok? ==>
              && script.request.Reply? && r.value.0 == script.request.body
              && exists i: nat :: SucceedsAt(script, command, wait.maxAttempts, i) && r.value.1 == script.polls(i).body
  {
    events := [];
    if script.initial.Unreachable? {
      return Err(GetStatus), events;
    }
    var before;
    if script.initial.code == NOT_FOUND {
      before := "first call";
    } else if IsSuccess(script.initial.code) {
      var stamp := ReadResponseField(TIMESTAMP, script.initial.body);
      before := Or(stamp, "first call");
    } else {
      return Err(MissingStatus(script.initial.code, script.initial.body)), events;
    }
    events := [Issued(command)];
    if script.request.Unreachable? || !IsSuccess(script.request.code) {
      return Err(RequestFailed(command)), events;
    }
    var status, made := AwaitStatus(script.polls, command, before, wait);
    if status.Err? {
      NoSuccessMissed(script.polls, command, before, wait.maxAttempts, status.error, made);
      return Err(status.error), events;
    }
    assert SucceedsAt(script, command, wait.maxAttempts, made - 1);
    events := events + [Observed(command)];
    return Ok((script.request.body, status.value)), events;
  }

  lemma NoSuccessMissed(polls: Polls, command: string, before: string, max: nat, error: Error, made: nat)
    requires match error {
        case CommandFailed(c, status, stderr) =>
          && made > 0 && Decides(polls, command, before, max, made - 1)
          && Judge(polls(made - 1), command, before) == Refused(status, stderr)
        case TimedOut => made + 1 >= max && NoneDecisive(polls, command, before, made)
        case StatusCheck(_) =>
          Failures(polls, command, before, made) == MAX_FAILURES && NoneDecisive(polls, command, before, made)
        case _ => false
      }
    ensures forall i :: Decides(polls, command, before, max, i) ==> Judge(polls(i), command, before).Refused?
  {
    forall i: nat | Decides(polls, command, before, max, i)
      ensures Judge(polls(i), command, before).Refused?
    {
      if error.CommandFailed? {
        DecidesOnce(polls, command, before, max, i, made - 1);
      } else {
        GivingUpMeansNone(polls, command, before, max, made, i);
      }
    }
  }

  lemma QuietUntil(polls: Polls, command: string, before: string, i: nat)
    requires forall j: nat :: j < i ==> Busy(polls(j)) || Failing(polls(j))
    ensures NoneDecisive(polls, command, before, i)
  {
    hide Judge;
    forall j: nat | j < i ensures !Judge(polls(j), command, before).Decisive() {
      JudgeMeaning(polls(j), command, before);
    }
  }

  lemma DecidedThere(polls: Polls, command: string, before: string, i: nat, k: nat)
    requires NoneDecisive(polls, command, before, i) && Judge(polls(i), command, before).Decisive()
    requires NoneDecisive(polls, command, before, k) && Judge(polls(k), command, before).Decisive()
    ensures i == k
  {
    hide Judge;
    assert k < i ==> !Judge(polls(k), command, before).Decisive();
    assert i < k ==> !Judge(polls(i), command, before).Decisive();
  }

  /** An ordinary wait: the request is accepted, some polls find the lock held or fail, and then the
      command shows as done.  It succeeds exactly when fewer than five of those polls failed and the
      one that shows it is within the attempts. */
  lemma OrdinaryWaitIff(script: Script, command: string, max: nat, i: nat)
    requires Before(script.initial).Ok? && script.request.Reply? && 200 <= script.request.code < 300
    requires forall j: nat :: j < i ==> Busy(script.polls(j)) || Failing(script.polls(j))
    requires Done(script.polls(i), command, Before(script.initial).value)
    ensures Succeeds(script, command, max) <==> FailingPolls(script.polls, i) < 5 && i + 1 < max
  {
    var before := Before(script.initial).value;
    DoneSucceeds(script.polls(i), command, before);
    FailuresCounted(script.polls, command, before, i);
    QuietUntil(script.polls, command, before, i);
    hide Judge, Before, Done, Busy, Failing, FailingPolls, Failures, NoneDecisive;
    if Succeeds(script, command, max) {
      var k: nat :| SucceedsAt(script, command, max, k);
      DecidedThere(script.polls, command, before, i, k);
    }
    if FailingPolls(script.polls, i) < 5 && i + 1 < max {
      assert SucceedsAt(script, command, max, i);
    }
  }

  /** In particular on a new system, however long the lock is held within the attempts. */
  lemma BusyWaitSucceeds(script: Script, command: string, max: nat, busy: nat)
    requires script.initial.Reply? && script.initial.code == 404
    requires script.request.Reply? && 200 <= script.request.code < 300
    requires forall j: nat :: j < busy ==> Busy(script.polls(j))
    requires Done(script.polls(busy), command, "first call") && busy + 1 < max
    ensures Succeeds(script, command, max)
  {
    hide Succeeds, Done;
    BeforeMeaning(script.initial);
    NoneFailing(script.polls, busy);
    OrdinaryWaitIff(script, command, max, busy);
  }

  lemma {:induction false} NoneFailing(polls: Polls, n: nat)
    requires forall j: nat :: j < n ==> Busy(polls(j))
    ensures FailingPolls(polls, n) == 0
  {
    if n > 0 {
      NoneFailing(polls, n - 1);
    }
  }

  /** The status of a command that succeeded at an unrecorded time. */
  function Undated(command: string): Reply {
    var record := Object(map["cmd_type" := String(command), "cmd_status" := String("Success")]);
    Reply(200, Body("", Some(Object(map["most_recent_command" := record]))))
  }

  /** A whole wait fooled by it: nothing changes on the server, and the command counts as done. */
  lemma UnchangedStatusSucceeds(command: string, request: Reply, max: nat)
    requires command != "Success" && command != "missing" && max > 1
    requires request.Reply? && IsSuccess(request.code)
    ensures Succeeds(Script(Undated(command), request, _ => Undated(command)), command, max)
  {
    var reply, script := Undated(command), Script(Undated(command), request, _ => Undated(command));
    TwoLevels(reply.body.json.value, "most_recent_command", "cmd_type");
    TwoLevels(reply.body.json.value, "most_recent_command", "cmd_status");
    TwoLevels(reply.body.json.value, "most_recent_command", "timestamp");
    UnchangedAcceptedIff(reply, reply, command);
    assert SucceedsAt(script, command, max, 0);
  }

  /** Whether the status asks for an update. */
  predicate Required(output: Body) {
    var state := Or(ResponseField(["update_state"], output), "unknown");
    state != "Idle" && state != "Ready"
  }

  const REFRESH_ATTEMPTS: nat := 10 * 10
  const PREPARE_ATTEMPTS: nat := 2 * 60 * 10
  const ACTIVATE_ATTEMPTS: nat := 10 * 5

  ghost predicate Prepares(prepare: Script) { Succeeds(prepare, "prepare", 1200) }

  ghost predicate Activates(activate: Script) { Succeeds(activate, "activate", 50) }

  ghost predicate Refreshes(refresh: Script) { Succeeds(refresh, "refresh", 100) }

  /** The refresh was seen to succeed, with a state that asks for an update. */
  ghost predicate AsksForUpdate(refresh: Script) {
    exists i: nat :: SucceedsAt(refresh, "refresh", REFRESH_ATTEMPTS, i) && Required(refresh.polls(i).body)
  }

  ghost function ApplyTrace(prepare: Script, activate: Script): seq<Event> {
    Trace(prepare, "prepare", PREPARE_ATTEMPTS)
    + if Prepares(prepare) then Trace(activate, "activate", ACTIVATE_ATTEMPTS) else []
  }

  /** `apply`: prepare, then activate. */
  method Apply(prepare: Script, activate: Script) returns (r: Result<(), Error>, events: seq<Event>)
    ensures events == ApplyTrace(prepare, activate)
    ensures r.Ok? <==> Prepares(prepare) && Activates(activate)
    ensures r.Err? && r.error.PrepareUpdate? <==> !Prepares(prepare)
  {
    hide Succeeds;
    var prepared, first := WaitRequest(prepare, "prepare", WaitPolicy(500, PREPARE_ATTEMPTS));
    if prepared.Err? {
      return Err(PrepareUpdate(prepared.error)), first;
    }
    var activated, second := WaitRequest(activate, "activate", WaitPolicy(100, ACTIVATE_ATTEMPTS));
    events := first + second;
    if activated.Err? {
      return Err(activated.error), events;
    }
    r := Ok(());
  }

  /** `update::check` followed by `update::required`. */
  method CheckRequired(refresh: Script) returns (r: Result<bool, Error>, events: seq<Event>)
    ensures events == Trace(refresh, "refresh", REFRESH_ATTEMPTS)
    ensures r.Ok? <==> Refreshes(refresh)
    ensures r == Ok(true) <==> AsksForUpdate(refresh)
  {
    var checked;
    checked, events := WaitRequest(refresh, "refresh", WaitPolicy(100, REFRESH_ATTEMPTS));
    if checked.Err? {
      return Err(checked.error), events;
    }
    var state := ReadResponseField(["update_state"], checked.value.1);
    r := Ok(Or(state, "unknown") != "Idle" && Or(state, "unknown") != "Ready");
    assert r.value == Required(checked.value.1);
    AskedOnce(refresh, checked.value.1);
  }

  lemma AskedOnce(refresh: Script, status: Body)
    requires exists i: nat :: SucceedsAt(refresh, "refresh", REFRESH_ATTEMPTS, i) && status == refresh.polls(i).body
    ensures Required(status) <==> AsksForUpdate(refresh)
  {
    var i: nat :| SucceedsAt(refresh, "refresh", REFRESH_ATTEMPTS, i) && status == refresh.polls(i).body;
    forall j: nat | SucceedsAt(refresh, "refresh", REFRESH_ATTEMPTS, j)
      ensures i == j
    {
      DecidesOnce(refresh.polls, "refresh", Before(refresh.initial).value, REFRESH_ATTEMPTS, i, j);
    }
  }

  /** Whether the options and the refresh let the update go ahead. */
  ghost predicate Proceeds(check: bool, refresh: Script) { check ==> AsksForUpdate(refresh) }

  /** What a whole run does. */
  ghost function UpdateTrace(check: bool, reboot: bool, refresh: Script, prepare: Script, activate: Script): seq<Event> {
    (if check then Trace(refresh, "refresh", REFRESH_ATTEMPTS) else [])
    + (if Proceeds(check, refresh) then ApplyTrace(prepare, activate) else [])
    + (if Proceeds(check, refresh) && Prepares(prepare) && Activates(activate) && reboot then [Issued("reboot")] else [])
  }

  /** The `update apply` subcommand with its `--check` and `--reboot` options. */
  method UpdateApply(check: bool, reboot: bool, refresh: Script, prepare: Script, activate: Script, rebooting: Reply)
    returns (r: Result<(), Error>, events: seq<Event>)
    ensures events == UpdateTrace(check, reboot, refresh, prepare, activate)
    ensures r.Ok? <==>
            if Proceeds(check, refresh) then
              && Prepares(prepare) && Activates(activate)
              && (reboot ==> rebooting.Reply? && IsSuccess(rebooting.code))
            else Refreshes(refresh)
  {
    hide ApplyTrace, Trace, Succeeds, AsksForUpdate;
    events := [];
    if check {
      var required;
      required, events := CheckRequired(refresh);
      if required.Err? || !required.value {
        return if required.Err? then Err(required.error) else Ok(()), events;
      }
    }
    var applied, more := Apply(prepare, activate);
    events := events + more;
    if applied.Err? {
      return Err(applied.error), events;
    }
    if reboot {
      events := events + [Issued("reboot")];
      if rebooting.Unreachable? || !IsSuccess(rebooting.code) {
        return Err(RequestFailed("reboot")), events;
      }
    }
    r := Ok(());
  }

  /** A command is issued only after those it builds on were seen to succeed. */
  ghost predicate Ordered(events: seq<Event>) {
    forall i :: 0 <= i < |events| ==>
      && (events[i] == Issued("activate") ==> Observed("prepare") in events[..i])
      && (events[i] == Issued("reboot") ==> Observed("prepare") in events[..i] && Observed("activate") in events[..i])
  }

  /** In every run: activation follows a prepare seen to succeed, a reboot follows both and only
      on request, and with `--check` nothing but the refresh is issued unless that was seen to
      succeed with a state that asks for an update. */
  lemma UpdateSafety(check: bool, reboot: bool, refresh: Script, prepare: Script, activate: Script)
    ensures var events := UpdateTrace(check, reboot, refresh, prepare, activate);
            && Ordered(events)
            && (Issued("reboot") in events ==> reboot)
            && (check && (exists e :: e in events && e.command != "refresh") ==> AsksForUpdate(refresh))
  {
    hide Succeeds, AsksForUpdate;
    var first := if check then Trace(refresh, "refresh", REFRESH_ATTEMPTS) else [];
    var second := if Proceeds(check, refresh) then ApplyTrace(prepare, activate) else [];
    ApplyOrdered(prepare, activate);
    OrderedAfter(first, second);
    var events := first + second;
    if Proceeds(check, refresh) && Prepares(prepare) && Activates(activate) && reboot {
      OrderedReboot(events);
    } else {
      assert events + [] == events;
    }
  }

  /** The state a status reports. */
  function StateOf(body: Body): Option<string> {
    if body.json.None? then None else Nested(body.json.value, ["update_state"])
  }

  /** With `--check`, a refresh seen to succeed is followed by nothing when the state is Idle or
      Ready, and otherwise by what would have been done without the check. */
  lemma CheckedUpdate(reboot: bool, refresh: Script, prepare: Script, activate: Script, i: nat)
    requires SucceedsAt(refresh, "refresh", REFRESH_ATTEMPTS, i)
    ensures UpdateTrace(true, reboot, refresh, prepare, activate) ==
            [Issued("refresh"), Observed("refresh")]
            + if StateOf(refresh.polls(i).body) in {Some("Idle"), Some("Ready")} then []
              else UpdateTrace(false, reboot, refresh, prepare, activate)
  {
    RefreshTrace(refresh, i);
    RequiredState(refresh, i);
    AskedOnce(refresh, refresh.polls(i).body);
    AfterCheck(true, reboot, refresh, prepare, activate);
    AfterCheck(false, reboot, refresh, prepare, activate);
    hide Trace, AsksForUpdate, Required, StateOf, SucceedsAt, UpdateTrace, Unchecked;
  }

  /** What a run does when it goes ahead. */
  ghost function Unchecked(reboot: bool, prepare: Script, activate: Script): seq<Event> {
    ApplyTrace(prepare, activate)
    + if Prepares(prepare) && Activates(activate) && reboot then [Issued("reboot")] else []
  }

  lemma AfterCheck(check: bool, reboot: bool, refresh: Script, prepare: Script, activate: Script)
    ensures UpdateTrace(check, reboot, refresh, prepare, activate) ==
            if !check then Unchecked(reboot, prepare, activate)
            else
              Trace(refresh, "refresh", REFRESH_ATTEMPTS)
              + if AsksForUpdate(refresh) then Unchecked(reboot, prepare, activate) else []
  {
    hide ApplyTrace, Trace, Prepares, Activates, AsksForUpdate;
  }

  lemma RefreshTrace(refresh: Script, i: nat)
    requires SucceedsAt(refresh, "refresh", REFRESH_ATTEMPTS, i)
    ensures Trace(refresh, "refresh", REFRESH_ATTEMPTS) == [Issued("refresh"), Observed("refresh")]
    ensures refresh.polls(i).Reply?
  {
    assert Succeeds(refresh, "refresh", REFRESH_ATTEMPTS);
  }

  /** A refresh not seen to succeed is followed by nothing. */
  lemma UncheckedUpdate(reboot: bool, refresh: Script, prepare: Script, activate: Script)
    requires !Refreshes(refresh)
    ensures UpdateTrace(true, reboot, refresh, prepare, activate) ==
            if Before(refresh.initial).Ok? then [Issued("refresh")] else []
  {
    AskingSucceeds(refresh);
    hide ApplyTrace, Succeeds, AsksForUpdate, Before;
  }

  lemma AskingSucceeds(refresh: Script)
    ensures AsksForUpdate(refresh) ==> Refreshes(refresh)
  {
    hide SucceedsAt, Required;
  }

  lemma OneLevel(v: Json, key: string)
    requires v.Object?
    ensures AsStr(Walk(v, [key])) == Nested(v, [key])
  {
    assert [key][1..] == [];
    if key in v.members {
      assert Walk(v.members[key], []) == v.members[key];
    }
  }

  lemma RequiredState(refresh: Script, i: nat)
    requires SucceedsAt(refresh, "refresh", REFRESH_ATTEMPTS, i)
    ensures Required(refresh.polls(i).body) <==> StateOf(refresh.polls(i).body) !in {Some("Idle"), Some("Ready")}
  {
    var reply := refresh.polls(i);
    SuccessIsGenuine(reply, "refresh", Before(refresh.initial).value);
    assert reply.body.json.value.Object?;
    OneLevel(reply.body.json.value, "update_state");
    hide Walk, Nested, Judge, Before;
  }

  /** What applying does, command by command. */
  lemma ApplyProgress(prepare: Script, activate: Script)
    ensures var events := ApplyTrace(prepare, activate);
            && (Issued("prepare") in events <==> Before(prepare.initial).Ok?)
            && (Observed("prepare") in events <==> Prepares(prepare))
            && (Issued("activate") in events <==> Prepares(prepare) && Before(activate.initial).Ok?)
            && (Observed("activate") in events <==> Prepares(prepare) && Activates(activate))
            && (forall e :: e in events ==> e.command in {"prepare", "activate"})
            && Once(events)
  {
    SucceedsStarts(prepare, "prepare", PREPARE_ATTEMPTS);
    SucceedsStarts(activate, "activate", ACTIVATE_ATTEMPTS);
    hide Succeeds, Before;
  }

  predicate Once(events: seq<Event>) { forall i, j :: 0 <= i < j < |events| ==> events[i] != events[j] }

  lemma OnceJoined(a: seq<Event>, b: seq<Event>)
    requires Once(a) && Once(b) && forall e :: e in a ==> e !in b
    ensures Once(a + b)
  {
    var all := a + b;
    forall i, j | 0 <= i < j < |all| ensures all[i] != all[j] {
      if i < |a| <= j {
        assert all[i] in a && all[j] == b[j - |a|];
      }
    }
  }

  /** A trace in its three parts. */
  ghost predicate Parts(events: seq<Event>, first: seq<Event>, second: seq<Event>, third: seq<Event>) {
    && events == first + second + third
    && (forall e :: e in first ==> e.command == "refresh")
    && (forall e :: e in second ==> e.command in {"prepare", "activate"})
    && (forall e :: e in third ==> e.command == "reboot")
  }

  lemma PartsOnce(events: seq<Event>, first: seq<Event>, second: seq<Event>, third: seq<Event>)
    requires Parts(events, first, second, third) && Once(first) && Once(second) && Once(third)
    ensures Once(events)
  {
    OnceJoined(first, second);
    OnceJoined(first + second, third);
  }

  lemma InPart(events: seq<Event>, first: seq<Event>, second: seq<Event>, third: seq<Event>, e: Event)
    requires Parts(events, first, second, third)
    ensures e.command == "refresh" ==> (e in events <==> e in first)
    ensures e.command in {"prepare", "activate"} ==> (e in events <==> e in second)
    ensures e.command == "reboot" ==> (e in events <==> e in third)
  {
  }

  /** And nothing is held back: in every run prepare is issued when nothing stands against it and
      its first status is known, activate after a prepare seen to succeed, and a requested reboot
      after both.  No command is issued twice. */
  lemma UpdateProgress(check: bool, reboot: bool, refresh: Script, prepare: Script, activate: Script)
    ensures var events := UpdateTrace(check, reboot, refresh, prepare, activate);
            && (Issued("refresh") in events <==> check && Before(refresh.initial).Ok?)
            && (Issued("prepare") in events <==> (check ==> AsksForUpdate(refresh)) && Before(prepare.initial).Ok?)
            && (Observed("prepare") in events <==> Issued("prepare") in events && Prepares(prepare))
            && (Issued("activate") in events <==> Observed("prepare") in events && Before(activate.initial).Ok?)
            && (Observed("activate") in events <==> Issued("activate") in events && Activates(activate))
            && (Issued("reboot") in events <==> reboot && Observed("activate") in events)
            && Once(events)
  {
    hide *;
    var first, second, third := UpdateSplit(check, reboot, refresh, prepare, activate);
    var events := UpdateTrace(check, reboot, refresh, prepare, activate);
    PartsOnce(events, first, second, third);
    InPart(events, first, second, third, Issued("refresh"));
    InPart(events, first, second, third, Issued("prepare"));
    InPart(events, first, second, third, Observed("prepare"));
    InPart(events, first, second, third, Issued("activate"));
    InPart(events, first, second, third, Observed("activate"));
    InPart(events, first, second, third, Issued("reboot"));
  }

  /** The parts of a run, and what each holds. */
  lemma UpdateSplit(check: bool, reboot: bool, refresh: Script, prepare: Script, activate: Script)
    returns (first: seq<Event>, second: seq<Event>, third: seq<Event>)
    ensures Parts(UpdateTrace(check, reboot, refresh, prepare, activate), first, second, third)
    ensures Once(first) && Once(second) && Once(third)
    ensures Issued("refresh") in first <==> check && Before(refresh.initial).Ok?
    ensures Issued("prepare") in second <==> (check ==> AsksForUpdate(refresh)) && Before(prepare.initial).Ok?
    ensures Observed("prepare") in second <==> Issued("prepare") in second && Prepares(prepare)
    ensures Issued("activate") in second <==> Observed("prepare") in second && Before(activate.initial).Ok?
    ensures Observed("activate") in second <==> Issued("activate") in second && Activates(activate)
    ensures Issued("reboot") in third <==> reboot && Observed("activate") in second
  {
    var goes := Proceeds(check, refresh);
    first := if check then Trace(refresh, "refresh", REFRESH_ATTEMPTS) else [];
    second := if goes then ApplyTrace(prepare, activate) else [];
    third := if goes && Prepares(prepare) && Activates(activate) && reboot then [Issued("reboot")] else [];
    assert UpdateTrace(check, reboot, refresh, prepare, activate) == first + second + third;
    assert goes <==> (check ==> AsksForUpdate(refresh));
    hide *;
    RefreshProgress(check, refresh, first);
    AppliedPart(goes, prepare, activate, second);
    RebootPart(goes && Prepares(prepare) && Activates(activate) && reboot, third);
    ShowParts(UpdateTrace(check, reboot, refresh, prepare, activate), first, second, third);
  }

  lemma ShowParts(events: seq<Event>, first: seq<Event>, second: seq<Event>, third: seq<Event>)
    requires events == first + second + third
    requires forall e :: e in first ==> e.command == "refresh"
    requires forall e :: e in second ==> e.command in {"prepare", "activate"}
    requires forall e :: e in third ==> e.command == "reboot"
    ensures Parts(events, first, second, third)
  {
  }

  lemma RebootPart(reboots: bool, third: seq<Event>)
    requires third == if reboots then [Issued("reboot")] else []
    ensures Once(third) && (forall e :: e in third ==> e.command == "reboot")
    ensures Issued("reboot") in third <==> reboots
  {
  }

  lemma AppliedPart(goes: bool, prepare: Script, activate: Script, second: seq<Event>)
    requires second == if goes then ApplyTrace(prepare, activate) else []
    ensures Once(second) && (forall e :: e in second ==> e.command in {"prepare", "activate"})
    ensures Issued("prepare") in second <==> goes && Before(prepare.initial).Ok?
    ensures Observed("prepare") in second <==> Issued("prepare") in second && Prepares(prepare)
    ensures Issued("activate") in second <==> Observed("prepare") in second && Before(activate.initial).Ok?
    ensures Observed("activate") in second <==> Issued("activate") in second && Activates(activate)
    ensures Observed("activate") in second <==> goes && Prepares(prepare) && Activates(activate)
  {
    SucceedsStarts(prepare, "prepare", 1200);
    SucceedsStarts(activate, "activate", 50);
    hide ApplyTrace, Succeeds, Before;
    ApplyProgress(prepare, activate);
  }

  lemma RefreshProgress(check: bool, refresh: Script, events: seq<Event>)
    requires events == if check then Trace(refresh, "refresh", REFRESH_ATTEMPTS) else []
    ensures Once(events) && forall e :: e in events ==> e.command == "refresh"
    ensures Issued("refresh") in events <==> check && Before(refresh.initial).Ok?
  {
    SucceedsStarts(refresh, "refresh", REFRESH_ATTEMPTS);
    hide Succeeds, Before;
  }

  lemma ApplyOrdered(prepare: Script, activate: Script)
    ensures var events := ApplyTrace(prepare, activate);
            && Ordered(events) && Issued("reboot") !in events
            && (Prepares(prepare) && Activates(activate) ==>
                  Observed("prepare") in events && Observed("activate") in events)
  {
    hide Succeeds;
    SucceedsStarts(prepare, "prepare", PREPARE_ATTEMPTS);
    SucceedsStarts(activate, "activate", ACTIVATE_ATTEMPTS);
  }

  lemma SucceedsStarts(script: Script, command: string, max: nat)
    ensures Succeeds(script, command, max) ==> Before(script.initial).Ok?
  {
  }

  lemma OrderedAfter(refreshed: seq<Event>, more: seq<Event>)
    requires forall e :: e in refreshed ==> e.command == "refresh"
    requires Ordered(more)
    ensures Ordered(refreshed + more)
  {
    var all, n := refreshed + more, |refreshed|;
    forall i | 0 <= i < |all|
      ensures all[i] == Issued("activate") ==> Observed("prepare") in all[..i]
      ensures all[i] == Issued("reboot") ==> Observed("prepare") in all[..i] && Observed("activate") in all[..i]
    {
      if i < n {
        assert all[i] in refreshed;
      } else {
        assert all[i] == more[i - n] && all[..i] == refreshed + more[..i - n];
      }
    }
  }

  lemma OrderedReboot(events: seq<Event>)
    requires Ordered(events) && Observed("prepare") in events && Observed("activate") in events
    ensures Ordered(events + [Issued("reboot")])
  {
    var all := events + [Issued("reboot")];
    forall i | 0 <= i < |all|
      ensures all[i] == Issued("activate") ==> Observed("prepare") in all[..i]
      ensures all[i] == Issued("reboot") ==> Observed("prepare") in all[..i] && Observed("activate") in all[..i]
    {
      if i < |events| {
        assert all[i] == events[i] && all[..i] == events[..i];
      } else {
        assert all[..i] == events;
      }
    }
  }
}
