/** The QRadar Ariel search client of cp4s-notebooks/qradar-examples/qradar.py:
    credential headers chosen at construction, the AQL query augmented with
    LIMIT, START/STOP and PARAMETERS clauses, a status poll bounded by a
    deadline in minutes, a bounded retry when loading the results, and an
    optional delete of the search cursor.

    HTTP is not modelled: every request the client makes is recorded as a
    `Call`, and the server's answers are given as sequences, one element per
    request.  The wall clock is a sequence of readings, one per `time.time()`
    that decides control flow; times are whole seconds since the epoch. */
module QRadarClient {
  import opened Wrappers
  import opened Text
  import opened Json

  datatype QError =
    | NoCredentials                  // "No credentials supplied"
    | CannotStartSearch              // the POST did not answer 201
    | NotAnObject                    // `.get` on a JSON answer that is not an object
    | SearchDidNotFinish(status: Value)
    | SearchTimedOut(minutes: int)
    | CouldNotLoadResults            // every retry of the results GET failed
    | NoResultValue                  // `list(...values())[0]` of an empty object

  /** One request put on the wire, with the headers it carried. */
  datatype Call =
    | PostSearch(query: string, headers: map<string, string>)
    | GetStatus(id: Value, headers: map<string, string>)
    | GetResults(id: Value, headers: map<string, string>)
    | DeleteSearch(id: Value, headers: map<string, string>)

  /** How the status poll ended. */
  datatype PollOutcome =
    | Completed
    | Failed(status: Value)          // CANCELED or ERROR
    | TimedOut
    | PollBroken                     // a status answer that is not a JSON object

  const FormContentType := "application/x-www-form-urlencoded"

  /** Python truthiness of an optional string argument. */
  predicate Given(o: Option<string>) {
    o.Some? && o.value != ""
  }

  /** The headers `__init__` builds: `Accept` always, the username and
      password when both are given, else the SEC token, else no client. */
  function CredentialHeaders(username: Option<string>, password: Option<string>, token: Option<string>)
    : (r: Option<map<string, string>>)
    ensures r.None? <==> !(Given(username) && Given(password)) && !Given(token)
    ensures r.Some? ==> "Accept" in r.value && r.value["Accept"] == "application/json"
    ensures r.Some? && Given(username) && Given(password) ==>
              r.value.Keys == {"Accept", "username", "password"}
              && r.value["username"] == username.value && r.value["password"] == password.value
    ensures r.Some? && !(Given(username) && Given(password)) ==>
              r.value.Keys == {"Accept", "SEC"} && r.value["SEC"] == token.value
  {
    var accept := map["Accept" := "application/json"];
    if Given(username) && Given(password) then
      Some(accept["username" := username.value]["password" := password.value])
    else if Given(token) then
      Some(accept["SEC" := token.value])
    else
      None
  }

  /** `'\n LIMIT {limit}'` when `limit` is truthy, else nothing. */
  function LimitClause(limit: Option<int>): (r: string)
    ensures r != "" <==> limit.Some? && limit.value != 0
    ensures r != "" ==> Split(r, 8) == ("\n LIMIT ", IntToString(limit.value))
  {
    if limit.Some? && limit.value != 0 then "\n LIMIT " + IntToString(limit.value) else ""
  }

  /** `'\n START {start_epoch} STOP {end_epoch}'` when a start time is given:
      the start in milliseconds printed as a float, the end (or, without
      one, the current time) in whole milliseconds. */
  function TimeClause(startTime: Option<int>, endTime: Option<int>, now: int): (r: string)
    ensures r != "" <==> startTime.Some?
    ensures r != "" ==>
              var start := IntToString(startTime.value * 1000) + ".0";
              var stop := IntToString(if endTime.Some? then endTime.value * 1000 else now * 1000);
              Split(r, 8).0 == "\n START " && Split(Split(r, 8).1, |start|) == (start, " STOP " + stop)
  {
    if startTime.Some? then
      var start := IntToString(startTime.value * 1000) + ".0";
      var stop := IntToString(if endTime.Some? then endTime.value * 1000 else now * 1000);
      var tail := " STOP " + stop;
      assert (start + tail)[..|start|] == start && (start + tail)[|start|..] == tail;
      var r := "\n START " + (start + tail);
      assert r[..8] == "\n START " && r[8..] == start + tail;
      r
    else ""
  }

  /** The priorities QRadar accepts; any other is dropped without a word. */
  const Priorities: set<string> := {"LOW", "NORMAL", "HIGH"}

  /** `"\n PARAMETERS PRIORITY='{priority}'"` for a known priority. */
  function PriorityClause(priority: Option<string>): (r: string)
    ensures r != "" <==> priority.Some? && priority.value in Priorities
    ensures r != "" ==> Split(r, 22) == ("\n PARAMETERS PRIORITY=", "'" + priority.value + "'")
  {
    if priority.Some? && priority.value in Priorities then
      "\n PARAMETERS PRIORITY=" + ("'" + priority.value + "'")
    else ""
  }

  /** The query `search` submits. */
  function Query(aql: string, startTime: Option<int>, endTime: Option<int>, limit: Option<int>,
                 priority: Option<string>, now: int): string
  {
    aql + LimitClause(limit) + TimeClause(startTime, endTime, now) + PriorityClause(priority)
  }

  /** The caller's text is always kept whole at the front, and the clauses
      follow in the order LIMIT, START/STOP, PARAMETERS: each present clause
      starts right where the ones before it end. */
  lemma QueryLayout(aql: string, startTime: Option<int>, endTime: Option<int>, limit: Option<int>,
                    priority: Option<string>, now: int)
    ensures var q := Query(aql, startTime, endTime, limit, priority, now);
            var l, t, p := LimitClause(limit), TimeClause(startTime, endTime, now), PriorityClause(priority);
            |q| == |aql| + |l| + |t| + |p|
            && q[..|aql|] == aql
            && q[|aql|..|aql| + |l|] == l
            && q[|aql| + |l|..|aql| + |l| + |t|] == t
            && q[|aql| + |l| + |t|..] == p
  {
    Pieces(aql, LimitClause(limit), TimeClause(startTime, endTime, now), PriorityClause(priority));
  }

  /** Where each of four concatenated strings lies in the result. */
  lemma Pieces(a: string, b: string, c: string, d: string)
    ensures var q := a + b + c + d;
            |q| == |a| + |b| + |c| + |d|
            && q[..|a|] == a && q[|a|..|a| + |b|] == b
            && q[|a| + |b|..|a| + |b| + |c|] == c && q[|a| + |b| + |c|..] == d
  {
    var q := a + b + c + d;
    assert q[..|a|] == a;
    assert q[|a|..|a| + |b|] == b;
    assert q[|a| + |b|..|a| + |b| + |c|] == c;
    assert q[|a| + |b| + |c|..] == d;
  }

  /** The status of a poll answer: `resp.json().get('status')`, which is
      `None` when the key is missing and fails when the answer is not an
      object. */
  function StatusOf(answer: Value): (r: Option<Value>)
    ensures r.None? <==> !answer.Dict?
    ensures r.Some? && r.value != Null ==> exists i :: 0 <= i < |answer.entries| && answer.entries[i] == ("status", r.value)
  {
    if answer.Dict? then
      var s := Lookup(answer.entries, "status");
      Some(if s.Some? then s.value else Null)
    else None
  }

  /** A status that ends the poll. */
  predicate Terminal(status: Value) {
    status == Str("CANCELED") || status == Str("ERROR") || status == Str("COMPLETED")
  }

  /** A poll answer that lets the loop go on. */
  predicate KeepsPolling(answer: Value) {
    StatusOf(answer).Some? && !Terminal(StatusOf(answer).value)
  }

  /** How a poll answer that stops the loop ends it. */
  function Verdict(answer: Value): (o: PollOutcome)
    requires !KeepsPolling(answer)
    ensures o != TimedOut
    ensures o == PollBroken <==> !answer.Dict?
    ensures o.Failed? ==> o.status in {Str("CANCELED"), Str("ERROR")}
  {
    var status := StatusOf(answer);
    if status.None? then PollBroken
    else if status.value == Str("COMPLETED") then Completed
    else Failed(status.value)
  }

  /** How many result GETs `_get_results(id, attempt)` may make: it retries
      while `attempt <= 10`. */
  function Budget(attempt: nat): (n: nat)
    ensures n >= 1
    ensures attempt == 0 ==> n == 12
  {
    if attempt <= 10 then 12 - attempt else 1
  }

  /** `n` copies of one call. */
  function Repeated(c: Call, n: nat): (r: seq<Call>)
    ensures |r| == n && forall i :: 0 <= i < n ==> r[i] == c
  {
    seq(n, _ => c)
  }

  /** The search id in the answer to the POST: `resp.json().get('search_id')`. */
  function SearchId(body: Value): (r: Option<Value>)
    ensures r.None? <==> !body.Dict?
  {
    if body.Dict? then
      var v := Lookup(body.entries, "search_id");
      Some(if v.Some? then v.value else Null)
    else None
  }

  /** The `while/else` poll from poll `k` on, against `deadline`: the
      outcome and how many status GETs it makes in all. */
  function PollRun(clock: seq<int>, answers: seq<Value>, deadline: int, k: nat): (o: (PollOutcome, nat))
    requires k + 1 < |clock| && |answers| >= |clock| && clock[|clock| - 1] >= deadline
    ensures k <= o.1 && o.1 + 1 < |clock|
    ensures o.0.Failed? ==> o.0.status in {Str("CANCELED"), Str("ERROR")}
    decreases |clock| - k
  {
    if clock[k + 1] >= deadline then (TimedOut, k)
    else if KeepsPolling(answers[k]) then
      assert k + 2 < |clock| by {
        assert clock[k + 1] < deadline <= clock[|clock| - 1];
      }
      PollRun(clock, answers, deadline, k + 1)
    else (Verdict(answers[k]), k + 1)
  }

  /** The requests after the POST are plain GETs and DELETEs; only a search
      that ran out of time, or whose results loaded with cleanup on, ends
      with a DELETE, and one that failed on the server makes none. */
  lemma AwaitedFacts(id: Value, headers: map<string, string>, timeout: int, cleanup: bool, clock: seq<int>,
                     statusAnswers: seq<Value>, resultAnswers: seq<(int, Value)>)
    requires |clock| >= 2 && clock[|clock| - 1] >= clock[0] + timeout * 60
    requires |statusAnswers| >= |clock| && |resultAnswers| >= 12
    ensures var (r, calls) := Awaited(id, headers, timeout, cleanup, clock, statusAnswers, resultAnswers);
            && PlainCalls(calls, headers)
            && (r.Success? ==> calls != [] && (calls[|calls| - 1].DeleteSearch? <==> cleanup))
            && (r.Failure? && r.error.SearchDidNotFinish? ==>
                  r.error.status in {Str("CANCELED"), Str("ERROR")} && NoDelete(calls))
            && (r.Failure? && r.error.SearchTimedOut? ==>
                  r.error.minutes == timeout && calls != [] && calls[|calls| - 1].DeleteSearch?)
            && |calls| <= |clock| + 12
  {
    var poll := PollRun(clock, statusAnswers, clock[0] + timeout * 60, 0);
    var pollCalls := Repeated(GetStatus(id, headers), poll.1);
    if poll.0 == Completed {
      var fetch := FetchRun(0, resultAnswers);
      var fetchCalls := Repeated(GetResults(id, headers), fetch.1);
      var tail: seq<Call> := if fetch.0.Success? && cleanup then [DeleteSearch(id, headers)] else [];
      assert Awaited(id, headers, timeout, cleanup, clock, statusAnswers, resultAnswers)
             == (fetch.0, pollCalls + fetchCalls + tail);
      AppendPlain(pollCalls, fetchCalls, headers);
      AppendPlain(pollCalls + fetchCalls, tail, headers);
    } else if poll.0 == TimedOut {
      assert Awaited(id, headers, timeout, cleanup, clock, statusAnswers, resultAnswers)
             == (Failure(SearchTimedOut(timeout)), pollCalls + [DeleteSearch(id, headers)]);
      AppendPlain(pollCalls, [DeleteSearch(id, headers)], headers);
    }
  }

  /** What a 200 answer to the result GET yields: the first value of the
      JSON object. */
  function ResultOf(body: Value): (r: Result<Value, QError>)
    ensures r.Success? <==> body.Dict? && body.entries != []
  {
    if !body.Dict? then Failure(NotAnObject)
    else if body.entries == [] then Failure(NoResultValue)
    else Success(body.entries[0].1)
  }

  /** `_get_results(id, attempt)` against the answers in turn: the result
      and how many GETs it makes. */
  function FetchRun(attempt: nat, answers: seq<(int, Value)>): (o: (Result<Value, QError>, nat))
    requires |answers| >= Budget(attempt)
    ensures 1 <= o.1 <= Budget(attempt)
    ensures o.0.Failure? ==> o.0.error in {CouldNotLoadResults, NotAnObject, NoResultValue}
    decreases Budget(attempt)
  {
    if answers[0].0 != 200 then
      if attempt <= 10 then
        var o := FetchRun(attempt + 1, answers[1..]);
        (o.0, o.1 + 1)
      else (Failure(CouldNotLoadResults), 1)
    else (ResultOf(answers[0].1), 1)
  }

  /** `search` once the search `id` has started: the result and the
      requests after the POST, from the poll outcome and the result
      fetch. */
  function Awaited(id: Value, headers: map<string, string>, timeout: int, cleanup: bool, clock: seq<int>,
                   statusAnswers: seq<Value>, resultAnswers: seq<(int, Value)>): (Result<Value, QError>, seq<Call>)
    requires |clock| >= 2 && clock[|clock| - 1] >= clock[0] + timeout * 60
    requires |statusAnswers| >= |clock| && |resultAnswers| >= 12
  {
    var poll := PollRun(clock, statusAnswers, clock[0] + timeout * 60, 0);
    var pollCalls := Repeated(GetStatus(id, headers), poll.1);
    match poll.0
    case TimedOut => (Failure(SearchTimedOut(timeout)), pollCalls + [DeleteSearch(id, headers)])
    case Failed(status) => (Failure(SearchDidNotFinish(status)), pollCalls)
    case PollBroken => (Failure(NotAnObject), pollCalls)
    case Completed =>
      var fetch := FetchRun(0, resultAnswers);
      (fetch.0, pollCalls + Repeated(GetResults(id, headers), fetch.1)
                + (if fetch.0.Success? && cleanup then [DeleteSearch(id, headers)] else []))
  }

  class QRadar {
    const console: string
    const timeout: int               // minutes
    const cleanupResults: bool
    var headers: map<string, string>

    constructor (console: string, timeout: int, cleanupResults: bool, headers: map<string, string>)
      ensures this.console == console && this.timeout == timeout
      ensures this.cleanupResults == cleanupResults && this.headers == headers
    {
      this.console := console;
      this.timeout := timeout;
      this.cleanupResults := cleanupResults;
      this.headers := headers;
    }

    /** `QRadar.__init__`: the headers are filled in one by one, and a
        client without credentials is refused. */
    static method Create(console: string, username: Option<string>, password: Option<string>,
                         token: Option<string>, timeout: int, cleanupResults: bool)
      returns (r: Result<QRadar, QError>)
      ensures r.Failure? <==> CredentialHeaders(username, password, token).None?
      ensures r.Failure? ==> r.error == NoCredentials
      ensures r.Success? ==> fresh(r.value) && r.value.console == console && r.value.timeout == timeout
                             && r.value.cleanupResults == cleanupResults
                             && r.value.headers == CredentialHeaders(username, password, token).value
    {
      var headers := map["Accept" := "application/json"];
      if Given(username) && Given(password) {
        headers := headers["username" := username.value];
        headers := headers["password" := password.value];
      } else if Given(token) {
        headers := headers["SEC" := token.value];
      } else {
        return Failure(NoCredentials);
      }
      var client := new QRadar(console, timeout, cleanupResults, headers);
      return Success(client);
    }

    /** `_get_headers`: a copy of the client's headers.  Maps are values, so
        what the caller adds to the copy never reaches the client. */
    function RequestHeaders(): (h: map<string, string>)
      reads this
      ensures h == headers
    {
      headers
    }

    /** The query building at the top of `search`, one `+=` per clause. */
    method BuildQuery(aql: string, startTime: Option<int>, endTime: Option<int>, limit: Option<int>,
                      priority: Option<string>, now: int) returns (query: string)
      ensures query == Query(aql, startTime, endTime, limit, priority, now)
    {
      query := aql;
      if limit.Some? && limit.value != 0 {
        query := query + ("\n LIMIT " + IntToString(limit.value));
      }
      assert query == aql + LimitClause(limit);
      if startTime.Some? {
        var startEpoch := IntToString(startTime.value * 1000) + ".0";
        var endEpoch := if endTime.Some? then endTime.value * 1000 else now * 1000;
        query := query + ("\n START " + (startEpoch + (" STOP " + IntToString(endEpoch))));
      }
      assert query == aql + LimitClause(limit) + TimeClause(startTime, endTime, now);
      if priority.Some? && priority.value != "" && priority.value in Priorities {
        query := query + ("\n PARAMETERS PRIORITY=" + ("'" + priority.value + "'"));
      }
    }

    /** `_start_search`: POSTs the query with a form content type added to a
        copy of the headers; anything but 201 is an error, and the search id
        is read from the answer. */
    method StartSearch(query: string, status: int, body: Value) returns (r: Result<Value, QError>, call: Call)
      ensures call == PostSearch(query, headers["Content-Type" := FormContentType])
      ensures status != 201 ==> r == Failure(CannotStartSearch)
      ensures status == 201 && body.Dict? ==> r == Success(SearchId(body).value)
      ensures status == 201 && !body.Dict? ==> r == Failure(NotAnObject)
    {
      var h := RequestHeaders();
      h := h["Content-Type" := FormContentType];
      call := PostSearch(query, h);
      if status != 201 {
        return Failure(CannotStartSearch), call;
      }
      var id := SearchId(body);
      if id.None? {
        return Failure(NotAnObject), call;
      }
      return Success(id.value), call;
    }

    /** The `while/else` poll of `search`.  `clock[0]` is the start of the
        poll and `clock[k + 1]` the reading the loop test takes before poll
        `k`; `answers[k]` is the answer to poll `k`.  The last reading is
        past the deadline: time goes on. */
    method Poll(id: Value, clock: seq<int>, answers: seq<Value>)
      returns (outcome: PollOutcome, polls: nat, calls: seq<Call>)
      requires |clock| >= 2 && clock[|clock| - 1] >= clock[0] + timeout * 60
      requires |answers| >= |clock|
      ensures polls + 1 < |clock| && polls < |answers|
      ensures forall k :: 1 <= k <= polls ==> clock[k] < clock[0] + timeout * 60
      ensures forall k :: 0 <= k < polls - 1 ==> KeepsPolling(answers[k])
      ensures outcome == TimedOut ==>
                clock[polls + 1] >= clock[0] + timeout * 60
                && (polls == 0 || KeepsPolling(answers[polls - 1]))
                && calls == Repeated(GetStatus(id, headers), polls) + [DeleteSearch(id, headers)]
      ensures outcome != TimedOut ==>
                polls >= 1 && !KeepsPolling(answers[polls - 1]) && outcome == Verdict(answers[polls - 1])
                && calls == Repeated(GetStatus(id, headers), polls)
      ensures (outcome, polls) == PollRun(clock, answers, clock[0] + timeout * 60, 0)
    {
      var deadline := clock[0] + timeout * 60;
      polls := 0;
      calls := [];
      while clock[polls + 1] < deadline
        invariant polls + 1 < |clock|
        invariant forall k :: 1 <= k <= polls ==> clock[k] < deadline
        invariant forall k :: 0 <= k < polls ==> KeepsPolling(answers[k])
        invariant calls == Repeated(GetStatus(id, headers), polls)
        invariant PollRun(clock, answers, deadline, 0) == PollRun(clock, answers, deadline, polls)
        decreases |clock| - polls
      {
        calls := calls + [GetStatus(id, RequestHeaders())];
        var status := StatusOf(answers[polls]);
        polls := polls + 1;
        assert polls + 1 < |clock| by {
          assert clock[polls] < deadline <= clock[|clock| - 1];
        }
        if status.None? {
          return PollBroken, polls, calls;
        }
        if Str("CANCELED") == status.value || Str("ERROR") == status.value {
          return Failed(status.value), polls, calls;
        } else if status.value == Str("COMPLETED") {
          return Completed, polls, calls;
        }
      }
      calls := calls + [DeleteSearch(id, RequestHeaders())];
      outcome := TimedOut;
    }

    /** `_get_results(id, attempt)`: any answer but 200 is retried while
        `attempt <= 10`; a 200 answer yields the first value of the JSON
        object, whatever its key. */
    method FetchResults(id: Value, attempt: nat, answers: seq<(int, Value)>)
      returns (r: Result<Value, QError>, gets: nat)
      requires |answers| >= Budget(attempt)
      decreases Budget(attempt)
      ensures 1 <= gets <= Budget(attempt)
      ensures forall k :: 0 <= k < gets - 1 ==> answers[k].0 != 200
      ensures answers[gets - 1].0 != 200 <==> r == Failure(CouldNotLoadResults)
      ensures answers[gets - 1].0 != 200 ==> gets == Budget(attempt)
      ensures answers[gets - 1].0 == 200 ==>
                var body := answers[gets - 1].1;
                if !body.Dict? then r == Failure(NotAnObject)
                else if body.entries == [] then r == Failure(NoResultValue)
                else r == Success(body.entries[0].1)
      ensures (r, gets) == FetchRun(attempt, answers)
    {
      var status := answers[0].0;
      if status != 200 {
        if attempt <= 10 {
          var rest := answers[1..];
          r, gets := FetchResults(id, attempt + 1, rest);
          assert forall k :: 0 <= k < gets ==> rest[k] == answers[k + 1];
          gets := gets + 1;
          return;
        } else {
          return Failure(CouldNotLoadResults), 1;
        }
      }
      var body := answers[0].1;
      gets := 1;
      if !body.Dict? {
        r := Failure(NotAnObject);
      } else if body.entries == [] {
        r := Failure(NoResultValue);
      } else {
        r := Success(body.entries[0].1);
      }
    }

    /** `search` once the search has started: poll until it is finished,
        load the results, and delete the cursor when `cleanup_results` is
        set.  A search that failed on the server is not deleted; one that
        ran out of time is. */
    method AwaitResults(id: Value, clock: seq<int>, statusAnswers: seq<Value>, resultAnswers: seq<(int, Value)>)
      returns (r: Result<Value, QError>, calls: seq<Call>)
      requires |clock| >= 2 && clock[|clock| - 1] >= clock[0] + timeout * 60
      requires |statusAnswers| >= |clock| && |resultAnswers| >= 12
      ensures PlainCalls(calls, headers)
      ensures r.Success? ==> calls != [] && (calls[|calls| - 1].DeleteSearch? <==> cleanupResults)
      ensures r.Failure? && r.error.SearchDidNotFinish? ==>
                r.error.status in {Str("CANCELED"), Str("ERROR")} && NoDelete(calls)
      ensures r.Failure? && r.error.SearchTimedOut? ==>
                r.error.minutes == timeout && calls != [] && calls[|calls| - 1].DeleteSearch?
      ensures |calls| <= |clock| + 12
      ensures (r, calls) == Awaited(id, headers, timeout, cleanupResults, clock, statusAnswers, resultAnswers)
    {
      var outcome, polls, pollCalls := Poll(id, clock, statusAnswers);
      calls := pollCalls;
      if outcome != Completed {
        if outcome == TimedOut {
          r := Failure(SearchTimedOut(timeout));
        } else if outcome.Failed? {
          r := Failure(SearchDidNotFinish(outcome.status));
        } else {
          r := Failure(NotAnObject);
        }
        AwaitedFacts(id, headers, timeout, cleanupResults, clock, statusAnswers, resultAnswers);
        return;
      }
      var results, gets := FetchResults(id, 0, resultAnswers);
      calls := calls + Repeated(GetResults(id, RequestHeaders()), gets);
      if results.Success? && cleanupResults {
        calls := calls + [DeleteSearch(id, RequestHeaders())];
      } else {
        assert calls + [] == calls;
      }
      r := results;
      AwaitedFacts(id, headers, timeout, cleanupResults, clock, statusAnswers, resultAnswers);
    }

    /** `search`: build the query, start the search, then wait for and load
        its results. */
    method Search(aql: string, startTime: Option<int>, endTime: Option<int>, limit: Option<int>,
                  priority: Option<string>, now: int, postStatus: int, postBody: Value,
                  clock: seq<int>, statusAnswers: seq<Value>, resultAnswers: seq<(int, Value)>)
      returns (r: Result<Value, QError>, calls: seq<Call>)
      requires |clock| >= 2 && clock[|clock| - 1] >= clock[0] + timeout * 60
      requires |statusAnswers| >= |clock| && |resultAnswers| >= 12
      ensures calls != []
      ensures calls[0] == PostSearch(Query(aql, startTime, endTime, limit, priority, now),
                                     headers["Content-Type" := FormContentType])
      ensures PlainCalls(calls[1..], headers)
      ensures postStatus != 201 ==> r == Failure(CannotStartSearch) && calls[1..] == []
      ensures r.Success? ==> postStatus == 201 && postBody.Dict?
      ensures r.Success? ==> calls[1..] != [] && (calls[|calls| - 1].DeleteSearch? <==> cleanupResults)
      ensures r.Failure? && r.error.SearchDidNotFinish? ==>
                r.error.status in {Str("CANCELED"), Str("ERROR")} && NoDelete(calls[1..])
      ensures r.Failure? && r.error.SearchTimedOut? ==>
                r.error.minutes == timeout && calls[1..] != [] && calls[|calls| - 1].DeleteSearch?
      ensures |calls[1..]| <= |clock| + 12
      ensures postStatus == 201 && !postBody.Dict? ==> r == Failure(NotAnObject) && calls[1..] == []
      ensures postStatus == 201 && postBody.Dict? ==>
                (r, calls[1..]) == Awaited(SearchId(postBody).value, headers, timeout, cleanupResults,
                                           clock, statusAnswers, resultAnswers)
    {
      var query := BuildQuery(aql, startTime, endTime, limit, priority, now);
      var started, post := StartSearch(query, postStatus, postBody);
      var rest := [];
      if started.Success? {
        r, rest := AwaitResults(started.value, clock, statusAnswers, resultAnswers);
      } else {
        r := Failure(started.error);
      }
      calls := [post] + rest;
      assert calls[0] == post && calls[1..] == rest;
      assert rest != [] ==> calls[|calls| - 1] == rest[|rest| - 1];
    }
  }

  /** Requests after the POST: none of them is a POST, and each carries
      exactly the client's headers. */
  ghost predicate PlainCalls(calls: seq<Call>, headers: map<string, string>) {
    forall i :: 0 <= i < |calls| ==> !calls[i].PostSearch? && calls[i].headers == headers
  }

  /** No request deletes the search. */
  ghost predicate NoDelete(calls: seq<Call>) {
    forall i :: 0 <= i < |calls| ==> !calls[i].DeleteSearch?
  }

  lemma AppendPlain(a: seq<Call>, b: seq<Call>, headers: map<string, string>)
    requires PlainCalls(a, headers) && PlainCalls(b, headers)
    ensures PlainCalls(a + b, headers)
  {
    assert forall i :: |a| <= i < |a + b| ==> (a + b)[i] == b[i - |a|];
  }
}
