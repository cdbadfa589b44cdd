/**
 * The four stages of `MultiAgentSystem` as functions from the shared state
 * before a stage to the state after it. The language model, the SQL engine
 * and `json.loads` are oracles: the model's reply to its n-th call is
 * `reply(n)`, a query's outcome is `run(sql)`. A trace records every prompt
 * sent and every query executed, so the number of calls is observable.
 */
module Pipeline {
  import opened Wrappers
  import opened Text
  import opened Frames
  import opened Replies
  import opened Validation
  import Graph

  /** A value decoded by `json.loads`. */
  datatype Json =
    | JNull
    | JBool(b: bool)
    | JInt(i: int)
    | JFloat(x: real)
    | JString(s: string)
    | JArray(items: seq<Json>)
    | JObject(fields: map<string, Json>)

  /** The Python type of a decoded value. */
  function TypeName(j: Json): string
  {
    match j
    case JNull => "NoneType"
    case JBool(_) => "bool"
    case JInt(_) => "int"
    case JFloat(_) => "float"
    case JString(_) => "str"
    case JArray(_) => "list"
    case JObject(_) => "dict"
  }

  /** What one model call gives back: a message, or the text of the exception
      it raised. */
  datatype Reply = Answer(content: string) | Raised(message: string)

  /** The inputs each prompt is built from; the wording is not modelled. */
  datatype Prompt =
    | UnderstandPrompt(query: string)
    | SqlPrompt(query: string, intent: Json)
    | FixPrompt(failure: string, sql: string)
    | NarratePrompt(query: string, intent: Json, data: Frame, validation: Option<ValidationResult>)

  /** `execute_query`: the rows, or the text of the DuckDB error. */
  datatype ExecResult = Rows(frame: Frame) | Failed(message: string)

  datatype Oracles = Oracles(reply: nat -> Reply, run: string -> ExecResult, parseJson: string -> Option<Json>)

  datatype Trace = Trace(prompts: seq<Prompt>, executed: seq<string>)

  /** `AgentState`. `validationResult` is `None` while it is still `{}`; the
      `messages` field is never written and is left out. */
  datatype Snapshot = Snapshot(
    userQuery: string, mode: Json, queryIntent: Json, sqlQuery: string,
    extractedData: Option<Frame>, validationResult: Option<ValidationResult>,
    finalResponse: string, error: string)

  datatype Run = Run(state: Snapshot, trace: Trace)

  const UnderstandingFailed: string := "Query understanding failed: "
  const ExtractionFailed: string := "Data extraction failed: "
  const ExecutionFailed: string := "Query execution failed: "
  const FixFailed: string := "Query execution failed even after fix attempt: "
  const IssuePrefix: string := "I encountered an issue: "
  const IssueSuffix: string := "\n\nPlease rephrase your question or check if the data exists."
  const NoDataResponse: string := "I couldn't find any data matching your query. Please try rephrasing your question."
  const NarrationFailed: string := "I have the data but encountered an error generating the response: "

  /** The state `process_query` starts from. */
  function InitialState(userQuery: string, mode: string): (s: Snapshot)
    ensures s.error == "" && s.extractedData.None? && s.validationResult.None?
  {
    Snapshot(userQuery, JString(mode), JObject(map[]), "", None, None, "", "")
  }

  /** The message of the `AttributeError` raised by `.get` on a decoded value
      that is not an object. */
  function NoGet(j: Json): string
  {
    "'" + TypeName(j) + "' object has no attribute 'get'"
  }

  /** The intent recorded when the reply is not JSON. */
  function FallbackIntent(content: string, mode: Json): (j: Json)
    ensures j.JObject? && "mode" in j.fields && j.fields["mode"] == mode
  {
    JObject(map[
      "intent" := JString(content), "mode" := mode,
      "tables_needed" := JArray([]), "columns_needed" := JArray([]),
      "filters" := JArray([]), "aggregations" := JArray([]),
      "time_period" := JNull, "comparison" := JNull])
  }

  /** The reply to the next model call. */
  function ReplyTo(t: Trace, o: Oracles): Reply
  {
    o.reply(|t.prompts|)
  }

  function Asked(t: Trace, p: Prompt): Trace
  {
    t.(prompts := t.prompts + [p])
  }

  function Ran(t: Trace, sql: string): Trace
  {
    t.(executed := t.executed + [sql])
  }

  // ---------------------------------------------------------------------------
  // The stages

  /** `query_understanding_agent` */
  function Understanding(r: Run, o: Oracles): Run
  {
    var t := Asked(r.trace, UnderstandPrompt(r.state.userQuery));
    match ReplyTo(r.trace, o)
    case Raised(m) => Run(r.state.(error := UnderstandingFailed + m), t)
    case Answer(c) =>
      var intent := match o.parseJson(c) case Some(j) => j case None => FallbackIntent(c, r.state.mode);
      var s := r.state.(queryIntent := intent);
      if intent.JObject? then
        Run(s.(mode := if "mode" in intent.fields then intent.fields["mode"] else s.mode), t)
      else
        Run(s.(error := UnderstandingFailed + NoGet(intent)), t)
  }

  /** The repair attempt after a fixable execution error of `sql`. */
  function Repair(s: Snapshot, t: Trace, failure: string, sql: string, o: Oracles): Run
  {
    var asked := Asked(t, FixPrompt(failure, sql));
    match ReplyTo(t, o)
    case Raised(m) => Run(s.(error := FixFailed + m, extractedData := Some(EmptyFrame)), asked)
    case Answer(c) =>
      var fixed := CleanReply(c);
      var ran := Ran(asked, fixed);
      match o.run(fixed)
      case Rows(df) => Run(s.(extractedData := Some(df), sqlQuery := fixed), ran)
      case Failed(m) => Run(s.(error := FixFailed + m, extractedData := Some(EmptyFrame)), ran)
  }

  /** Running the generated query `sql`, with one repair attempt when the
      error looks fixable. */
  function Execute(s: Snapshot, t: Trace, sql: string, o: Oracles): Run
  {
    var ran := Ran(t, sql);
    match o.run(sql)
    case Rows(df) => Run(s.(extractedData := Some(df)), ran)
    case Failed(msg) =>
      if IsFixable(msg) then Repair(s, ran, msg, sql, o)
      else Run(s.(error := ExecutionFailed + msg, extractedData := Some(EmptyFrame)), ran)
  }

  /** `data_extraction_agent` */
  function Extraction(r: Run, o: Oracles): Run
  {
    var t := Asked(r.trace, SqlPrompt(r.state.userQuery, r.state.queryIntent));
    match ReplyTo(r.trace, o)
    case Raised(m) => Run(r.state.(error := ExtractionFailed + m), t)
    case Answer(c) => Execute(r.state.(sqlQuery := CleanReply(c)), t, CleanReply(c), o)
  }

  /** `validation_agent`; evaluating `.empty` on a missing result raises, so
      the data must be there. */
  function Validating(r: Run): Run
    requires r.state.extractedData.Some?
  {
    Run(r.state.(validationResult := Some(ValidationOf(r.state.extractedData.value))), r.trace)
  }

  /** `response_generation_agent`; without an error it too evaluates `.empty`. */
  function Responding(r: Run, o: Oracles): Run
    requires r.state.error != "" || r.state.extractedData.Some?
  {
    var s := r.state;
    if s.error != "" then Run(s.(finalResponse := IssuePrefix + s.error + IssueSuffix), r.trace)
    else if IsEmpty(s.extractedData.value) then Run(s.(finalResponse := NoDataResponse), r.trace)
    else
      var t := Asked(r.trace, NarratePrompt(s.userQuery, s.queryIntent, s.extractedData.value, s.validationResult));
      match ReplyTo(r.trace, o)
      case Answer(c) => Run(s.(finalResponse := c), t)
      case Raised(m) => Run(s.(finalResponse := NarrationFailed + m), t)
  }

  // ---------------------------------------------------------------------------
  // The whole run

  /** The dict `process_query` returns. */
  datatype QueryResult = QueryResult(
    response: string, sqlQuery: string, data: Option<Frame>, intent: Json,
    validation: Option<ValidationResult>, error: string)

  function ResultOf(s: Snapshot): QueryResult
  {
    QueryResult(s.finalResponse, s.sqlQuery, s.extractedData, s.queryIntent, s.validationResult, s.error)
  }

  /** How `process_query` ends: with a result, or with the exception the
      validation stage raises on a missing result (`Crashed` holds the state
      at that point). */
  datatype Outcome = Completed(result: QueryResult, trace: Trace) | Crashed(at: Run)

  /** `process_query`, as written: the stages in graph order, from trace `t0`. */
  function RunPipeline(userQuery: string, mode: string, o: Oracles, t0: Trace): Outcome
  {
    var extracted := Extraction(Understanding(Run(InitialState(userQuery, mode), t0), o), o);
    if extracted.state.extractedData.None? then Crashed(extracted)
    else
      var done := Responding(Validating(extracted), o);
      Completed(ResultOf(done.state), done.trace)
  }

  // ---------------------------------------------------------------------------
  // Properties of the stages

  /** A stage leaves `error` as it was or sets it to one of the failure
      messages, which are never empty. */
  ghost predicate ErrorStep(before: string, after: string)
  {
    after == before
    || (after != "" && (StartsWith(after, UnderstandingFailed) || StartsWith(after, ExtractionFailed)
        || StartsWith(after, ExecutionFailed) || StartsWith(after, FixFailed)))
  }

  lemma PrefixStartsWith(p: string, m: string)
    ensures StartsWith(p + m, p)
  {
    assert (p + m)[..|p|] == p;
  }

  /** Understanding makes exactly one model call, with the user's query, and
      runs no query. */
  lemma UnderstandingCalls(r: Run, o: Oracles)
    ensures Understanding(r, o).trace == Asked(r.trace, UnderstandPrompt(r.state.userQuery))
  {
  }

  /** Understanding touches only the intent, the mode and `error`. It fails,
      setting `error`, exactly when the call raises or the reply decodes to a
      JSON value that is not an object. Otherwise the intent is the decoded
      object, whose `"mode"` (if any) becomes the mode, or, for a reply that
      is not JSON, the fallback intent carrying the current mode. */
  lemma UnderstandingEffect(r: Run, o: Oracles)
    ensures var a := Understanding(r, o);
      a.state.sqlQuery == r.state.sqlQuery && a.state.extractedData == r.state.extractedData
      && a.state.validationResult == r.state.validationResult && a.state.finalResponse == r.state.finalResponse
      && ErrorStep(r.state.error, a.state.error)
      && (StartsWith(a.state.error, UnderstandingFailed) || a.state.error == r.state.error)
    ensures ReplyTo(r.trace, o).Raised? ==> Understanding(r, o).state.error == UnderstandingFailed + ReplyTo(r.trace, o).message
    ensures ReplyTo(r.trace, o).Answer? ==>
      var c := ReplyTo(r.trace, o).content;
      (o.parseJson(c).None? ==>
        Understanding(r, o).state.error == r.state.error && Understanding(r, o).state.mode == r.state.mode)
      && (o.parseJson(c).Some? && !o.parseJson(c).value.JObject? ==>
        Understanding(r, o).state.error == UnderstandingFailed + NoGet(o.parseJson(c).value))
    ensures Understanding(r, o).state.userQuery == r.state.userQuery
    ensures ReplyTo(r.trace, o).Answer? ==>
      var c := ReplyTo(r.trace, o).content; var a := Understanding(r, o).state;
      (o.parseJson(c).None? ==> a.queryIntent == FallbackIntent(c, r.state.mode))
      && (o.parseJson(c).Some? ==> a.queryIntent == o.parseJson(c).value)
      && (o.parseJson(c).Some? && o.parseJson(c).value.JObject? ==>
        var j := o.parseJson(c).value;
        a.error == r.state.error && a.mode == (if "mode" in j.fields then j.fields["mode"] else r.state.mode))
  {
    match ReplyTo(r.trace, o)
    case Raised(m) => PrefixStartsWith(UnderstandingFailed, m);
    case Answer(c) =>
      var intent := match o.parseJson(c) case Some(j) => j case None => FallbackIntent(c, r.state.mode);
      PrefixStartsWith(UnderstandingFailed, NoGet(intent));
  }

  /** `u` continues `t`: both logs only grow. */
  ghost predicate Extends(t: Trace, u: Trace)
  {
    |t.prompts| <= |u.prompts| && u.prompts[..|t.prompts|] == t.prompts
    && |t.executed| <= |u.executed| && u.executed[..|t.executed|] == t.executed
  }

  lemma ExtendsTransitive(t: Trace, u: Trace, v: Trace)
    requires Extends(t, u) && Extends(u, v)
    ensures Extends(t, v)
  {
    assert v.prompts[..|t.prompts|] == v.prompts[..|u.prompts|][..|t.prompts|];
    assert v.executed[..|t.executed|] == v.executed[..|u.executed|][..|t.executed|];
  }

  /** The repair attempt sends the fix prompt and runs at most the one
      repaired query. */
  lemma RepairCalls(s: Snapshot, t: Trace, failure: string, sql: string, o: Oracles)
    ensures var a := Repair(s, t, failure, sql, o);
      a.trace.prompts == t.prompts + [FixPrompt(failure, sql)]
      && Extends(t, a.trace) && |a.trace.executed| <= |t.executed| + 1
  {
    assert (t.prompts + [FixPrompt(failure, sql)])[..|t.prompts|] == t.prompts;
    match ReplyTo(t, o)
    case Raised(m) =>
    case Answer(c) =>
      var fixed := CleanReply(c);
      assert Repair(s, t, failure, sql, o).trace == Ran(Asked(t, FixPrompt(failure, sql)), fixed);
      assert (t.executed + [fixed])[..|t.executed|] == t.executed;
  }

  /** Running a query: it is run first; a second prompt is sent exactly when
      it failed with a fixable error, and the cleaned reply to that prompt, if
      the model answers, is the second and last query run. */
  lemma ExecuteCalls(s: Snapshot, t: Trace, sql: string, o: Oracles)
    ensures var a := Execute(s, t, sql, o); var p, e := |t.prompts|, |t.executed|;
      Extends(t, a.trace) && |a.trace.executed| > e && a.trace.executed[e] == sql
      && p <= |a.trace.prompts| <= p + 1 && |a.trace.executed| <= e + 2
      && (|a.trace.prompts| == p + 1 ==>
        o.run(sql).Failed? && IsFixable(o.run(sql).message) && a.trace.prompts[p] == FixPrompt(o.run(sql).message, sql))
      && (|a.trace.executed| == e + 2 ==> |a.trace.prompts| == p + 1)
    ensures var a := Execute(s, t, sql, o); var p, e := |t.prompts|, |t.executed|;
      o.run(sql).Failed? && IsFixable(o.run(sql).message) ==>
        |a.trace.prompts| == p + 1 && a.trace.prompts[p] == FixPrompt(o.run(sql).message, sql)
        && (ReplyTo(Ran(t, sql), o).Answer? ==>
          |a.trace.executed| == e + 2 && a.trace.executed[e + 1] == CleanReply(ReplyTo(Ran(t, sql), o).content))
  {
    var ran := Ran(t, sql);
    assert ran.executed[..|t.executed|] == t.executed;
    match o.run(sql)
    case Rows(df) =>
    case Failed(msg) =>
      if IsFixable(msg) {
        RepairCalls(s, ran, msg, sql, o);
        var a := Repair(s, ran, msg, sql, o);
        ExtendsTransitive(t, ran, a.trace);
        assert a.trace.executed[|t.executed|] == a.trace.executed[..|ran.executed|][|t.executed|];
      }
  }

  /** Extraction sends the SQL prompt and then at most one more prompt, and
      runs at most two queries (`ExecuteCalls` says when). */
  lemma ExtractionCalls(r: Run, o: Oracles)
    ensures var a := Extraction(r, o);
      Extends(Asked(r.trace, SqlPrompt(r.state.userQuery, r.state.queryIntent)), a.trace)
      && |a.trace.prompts| <= |r.trace.prompts| + 2 && |a.trace.executed| <= |r.trace.executed| + 2
  {
    var t := Asked(r.trace, SqlPrompt(r.state.userQuery, r.state.queryIntent));
    match ReplyTo(r.trace, o)
    case Raised(m) =>
    case Answer(c) =>
      var sql := CleanReply(c);
      ExecuteCalls(r.state.(sqlQuery := sql), t, sql, o);
  }

  /** What running a query leaves behind: the stored result always belongs
      to the last query run. If that query succeeded, `sql_query` is that
      query and `error` is untouched; if it failed, the data is an empty
      frame, `sql_query` is still the first query and `error` says why. A
      non-fixable first failure ends the stage at once. */
  lemma ExecuteOutcome(s: Snapshot, t: Trace, sql: string, o: Oracles)
    requires s.sqlQuery == sql
    ensures var a := Execute(s, t, sql, o); var e := |t.executed|;
      a.state.validationResult == s.validationResult && a.state.finalResponse == s.finalResponse
      && a.state.queryIntent == s.queryIntent && ErrorStep(s.error, a.state.error)
      && |a.trace.executed| > e && a.trace.executed[e] == sql
      && var last := a.trace.executed[|a.trace.executed| - 1];
      (o.run(last).Rows? ==>
        a.state.sqlQuery == last && a.state.extractedData == Some(o.run(last).frame) && a.state.error == s.error)
      && (o.run(last).Failed? ==>
        a.state.sqlQuery == sql && a.state.extractedData == Some(EmptyFrame) && a.state.error != "")
      && (o.run(sql).Failed? && !IsFixable(o.run(sql).message) ==>
        a.state.error == ExecutionFailed + o.run(sql).message && a.trace == Ran(t, sql))
  {
    var ran := Ran(t, sql);
    match o.run(sql)
    case Rows(df) =>
      assert Execute(s, t, sql, o) == Run(s.(extractedData := Some(df)), ran);
    case Failed(msg) =>
      if IsFixable(msg) {
        var asked := Asked(ran, FixPrompt(msg, sql));
        match ReplyTo(ran, o)
        case Raised(m) =>
          assert Execute(s, t, sql, o) == Run(s.(error := FixFailed + m, extractedData := Some(EmptyFrame)), asked);
          PrefixStartsWith(FixFailed, m);
        case Answer(c) =>
          var fixed := CleanReply(c);
          var ran2 := Ran(asked, fixed);
          assert ran2.executed[|t.executed|] == sql;
          match o.run(fixed)
          case Rows(df2) =>
            assert Execute(s, t, sql, o) == Run(s.(extractedData := Some(df2), sqlQuery := fixed), ran2);
          case Failed(m2) =>
            assert Execute(s, t, sql, o) == Run(s.(error := FixFailed + m2, extractedData := Some(EmptyFrame)), ran2);
            PrefixStartsWith(FixFailed, m2);
      } else {
        assert Execute(s, t, sql, o) == Run(s.(error := ExecutionFailed + msg, extractedData := Some(EmptyFrame)), ran);
        PrefixStartsWith(ExecutionFailed, msg);
      }
  }

  /** What extraction leaves behind. When the model call raises, nothing is
      run and the data stays as it was; otherwise the cleaned reply is run
      first and `ExecuteOutcome` describes the rest. */
  lemma ExtractionOutcome(r: Run, o: Oracles)
    ensures var a := Extraction(r, o);
      a.state.validationResult == r.state.validationResult && a.state.finalResponse == r.state.finalResponse
      && a.state.queryIntent == r.state.queryIntent && ErrorStep(r.state.error, a.state.error)
    ensures var a := Extraction(r, o);
      ReplyTo(r.trace, o).Raised? ==>
        a.state.error == ExtractionFailed + ReplyTo(r.trace, o).message
        && a.state.extractedData == r.state.extractedData && a.state.sqlQuery == r.state.sqlQuery
        && a.trace.executed == r.trace.executed
    ensures ReplyTo(r.trace, o).Answer? ==>
      var sql := CleanReply(ReplyTo(r.trace, o).content);
      Extraction(r, o) == Execute(r.state.(sqlQuery := sql), Asked(r.trace, SqlPrompt(r.state.userQuery, r.state.queryIntent)), sql, o)
      && Extraction(r, o).state.extractedData.Some?
  {
    match ReplyTo(r.trace, o)
    case Raised(m) => PrefixStartsWith(ExtractionFailed, m);
    case Answer(c) =>
      var sql := CleanReply(c);
      ExecuteOutcome(r.state.(sqlQuery := sql), Asked(r.trace, SqlPrompt(r.state.userQuery, r.state.queryIntent)), sql, o);
  }

  /** Validation records its report and touches nothing else, `error`
      included; it makes no call. */
  lemma ValidatingEffect(r: Run)
    requires r.state.extractedData.Some?
    ensures Validating(r).trace == r.trace
    ensures Validating(r).state == r.state.(validationResult := Some(ValidationOf(r.state.extractedData.value)))
  {
  }

  /** The response stage makes at most one model call and runs no query. */
  lemma RespondingCalls(r: Run, o: Oracles)
    requires r.state.error != "" || r.state.extractedData.Some?
    ensures var a := Responding(r, o);
      a.trace.executed == r.trace.executed && |r.trace.prompts| <= |a.trace.prompts| <= |r.trace.prompts| + 1
      && a.trace.prompts[..|r.trace.prompts|] == r.trace.prompts
  {
    if r.state.error == "" && !IsEmpty(r.state.extractedData.value) {
      var p := NarratePrompt(r.state.userQuery, r.state.queryIntent, r.state.extractedData.value, r.state.validationResult);
      assert Asked(r.trace, p).prompts[..|r.trace.prompts|] == r.trace.prompts;
    }
  }

  /** The response stage: an error short-circuits to the issue message, and
      an empty result to the no-data message, both without a model call;
      otherwise exactly one call is made and its reply is the response, or
      the narration-failure message when it raises. `error` is never changed. */
  lemma RespondingEffect(r: Run, o: Oracles)
    requires r.state.error != "" || r.state.extractedData.Some?
    ensures Responding(r, o).state.error == r.state.error
    ensures Responding(r, o).state == r.state.(finalResponse := Responding(r, o).state.finalResponse)
    ensures r.state.error != "" ==>
      Responding(r, o).state.finalResponse == IssuePrefix + r.state.error + IssueSuffix
      && Responding(r, o).trace == r.trace
    ensures r.state.error == "" && IsEmpty(r.state.extractedData.value) ==>
      Responding(r, o).state.finalResponse == NoDataResponse && Responding(r, o).trace == r.trace
    ensures r.state.error == "" && !IsEmpty(r.state.extractedData.value) ==>
      |Responding(r, o).trace.prompts| == |r.trace.prompts| + 1
      && Responding(r, o).trace.executed == r.trace.executed
      && Responding(r, o).state.finalResponse ==
        match ReplyTo(r.trace, o) case Answer(c) => c case Raised(m) => NarrationFailed + m
  {
  }

  // ---------------------------------------------------------------------------
  // Properties of the whole run

  /** The run crashes exactly when the SQL-generation call (the second model
      call) raises, whatever the first call did. */
  lemma CrashIff(userQuery: string, mode: string, o: Oracles, t0: Trace)
    ensures RunPipeline(userQuery, mode, o, t0).Crashed? <==> o.reply(|t0.prompts| + 1).Raised?
  {
    var r0 := Run(InitialState(userQuery, mode), t0);
    var r1 := Understanding(r0, o);
    UnderstandingCalls(r0, o);
    UnderstandingKeepsData(r0, o);
    ExtractionData(r1, o);
  }

  lemma UnderstandingKeepsData(r: Run, o: Oracles)
    ensures Understanding(r, o).state.extractedData == r.state.extractedData
  {
  }

  lemma ExecuteStoresData(s: Snapshot, t: Trace, sql: string, o: Oracles)
    ensures Execute(s, t, sql, o).state.extractedData.Some?
  {
    match o.run(sql)
    case Rows(df) =>
    case Failed(msg) =>
      if IsFixable(msg) {
        var asked := Asked(Ran(t, sql), FixPrompt(msg, sql));
        match ReplyTo(Ran(t, sql), o)
        case Raised(m) =>
        case Answer(c) =>
      }
  }

  /** A raising SQL-generation call only records the error. */
  lemma ExtractionRaised(r: Run, o: Oracles)
    ensures ReplyTo(r.trace, o).Raised? ==>
      Extraction(r, o).state == r.state.(error := ExtractionFailed + ReplyTo(r.trace, o).message)
  {
  }

  /** Extraction stores a frame unless its model call raises. */
  lemma ExtractionData(r: Run, o: Oracles)
    ensures Extraction(r, o).state.extractedData.None? <==> ReplyTo(r.trace, o).Raised? && r.state.extractedData.None?
  {
    match ReplyTo(r.trace, o)
    case Raised(m) =>
    case Answer(c) =>
      var sql := CleanReply(c);
      ExecuteStoresData(r.state.(sqlQuery := sql), Asked(r.trace, SqlPrompt(r.state.userQuery, r.state.queryIntent)), sql, o);
  }

  /** Logs grown by one understanding prompt, then a SQL prompt, then at most
      two more prompts and two queries. */
  lemma ComposeCalls(t0: Trace, t1: Trace, t2: Trace, t3: Trace, first: Prompt, second: Prompt)
    requires t1 == Asked(t0, first)
    requires Extends(Asked(t1, second), t2)
    requires |t2.prompts| <= |t1.prompts| + 2 && |t2.executed| <= |t0.executed| + 2
    requires Extends(t2, t3) && |t3.prompts| <= |t2.prompts| + 1 && t3.executed == t2.executed
    ensures Extends(t0, t3)
    ensures |t0.prompts| + 2 <= |t3.prompts| <= |t0.prompts| + 4 && |t3.executed| <= |t0.executed| + 2
    ensures t3.prompts[|t0.prompts|] == first && t3.prompts[|t0.prompts| + 1] == second
  {
    var n := |t0.prompts|;
    assert t3.prompts[..n + 2] == t2.prompts[..n + 2] == Asked(t1, second).prompts;
    assert t3.prompts[..n] == t3.prompts[..n + 2][..n];
    assert t3.executed[..|t0.executed|] == t0.executed;
  }

  /** A completed run makes at most four model calls and two queries; the
      first call is always the understanding prompt and the second the SQL
      prompt, so extraction runs even when understanding failed. */
  lemma PipelineCalls(userQuery: string, mode: string, o: Oracles, t0: Trace)
    ensures var out := RunPipeline(userQuery, mode, o, t0);
      out.Completed? ==>
        Extends(t0, out.trace)
        && |t0.prompts| + 2 <= |out.trace.prompts| <= |t0.prompts| + 4
        && |out.trace.executed| <= |t0.executed| + 2
        && out.trace.prompts[|t0.prompts|] == UnderstandPrompt(userQuery)
        && out.trace.prompts[|t0.prompts| + 1].SqlPrompt?
  {
    var r0 := Run(InitialState(userQuery, mode), t0);
    var r1 := Understanding(r0, o);
    UnderstandingCalls(r0, o);
    var r2 := Extraction(r1, o);
    ExtractionCalls(r1, o);
    if r2.state.extractedData.Some? {
      var r3 := Validating(r2);
      var r4 := Responding(r3, o);
      RespondingCalls(r3, o);
      ComposeCalls(t0, r1.trace, r2.trace, r4.trace, UnderstandPrompt(userQuery), SqlPrompt(r1.state.userQuery, r1.state.queryIntent));
    }
  }

  /** A completed run returns the final `error`; when it is non-empty, the
      response is the issue message built from it. A failed understanding
      stage always ends in such an error. */
  lemma ErrorReported(userQuery: string, mode: string, o: Oracles, t0: Trace)
    ensures var out := RunPipeline(userQuery, mode, o, t0);
      out.Completed? && out.result.error != "" ==>
        out.result.response == IssuePrefix + out.result.error + IssueSuffix
    ensures var out := RunPipeline(userQuery, mode, o, t0);
      out.Completed? && o.reply(|t0.prompts|).Raised? ==> out.result.error != ""
  {
    var r0 := Run(InitialState(userQuery, mode), t0);
    var r1 := Understanding(r0, o);
    UnderstandingEffect(r0, o);
    ExtractionOutcome(r1, o);
    var r2 := Extraction(r1, o);
    if r2.state.extractedData.Some? {
      RespondingEffect(Validating(r2), o);
    }
  }

  /** An error set by understanding survives extraction; validation and the
      response stage leave it alone, so `process_query` returns the error as
      it stood after extraction and answers with the issue message whenever
      either of the first two stages failed. */
  lemma ErrorCarriedToResult(userQuery: string, mode: string, o: Oracles, t0: Trace)
    ensures var r1 := Understanding(Run(InitialState(userQuery, mode), t0), o);
      Extraction(r1, o).state.error != "" || r1.state.error == ""
    ensures var r2 := Extraction(Understanding(Run(InitialState(userQuery, mode), t0), o), o);
      var out := RunPipeline(userQuery, mode, o, t0);
      out.Completed? ==> out.result.error == r2.state.error
    ensures var r1 := Understanding(Run(InitialState(userQuery, mode), t0), o);
      var out := RunPipeline(userQuery, mode, o, t0);
      out.Completed? && (r1.state.error != "" || Extraction(r1, o).state.error != "") ==>
        out.result.error != "" && out.result.response == IssuePrefix + out.result.error + IssueSuffix
  {
    var r1 := Understanding(Run(InitialState(userQuery, mode), t0), o);
    ExtractionOutcome(r1, o);
    var r2 := Extraction(r1, o);
    if r2.state.extractedData.Some? {
      ValidatingEffect(r2);
      RespondingEffect(Validating(r2), o);
    }
  }

  /** The agent a node of the workflow graph stands for, applied to a run;
      `None` where the agent raises on a missing result. */
  function StageAt(n: Graph.Node, r: Run, o: Oracles): Option<Run>
  {
    if n.QueryUnderstanding? then Some(Understanding(r, o))
    else if n.DataExtraction? then Some(Extraction(r, o))
    else if n.Validation? then
      (if r.state.extractedData.Some? then Some(Validating(r)) else None)
    else if r.state.error != "" || r.state.extractedData.Some? then Some(Responding(r, o))
    else None
  }

  /** The agents along a path of the graph, one after the other. */
  function RunPath(path: seq<Graph.Node>, r: Run, o: Oracles): Option<Run>
    decreases |path|
  {
    if path == [] then Some(r)
    else match StageAt(path[0], r, o)
      case None => None
      case Some(next) => RunPath(path[1..], next, o)
  }

  /** `process_query` runs the agents in the order the compiled graph walks
      them: it completes exactly when that walk does, with the same result
      and the same calls. */
  lemma GraphOrderIsRunOrder(userQuery: string, mode: string, o: Oracles, t0: Trace)
    ensures var out := RunPipeline(userQuery, mode, o, t0);
      var walked := RunPath(Graph.Walk(Graph.Entry, 4), Run(InitialState(userQuery, mode), t0), o);
      (out.Completed? <==> walked.Some?)
      && (out.Completed? ==> out.result == ResultOf(walked.value.state) && out.trace == walked.value.trace)
  {
    Graph.ExecutionOrder();
    RunPathOfStages(Run(InitialState(userQuery, mode), t0), o);
  }

  /** The four agents along the walk, stage by stage. */
  lemma RunPathOfStages(r: Run, o: Oracles)
    ensures var r2 := Extraction(Understanding(r, o), o);
      RunPath([Graph.QueryUnderstanding, Graph.DataExtraction, Graph.Validation, Graph.ResponseGeneration], r, o)
      == if r2.state.extractedData.Some? then Some(Responding(Validating(r2), o)) else None
  {
    var path := [Graph.QueryUnderstanding, Graph.DataExtraction, Graph.Validation, Graph.ResponseGeneration];
    var r1 := Understanding(r, o);
    var r2 := Extraction(r1, o);
    assert path[1..] == [Graph.DataExtraction, Graph.Validation, Graph.ResponseGeneration];
    assert path[1..][1..] == [Graph.Validation, Graph.ResponseGeneration];
    assert RunPath(path, r, o) == RunPath(path[1..], r1, o);
    assert RunPath(path[1..], r1, o) == RunPath(path[1..][1..], r2, o);
    if r2.state.extractedData.Some? {
      var r3 := Validating(r2);
      assert RunPath(path[1..][1..], r2, o) == RunPath([Graph.ResponseGeneration], r3, o);
      assert RunPath([Graph.ResponseGeneration], r3, o) == Some(Responding(r3, o));
    }
  }

  // ---------------------------------------------------------------------------
  // The validation stage reading a missing result as an empty frame

  /** `validation_agent` with a missing result read as `pd.DataFrame()`. */
  function ValidatingDefaulted(r: Run): Run
  {
    Run(r.state.(validationResult := Some(ValidationOf(r.state.extractedData.GetOr(EmptyFrame)))), r.trace)
  }

  /** `process_query` with that correction: it always completes. */
  function RunPipelineDefaulted(userQuery: string, mode: string, o: Oracles, t0: Trace): (res: QueryResult)
  {
    var understood := Understanding(Run(InitialState(userQuery, mode), t0), o);
    var extracted := Extraction(understood, o);
    ExtractionData(understood, o);
    ExtractionRaised(understood, o);
    var validated := ValidatingDefaulted(extracted);
    var done := Responding(validated, o);
    ResultOf(done.state)
  }

  /** With the correction, a raising SQL-generation call is reported like any
      other failure: the response is the issue message built from "Data
      extraction failed: …", and the report is the no-data report. */
  lemma DefaultedReportsExtractionFailure(userQuery: string, mode: string, o: Oracles, t0: Trace)
    ensures o.reply(|t0.prompts| + 1).Raised? ==>
      var res := RunPipelineDefaulted(userQuery, mode, o, t0);
      res.error == ExtractionFailed + o.reply(|t0.prompts| + 1).message && res.data.None?
      && res.response == IssuePrefix + res.error + IssueSuffix
      && res.validation == Some(ValidationOf(EmptyFrame))
  {
    var r0 := Run(InitialState(userQuery, mode), t0);
    var r1 := Understanding(r0, o);
    UnderstandingCalls(r0, o);
    UnderstandingKeepsData(r0, o);
    if o.reply(|t0.prompts| + 1).Raised? {
      ExtractionRaised(r1, o);
      var r2 := ValidatingDefaulted(Extraction(r1, o));
      assert r2.state.error != "" && r2.state.extractedData.None?;
      assert Responding(r2, o).state == r2.state.(finalResponse := IssuePrefix + r2.state.error + IssueSuffix);
    }
  }

  /** Where the original completes, the corrected run gives the same result. */
  lemma DefaultedAgreesWhenCompleted(userQuery: string, mode: string, o: Oracles, t0: Trace)
    ensures RunPipeline(userQuery, mode, o, t0).Completed? ==>
      RunPipeline(userQuery, mode, o, t0).result == RunPipelineDefaulted(userQuery, mode, o, t0)
  {
    var r1 := Understanding(Run(InitialState(userQuery, mode), t0), o);
    var r2 := Extraction(r1, o);
    if r2.state.extractedData.Some? {
      assert ValidatingDefaulted(r2) == Validating(r2);
    }
  }
}
