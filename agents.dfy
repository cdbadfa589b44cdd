/**
 * The objects of `agents.py`: the shared `AgentState`, the chat-model client,
 * the query executor and `MultiAgentSystem`, whose agents update the state in
 * place. Each agent is proved to leave the state and the call logs exactly
 * as the matching stage function of module `Pipeline` prescribes.
 */
module Agents {
  import opened Wrappers
  import opened Frames
  import opened Replies
  import opened Validation
  import opened Pipeline

  /** `AgentState`, the dictionary the agents pass along and mutate. */
  class AgentState {
    var userQuery: string
    var mode: Json
    var queryIntent: Json
    var sqlQuery: string
    var extractedData: Option<Frame>
    var validationResult: Option<ValidationResult>
    var finalResponse: string
    var error: string

    function Value(): Snapshot
      reads this
    {
      Snapshot(userQuery, mode, queryIntent, sqlQuery, extractedData, validationResult, finalResponse, error)
    }

    /** The `initial_state` of `process_query`. */
    constructor(userQuery: string, mode: string)
      ensures Value() == InitialState(userQuery, mode)
    {
      this.userQuery := userQuery;
      this.mode := JString(mode);
      queryIntent := JObject(map[]);
      sqlQuery := "";
      extractedData := None;
      validationResult := None;
      finalResponse := "";
      error := "";
    }
  }

  /** A chat-model client. What it answers to its n-th call is `reply(n)`;
      `prompts` logs the calls made so far. */
  class LanguageModel {
    const reply: nat -> Reply
    var prompts: seq<Prompt>

    constructor(reply: nat -> Reply)
      ensures this.reply == reply && prompts == []
    {
      this.reply := reply;
      prompts := [];
    }

    /** `invoke`: one call, answered according to how many came before. */
    method Invoke(p: Prompt) returns (r: Reply)
      modifies this
      ensures prompts == old(prompts) + [p]
      ensures r == reply(|old(prompts)|)
    {
      r := reply(|prompts|);
      prompts := prompts + [p];
    }
  }

  /** `DataManager.execute_query` seen from the agents: the outcome of a query
      is `run(sql)`; `executed` logs the queries run so far. */
  class QueryExecutor {
    const run: string -> ExecResult
    var executed: seq<string>

    constructor(run: string -> ExecResult)
      ensures this.run == run && executed == []
    {
      this.run := run;
      executed := [];
    }

    method Execute(sql: string) returns (r: ExecResult)
      modifies this
      ensures executed == old(executed) + [sql]
      ensures r == run(sql)
    {
      r := run(sql);
      executed := executed + [sql];
    }
  }

  /** `MultiAgentSystem`: the four agents over one model client and one
      executor; `parseJson` is `json.loads`. */
  class MultiAgentSystem {
    const llm: LanguageModel
    const executor: QueryExecutor
    const parseJson: string -> Option<Json>

    constructor(llm: LanguageModel, executor: QueryExecutor, parseJson: string -> Option<Json>)
      ensures this.llm == llm && this.executor == executor && this.parseJson == parseJson
    {
      this.llm := llm;
      this.executor := executor;
      this.parseJson := parseJson;
    }

    function World(): Oracles
    {
      Oracles(llm.reply, executor.run, parseJson)
    }

    function Log(): Trace
      reads llm, executor
    {
      Trace(llm.prompts, executor.executed)
    }

    function Current(state: AgentState): Run
      reads state, llm, executor
    {
      Run(state.Value(), Log())
    }

    /** `query_understanding_agent` */
    method QueryUnderstandingAgent(state: AgentState)
      modifies state, llm
      ensures Current(state) == Understanding(old(Current(state)), World())
    {
      var reply := llm.Invoke(UnderstandPrompt(state.userQuery));
      match reply {
        case Raised(m) =>
          state.error := UnderstandingFailed + m;
        case Answer(c) =>
          var intent := match parseJson(c) case Some(j) => j case None => FallbackIntent(c, state.mode);
          state.queryIntent := intent;
          if intent.JObject? {
            if "mode" in intent.fields {
              state.mode := intent.fields["mode"];
            }
          } else {
            state.error := UnderstandingFailed + NoGet(intent);
          }
      }
    }

    /** The inner `try` of `data_extraction_agent`: run the generated query
        and, on a fixable error, ask for a repaired query and run that. */
    method ExecuteGenerated(state: AgentState, sql: string)
      modifies state, llm, executor
      ensures Current(state) == Execute(old(state.Value()), old(Log()), sql, World())
    {
      var result := executor.Execute(sql);
      match result {
        case Rows(df) =>
          state.extractedData := Some(df);
        case Failed(msg) =>
          if IsFixable(msg) {
            var fix := llm.Invoke(FixPrompt(msg, sql));
            match fix {
              case Raised(m) =>
                state.error := FixFailed + m;
                state.extractedData := Some(EmptyFrame);
              case Answer(c) =>
                var fixed := CleanReply(c);
                var retry := executor.Execute(fixed);
                match retry {
                  case Rows(df) =>
                    state.extractedData := Some(df);
                    state.sqlQuery := fixed;
                  case Failed(m) =>
                    state.error := FixFailed + m;
                    state.extractedData := Some(EmptyFrame);
                }
            }
          } else {
            state.error := ExecutionFailed + msg;
            state.extractedData := Some(EmptyFrame);
          }
      }
    }

    /** `data_extraction_agent` */
    method DataExtractionAgent(state: AgentState)
      modifies state, llm, executor
      ensures Current(state) == Extraction(old(Current(state)), World())
    {
      ghost var before := Current(state);
      var reply := llm.Invoke(SqlPrompt(state.userQuery, state.queryIntent));
      match reply {
        case Raised(m) =>
          state.error := ExtractionFailed + m;
        case Answer(c) =>
          var sql := CleanReply(c);
          state.sqlQuery := sql;
          ghost var s, t := state.Value(), Log();
          assert s == before.state.(sqlQuery := sql);
          assert t == Asked(before.trace, SqlPrompt(before.state.userQuery, before.state.queryIntent));
          assert Extraction(before, World()) == Execute(s, t, sql, World());
          ExecuteGenerated(state, sql);
      }
    }

    /** `validation_agent`; it needs the extracted frame. */
    method ValidationAgent(state: AgentState)
      requires state.extractedData.Some?
      modifies state
      ensures Current(state) == Validating(old(Current(state)))
    {
      var v := Validate(state.extractedData.value);
      state.validationResult := Some(v);
    }

    /** `response_generation_agent` */
    method ResponseGenerationAgent(state: AgentState)
      requires state.error != "" || state.extractedData.Some?
      modifies state, llm
      ensures Current(state) == Responding(old(Current(state)), World())
    {
      if state.error != "" {
        state.finalResponse := IssuePrefix + state.error + IssueSuffix;
        return;
      }
      if IsEmpty(state.extractedData.value) {
        state.finalResponse := NoDataResponse;
        return;
      }
      var reply := llm.Invoke(NarratePrompt(state.userQuery, state.queryIntent, state.extractedData.value, state.validationResult));
      match reply {
        case Answer(c) => state.finalResponse := c;
        case Raised(m) => state.finalResponse := NarrationFailed + m;
      }
    }

    /** `process_query`: a fresh state through the four agents in the order
        of the graph (`Graph.ExecutionOrder`); a missing frame at validation
        ends the run with `Crashed`. */
    method ProcessQuery(userQuery: string, mode: string) returns (outcome: Outcome)
      modifies llm, executor
      ensures outcome == RunPipeline(userQuery, mode, World(), old(Log()))
    {
      var state := new AgentState(userQuery, mode);
      QueryUnderstandingAgent(state);
      DataExtractionAgent(state);
      if state.extractedData.None? {
        return Crashed(Current(state));
      }
      ValidationAgent(state);
      ResponseGenerationAgent(state);
      outcome := Completed(ResultOf(state.Value()), Log());
    }

    /** The validation stage with a missing result read as an empty frame. */
    method ValidationAgentDefaulted(state: AgentState)
      modifies state
      ensures Current(state) == ValidatingDefaulted(old(Current(state)))
    {
      var v := Validate(state.extractedData.GetOr(EmptyFrame));
      state.validationResult := Some(v);
    }

    /** `process_query` with the validation stage corrected: it always
        returns a result. */
    method ProcessQueryDefaulted(userQuery: string, mode: string) returns (result: QueryResult)
      modifies llm, executor
      ensures result == RunPipelineDefaulted(userQuery, mode, World(), old(Log()))
    {
      var state := new AgentState(userQuery, mode);
      QueryUnderstandingAgent(state);
      ghost var understood := Current(state);
      ExtractionData(understood, World());
      ExtractionRaised(understood, World());
      DataExtractionAgent(state);
      ValidationAgentDefaulted(state);
      ResponseGenerationAgent(state);
      result := ResultOf(state.Value());
    }
  }
}
