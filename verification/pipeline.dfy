/**
 The request handler of app.py (lines 87-142): the generator wrapper
 `get_gemini_response`, the executor `read_sql_query` and the dispatch in
 `get_sql_query`, with the vector search, the language model and the database
 passed in as functions.  Which of them the handler calls, and with what, is
 returned as a trace next to the HTTP response.
 */
module Pipeline {

  import opened Sanitizer
  import opened Corpus

  datatype Option<T> = None | Some(value: T)

  /** What one call of the language model does: return text, fail with
      `ResourceExhausted`, or fail with any other exception. */
  datatype GenResult = GenOk(text: string) | GenQuota | GenOther

  /** What `read_sql_query` returns: the fetched rows, or the message of a
      `mysql.connector.Error`. */
  datatype ExecResult<Row> = ExecOk(rows: seq<Row>) | ExecErr(message: string)

  /** What `get_gemini_response` returns: the sanitised SQL text, or the
      `{"error": …}` dictionary. */
  datatype GenAnswer = SqlText(sql: string) | GenError(message: string)

  /** The JSON body of a response. */
  datatype Body<Row> =
    | ErrorBody(error: string)
    | QueryBody(sqlQuery: string, sqlResult: seq<Row>)

  datatype Response<Row> = Response(status: int, body: Body<Row>)

  /** One call of an outside capability made while answering a request. */
  datatype Call =
    | Searched(question: string, hit: nat, closest: string)
    | Generated(contents: seq<string>)
    | Executed(sql: string)

  datatype Outcome<Row> = Outcome(response: Response<Row>, calls: seq<Call>)

  const NoQuestionMessage: string := "No question provided"
  const QuotaMessage: string := "Gemini API quota exceeded. Please try again later."
  const GenerationMessage: string := "Unexpected error while generating SQL query."

  /** The process-wide state the handler reads: the list `questions` of
      line 57 and the list `prompt` of line 63. */
  datatype Config = Config(questions: seq<string>, prompt: seq<string>)

  /** The configuration app.py builds at start-up. */
  const App: Config := Config(Questions, Prompt)

  /** Python truthiness of `data.get('question')` for a missing or string value. */
  predicate Truthy(question: Option<string>) {
    question.Some? && question.value != []
  }

  /** The contents handed to the model: `[prompt[0], question]`. */
  function Contents(prompt: seq<string>, question: string): seq<string>
    requires |prompt| > 0
  {
    [prompt[0], question]
  }

  /** Whether the database was called. */
  predicate CallsExecutor(calls: seq<Call>) {
    exists k :: 0 <= k < |calls| && calls[k].Executed?
  }

  /** The search may return any position of the question list. */
  ghost predicate SearchInRange(search: string -> nat, questions: seq<string>) {
    forall q :: search(q) < |questions|
  }

  /** `get_gemini_response` (lines 87-96): the model's text comes back
      sanitised; a quota failure and any other failure come back as two
      distinct error messages. */
  function GetGeminiResponse(generate: seq<string> -> GenResult, question: string, prompt: seq<string>): (a: GenAnswer)
    requires |prompt| > 0
    ensures a.SqlText? <==> generate(Contents(prompt, question)).GenOk?
    ensures a.SqlText? ==> a.sql == Sanitize(generate(Contents(prompt, question)).text) && NoMarks(a.sql)
    ensures a.GenError? ==> (a.message == QuotaMessage <==> generate(Contents(prompt, question)).GenQuota?)
    ensures a.GenError? ==> a.message in {QuotaMessage, GenerationMessage}
  {
    match generate(Contents(prompt, question))
    case GenOk(text) => SqlText(Sanitize(text))
    case GenQuota => GenError(QuotaMessage)
    case GenOther => GenError(GenerationMessage)
  }

  /** `get_sql_query` (lines 121-142) over a search, a model and a database. */
  function AnswerQuestion<Row>(
    config: Config,
    search: string -> nat,
    generate: seq<string> -> GenResult,
    execute: string -> ExecResult<Row>,
    question: Option<string>
  ): (out: Outcome<Row>)
    requires |config.prompt| > 0 && SearchInRange(search, config.questions)
    ensures out.response.status in {200, 400, 429, 500}
    // A falsy question is refused before anything else is called.
    ensures out.response.status == 400 <==> !Truthy(question)
    ensures !Truthy(question) ==> out.calls == [] && out.response.body == ErrorBody(NoQuestionMessage)
    // Otherwise the search comes first, then the model, with the fixed prompt
    // and the question as received.
    ensures Truthy(question) ==>
              && 2 <= |out.calls| <= 3
              && out.calls[0] == Searched(question.value, search(question.value), config.questions[search(question.value)])
              && out.calls[1] == Generated([config.prompt[0], question.value])
    // Both kinds of model failure give 429 and end the trace there.
    ensures out.response.status == 429 <==> Truthy(question) && !generate(Contents(config.prompt, question.value)).GenOk?
    ensures out.response.status == 429 ==>
              && |out.calls| == 2
              && out.response.body
                 == ErrorBody(if generate(Contents(config.prompt, question.value)).GenQuota? then QuotaMessage else GenerationMessage)
    // The database is called, as the third and last step, exactly when the
    // model answered, and with the sanitised answer.
    ensures |out.calls| == 3 <==> Truthy(question) && generate(Contents(config.prompt, question.value)).GenOk?
    ensures |out.calls| == 3 ==> out.calls[2] == Executed(Sanitize(generate(Contents(config.prompt, question.value)).text))
    // A database error gives 500 with its message, success gives 200 with the
    // executed SQL and the rows.
    ensures out.response.status == 500 <==> |out.calls| == 3 && execute(out.calls[2].sql).ExecErr?
    ensures out.response.status == 500 ==> out.response.body == ErrorBody(execute(out.calls[2].sql).message)
    ensures out.response.status == 200 <==> |out.calls| == 3 && execute(out.calls[2].sql).ExecOk?
    ensures out.response.status == 200 ==>
              out.response.body == QueryBody(out.calls[2].sql, execute(out.calls[2].sql).rows)
  {
    if !Truthy(question) then
      Outcome(Response(400, ErrorBody(NoQuestionMessage)), [])
    else
      var q := question.value;
      var hit := search(q);
      var searched := Searched(q, hit, config.questions[hit]);
      var generated := Generated(Contents(config.prompt, q));
      match GetGeminiResponse(generate, q, config.prompt)
      case GenError(message) =>
        Outcome(Response(429, ErrorBody(message)), [searched, generated])
      case SqlText(sql) =>
        var calls := [searched, generated, Executed(sql)];
        match execute(sql)
        case ExecErr(message) => Outcome(Response(500, ErrorBody(message)), calls)
        case ExecOk(rows) => Outcome(Response(200, QueryBody(sql, rows)), calls)
  }

  // ---------------------------------------------------------------------------
  // Properties of the handler.

  /** The retrieved example is computed and then never used: neither the
      response nor what the model and the database receive depends on the
      search. */
  lemma RetrievalUnused<Row>(
    config: Config,
    search1: string -> nat,
    search2: string -> nat,
    generate: seq<string> -> GenResult,
    execute: string -> ExecResult<Row>,
    question: Option<string>
  )
    requires |config.prompt| > 0
    requires SearchInRange(search1, config.questions) && SearchInRange(search2, config.questions)
    ensures var o1 := AnswerQuestion(config, search1, generate, execute, question);
            var o2 := AnswerQuestion(config, search2, generate, execute, question);
            && o1.response == o2.response
            && |o1.calls| == |o2.calls|
            && (|o1.calls| > 0 ==> o1.calls[1..] == o2.calls[1..])
  {
  }

  /** The database is called exactly when the question was truthy and the
      model answered; a refused question and a model failure never reach it. */
  lemma ExecutorCalledOnlyAfterAnswer<Row>(
    config: Config,
    search: string -> nat,
    generate: seq<string> -> GenResult,
    execute: string -> ExecResult<Row>,
    question: Option<string>
  )
    requires |config.prompt| > 0 && SearchInRange(search, config.questions)
    ensures var out := AnswerQuestion(config, search, generate, execute, question);
            CallsExecutor(out.calls) <==> Truthy(question) && generate(Contents(config.prompt, question.value)).GenOk?
    ensures var out := AnswerQuestion(config, search, generate, execute, question);
            out.response.status in {400, 429} ==> !CallsExecutor(out.calls)
  {
    var out := AnswerQuestion(config, search, generate, execute, question);
    if |out.calls| == 3 {
      assert out.calls[2].Executed?;
    } else {
      assert forall k :: 0 <= k < |out.calls| ==> !out.calls[k].Executed? by {
        if Truthy(question) {
          assert out.calls[0].Searched? && out.calls[1].Generated?;
        }
      }
    }
  }

  /** Text the model returns already trimmed and free of backticks and smart
      quotes reaches the database, and the response, unchanged. */
  lemma CleanAnswerPassesThrough<Row>(
    config: Config,
    search: string -> nat,
    generate: seq<string> -> GenResult,
    execute: string -> ExecResult<Row>,
    question: string,
    text: string
  )
    requires |config.prompt| > 0 && SearchInRange(search, config.questions)
    requires question != []
    requires generate(Contents(config.prompt, question)) == GenOk(text)
    requires Trimmed(text) && NoMarks(text)
    ensures AnswerQuestion(config, search, generate, execute, Some(question)).calls[2] == Executed(text)
    ensures execute(text).ExecOk? ==>
              AnswerQuestion(config, search, generate, execute, Some(question)).response
              == Response(200, QueryBody(text, execute(text).rows))
  {
    SanitizeFixedPoint(text);
  }

  /** A model answer wrapped in backticks is executed without them. */
  lemma FencedAnswerIsUnwrapped<Row>(
    config: Config,
    search: string -> nat,
    generate: seq<string> -> GenResult,
    execute: string -> ExecResult<Row>,
    question: string
  )
    requires |config.prompt| > 0 && SearchInRange(search, config.questions)
    requires question != []
    requires generate(Contents(config.prompt, question)) == GenOk("`SELECT * FROM t_shirts;`")
    ensures AnswerQuestion(config, search, generate, execute, Some(question)).calls[2]
            == Executed("SELECT * FROM t_shirts;")
  {
    SanitizeFencedQuery();
  }

  /** A question of only whitespace is truthy in Python, so it is not refused
      with 400 but sent to the model as it is. */
  lemma BlankQuestionIsSent<Row>(
    config: Config,
    search: string -> nat,
    generate: seq<string> -> GenResult,
    execute: string -> ExecResult<Row>
  )
    requires |config.prompt| > 0 && SearchInRange(search, config.questions)
    ensures AnswerQuestion(config, search, generate, execute, Some(" ")).response.status != 400
    ensures AnswerQuestion(config, search, generate, execute, Some(" ")).calls[1]
            == Generated([config.prompt[0], " "])
  {
  }

  /** The configuration app.py builds: a one-element prompt, and a question
      list aligned with the thirteen examples, so that the position the vector
      search returns selects the question of the example at that position. */
  lemma AppConfig()
    ensures App.prompt == [InstructionBlock]
    ensures |App.questions| == |FewShots| == 13
    ensures forall i :: 0 <= i < 13 ==> App.questions[i] == FewShots[i].question
  {
    CorpusShape();
  }

  /** The stock question is the second example of the corpus; a model that
      answers it with that example's SQL gets exactly that SQL executed and,
      when the database succeeds, echoed back with the rows. */
  lemma StockQuestionScenario<Row>(
    search: string -> nat,
    generate: seq<string> -> GenResult,
    execute: string -> ExecResult<Row>
  )
    requires SearchInRange(search, App.questions)
    requires generate(Contents(App.prompt, FewShots[1].question)) == GenOk(FewShots[1].sqlQuery)
    ensures App.questions[1] == "How many total t-shirts are left in stock?"
    ensures AnswerQuestion(App, search, generate, execute, Some(App.questions[1])).calls[2]
            == Executed(FewShots[1].sqlQuery)
    ensures execute(FewShots[1].sqlQuery).ExecOk? ==>
              AnswerQuestion(App, search, generate, execute, Some(App.questions[1])).response
              == Response(200, QueryBody(FewShots[1].sqlQuery, execute(FewShots[1].sqlQuery).rows))
  {
    AppConfig();
    StockSqlIsClean();
    CleanAnswerPassesThrough(App, search, generate, execute, App.questions[1], FewShots[1].sqlQuery);
  }

  lemma StockSqlIsClean()
    ensures FewShots[1].sqlQuery == "SELECT SUM(stock_quantity) FROM t_shirts;"
    ensures Trimmed(FewShots[1].sqlQuery) && NoMarks(FewShots[1].sqlQuery)
  {
  }
}
