/** `handle_query_task_v5` (app.py:671-713): translate, read the sheet,
    filter locally, then summarise; the summariser only ever sees a
    non-empty selection. */
module Query {
  import opened Wrappers
  import opened Strings
  import opened Records
  import opened ModelJson
  import opened LocalFilter
  import opened Translator

  /** The model call of `summarize_filtered_data` for the rows it is shown;
      `None` when the call, or reading its text, raises. */
  type Summarizer = seq<Record> -> Option<string>

  const EmptyStoreMessage: string := "資料庫中尚無任何任務可供查詢。"
  const ReadFailure: string := "讀取 Google Sheet 資料時發生錯誤。"
  const SummaryFailure: string := "Gemini 在總結資料時發生錯誤。"

  /** What the query returns, or the message of the exception it raises.
      `NoMatch` carries the translated filter set the reply shows. */
  datatype QueryOutcome = Replied(text: string) | NoMatch(filters: Filters) | Failed(reason: string)

  /** The outcome, and the rows handed to the summariser if it was called. */
  datatype QueryRun = QueryRun(outcome: QueryOutcome, summarized: Option<seq<Record>>)

  /** `DataFrame.empty`: no rows, or no columns at all. */
  predicate FrameEmpty(kept: seq<Record>, cols: set<string>)
  {
    |kept| == 0 || cols == {}
  }

  function HandleQuery(translatorReply: Option<string>, decode: Decoder,
                       sheet: Option<seq<Record>>, summarize: Summarizer): (run: QueryRun)
    ensures sheet.None? ==> run == QueryRun(Failed(ReadFailure), None)
    ensures run.outcome == Failed(ReadFailure) <==> sheet.None?
    ensures sheet == Some([]) ==> run == QueryRun(Replied(EmptyStoreMessage), None)
    ensures run.summarized.Some? ==> run.summarized.value != []
    ensures run.summarized.Some? ==>
      sheet.Some? && run.summarized.value == ApplyFilters(sheet.value, Translate(translatorReply, decode).filters)
    ensures run.outcome.NoMatch? ==>
      run.summarized.None? && run.outcome.filters == Translate(translatorReply, decode).filters
    ensures run.outcome.Failed? ==> run.outcome.reason == ReadFailure || run.outcome.reason == SummaryFailure
    ensures run.outcome == Failed(SummaryFailure) <==>
      run.summarized.Some? && summarize(run.summarized.value).None?
    ensures run.summarized.Some? && summarize(run.summarized.value).Some? ==>
      run.outcome == Replied(Strip(summarize(run.summarized.value).value))
    ensures sheet.Some? && sheet.value != [] ==>
      var kept := ApplyFilters(sheet.value, Translate(translatorReply, decode).filters);
      && (run.outcome.NoMatch? <==> FrameEmpty(kept, Columns(sheet.value)))
      && (!FrameEmpty(kept, Columns(sheet.value)) ==> run.summarized == Some(kept))
  {
    var filters := Translate(translatorReply, decode).filters;
    match sheet
    case None => QueryRun(Failed(ReadFailure), None)
    case Some(rows) =>
      if rows == [] then QueryRun(Replied(EmptyStoreMessage), None)
      else
        var kept := ApplyFilters(rows, filters);
        if FrameEmpty(kept, Columns(rows)) then QueryRun(NoMatch(filters), None)
        else
          match summarize(kept)
          case None => QueryRun(Failed(SummaryFailure), Some(kept))
          case Some(answer) => QueryRun(Replied(Strip(answer)), Some(kept))
  }

  /** When translation fails (no reply, or a reply that does not decode),
      the query proceeds with the identity filter: a non-empty sheet is
      summarised whole. */
  lemma TranslationFailureSummarizesAll(translatorReply: Option<string>, decode: Decoder,
                                        rows: seq<Record>, summarize: Summarizer)
    requires translatorReply.None? || decode(CleanFences(translatorReply.value)).None?
    requires rows != [] && Columns(rows) != {}
    ensures HandleQuery(translatorReply, decode, Some(rows), summarize).summarized == Some(rows)
  {
  }

  /** An empty selection answers with the no-match message and never calls
      the summariser. */
  lemma NoMatchSkipsSummarizer(translatorReply: Option<string>, decode: Decoder,
                               rows: seq<Record>, summarize: Summarizer)
    ensures rows != [] && ApplyFilters(rows, Translate(translatorReply, decode).filters) == [] ==>
      HandleQuery(translatorReply, decode, Some(rows), summarize)
        == QueryRun(NoMatch(Translate(translatorReply, decode).filters), None)
  {
  }
}
