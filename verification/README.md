# AI project-secretary chat bot — functional model

This project models the decision logic of a LINE chat bot that keeps project
tasks in a Google Sheet and answers questions about them with Gemini. It
covers the live version of `app.py` (the v5 code). The bot does four things.

* **Routing.** A chat message is routed by keyword to one of four handlers:
  write a task, query tasks, trigger the daily digest, or help.
* **Push target.** The first sender becomes the *push target*, the user who
  receives proactive messages.
* **Query.** A query runs in two stages. First the model translates the
  question into a JSON *filter set* (column name to expected value). A failed
  translation degrades to the empty filter set. Then the sheet is read, the
  records are filtered locally with a pandas boolean mask, and only a
  non-empty selection goes to the model for a summary.
* **Write.** A write request turns the model's JSON answer into one new
  12-column row with fixed defaults.
* **Daily digest.** The digest is pushed only when there is a push target
  and at least one task whose status is not "已完成".

The sheet, Gemini and `json.loads` are external. Each appears as an input:

* a model call is an `Option<string>` (`None` means the call, or reading
  its text, raised). The write path distinguishes the two failures, because
  there the error handler reads the text a second time (app.py:545) and an
  unreadable text therefore escapes with its own error;
* the decoder is a function `string -> Option<map<string, string>>`;
* the sheet read is an `Option<seq<Record>>`;
* the summariser and the digest generator are functions of the rows they
  are shown.

Each outcome records what was handed to those functions. That is how the
model states, for example, that the summariser is never called on an empty
selection.

Modules, one per component:

| file | module | component |
|---|---|---|
| wrappers.dfy | `Wrappers` | `Option`, `Result` |
| strings.dfy | `Strings` | `str.strip()`, `str.replace(p, "")`, `in`, code-fence cleaning |
| records.dfy | `Records` | records, frame columns, `df[key].astype(str)`, mask selection |
| filter.dfy | `LocalFilter` | the local filter engine |
| model_json.dfy | `ModelJson` | cleaning and decoding a model reply |
| translator.dfy | `Translator` | `parse_query_to_filters` |
| query.dfy | `Query` | `handle_query_task_v5` |
| write_task.dfy | `WriteTask` | `handle_write_task` |
| push_target.dfy | `PushTarget` | the push-target state |
| digest.dfy | `Digest` | `send_daily_summary` |
| router.dfy | `Router` | the keyword router |
| bot.dfy | `Bot` | `handle_message` |

Three pandas behaviours are modelled exactly:

* A frame built from a list of dicts has as columns every key of any record.
  A record that lacks one of them reads as `"nan"` after `astype(str)`.
* `DataFrame.empty` is also true for a frame with rows but no columns. The
  query's no-match test therefore checks for no rows *or* no columns.
* In the digest, `df['任務狀態']` raises `KeyError` when that column is
  absent. The error is caught by the same `try` as a failed read, so
  nothing is pushed.

## Model

| member | source | states |
|---|---|---|
| `Strings.LeadingSpaces` | app.py:624 | the count covers only whitespace (Python's `isspace` set) and stops at the first non-whitespace character or the end |
| `Strings.TrailingSpaces` | app.py:624 | the count covers only trailing whitespace and stops at the last non-whitespace character or the start |
| `Strings.StripSpec` | app.py:624 | `strip()` returns the slice of the input left after cutting a whitespace-only prefix and suffix, and that slice neither starts nor ends with whitespace |
| `Strings.Strip` | app.py:540 | `strip()` never lengthens the text, and a non-empty result neither starts nor ends with whitespace |
| `Strings.StripIdempotent` | app.py:624 | stripping twice gives the same text as stripping once |
| `Strings.ContainsSpec` | app.py:479 | the `in` test holds exactly when the keyword occurs at some index of the message |
| `Strings.RemoveAll` | app.py:624 | `replace(p, "")` never lengthens the text |
| `Strings.RemoveAllAbsent` | app.py:624 | a text that never contains the pattern's first character is left unchanged by `replace` |
| `Strings.RemoveFenceLeavesNone` | app.py:624 | removing "```" left to right leaves no "```" behind, even where removal joins backticks together |
| `Strings.CleanFences` | app.py:540 | the cleaned reply is no longer than the reply and holds no code-fence marker |
| `Strings.CleanFencesPlain` | app.py:624 | a reply without backticks is only trimmed |
| `Records.Columns` | app.py:704 | a name is a column of the frame exactly when some record has that key |
| `Records.NoColumnsMeansEmptyRecords` | app.py:698 | a frame built from records has no columns exactly when every record is empty; this is the case where `DataFrame.empty` holds of a frame with rows |
| `Records.FieldText` | app.py:706 | `astype(str)` of one cell: the cell text, or "nan" where the record lacks a column of the frame; the filter and digest lemmas state selection in its terms |
| `Records.Keep` | app.py:707 | the selection is no longer than the input, and every selected row is a row of the input that passes the mask |
| `Records.KeptIndices` | app.py:707 | the selected positions lie within the frame |
| `Records.KeptIndicesIncreasing` | app.py:707 | the selected positions are strictly increasing, so the mask keeps the original order |
| `Records.KeptIndicesExact` | app.py:707 | a position is selected exactly when its row passes the mask |
| `Records.KeepSpec` | app.py:707 | the selection is the rows at the selected positions, one for each |
| `Records.KeepAll` | app.py:702-707 | a mask that is true everywhere keeps the whole frame |
| `Records.KeepNone` | app.py:729-730 | a mask that is false everywhere keeps nothing |
| `LocalFilter.Effective` | app.py:703-704 | the filter entries applied are those whose key is a column, with their values unchanged |
| `LocalFilter.ApplyFilters` | app.py:695-707 | `filtered_df` is no longer than the frame, holds only its records, and each holds the filter value in every filter key that is a column |
| `LocalFilter.ApplyFiltersIsKeep` | app.py:695-707 | the empty-filter branch and the mask branch select by the same criterion |
| `LocalFilter.FilterIdentity` | app.py:695-706 | with no filters, or no filter key naming a column, the result is every record in its original order |
| `LocalFilter.CriterionMeans` | app.py:703-706 | a record passes the mask exactly when each filter key that is a column holds the filter value as text |
| `LocalFilter.FilterIsSubsequence` | app.py:701-707 | the result is the records at strictly increasing positions of the input, so it is an order-preserving subsequence |
| `LocalFilter.FilterKeepsExactly` | app.py:701-707 | a record is kept exactly when, for every filter key that is a column, its field text equals the filter value |
| `LocalFilter.DroppedFailsSomeKey` | app.py:701-707 | every record absent from the result fails at least one filter key that is a column |
| `LocalFilter.FilterIdempotent` | app.py:701-707 | filtering the filtered records again with the same filter set changes nothing |
| `LocalFilter.PassesOnStep` | app.py:704-706 | one more loop iteration adds exactly that key's column test to the mask |
| `LocalFilter.PassesOnAll` | app.py:703-706 | after every key has been tested, passing the mask means matching all column keys |
| `LocalFilter.AndColumnTest` | app.py:706 | `mask &= (col == value)` keeps a row true only where it was true and the field text equals the value |
| `LocalFilter.BuildMask` | app.py:702-706 | the mask built key by key is true exactly at the matching records |
| `LocalFilter.SelectByMask` | app.py:707 | `df[mask]` keeps the rows where the mask is true, in order |
| `LocalFilter.MaskFilter` | app.py:695-707 | the filter step as the source computes it agrees with the declarative filter |
| `LocalFilter.ProjectExample` | app.py:701-707 | filtering the two-record sheet on project "A計畫" keeps only the first record |
| `LocalFilter.UnknownKeyExample` | app.py:703-706 | a filter on "狀態", which is not a column, keeps every record |
| `ModelJson.ParseReply` | app.py:622-625 | the decoder runs exactly when the model call succeeded, it sees text with no code-fence marker, and for a reply without backticks it sees the trimmed reply |
| `Translator.Translate` | app.py:622-631 | translation never fails: a failed call or an undecodable reply yields the empty filter set, and otherwise the result is the decoded object |
| `Translator.TranslateNonEmptyComesFromModel` | app.py:622-631 | a non-empty filter set comes only from a successful call whose cleaned reply decoded to exactly that set |
| `Query.FrameEmpty` | app.py:709 | `DataFrame.empty`: no rows, or no columns at all (see `Records.NoColumnsMeansEmptyRecords`); `Query.HandleQuery` answers no-match exactly when it holds |
| `Query.HandleQuery` | app.py:671-713 | the read error happens exactly when the read fails; an empty store gives the no-tasks message; on a non-empty sheet the answer is no-match exactly when the filtered frame is empty, and that answer carries the translated filter set and skips the summariser; otherwise the summariser is called on exactly the filtered records; the summariser only ever sees a non-empty selection; its failure is the summary error, the only other error; its success is the stripped answer |
| `Query.TranslationFailureSummarizesAll` | app.py:695-698 | a failed or undecodable translation never fails the query: a non-empty sheet with columns is summarised whole |
| `Query.NoMatchSkipsSummarizer` | app.py:709-710 | an empty selection returns the no-match outcome with the filter set and makes no summariser call |
| `WriteTask.NewRow` | app.py:548-561 | the new row has 12 cells. Project and assignee come from the parse or default to "未指定"; the task name defaults to "未提取". The other cells are fixed: status "待辦", priority "中", start date the date the process started, due date as parsed or `None`, completion date and risk `None`, progress 0, frequency "完成時", description the original message |
| `WriteTask.HandleWrite` | app.py:538-566 | a reply whose text cannot be read fails with that accessor's error, since the handler reads it again to log it; otherwise a failed call or undecodable reply is the parse error and a failed append is the write error; a row is added exactly when the reply decodes and the append succeeds, and it is the new row of the decoded object |
| `WriteTask.Confirm` | app.py:567-576 | the confirmation fields of the appended row; `WriteTask.ConfirmEchoesTask` states what they show |
| `WriteTask.ConfirmEchoesTask` | app.py:567-576 | the reply shows the parsed project, task and assignee or their defaults, the status "待辦", and "未定" exactly when the due date is missing or empty (or is itself "未定") |
| `WriteTask.NullSentinelShownLiterally` | app.py:574 | a due date of "NULL" is truthy and is shown as "NULL", not "未定" |
| `PushTarget.Register` | app.py:470-476 | the greeting is added exactly when the target was unset (absent or empty), and only then does the target become the sender; otherwise it is unchanged |
| `PushTarget.TargetStable` | app.py:470-476 | once set, the target survives any sequence of later senders, and nobody is greeted again |
| `PushTarget.FirstSenderWins` | app.py:470-474 | from an unset target, the first (non-empty) sender becomes the target for good and is the only one greeted |
| `Digest.SendDailySummary` | app.py:718-771 | a push happens exactly when the target is set, the read succeeded, the sheet is non-empty, has the status column, and has an active row. A push goes to the target. It is written from the active rows. It carries the stripped digest, or the error prefix plus the exception text |
| `Digest.ActiveTasks` | app.py:729 | the active rows are no more than the sheet's, are rows of the sheet, and none has status "已完成" |
| `Digest.ActiveIsSubsequence` | app.py:729 | the active set is the rows at strictly increasing positions of the sheet, in order |
| `Digest.ActiveKeepsExactly` | app.py:729 | a row is active exactly when its status is not "已完成" (a row without the status cell reads as "nan" and is active) |
| `Digest.AllDoneNoPush` | app.py:729-732 | when every task is completed nothing is pushed |
| `Digest.GenerationFailureStillPushes` | app.py:756-771 | a failed generation still pushes, carrying the error text |
| `Router.ContainsAny` | app.py:479 | the `or` of keyword tests holds exactly when some keyword of the list occurs |
| `Router.Route` | app.py:479-504 | write is chosen exactly when a write keyword occurs; query, digest and help each exactly when no earlier list's keyword occurs and (except for help) one of its own does |
| `Router.RouteFollowsRules` | app.py:479-504 | the `if`/`elif` cascade equals the first match in the ordered rule table write, query, digest, with help as the fallback |
| `Router.RouteSpec` | app.py:479-504 | each intent is chosen exactly when one of its keywords occurs and no keyword of a higher-priority intent does |
| `Router.WriteBeatsQuery` | app.py:479-486 | a message holding both "新增" and "查詢" routes to write |
| `Bot.HandleMessage` | app.py:463-504 | the target is updated as registration says; the greeting is added exactly when it was unset; exactly the handler of the routed intent runs, and a write or query body is that handler's outcome for this message; a triggered digest uses the just-updated target and is always acknowledged; help replies with the help text |
| `Bot.FirstDigestGoesToSender` | app.py:470-497 | a first message asking for the digest registers its sender, so any push goes to that sender |

## Left out

- The Flask `/callback` route and the LINE signature check (app.py:448-458) are HTTP transport and a foreign SDK.
- LINE reply and push delivery (app.py:507-512, 763-771) is an external API. A push is modelled as `Pushed(to, text, …)`, and a failed push is only logged.
- The rendered text of replies is not modelled. This covers the f-string layout, the Python `repr` of the filter set in the no-match message, the error prefixes added by `handle_message`, and the final `strip()`. Replies are modelled as the `Reply`/`Body` datatype instead. `repr` depends on dict insertion order, which a `map` does not have.
- The prompt wording of the three Gemini calls is not behaviour. Each call is an input: an optional reply, or a function of the rows it is shown.
- `json.loads` is an input decoder defined on invalid JSON and on objects with text values only. Object values that are not strings (numbers, `null`, nested values, which the source compares through `str(value)`) are not modelled.
- Valid JSON that is not an object is outside the decoder's domain. In the source, on the query path a falsy value (`[]`, `0`, `""`, `null`) counts as no filters and the whole sheet is summarised, while a truthy one (`["x"]`, `1`) reaches `filters.items()` (app.py:703) outside any `try` and fails the query with Python's own error. On the write path, `task_data.get` (app.py:549) fails inside the append `try` and gives the write error.
- gspread reads and appends are external. Two gspread details are not modelled: the numeric conversion `get_all_records` applies to cells (so "1.50" would read back as `1.5`), and the header row cached at startup (app.py:437). Cells are given as their text.
- `pd.DataFrame` and `to_markdown` serialisation are external library formatting. Only the column set and `.empty` are modelled.
- `.env` persistence by `set_key` (app.py:472) is modelled as the single `Option<string>` target value.
- The APScheduler job (app.py:776-786) is time and threading.
- `datetime.now` (app.py:443) runs once, when the module is imported. The resulting date is the `today` input of every message, and the source keeps it unchanged for the life of the process, so a long-running bot stamps later tasks with its start date.
- WriteTask.HandleWrite: when the reply's text cannot be read, the model assumes the second read at app.py:545 raises the same error message as the first.
- Logging is left out.
- The older version kept inside a string literal (app.py:2-370) is dead code.
