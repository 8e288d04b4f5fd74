/** `handle_write_task` (app.py:516-576): the model's JSON answer becomes
    one new 12-column sheet row with fixed defaults, and the reply echoes
    the main fields. */
module WriteTask {
  import opened Wrappers
  import opened ModelJson

  /** A value handed to `append_row`: text, a number, or `None`. */
  datatype Cell = Str(s: string) | Int(n: int) | Null

  const RowWidth: nat := 12

  const Unspecified: string := "未指定"
  const NotExtracted: string := "未提取"
  const TodoStatus: string := "待辦"
  const MediumPriority: string := "中"
  const ReportOnCompletion: string := "完成時"
  const Undetermined: string := "未定"

  const ParseFailure: string := "Gemini 解析資料失敗，請檢查 Prompt 或 API 金鑰。"
  const AppendFailure: string := "寫入 Google Sheet 失敗，請檢查 service_account.json 權限。"

  /** `d.get(key, default)`. */
  function Get(d: map<string, string>, key: string, default: string): string
  {
    if key in d then d[key] else default
  }

  /** The row appended for a parsed task, columns A to L. */
  function NewRow(task: map<string, string>, today: string, message: string): (row: seq<Cell>)
    ensures |row| == RowWidth
    ensures row[0] == Str(if "project_name" in task then task["project_name"] else Unspecified)
    ensures row[1] == Str(if "task_name" in task then task["task_name"] else NotExtracted)
    ensures row[2] == Str(if "assignee" in task then task["assignee"] else Unspecified)
    ensures row[3] == Str(TodoStatus) && row[4] == Str(MediumPriority) && row[5] == Str(today)
    ensures row[6] == (if "due_date" in task then Str(task["due_date"]) else Null)
    ensures row[7] == Null && row[8] == Int(0) && row[9] == Null
    ensures row[10] == Str(ReportOnCompletion) && row[11] == Str(message)
  {
    [ Str(Get(task, "project_name", Unspecified)),
      Str(Get(task, "task_name", NotExtracted)),
      Str(Get(task, "assignee", Unspecified)),
      Str(TodoStatus),
      Str(MediumPriority),
      Str(today),
      if "due_date" in task then Str(task["due_date"]) else Null,
      Null,
      Int(0),
      Null,
      Str(ReportOnCompletion),
      Str(message) ]
  }

  /** Python truthiness of a text or `None` cell. */
  predicate Truthy(c: Cell)
    requires !c.Int?
  {
    c.Str? && c.s != ""
  }

  /** How an f-string prints a text or `None` cell. */
  function Render(c: Cell): string
    requires !c.Int?
  {
    if c.Str? then c.s else "None"
  }

  /** The fields of the confirmation reply. */
  datatype Confirmation = Confirmation(project: string, task: string, assignee: string,
                                       status: string, due: string)

  /** The reply's fields for the row appended for `task`; the due date shows
      "未定" when falsy. */
  function Confirm(task: map<string, string>, today: string, message: string): Confirmation
  {
    var row := NewRow(task, today, message);
    Confirmation(Render(row[0]), Render(row[1]), Render(row[2]), Render(row[3]),
                 if Truthy(row[6]) then Render(row[6]) else Undetermined)
  }

  /** What the write path's model call gives back: the call raised; the
      call returned but reading the reply's text raised, with that error's
      message; or the reply text. */
  datatype WriteReply = CallRaised | TextUnreadable(error: string) | Answered(text: string)

  /** The reply text, when there is one to clean and decode. */
  function ReplyText(reply: WriteReply): Option<string>
  {
    if reply.Answered? then Some(reply.text) else None
  }

  datatype WriteOutcome = Added(row: seq<Cell>) | WriteFailed(reason: string)

  /** The write path, with the model reply, the decoder and whether
      `append_row` succeeds given as inputs. When the reply's text cannot be
      read, the error handler reads it a second time to log it, so the
      accessor's own error escapes instead of the parse error. */
  function HandleWrite(reply: WriteReply, decode: Decoder, appendOk: bool,
                       today: string, message: string): (w: WriteOutcome)
    ensures reply.TextUnreadable? ==> w == WriteFailed(reply.error)
    ensures !reply.TextUnreadable? ==>
      (w == WriteFailed(ParseFailure) <==> ParseReply(ReplyText(reply), decode).decoded.None?)
    ensures !reply.TextUnreadable? ==>
      (w == WriteFailed(AppendFailure) <==> ParseReply(ReplyText(reply), decode).decoded.Some? && !appendOk)
    ensures w.Added? <==>
      reply.Answered? && appendOk && ParseReply(ReplyText(reply), decode).decoded.Some?
    ensures w.Added? ==> w == Added(NewRow(ParseReply(ReplyText(reply), decode).decoded.value, today, message))
  {
    if reply.TextUnreadable? then WriteFailed(reply.error)
    else
      match ParseReply(ReplyText(reply), decode).decoded
      case None => WriteFailed(ParseFailure)
      case Some(task) =>
        if appendOk then Added(NewRow(task, today, message)) else WriteFailed(AppendFailure)
  }

  /** The confirmation echoes the parsed fields, or their defaults, and the
      status every new task starts with. */
  lemma ConfirmEchoesTask(task: map<string, string>, today: string, message: string)
    ensures var c := Confirm(task, today, message);
      && c.project == Get(task, "project_name", Unspecified)
      && c.task == Get(task, "task_name", NotExtracted)
      && c.assignee == Get(task, "assignee", Unspecified)
      && c.status == TodoStatus
      && (c.due == Undetermined <==> "due_date" !in task || task["due_date"] == "" || task["due_date"] == Undetermined)
      && ("due_date" in task && task["due_date"] != "" ==> c.due == task["due_date"])
  {
  }

  /** The "NULL" text the prompt asks for when no date is found is truthy,
      so it is stored and shown as is rather than as "未定". */
  lemma NullSentinelShownLiterally(task: map<string, string>, today: string, message: string)
    requires "due_date" in task && task["due_date"] == "NULL"
    ensures Confirm(task, today, message).due == "NULL"
  {
  }
}
