/** `send_daily_summary` (app.py:718-771): whether the daily digest is
    pushed, to whom, and with which text. */
module Digest {
  import opened Wrappers
  import opened Strings
  import opened Records
  import opened PushTarget

  const StatusField: string := "任務狀態"
  const DoneStatus: string := "已完成"
  const GenerationFailurePrefix: string := "❌ 產生晨報失敗："

  /** `df['任務狀態'] != '已完成'` at one row. */
  predicate IsActive(r: Record)
  {
    FieldText(r, StatusField) != DoneStatus
  }

  /** The rows the digest is written from: every row not completed, in order. */
  function ActiveTasks(rows: seq<Record>): (active: seq<Record>)
    ensures |active| <= |rows|
    ensures forall j :: 0 <= j < |active| ==> active[j] in rows && FieldText(active[j], StatusField) != DoneStatus
  {
    Keep(rows, IsActive)
  }

  /** The digest model call for the rows it is shown: the text, or the
      exception message. */
  type Generator = seq<Record> -> Result<string, string>

  datatype SkipReason = NoPushTarget | NoTasks | ReadFailed | NothingActive

  /** Either nothing is pushed, or exactly one push of `text` to `to`,
      written from the rows `digestOf`. */
  datatype DigestRun = Skipped(reason: SkipReason) | Pushed(to: string, text: string, digestOf: seq<Record>)

  /** `None` for `sheet` is a failed read. A frame without the status column
      raises inside the same `try`, so it is skipped like a failed read. */
  function SendDailySummary(target: Option<string>, sheet: Option<seq<Record>>,
                            generate: Generator): (run: DigestRun)
    ensures run.Pushed? <==>
      && !IsUnset(target) && sheet.Some? && sheet.value != []
      && StatusField in Columns(sheet.value) && ActiveTasks(sheet.value) != []
    ensures IsUnset(target) ==> run == Skipped(NoPushTarget)
    ensures run.Pushed? ==> run.to == target.value && run.digestOf == ActiveTasks(sheet.value)
    ensures run.Pushed? ==>
      (forall j :: 0 <= j < |run.digestOf| ==> FieldText(run.digestOf[j], StatusField) != DoneStatus)
    ensures run.Pushed? ==>
      run.text == (match generate(run.digestOf)
                   case Ok(t) => Strip(t)
                   case Err(e) => GenerationFailurePrefix + e)
  {
    if IsUnset(target) then Skipped(NoPushTarget)
    else match sheet
      case None => Skipped(ReadFailed)
      case Some(rows) =>
        if rows == [] then Skipped(NoTasks)
        else if StatusField !in Columns(rows) then Skipped(ReadFailed)
        else
          var active := ActiveTasks(rows);
          if active == [] then Skipped(NothingActive)
          else
            var text := match generate(active)
                        case Ok(t) => Strip(t)
                        case Err(e) => GenerationFailurePrefix + e;
            Pushed(target.value, text, active)
  }

  /** The active set is the order-preserving subsequence of `rows` at the
      increasing positions `KeptIndices(rows, IsActive)`. */
  lemma {:induction false} ActiveIsSubsequence(rows: seq<Record>)
    ensures var active, idx := ActiveTasks(rows), KeptIndices(rows, IsActive);
      && |active| == |idx| && Increasing(idx)
      && (forall j :: 0 <= j < |idx| ==> active[j] == rows[idx[j]])
  {
    KeepSpec(rows, IsActive);
    KeptIndicesIncreasing(rows, IsActive);
  }

  /** A row is in the active set exactly when its status is not "已完成". */
  lemma {:induction false} ActiveKeepsExactly(rows: seq<Record>)
    ensures forall i :: 0 <= i < |rows| ==>
      (i in KeptIndices(rows, IsActive) <==> FieldText(rows[i], StatusField) != DoneStatus)
  {
    KeptIndicesExact(rows, IsActive);
  }

  /** When every task is completed nothing is pushed. */
  lemma AllDoneNoPush(target: Option<string>, rows: seq<Record>, generate: Generator)
    requires forall i :: 0 <= i < |rows| ==> FieldText(rows[i], StatusField) == DoneStatus
    ensures SendDailySummary(target, Some(rows), generate).Skipped?
  {
    KeepNone(rows, IsActive);
  }

  /** A failed generation still pushes, carrying the error text. */
  lemma GenerationFailureStillPushes(target: Option<string>, rows: seq<Record>, generate: Generator)
    requires !IsUnset(target) && rows != [] && StatusField in Columns(rows)
    requires ActiveTasks(rows) != [] && generate(ActiveTasks(rows)).Err?
    ensures SendDailySummary(target, Some(rows), generate)
         == Pushed(target.value, GenerationFailurePrefix + generate(ActiveTasks(rows)).error, ActiveTasks(rows))
  {
  }
}
