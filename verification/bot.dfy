/** `handle_message` (app.py:463-512): register the push target, route
    the message to one handler, and collect that handler's outcome for the
    single reply. */
module Bot {
  import opened Wrappers
  import opened Records
  import opened ModelJson
  import opened PushTarget
  import opened Router
  import opened WriteTask
  import opened Query
  import opened Digest

  const DigestAck: string := "✅ 晨報已發送，請檢查您的 LINE 訊息。"
  const HelpMessage: string :=
    "您好，我是一個專案管理助理。\n\n- 新增任務：「提醒我...」\n- 查詢任務：「查詢...」\n- 測試晨報：「晨報」"

  /** What the outside world answers during one message: the model replies
      for the write and the translation calls, the JSON decoder, the sheet
      read, whether the append succeeds, the summariser and the digest
      generator. `today` is the date computed once when the process starts
      (app.py:443), so every message of one process sees the same value. */
  datatype Env = Env(
    today: string,
    writeReply: WriteReply,
    translatorReply: Option<string>,
    decode: Decoder,
    sheet: Option<seq<Record>>,
    appendOk: bool,
    summarize: Summarizer,
    generate: Generator)

  /** The handler that ran and what it produced. A triggered digest is
      always acknowledged with `ack`, whatever the run did. */
  datatype Body =
    | Wrote(write: WriteOutcome)
    | Queried(query: QueryRun)
    | DigestTriggered(digest: DigestRun, ack: string)
    | Helped(help: string)

  /** The reply, with whether the greeting prefix was added. */
  datatype Reply = Reply(greeted: bool, body: Body)

  datatype Step = Step(target: Option<string>, reply: Reply)

  function HandleMessage(target: Option<string>, sender: string, text: string, env: Env): (s: Step)
    ensures s.target == (if IsUnset(target) then Some(sender) else target)
    ensures s.reply.greeted <==> IsUnset(target)
    ensures s.reply.body.Wrote? <==> Route(text) == WriteIntent
    ensures s.reply.body.Queried? <==> Route(text) == QueryIntent
    ensures s.reply.body.DigestTriggered? <==> Route(text) == DigestIntent
    ensures s.reply.body.Helped? <==> Route(text) == HelpIntent
    ensures s.reply.body.Wrote? ==>
      s.reply.body.write == HandleWrite(env.writeReply, env.decode, env.appendOk, env.today, text)
    ensures s.reply.body.Queried? ==>
      s.reply.body.query == HandleQuery(env.translatorReply, env.decode, env.sheet, env.summarize)
    ensures s.reply.body.DigestTriggered? ==>
      s.reply.body == DigestTriggered(SendDailySummary(s.target, env.sheet, env.generate), DigestAck)
    ensures s.reply.body.Helped? ==> s.reply.body.help == HelpMessage
  {
    var reg := Register(target, sender);
    var body := match Route(text)
      case WriteIntent =>
        Wrote(HandleWrite(env.writeReply, env.decode, env.appendOk, env.today, text))
      case QueryIntent =>
        Queried(HandleQuery(env.translatorReply, env.decode, env.sheet, env.summarize))
      case DigestIntent =>
        DigestTriggered(SendDailySummary(reg.target, env.sheet, env.generate), DigestAck)
      case HelpIntent =>
        Helped(HelpMessage);
    Step(reg.target, Reply(reg.greeted, body))
  }

  /** A first message asking for the digest registers its sender first, so
      any push goes to that sender. */
  lemma FirstDigestGoesToSender(target: Option<string>, sender: string, text: string, env: Env)
    requires IsUnset(target) && sender != "" && Route(text) == DigestIntent
    ensures var s := HandleMessage(target, sender, text, env);
      s.reply.body.DigestTriggered? && (s.reply.body.digest.Pushed? ==> s.reply.body.digest.to == sender)
  {
  }
}
