/** The command router of `handle_message` (app.py:479-504): keyword
    containment, checked in a fixed priority order, picks exactly one intent. */
module Router {
  import opened Strings

  datatype Intent = WriteIntent | QueryIntent | DigestIntent | HelpIntent

  const WriteKeywords: seq<string> := ["提醒", "新增", "指派", "待辦"]
  const QueryKeywords: seq<string> := ["查詢", "進度", "有什麼", "幫我找"]
  const DigestKeywords: seq<string> := ["晨報", "summary"]

  /** Some keyword of `keywords` occurs in `text`. */
  predicate ContainsAny(text: string, keywords: seq<string>)
    ensures ContainsAny(text, keywords) <==> exists i :: 0 <= i < |keywords| && Contains(text, keywords[i])
  {
    if keywords == [] then false
    else Contains(text, keywords[0]) || ContainsAny(text, keywords[1..])
  }

  /** The `if`/`elif` cascade of the source. */
  function Route(text: string): (intent: Intent)
    ensures intent == WriteIntent <==> ContainsAny(text, WriteKeywords)
    ensures intent == QueryIntent <==> !ContainsAny(text, WriteKeywords) && ContainsAny(text, QueryKeywords)
    ensures intent == DigestIntent <==>
      !ContainsAny(text, WriteKeywords) && !ContainsAny(text, QueryKeywords) && ContainsAny(text, DigestKeywords)
    ensures intent == HelpIntent <==>
      !ContainsAny(text, WriteKeywords) && !ContainsAny(text, QueryKeywords) && !ContainsAny(text, DigestKeywords)
  {
    if ContainsAny(text, WriteKeywords) then WriteIntent
    else if ContainsAny(text, QueryKeywords) then QueryIntent
    else if ContainsAny(text, DigestKeywords) then DigestIntent
    else HelpIntent
  }

  /** The same routing as an ordered rule table: the first rule with a
      matching keyword wins, and help is the fallback. */
  const Rules: seq<(Intent, seq<string>)> :=
    [(WriteIntent, WriteKeywords), (QueryIntent, QueryKeywords), (DigestIntent, DigestKeywords)]

  function FirstRule(rules: seq<(Intent, seq<string>)>, text: string): Intent
  {
    if rules == [] then HelpIntent
    else if ContainsAny(text, rules[0].1) then rules[0].0
    else FirstRule(rules[1..], text)
  }

  lemma RouteFollowsRules(text: string)
    ensures Route(text) == FirstRule(Rules, text)
  {
    var r1, r2 := Rules[1..], Rules[1..][1..];
    assert r1[0] == (QueryIntent, QueryKeywords) && r2 == [(DigestIntent, DigestKeywords)];
    assert FirstRule(r2, text) == (if ContainsAny(text, DigestKeywords) then DigestIntent else HelpIntent) by {
      assert r2[1..] == [];
    }
  }

  /** Each intent is chosen exactly when its keywords occur and no keyword
      of a higher-priority intent does. */
  lemma RouteSpec(text: string)
    ensures Route(text) == WriteIntent <==>
      exists i :: 0 <= i < |WriteKeywords| && Contains(text, WriteKeywords[i])
    ensures Route(text) == QueryIntent <==>
      && (forall i :: 0 <= i < |WriteKeywords| ==> !Contains(text, WriteKeywords[i]))
      && (exists i :: 0 <= i < |QueryKeywords| && Contains(text, QueryKeywords[i]))
    ensures Route(text) == DigestIntent <==>
      && (forall i :: 0 <= i < |WriteKeywords| ==> !Contains(text, WriteKeywords[i]))
      && (forall i :: 0 <= i < |QueryKeywords| ==> !Contains(text, QueryKeywords[i]))
      && (exists i :: 0 <= i < |DigestKeywords| && Contains(text, DigestKeywords[i]))
    ensures Route(text) == HelpIntent <==>
      && (forall i :: 0 <= i < |WriteKeywords| ==> !Contains(text, WriteKeywords[i]))
      && (forall i :: 0 <= i < |QueryKeywords| ==> !Contains(text, QueryKeywords[i]))
      && (forall i :: 0 <= i < |DigestKeywords| ==> !Contains(text, DigestKeywords[i]))
  {
  }

  /** A message holding both "新增" and "查詢" is a write. */
  lemma WriteBeatsQuery(text: string)
    requires Contains(text, "新增") && Contains(text, "查詢")
    ensures Route(text) == WriteIntent
  {
    assert Contains(text, WriteKeywords[1]);
  }
}
