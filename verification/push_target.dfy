/** The push target (app.py:470-476): the first sender of a message
    becomes the identity that proactive digests are pushed to, and only
    then is the greeting prefixed to the reply. */
module PushTarget {
  import opened Wrappers

  /** `not USER_ID_TO_PUSH`: absent from the environment, or empty. */
  predicate IsUnset(target: Option<string>)
  {
    target.None? || target.value == ""
  }

  /** The target after one message, and whether the greeting was prefixed. */
  datatype Registration = Registration(target: Option<string>, greeted: bool)

  function Register(target: Option<string>, sender: string): (r: Registration)
    ensures r.greeted <==> IsUnset(target)
    ensures r.greeted ==> r.target == Some(sender)
    ensures !r.greeted ==> r.target == target
  {
    if IsUnset(target) then Registration(Some(sender), true) else Registration(target, false)
  }

  /** The target after a run of messages from `senders`, in order. */
  function TargetAfter(target: Option<string>, senders: seq<string>): Option<string>
    decreases |senders|
  {
    if senders == [] then target else TargetAfter(Register(target, senders[0]).target, senders[1..])
  }

  /** How many of those messages were greeted. */
  function Greetings(target: Option<string>, senders: seq<string>): nat
    decreases |senders|
  {
    if senders == [] then 0
    else
      var r := Register(target, senders[0]);
      (if r.greeted then 1 else 0) + Greetings(r.target, senders[1..])
  }

  /** Once set, the target never changes and nobody is greeted again. */
  lemma {:induction false} TargetStable(target: Option<string>, senders: seq<string>)
    requires !IsUnset(target)
    ensures TargetAfter(target, senders) == target
    ensures Greetings(target, senders) == 0
    decreases |senders|
  {
    if senders != [] {
      TargetStable(target, senders[1..]);
    }
  }

  /** From an unset target, the first sender becomes the target for good
      and is the only one greeted. */
  lemma FirstSenderWins(target: Option<string>, senders: seq<string>)
    requires IsUnset(target) && |senders| > 0 && senders[0] != ""
    ensures TargetAfter(target, senders) == Some(senders[0])
    ensures Greetings(target, senders) == 1
  {
    TargetStable(Some(senders[0]), senders[1..]);
  }
}
