/** The executor's callback to the web tier: up to three requests, and what can come of them. */
module Callbacks {

  const CALLBACK_TRIES := 3

  /** A callback is acknowledged only when it was applied; it is tried at most three times. */
  predicate CallbackPossible(applied: nat, ack: bool) {
    applied <= CALLBACK_TRIES && (ack ==> applied > 0)
  }

  /** How one request of a callback ends: acknowledged, failed, or applied although the client sees an error. */
  datatype CallReply = Acknowledged | Failed | AppliedUnseen

  /** How often a callback is applied, and whether it is acknowledged; the first acknowledgement ends it. */
  function Called(replies: seq<CallReply>): (nat, bool) {
    if replies == [] then (0, false)
    else
      match replies[0]
      case Acknowledged => (1, true)
      case Failed => Called(replies[1..])
      case AppliedUnseen => var (applied, ack) := Called(replies[1..]); (applied + 1, ack)
  }

  /** `_patch_django`: up to three requests; without an acknowledgement it raises. */
  method PatchDjango(replies: seq<CallReply>) returns (applied: nat, ack: bool)
    requires |replies| == CALLBACK_TRIES
    ensures (applied, ack) == Called(replies)
  {
    applied, ack := 0, false;
    for i := 0 to CALLBACK_TRIES
      invariant Called(replies) == (applied + Called(replies[i..]).0, Called(replies[i..]).1)
    {
      assert replies[i..][1..] == replies[i + 1..];
      match replies[i] {
        case Acknowledged => return applied + 1, true;
        case Failed =>
        case AppliedUnseen => applied := applied + 1;
      }
    }
  }

  function Copies(reply: CallReply, n: nat): seq<CallReply> {
    seq(n, _ => reply)
  }

  lemma {:induction false} CalledAfter(reply: CallReply, n: nat, rest: seq<CallReply>)
    requires reply != Acknowledged
    ensures Called(Copies(reply, n) + rest) ==
      (Called(rest).0 + (if reply == AppliedUnseen then n else 0), Called(rest).1)
  {
    if n == 0 {
      assert Copies(reply, 0) + rest == rest;
    } else {
      CalledAfter(reply, n - 1, rest);
      assert (Copies(reply, n) + rest)[1..] == Copies(reply, n - 1) + rest;
    }
  }

  /** Whatever the requests meet, they are applied at most once each, and acknowledged only when applied. */
  lemma {:induction false} CalledIsPossible(replies: seq<CallReply>)
    ensures Called(replies).0 <= |replies| && (Called(replies).1 ==> Called(replies).0 > 0)
    ensures |replies| == 3 ==> CallbackPossible(Called(replies).0, Called(replies).1)
  {
    if replies != [] { CalledIsPossible(replies[1..]); }
  }

  /** And all that the protocol lets a callback do can come of three requests. */
  lemma PossibleIsCalled(applied: nat, ack: bool) returns (replies: seq<CallReply>)
    requires CallbackPossible(applied, ack)
    ensures |replies| == 3 && Called(replies) == (applied, ack)
  {
    var n := if ack then applied - 1 else applied;
    var rest := if ack then [Acknowledged] + Copies(Failed, 2 - n) else Copies(Failed, 3 - n);
    CalledAfter(Failed, if ack then 2 - n else 3 - n, []);
    assert rest + [] == rest;
    CalledAfter(AppliedUnseen, n, rest);
    replies := Copies(AppliedUnseen, n) + rest;
  }
}
