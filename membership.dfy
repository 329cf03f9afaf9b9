/** The membership gate (`is_member`, bot.py:18-27): the user may use the bot
    only when every configured channel reports them as a member, an
    administrator or the creator. Channels are consulted in order and the
    first lookup that fails or reports another status ends the check with a
    refusal, so a lookup error never grants access. */
module Membership {

  /** What one `get_chat_member(channel, user)` call produced: the member's
      status, or an exception (network error, unknown user, bot not an
      administrator of the channel, ...). */
  datatype Lookup = Found(status: string) | Failed

  /** The answers of Telegram to the gate's calls: `calls(i, channel, user)`
      is what the call made for the list entry at position `i` produced.
      Each call is a separate remote request, so a channel listed twice may
      be answered differently the second time. */
  type ChatMemberCalls = (nat, int, int) -> Lookup

  /** The statuses the gate lets through. */
  predicate Accepted(l: Lookup) {
    l.Found? && l.status in {"member", "administrator", "creator"}
  }

  /** The verdict of the gate on the entries from position `i` on, with
      short-circuit. */
  predicate AdmitsFrom(channels: seq<int>, i: nat, user: int, calls: ChatMemberCalls)
    decreases |channels| - i
  {
    i >= |channels| ||
    (Accepted(calls(i, channels[i], user)) && AdmitsFrom(channels, i + 1, user, calls))
  }

  /** The verdict of the gate. */
  predicate Admits(channels: seq<int>, user: int, calls: ChatMemberCalls) {
    AdmitsFrom(channels, 0, user, calls)
  }

  /** How far the gate gets when it starts at position `i`. */
  function ConsultedFrom(channels: seq<int>, i: nat, user: int, calls: ChatMemberCalls): (k: nat)
    requires i <= |channels|
    decreases |channels| - i
    ensures i <= k <= |channels|
    ensures forall j :: i <= j < k - 1 ==> Accepted(calls(j, channels[j], user))
    ensures k < |channels| ==> i < k && !Accepted(calls(k - 1, channels[k - 1], user))
    ensures i < |channels| ==> i < k
  {
    if i == |channels| then i
    else if !Accepted(calls(i, channels[i], user)) then i + 1
    else ConsultedFrom(channels, i + 1, user, calls)
  }

  /** How many lookups the gate performs: all of them when every channel is
      accepted, otherwise up to and including the first rejected channel.
      Every channel before the last one consulted was accepted, and when the
      gate stops early the last one consulted was rejected. */
  function Consulted(channels: seq<int>, user: int, calls: ChatMemberCalls): (k: nat)
    ensures k <= |channels|
    ensures forall j :: 0 <= j < k - 1 ==> Accepted(calls(j, channels[j], user))
    ensures k < |channels| ==> 0 < k && !Accepted(calls(k - 1, channels[k - 1], user))
    ensures channels != [] ==> 0 < k
  {
    ConsultedFrom(channels, 0, user, calls)
  }

  /** `is_member(user)`: a loop over the channels that returns `false` at the
      first lookup that raises or reports a status outside the accepted set,
      and `true` after the last channel. `consulted` lists the channels whose
      lookup was performed, in order. */
  method IsMember(user: int, channels: seq<int>, calls: ChatMemberCalls)
    returns (admitted: bool, consulted: seq<int>)
    ensures admitted == Admits(channels, user, calls)
    ensures consulted == channels[..Consulted(channels, user, calls)]
    ensures channels == [] ==> admitted && consulted == []
  {
    consulted := [];
    for i := 0 to |channels|
      invariant consulted == channels[..i]
      invariant Admits(channels, user, calls) == AdmitsFrom(channels, i, user, calls)
      invariant Consulted(channels, user, calls) == ConsultedFrom(channels, i, user, calls)
    {
      var cid := channels[i];
      consulted := consulted + [cid];
      var member := calls(i, cid, user);
      match member
      case Failed =>
        return false, consulted;
      case Found(status) =>
        if status !in ["member", "administrator", "creator"] {
          return false, consulted;
        }
    }
    return true, consulted;
  }

  lemma {:induction false} AdmitsFromIff(channels: seq<int>, i: nat, user: int, calls: ChatMemberCalls)
    decreases |channels| - i
    ensures AdmitsFrom(channels, i, user, calls) <==>
            forall j :: i <= j < |channels| ==> Accepted(calls(j, channels[j], user))
  {
    if i < |channels| {
      AdmitsFromIff(channels, i + 1, user, calls);
    }
  }

  /** The gate admits exactly when every call succeeds with an accepted
      status. */
  lemma AdmitsIff(channels: seq<int>, user: int, calls: ChatMemberCalls)
    ensures Admits(channels, user, calls) <==>
            forall j :: 0 <= j < |channels| ==> Accepted(calls(j, channels[j], user))
  {
    AdmitsFromIff(channels, 0, user, calls);
  }

  /** Fail-closed: one call that raises, or reports a status that is not
      accepted, anywhere in the list refuses the user. */
  lemma FailClosed(channels: seq<int>, user: int, calls: ChatMemberCalls, j: nat)
    requires j < |channels| && !Accepted(calls(j, channels[j], user))
    ensures !Admits(channels, user, calls)
  {
    AdmitsIff(channels, user, calls);
  }

  lemma {:induction false} ConsultedFromMatchesVerdict(channels: seq<int>, i: nat, user: int, calls: ChatMemberCalls)
    requires i <= |channels|
    decreases |channels| - i
    ensures var k := ConsultedFrom(channels, i, user, calls);
            && (AdmitsFrom(channels, i, user, calls) ==> k == |channels|)
            && (!AdmitsFrom(channels, i, user, calls) ==> i < k && !Accepted(calls(k - 1, channels[k - 1], user)))
  {
    if i < |channels| && Accepted(calls(i, channels[i], user)) {
      ConsultedFromMatchesVerdict(channels, i + 1, user, calls);
    }
  }

  /** Short-circuit: when the gate admits, it has consulted every channel;
      when it refuses, it stopped at the first rejected channel, which is the
      last one consulted. */
  lemma ConsultedMatchesVerdict(channels: seq<int>, user: int, calls: ChatMemberCalls)
    ensures var k := Consulted(channels, user, calls);
            && (Admits(channels, user, calls) ==> k == |channels|)
            && (!Admits(channels, user, calls) ==> 0 < k && !Accepted(calls(k - 1, channels[k - 1], user)))
  {
    ConsultedFromMatchesVerdict(channels, 0, user, calls);
  }

  lemma {:induction false} LaterCallsIgnored(channels: seq<int>, i: nat, user: int, calls1: ChatMemberCalls, calls2: ChatMemberCalls)
    requires i <= |channels|
    requires forall j :: i <= j < ConsultedFrom(channels, i, user, calls1) ==>
               calls1(j, channels[j], user) == calls2(j, channels[j], user)
    decreases |channels| - i
    ensures AdmitsFrom(channels, i, user, calls1) == AdmitsFrom(channels, i, user, calls2)
    ensures ConsultedFrom(channels, i, user, calls1) == ConsultedFrom(channels, i, user, calls2)
  {
    if i < |channels| {
      assert calls1(i, channels[i], user) == calls2(i, channels[i], user);
      if Accepted(calls1(i, channels[i], user)) {
        LaterCallsIgnored(channels, i + 1, user, calls1, calls2);
      }
    }
  }

  /** No channel after the first rejected one is consulted: two sets of
      answers that agree on the calls the gate made give the same verdict and
      the same number of lookups. */
  lemma LaterChannelsIgnored(channels: seq<int>, user: int, calls1: ChatMemberCalls, calls2: ChatMemberCalls)
    requires forall j :: 0 <= j < Consulted(channels, user, calls1) ==>
               calls1(j, channels[j], user) == calls2(j, channels[j], user)
    ensures Admits(channels, user, calls1) == Admits(channels, user, calls2)
    ensures Consulted(channels, user, calls1) == Consulted(channels, user, calls2)
  {
    LaterCallsIgnored(channels, 0, user, calls1, calls2);
  }

  /** The answers to the calls after the first `n`, renumbered from 0. */
  function Shift(calls: ChatMemberCalls, n: nat): ChatMemberCalls {
    (j: nat, channel: int, user: int) => calls(n + j, channel, user)
  }

  /** Splitting the channel list anywhere: the gate admits a concatenation
      exactly when it admits the first part and then the second part on the
      calls that follow, so the verdict does not depend on how the list is
      grouped. */
  lemma AdmitsAppend(a: seq<int>, b: seq<int>, user: int, calls: ChatMemberCalls)
    ensures Admits(a + b, user, calls) <==> Admits(a, user, calls) && Admits(b, user, Shift(calls, |a|))
  {
    AdmitsIff(a + b, user, calls);
    AdmitsIff(a, user, calls);
    AdmitsIff(b, user, Shift(calls, |a|));
    if Admits(a, user, calls) && Admits(b, user, Shift(calls, |a|)) {
      forall j | 0 <= j < |a + b| ensures Accepted(calls(j, (a + b)[j], user)) {
        if j >= |a| {
          assert Shift(calls, |a|)(j - |a|, b[j - |a|], user) == calls(j, (a + b)[j], user);
        }
      }
    }
    if Admits(a + b, user, calls) {
      forall j | 0 <= j < |a| ensures Accepted(calls(j, a[j], user)) {
        assert (a + b)[j] == a[j];
      }
      forall j | 0 <= j < |b| ensures Accepted(Shift(calls, |a|)(j, b[j], user)) {
        assert (a + b)[|a| + j] == b[j];
      }
    }
  }
}
