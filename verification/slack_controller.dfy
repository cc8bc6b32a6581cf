/** The Slack broadcast (src/controller/slack.controller.js): the recipient filter over a
    workspace's member list, the message send that swallows every failure, and the loop
    that sends one message per recipient. Slack's replies are inputs: the users.list reply
    and, for the i-th send of a broadcast, `replies(i)`. */
module SlackController {
  import opened Prelude

  /** The one address the filter lets through. */
  const RecipientEmail: string := "faizan@wintactix.com"

  /** Slack's own bot user. */
  const SlackbotId: string := "USLACKBOT"

  datatype Profile = Profile(email: Option<string>)

  /** A workspace member as users.list reports it; an absent `is_bot` or `deleted` flag
      reads as false. */
  datatype Member = Member(id: string, isBot: bool, deleted: bool, profile: Option<Profile>)

  /** The users.list exchange: no reply at all (the request threw), or a reply with its
      `ok` flag and its `members` array, which may be missing. */
  datatype ListReply = NoListReply | ListReplied(ok: bool, members: Option<seq<Member>>)

  /** The first three tests of the filter, which never throw. */
  predicate Person(m: Member) {
    !m.isBot && m.id != SlackbotId && !m.deleted
  }

  /** The filter throws on a member that passes the first three tests and has no
      profile: `member.profile.email` reads through undefined. */
  predicate Throws(m: Member) {
    Person(m) && m.profile.None?
  }

  /** The filter keeps a member exactly when all four tests pass. */
  predicate Recipient(m: Member) {
    Person(m) && m.profile.Some? && m.profile.value.email == Some(RecipientEmail)
  }

  /** `members.filter(...)`: None when the predicate throws on some member, otherwise the
      members it keeps, in order. */
  function FilterMembers(ms: seq<Member>): (r: Option<seq<Member>>)
    ensures r.None? <==> exists i :: 0 <= i < |ms| && Throws(ms[i])
    ensures r.Some? ==> forall m :: m in r.value <==> m in ms && Recipient(m)
    ensures r.Some? ==> |r.value| <= |ms|
  {
    if ms == [] then Some([])
    else
      var front := FilterMembers(ms[..|ms| - 1]);
      var last := ms[|ms| - 1];
      assert ms == ms[..|ms| - 1] + [last];
      if front.None? || Throws(last) then None
      else if Recipient(last) then Some(front.value + [last])
      else front
  }

  /** One step of the filter's recursion, unfolded at `ms + [m]`: a proof step for
      `FilterMembersConcat`, which states the order the filter keeps. */
  lemma {:induction false} FilterMembersAppend(ms: seq<Member>, m: Member)
    ensures FilterMembers(ms + [m]) ==
      if FilterMembers(ms).None? || Throws(m) then None
      else if Recipient(m) then Some(FilterMembers(ms).value + [m])
      else FilterMembers(ms)
  {
    assert (ms + [m])[..|ms + [m]| - 1] == ms;
  }

  /** The filter distributes over any split of the member list: the result for `a + b` is
      what it keeps of `a` followed by what it keeps of `b`, and it throws when either part
      throws. Together with `FilterMembersOne`, this makes it the order-preserving
      selection of the recipients. */
  lemma {:induction false} FilterMembersConcat(a: seq<Member>, b: seq<Member>)
    ensures FilterMembers(a + b).None? <==> FilterMembers(a).None? || FilterMembers(b).None?
    ensures FilterMembers(a + b).Some? ==>
      FilterMembers(a + b).value == FilterMembers(a).value + FilterMembers(b).value
    decreases |b|
  {
    if b == [] {
      assert a + b == a;
      if FilterMembers(a).Some? {
        assert FilterMembers(a).value + [] == FilterMembers(a).value;
      }
    } else {
      var front := b[..|b| - 1];
      var last := b[|b| - 1];
      assert a + b == (a + front) + [last];
      assert b == front + [last];
      FilterMembersConcat(a, front);
      FilterMembersAppend(a + front, last);
      FilterMembersAppend(front, last);
      if FilterMembers(a).Some? && FilterMembers(front).Some? && !Throws(last) && Recipient(last) {
        assert FilterMembers(a).value + FilterMembers(front).value + [last] ==
               FilterMembers(a).value + (FilterMembers(front).value + [last]);
      }
    }
  }

  /** What the filter makes of one member: it throws on a member without a profile that
      reaches the e-mail test, keeps a recipient, and drops everyone else. */
  lemma FilterMembersOne(m: Member)
    ensures FilterMembers([m]) ==
      if Throws(m) then None else if Recipient(m) then Some([m]) else Some([])
  {
    assert [m][..0] == [];
    assert [] + [m] == [m];
  }

  /** What the filter keeps is an order-preserving selection: every kept member is a
      recipient, and a list of recipients only is kept whole. */
  lemma {:induction false} FilterMembersKeepsRecipients(ms: seq<Member>)
    requires forall i :: 0 <= i < |ms| ==> Recipient(ms[i])
    ensures FilterMembers(ms) == Some(ms)
    decreases |ms|
  {
    if ms != [] {
      var front := ms[..|ms| - 1];
      FilterMembersKeepsRecipients(front);
      FilterMembersAppend(front, ms[|ms| - 1]);
      assert front + [ms[|ms| - 1]] == ms;
    }
  }

  /** getSlackUsers: the filtered members of an ok reply; an empty list when there was
      no reply, the reply is not ok, the members are missing or the filter throws. */
  function GetSlackUsers(reply: ListReply): (users: seq<Member>)
    ensures !(reply.ListReplied? && reply.ok && reply.members.Some?) ==> users == []
    ensures reply.ListReplied? && reply.ok && reply.members.Some? ==>
      ((exists i :: 0 <= i < |reply.members.value| && Throws(reply.members.value[i])) ==> users == [])
    ensures forall m :: m in users ==> Recipient(m)
    ensures reply.ListReplied? && reply.ok && reply.members.Some? && FilterMembers(reply.members.value).Some? ==>
      && users == FilterMembers(reply.members.value).value
      && forall m :: m in users <==> m in reply.members.value && Recipient(m)
  {
    match reply
    case NoListReply => []
    case ListReplied(ok, members) =>
      if !ok || members.None? then []
      else match FilterMembers(members.value)
        case None => []
        case Some(kept) => kept
  }

  /** The chat.postMessage exchange: no reply (the request threw) or a reply with its
      `ok` flag and its data. */
  datatype SendReply = NoSendReply | SendReplied(ok: bool, data: string)

  /** One chat.postMessage request: the recipient's id as the channel. */
  datatype Message = Message(authorization: string, channel: string, text: string)

  function MessageTo(accessToken: string, userId: string, text: string): (m: Message)
    ensures m.channel == userId && m.text == text
    ensures m.authorization == "Bearer " + accessToken
  {
    Message("Bearer " + accessToken, userId, text)
  }

  /** sendSlackMessage's value: the reply data on an ok reply, undefined otherwise; it
      never throws. */
  function SendSlackMessage(reply: SendReply): (r: Option<string>)
    ensures r.Some? <==> reply.SendReplied? && reply.ok
    ensures r.Some? ==> r.value == reply.data
  {
    if reply.SendReplied? && reply.ok then Some(reply.data) else None
  }

  /** The requests a broadcast to `users` sends, one per user, in order. */
  function Outbox(accessToken: string, users: seq<Member>, text: string): (log: seq<Message>)
    ensures |log| == |users|
  {
    if users == [] then []
    else Outbox(accessToken, users[..|users| - 1], text) + [MessageTo(accessToken, users[|users| - 1].id, text)]
  }

  /** The i-th request of a broadcast goes to the i-th user. */
  lemma {:induction false} OutboxAddresses(accessToken: string, users: seq<Member>, text: string, i: nat)
    requires i < |users|
    ensures Outbox(accessToken, users, text)[i] == MessageTo(accessToken, users[i].id, text)
    decreases |users|
  {
    if i < |users| - 1 {
      OutboxAddresses(accessToken, users[..|users| - 1], text, i);
    }
  }

  /** broadcastMessageToWorkspace: fetch the recipients, then send the message to each in
      turn. Whatever the i-th send's reply, the loop goes on, so every recipient is sent
      the message exactly once, in order; `results` holds what each send returned. */
  method BroadcastMessageToWorkspace(accessToken: string, text: string, listReply: ListReply,
                                     replies: nat -> SendReply)
    returns (sent: seq<Message>, results: seq<Option<string>>, count: nat)
    ensures var users := GetSlackUsers(listReply);
      && sent == Outbox(accessToken, users, text)
      && count == |users|
      && |results| == |users|
      && (forall i :: 0 <= i < |users| ==> sent[i].channel == users[i].id && sent[i].text == text)
      && (forall i :: 0 <= i < |users| ==> results[i] == SendSlackMessage(replies(i)))
  {
    var users := GetSlackUsers(listReply);
    sent := [];
    results := [];
    var i := 0;
    while i < |users|
      invariant 0 <= i <= |users|
      invariant sent == Outbox(accessToken, users[..i], text)
      invariant |results| == i
      invariant forall j :: 0 <= j < i ==> results[j] == SendSlackMessage(replies(j))
    {
      assert users[..i + 1][..i] == users[..i];
      sent := sent + [MessageTo(accessToken, users[i].id, text)];
      results := results + [SendSlackMessage(replies(i))];
      i := i + 1;
    }
    assert users[..i] == users;
    forall j | 0 <= j < |users|
      ensures sent[j].channel == users[j].id && sent[j].text == text
    {
      OutboxAddresses(accessToken, users, text, j);
    }
    count := |users|;
  }
}
