/**
 * The itchat route (`_send_itchat_message` and `send_msg`): every lookup that fails
 * raises, so the first failure ends the request and nothing after it is sent.
 */
module Itchat {
  import opened Wrappers
  import opened Media
  import opened Backend

  /** The send primitive for a downloaded file of a media kind. */
  function MediaAction(t: MediaType, to: string, path: string): (a: Action)
    requires t == Img || t == Video || t == File
    ensures a.to == to
  {
    match t
    case Img => SendImage(to, path)
    case Video => SendVideo(to, path)
    case File => SendFile(to, path)
  }

  /** `send_msg(t, content, to, at)`, with `at` empty for no mention. */
  function SendMsg(t: MediaType, content: string, to: string, at: string, fetch: Fetch): Delivery {
    if t == Text then Delivery([SendText(to, at + content)], None)
    else if t == Unsupported then Fail(UnsupportedType)
    else
      var path := fetch(content);
      if !Truthy(path) then Fail(DownloadFailed(content))
      else
        var mention := if at != [] then [SendText(to, at)] else [];
        Delivery(mention + [MediaAction(t, to, path.value)], None)
  }

  /**
   * What one `send_msg` call does: text goes out as one message, mention first; a
   * media link is downloaded first, and the mention, if any, goes out as a separate
   * text message before the file; a failed download raises before anything is sent.
   */
  lemma SendMsgSpec(t: MediaType, content: string, to: string, at: string, fetch: Fetch)
    ensures var d := SendMsg(t, content, to, at, fetch);
      && (d.failure.Some? ==> d.sent == [])
      && (d.failure.None? <==> t == Text || (t != Unsupported && Truthy(fetch(content))))
      && (d.failure.Some? && t != Unsupported ==> d.failure == Some(DownloadFailed(content)))
      && (forall k :: 0 <= k < |d.sent| ==> d.sent[k].to == to)
      && (t == Text ==> d.sent == [SendText(to, at + content)])
      && (d.failure.None? && t != Text ==>
            d.sent == (if at == [] then [] else [SendText(to, at)]) + [MediaAction(t, to, fetch(content).value)])
  {
  }

  /** The mention for one receiver in a room, or None when the receiver does not resolve. */
  function AtPrefix(snap: ItchatSnapshot, room: ItchatRoom, name: string): Option<string> {
    if IsBroadcast(name) then Some(AtEveryone)
    else match FindItchatMember(snap, room, name)
      case Some(m) => Some("@" + m.nickName + " ")
      case None => None
  }

  /**
   * The mention is `@所有人 ` for a broadcast token, whether or not anybody has that
   * name.  Otherwise it is `@`, a nickname and a space: that of the first room member
   * whose nickname or display name is the name, failing that that of the friend found
   * for it; there is none exactly when neither a member nor a friend has the name.
   */
  lemma AtPrefixSpec(snap: ItchatSnapshot, room: ItchatRoom, name: string)
    ensures IsBroadcast(name) ==> AtPrefix(snap, room, name) == Some("@所有人 ")
    ensures !IsBroadcast(name) ==> forall i ::
      0 <= i < |room.members| && MemberNamed(room.members[i], name) &&
      (forall j :: 0 <= j < i ==> !MemberNamed(room.members[j], name)) ==>
        AtPrefix(snap, room, name) == Some("@" + room.members[i].nickName + " ")
    ensures (&& !IsBroadcast(name)
             && (forall i :: 0 <= i < |room.members| ==> !MemberNamed(room.members[i], name))
             && SearchFriend(snap, name).Some?) ==>
      AtPrefix(snap, room, name) == Some("@" + SearchFriend(snap, name).value.nickName + " ")
    ensures !IsBroadcast(name) ==>
      (AtPrefix(snap, room, name).None? <==>
        && (forall i :: 0 <= i < |room.members| ==> !MemberNamed(room.members[i], name))
        && (forall i :: 0 <= i < |snap.friends| ==> snap.friends[i].remarkName != name && snap.friends[i].nickName != name))
  {
    FindItchatMemberSpec(snap, room, name);
    SearchFriendSpec(snap, name);
    FindFirstSpec(room.members, MemberMatches(name));
    if FindFirst(room.members, MemberMatches(name)).Some? {
      var k := FindFirst(room.members, MemberMatches(name)).value;
      assert MemberNamed(room.members[k], name);
    } else {
      assert forall i :: 0 <= i < |room.members| ==> !MemberMatches(name)(room.members[i]);
    }
  }

  // ---------------------------------------------------------------------------
  // The route as functions over the remaining lists

  /** One receiver in a room: a send with its mention, or an error when it does not resolve. */
  function SendToMember(snap: ItchatSnapshot, t: MediaType, content: string, fetch: Fetch,
                        group: string, room: ItchatRoom, name: string): Delivery
  {
    match AtPrefix(snap, room, name)
    case None => Fail(MemberNotFound(group, name))
    case Some(at) => SendMsg(t, content, room.userName, at, fetch)
  }

  /** One send per receiver in list order, stopping at the first exception. */
  function SendToMembers(snap: ItchatSnapshot, t: MediaType, content: string, fetch: Fetch,
                         group: string, room: ItchatRoom, names: seq<string>): Delivery
  {
    if names == [] then Nothing
    else Then(SendToMember(snap, t, content, fetch, group, room, names[0]),
              SendToMembers(snap, t, content, fetch, group, room, names[1..]))
  }

  /** One group: a mention per receiver, or one plain send when there are no receivers. */
  function SendToGroup(snap: ItchatSnapshot, t: MediaType, req: Request, fetch: Fetch, group: string): Delivery {
    match SearchChatroom(snap, group)
    case None => Fail(RoomNotFound(group))
    case Some(room) =>
      if req.receivers != [] then SendToMembers(snap, t, req.content, fetch, group, room, req.receivers)
      else SendMsg(t, req.content, room.userName, "", fetch)
  }

  function SendToGroups(snap: ItchatSnapshot, t: MediaType, req: Request, fetch: Fetch, groups: seq<string>): Delivery {
    if groups == [] then Nothing
    else Then(SendToGroup(snap, t, req, fetch, groups[0]), SendToGroups(snap, t, req, fetch, groups[1..]))
  }

  /** One direct message: broadcast tokens and unknown friends raise. */
  function SendToFriend(snap: ItchatSnapshot, t: MediaType, content: string, fetch: Fetch, name: string): Delivery {
    if IsBroadcast(name) then Fail(BroadcastToFriend)
    else match SearchFriend(snap, name)
      case None => Fail(FriendNotFound(name))
      case Some(f) => SendMsg(t, content, f.userName, "", fetch)
  }

  /**
   * One direct receiver: a broadcast token raises, a name no friend has as remark name
   * or nickname raises, and otherwise one send without mention goes to the friend with
   * that remark name, failing that to the first friend with that nickname.
   */
  lemma SendToFriendSpec(snap: ItchatSnapshot, t: MediaType, content: string, fetch: Fetch, name: string)
    ensures IsBroadcast(name) ==> SendToFriend(snap, t, content, fetch, name) == Fail(BroadcastToFriend)
    ensures (&& !IsBroadcast(name)
             && forall i :: 0 <= i < |snap.friends| ==> snap.friends[i].remarkName != name && snap.friends[i].nickName != name) ==>
      SendToFriend(snap, t, content, fetch, name) == Fail(FriendNotFound(name))
    ensures !IsBroadcast(name) ==> forall i ::
      0 <= i < |snap.friends| && snap.friends[i].remarkName == name &&
      (forall j :: 0 <= j < i ==> snap.friends[j].remarkName != name) ==>
        SendToFriend(snap, t, content, fetch, name) == SendMsg(t, content, snap.friends[i].userName, "", fetch)
    ensures (&& !IsBroadcast(name)
             && forall i :: 0 <= i < |snap.friends| ==> snap.friends[i].remarkName != name) ==>
      forall i ::
        0 <= i < |snap.friends| && snap.friends[i].nickName == name &&
        (forall j :: 0 <= j < i ==> snap.friends[j].nickName != name) ==>
          SendToFriend(snap, t, content, fetch, name) == SendMsg(t, content, snap.friends[i].userName, "", fetch)
  {
    SearchFriendSpec(snap, name);
  }

  function SendToFriends(snap: ItchatSnapshot, t: MediaType, content: string, fetch: Fetch, names: seq<string>): Delivery {
    if names == [] then Nothing
    else Then(SendToFriend(snap, t, content, fetch, names[0]), SendToFriends(snap, t, content, fetch, names[1..]))
  }

  /** `_send_itchat_message`: groups win over direct messages; with neither list there is an error. */
  function Route(snap: ItchatSnapshot, req: Request, fetch: Fetch): (d: Delivery)
    ensures DetectMediaType(req.content) == Unsupported ==> d == Nothing
    ensures DetectMediaType(req.content) != Unsupported && req.groups == [] && req.receivers == [] ==>
      d == Fail(NoReceivers)
  {
    var t := DetectMediaType(req.content);
    if t == Unsupported then Nothing
    else if req.groups != [] then SendToGroups(snap, t, req, fetch, req.groups)
    else if req.receivers != [] then SendToFriends(snap, t, req.content, fetch, req.receivers)
    else Fail(NoReceivers)
  }

  // ---------------------------------------------------------------------------
  // Failure policy: the first exception ends the request

  /** Sending to the groups `gs + hs` is sending to `gs` and then, unless that raised, to `hs`. */
  lemma {:induction false} GroupsAppend(snap: ItchatSnapshot, t: MediaType, req: Request, fetch: Fetch,
                                        gs: seq<string>, hs: seq<string>)
    ensures SendToGroups(snap, t, req, fetch, gs + hs) ==
      Then(SendToGroups(snap, t, req, fetch, gs), SendToGroups(snap, t, req, fetch, hs))
  {
    if gs == [] {
      assert gs + hs == hs;
    } else {
      assert (gs + hs)[1..] == gs[1..] + hs;
      GroupsAppend(snap, t, req, fetch, gs[1..], hs);
      ThenAssoc(SendToGroup(snap, t, req, fetch, gs[0]), SendToGroups(snap, t, req, fetch, gs[1..]),
                SendToGroups(snap, t, req, fetch, hs));
    }
  }

  lemma {:induction false} MembersAppend(snap: ItchatSnapshot, t: MediaType, content: string, fetch: Fetch,
                                         group: string, room: ItchatRoom, ns: seq<string>, ms: seq<string>)
    ensures SendToMembers(snap, t, content, fetch, group, room, ns + ms) ==
      Then(SendToMembers(snap, t, content, fetch, group, room, ns), SendToMembers(snap, t, content, fetch, group, room, ms))
  {
    if ns == [] {
      assert ns + ms == ms;
    } else {
      assert (ns + ms)[1..] == ns[1..] + ms;
      MembersAppend(snap, t, content, fetch, group, room, ns[1..], ms);
      ThenAssoc(SendToMember(snap, t, content, fetch, group, room, ns[0]),
                SendToMembers(snap, t, content, fetch, group, room, ns[1..]),
                SendToMembers(snap, t, content, fetch, group, room, ms));
    }
  }

  lemma {:induction false} FriendsAppend(snap: ItchatSnapshot, t: MediaType, content: string, fetch: Fetch,
                                         ns: seq<string>, ms: seq<string>)
    ensures SendToFriends(snap, t, content, fetch, ns + ms) ==
      Then(SendToFriends(snap, t, content, fetch, ns), SendToFriends(snap, t, content, fetch, ms))
  {
    if ns == [] {
      assert ns + ms == ms;
    } else {
      assert (ns + ms)[1..] == ns[1..] + ms;
      FriendsAppend(snap, t, content, fetch, ns[1..], ms);
      ThenAssoc(SendToFriend(snap, t, content, fetch, ns[0]), SendToFriends(snap, t, content, fetch, ns[1..]),
                SendToFriends(snap, t, content, fetch, ms));
    }
  }

  /** Once the groups so far raised, later groups add no send and do not change the error. */
  lemma GroupFailureIsFinal(snap: ItchatSnapshot, t: MediaType, req: Request, fetch: Fetch, gs: seq<string>, hs: seq<string>)
    requires SendToGroups(snap, t, req, fetch, gs).failure.Some?
    ensures SendToGroups(snap, t, req, fetch, gs + hs) == SendToGroups(snap, t, req, fetch, gs)
  {
    GroupsAppend(snap, t, req, fetch, gs, hs);
  }

  /** A group that is not found raises after the sends to the groups before it, and nothing else is sent. */
  lemma MissingGroupStops(snap: ItchatSnapshot, t: MediaType, req: Request, fetch: Fetch, groups: seq<string>, k: nat)
    requires k < |groups| && SearchChatroom(snap, groups[k]).None?
    ensures SendToGroups(snap, t, req, fetch, groups) ==
      Then(SendToGroups(snap, t, req, fetch, groups[..k]), Fail(RoomNotFound(groups[k])))
  {
    assert groups == groups[..k] + groups[k..];
    GroupsAppend(snap, t, req, fetch, groups[..k], groups[k..]);
    assert groups[k..][0] == groups[k];
  }

  /** A receiver that is neither a broadcast token nor found in the room or among the friends raises. */
  lemma MissingMemberStops(snap: ItchatSnapshot, t: MediaType, content: string, fetch: Fetch,
                           group: string, room: ItchatRoom, names: seq<string>, k: nat)
    requires k < |names| && !IsBroadcast(names[k]) && FindItchatMember(snap, room, names[k]).None?
    ensures SendToMembers(snap, t, content, fetch, group, room, names) ==
      Then(SendToMembers(snap, t, content, fetch, group, room, names[..k]), Fail(MemberNotFound(group, names[k])))
  {
    assert names == names[..k] + names[k..];
    MembersAppend(snap, t, content, fetch, group, room, names[..k], names[k..]);
    assert names[k..][0] == names[k];
  }

  /**
   * A direct message to a broadcast token raises, and so does one to a name no
   * friend has; the receivers after it get nothing.
   */
  lemma FriendStops(snap: ItchatSnapshot, t: MediaType, content: string, fetch: Fetch, names: seq<string>, k: nat)
    requires k < |names| && (IsBroadcast(names[k]) || SearchFriend(snap, names[k]).None?)
    ensures IsBroadcast(names[k]) ==>
      SendToFriends(snap, t, content, fetch, names) ==
        Then(SendToFriends(snap, t, content, fetch, names[..k]), Fail(BroadcastToFriend))
    ensures !IsBroadcast(names[k]) ==>
      SendToFriends(snap, t, content, fetch, names) ==
        Then(SendToFriends(snap, t, content, fetch, names[..k]), Fail(FriendNotFound(names[k])))
  {
    assert names == names[..k] + names[k..];
    FriendsAppend(snap, t, content, fetch, names[..k], names[k..]);
    assert names[k..][0] == names[k];
  }

  // ---------------------------------------------------------------------------
  // What a request that resolves sends

  /** Every group is found and, in each, every receiver resolves to a mention. */
  predicate Resolves(snap: ItchatSnapshot, groups: seq<string>, names: seq<string>) {
    forall i :: 0 <= i < |groups| ==>
      && SearchChatroom(snap, groups[i]).Some?
      && forall j :: 0 <= j < |names| ==> AtPrefix(snap, SearchChatroom(snap, groups[i]).value, names[j]).Some?
  }

  /** The text messages for one room: the mention of each receiver, in order, then the content. */
  function MentionTexts(snap: ItchatSnapshot, room: ItchatRoom, names: seq<string>, content: string): (texts: seq<Action>)
    requires forall j :: 0 <= j < |names| ==> AtPrefix(snap, room, names[j]).Some?
    ensures |texts| == |names|
  {
    seq(|names|, j requires 0 <= j < |names| => SendText(room.userName, AtPrefix(snap, room, names[j]).value + content))
  }

  lemma {:induction false} MembersSendTexts(snap: ItchatSnapshot, content: string, fetch: Fetch,
                                            group: string, room: ItchatRoom, names: seq<string>)
    requires forall j :: 0 <= j < |names| ==> AtPrefix(snap, room, names[j]).Some?
    ensures SendToMembers(snap, Text, content, fetch, group, room, names) ==
      Delivery(MentionTexts(snap, room, names, content), None)
  {
    if names != [] {
      MembersSendTexts(snap, content, fetch, group, room, names[1..]);
      assert MentionTexts(snap, room, names, content) ==
        [SendText(room.userName, AtPrefix(snap, room, names[0]).value + content)] + MentionTexts(snap, room, names[1..], content);
    }
  }

  /** The texts of a resolved request, group by group: the reference for the route's text sends. */
  function FanOut(snap: ItchatSnapshot, groups: seq<string>, names: seq<string>, content: string): seq<Action>
    requires Resolves(snap, groups, names)
  {
    if groups == [] then []
    else MentionTexts(snap, SearchChatroom(snap, groups[0]).value, names, content) + FanOut(snap, groups[1..], names, content)
  }

  /** For text, a resolved request sends exactly the fan-out and raises nothing. */
  lemma {:induction false} TextFanOut(snap: ItchatSnapshot, req: Request, fetch: Fetch, groups: seq<string>)
    requires req.receivers != [] && Resolves(snap, groups, req.receivers)
    ensures SendToGroups(snap, Text, req, fetch, groups) == Delivery(FanOut(snap, groups, req.receivers, req.content), None)
  {
    if groups != [] {
      MembersSendTexts(snap, req.content, fetch, groups[0], SearchChatroom(snap, groups[0]).value, req.receivers);
      TextFanOut(snap, req, fetch, groups[1..]);
    }
  }

  lemma MulStep(k: nat, n: nat)
    requires k > 0
    ensures k * n == n + (k - 1) * n
  {
  }

  /** The fan-out has one message per (group, receiver) pair. */
  lemma {:induction false} FanOutLength(snap: ItchatSnapshot, groups: seq<string>, names: seq<string>, content: string)
    requires Resolves(snap, groups, names)
    ensures |FanOut(snap, groups, names, content)| == |groups| * |names|
  {
    if groups != [] {
      FanOutLength(snap, groups[1..], names, content);
      MulStep(|groups|, |names|);
    }
  }

  /**
   * The pairs come groups first, in list order, and receivers in list order within
   * a group: message i * |names| + j is receiver j's mention in group i followed by
   * the content.
   */
  lemma {:induction false} FanOutAt(snap: ItchatSnapshot, groups: seq<string>, names: seq<string>, content: string,
                                    i: nat, j: nat)
    requires Resolves(snap, groups, names) && i < |groups| && j < |names|
    ensures i * |names| + j < |FanOut(snap, groups, names, content)|
    ensures FanOut(snap, groups, names, content)[i * |names| + j] ==
      SendText(SearchChatroom(snap, groups[i]).value.userName,
               AtPrefix(snap, SearchChatroom(snap, groups[i]).value, names[j]).value + content)
  {
    var head := MentionTexts(snap, SearchChatroom(snap, groups[0]).value, names, content);
    var tail := FanOut(snap, groups[1..], names, content);
    assert FanOut(snap, groups, names, content) == head + tail;
    if i > 0 {
      FanOutAt(snap, groups[1..], names, content, i - 1, j);
      MulStep(i, |names|);
      assert i * |names| + j == |head| + ((i - 1) * |names| + j);
      assert (head + tail)[i * |names| + j] == tail[(i - 1) * |names| + j];
      assert groups[1..][i - 1] == groups[i];
    }
  }

  /** For text without receivers, each group gets exactly one message: the content, in group order. */
  lemma {:induction false} PlainFanOut(snap: ItchatSnapshot, req: Request, fetch: Fetch, groups: seq<string>)
    requires req.receivers == [] && forall i :: 0 <= i < |groups| ==> SearchChatroom(snap, groups[i]).Some?
    ensures var d := SendToGroups(snap, Text, req, fetch, groups);
      && d.failure.None?
      && |d.sent| == |groups|
      && forall i :: 0 <= i < |groups| ==> d.sent[i] == SendText(SearchChatroom(snap, groups[i]).value.userName, req.content)
  {
    if groups != [] {
      PlainFanOut(snap, req, fetch, groups[1..]);
      assert forall i :: 1 <= i < |groups| ==> groups[1..][i - 1] == groups[i];
    }
  }

  // ---------------------------------------------------------------------------
  // The route as the source runs it

  /** `_send_itchat_message`, issuing the sends one at a time and returning at the first exception. */
  method SendItchatMessage(snap: ItchatSnapshot, req: Request, fetch: Fetch) returns (d: Delivery)
    ensures d == Route(snap, req, fetch)
  {
    var t := DetectMediaType(req.content);
    if t == Unsupported {
      d := Nothing;
    } else if req.groups != [] {
      d := SendGroupMessages(snap, t, req, fetch, req.groups);
    } else if req.receivers != [] {
      d := SendFriendMessages(snap, t, req.content, fetch, req.receivers);
    } else {
      d := Fail(NoReceivers);
    }
  }

  /** The loop over the groups; an exception ends it. */
  method SendGroupMessages(snap: ItchatSnapshot, t: MediaType, req: Request, fetch: Fetch, groups: seq<string>)
    returns (d: Delivery)
    ensures d == SendToGroups(snap, t, req, fetch, groups)
  {
    var sent: seq<Action> := [];
    var failure: Option<Error> := None;
    ghost var total := SendToGroups(snap, t, req, fetch, groups);
    var i := 0;
    while i < |groups| && failure.None?
      invariant i <= |groups|
      invariant failure.None? ==> Then(Delivery(sent, None), SendToGroups(snap, t, req, fetch, groups[i..])) == total
      invariant failure.Some? ==> Delivery(sent, failure) == total
    {
      GroupsUnfold(snap, t, req, fetch, groups, i);
      var one := SendGroupMessage(snap, t, req, fetch, groups[i]);
      Step(sent, one, SendToGroups(snap, t, req, fetch, groups[i + 1..]), total);
      sent, failure := sent + one.sent, one.failure;
      i := i + 1;
    }
    if failure.None? {
      assert sent + [] == sent;
    }
    d := Delivery(sent, failure);
  }

  /** One group: the room lookup, then the mentions or the plain send. */
  method SendGroupMessage(snap: ItchatSnapshot, t: MediaType, req: Request, fetch: Fetch, group: string) returns (one: Delivery)
    ensures one == SendToGroup(snap, t, req, fetch, group)
  {
    var room := SearchChatroom(snap, group);
    if room.None? {
      one := Fail(RoomNotFound(group));
    } else if req.receivers != [] {
      one := SendMemberMessages(snap, t, req.content, fetch, group, room.value, req.receivers);
    } else {
      one := SendMsg(t, req.content, room.value.userName, "", fetch);
    }
  }

  lemma GroupsUnfold(snap: ItchatSnapshot, t: MediaType, req: Request, fetch: Fetch, groups: seq<string>, i: nat)
    requires i < |groups|
    ensures SendToGroups(snap, t, req, fetch, groups[i..]) ==
      Then(SendToGroup(snap, t, req, fetch, groups[i]), SendToGroups(snap, t, req, fetch, groups[i + 1..]))
  {
    assert groups[i..][1..] == groups[i + 1..];
  }

  /** The loop over the receivers of one group, mentioning each; an exception ends it. */
  method SendMemberMessages(snap: ItchatSnapshot, t: MediaType, content: string, fetch: Fetch,
                            group: string, room: ItchatRoom, names: seq<string>) returns (d: Delivery)
    ensures d == SendToMembers(snap, t, content, fetch, group, room, names)
  {
    var sent: seq<Action> := [];
    var failure: Option<Error> := None;
    ghost var total := SendToMembers(snap, t, content, fetch, group, room, names);
    var j := 0;
    while j < |names| && failure.None?
      invariant j <= |names|
      invariant failure.None? ==> Then(Delivery(sent, None), SendToMembers(snap, t, content, fetch, group, room, names[j..])) == total
      invariant failure.Some? ==> Delivery(sent, failure) == total
    {
      MembersUnfold(snap, t, content, fetch, group, room, names, j);
      var one := SendMemberMessage(snap, t, content, fetch, group, room, names[j]);
      Step(sent, one, SendToMembers(snap, t, content, fetch, group, room, names[j + 1..]), total);
      sent, failure := sent + one.sent, one.failure;
      j := j + 1;
    }
    if failure.None? {
      assert sent + [] == sent;
    }
    d := Delivery(sent, failure);
  }

  /** One receiver in a room: the mention lookup, then the send. */
  method SendMemberMessage(snap: ItchatSnapshot, t: MediaType, content: string, fetch: Fetch,
                           group: string, room: ItchatRoom, name: string) returns (one: Delivery)
    ensures one == SendToMember(snap, t, content, fetch, group, room, name)
  {
    var at := AtPrefix(snap, room, name);
    if at.None? {
      one := Fail(MemberNotFound(group, name));
    } else {
      one := SendMsg(t, content, room.userName, at.value, fetch);
    }
  }

  lemma MembersUnfold(snap: ItchatSnapshot, t: MediaType, content: string, fetch: Fetch,
                      group: string, room: ItchatRoom, names: seq<string>, j: nat)
    requires j < |names|
    ensures SendToMembers(snap, t, content, fetch, group, room, names[j..]) ==
      Then(SendToMember(snap, t, content, fetch, group, room, names[j]),
           SendToMembers(snap, t, content, fetch, group, room, names[j + 1..]))
  {
    assert names[j..][1..] == names[j + 1..];
  }

  /** The loop over the receivers of a direct message; an exception ends it. */
  method SendFriendMessages(snap: ItchatSnapshot, t: MediaType, content: string, fetch: Fetch,
                            names: seq<string>) returns (d: Delivery)
    ensures d == SendToFriends(snap, t, content, fetch, names)
  {
    var sent: seq<Action> := [];
    var failure: Option<Error> := None;
    ghost var total := SendToFriends(snap, t, content, fetch, names);
    var j := 0;
    while j < |names| && failure.None?
      invariant j <= |names|
      invariant failure.None? ==> Then(Delivery(sent, None), SendToFriends(snap, t, content, fetch, names[j..])) == total
      invariant failure.Some? ==> Delivery(sent, failure) == total
    {
      FriendsUnfold(snap, t, content, fetch, names, j);
      var one := SendFriendMessage(snap, t, content, fetch, names[j]);
      Step(sent, one, SendToFriends(snap, t, content, fetch, names[j + 1..]), total);
      sent, failure := sent + one.sent, one.failure;
      j := j + 1;
    }
    if failure.None? {
      assert sent + [] == sent;
    }
    d := Delivery(sent, failure);
  }

  /** One direct message: the broadcast test, the friend lookup, then the send. */
  method SendFriendMessage(snap: ItchatSnapshot, t: MediaType, content: string, fetch: Fetch, name: string)
    returns (one: Delivery)
    ensures one == SendToFriend(snap, t, content, fetch, name)
  {
    if IsBroadcast(name) {
      return Fail(BroadcastToFriend);
    }
    var friend := SearchFriend(snap, name);
    if friend.None? {
      one := Fail(FriendNotFound(name));
    } else {
      one := SendMsg(t, content, friend.value.userName, "", fetch);
    }
  }

  lemma FriendsUnfold(snap: ItchatSnapshot, t: MediaType, content: string, fetch: Fetch, names: seq<string>, j: nat)
    requires j < |names|
    ensures SendToFriends(snap, t, content, fetch, names[j..]) ==
      Then(SendToFriend(snap, t, content, fetch, names[j]), SendToFriends(snap, t, content, fetch, names[j + 1..]))
  {
    assert names[j..][1..] == names[j + 1..];
  }
}
