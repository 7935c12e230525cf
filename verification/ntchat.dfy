/**
 * The ntchat route (`_send_ntchat_message` and `_send_ntchat_media_or_text`): a
 * group or friend that is not found is skipped, group messages are always text,
 * and only a broadcast token in a direct message or a failed download raises.
 */
module Ntchat {
  import opened Wrappers
  import opened Str
  import opened Media
  import opened Backend

  /** `_send_ntchat_media_or_text`: text as is; anything else is downloaded first. */
  function MediaOrText(t: MediaType, content: string, wxid: string, fetch: Fetch): Delivery {
    if t == Text then Delivery([SendText(wxid, content)], None)
    else
      var path := fetch(content);
      if !Truthy(path) then Fail(DownloadFailed(content))
      else if t == Img then Delivery([SendImage(wxid, path.value)], None)
      else if t == Video then Delivery([SendVideo(wxid, path.value)], None)
      else if t == File then Delivery([SendFile(wxid, path.value)], None)
      else Nothing
  }

  /**
   * One call sends at most one thing, to `wxid`: the text itself, or the downloaded
   * file with the primitive of its kind; it raises only when a download fails, and
   * then sends nothing.
   */
  lemma MediaOrTextSpec(t: MediaType, content: string, wxid: string, fetch: Fetch)
    ensures var d := MediaOrText(t, content, wxid, fetch);
      && |d.sent| <= 1
      && (forall k :: 0 <= k < |d.sent| ==> d.sent[k].to == wxid)
      && (t == Text ==> d == Delivery([SendText(wxid, content)], None))
      && (d.failure.Some? <==> t != Text && !Truthy(fetch(content)))
      && (d.failure.Some? ==> d == Fail(DownloadFailed(content)))
      && (t == Img && Truthy(fetch(content)) ==> d.sent == [SendImage(wxid, fetch(content).value)])
      && (t == Video && Truthy(fetch(content)) ==> d.sent == [SendVideo(wxid, fetch(content).value)])
      && (t == File && Truthy(fetch(content)) ==> d.sent == [SendFile(wxid, fetch(content).value)])
  {
  }

  // ---------------------------------------------------------------------------
  // Group messages

  /** `"所有人" in names or "all" in names`. */
  predicate AnyBroadcast(names: seq<string>) {
    exists k :: 0 <= k < |names| && IsBroadcast(names[k])
  }

  /** The membership test on the two tokens is the broadcast test on each receiver. */
  lemma BroadcastIn(names: seq<string>)
    ensures ("所有人" in names || "all" in names) <==> AnyBroadcast(names)
  {
    if AnyBroadcast(names) {
      var k :| 0 <= k < |names| && IsBroadcast(names[k]);
      assert names[k] in names;
    }
  }

  /** `[uid for uid in [_find_ntchat_member(wxid, n) for n in names] if uid]`. */
  function ResolvedIds(snap: NtchatSnapshot, roomWxid: string, names: seq<string>): seq<string> {
    if names == [] then []
    else
      var uid := FindNtchatMember(snap, roomWxid, names[0]);
      (if Truthy(uid) then [uid.value] else []) + ResolvedIds(snap, roomWxid, names[1..])
  }

  /** There are no more ids than receivers, and none of them is empty. */
  lemma {:induction false} ResolvedIdsBound(snap: NtchatSnapshot, roomWxid: string, names: seq<string>)
    ensures |ResolvedIds(snap, roomWxid, names)| <= |names|
    ensures forall k :: 0 <= k < |ResolvedIds(snap, roomWxid, names)| ==> ResolvedIds(snap, roomWxid, names)[k] != []
  {
    if names != [] {
      ResolvedIdsBound(snap, roomWxid, names[1..]);
    }
  }

  /** Every id is the wxid some receiver resolves to. */
  lemma {:induction false} ResolvedIdsFrom(snap: NtchatSnapshot, roomWxid: string, names: seq<string>, k: nat)
    requires k < |ResolvedIds(snap, roomWxid, names)|
    ensures exists m :: 0 <= m < |names| && FindNtchatMember(snap, roomWxid, names[m]) == Some(ResolvedIds(snap, roomWxid, names)[k])
  {
    var ids := ResolvedIds(snap, roomWxid, names);
    var rest := ResolvedIds(snap, roomWxid, names[1..]);
    if Truthy(FindNtchatMember(snap, roomWxid, names[0])) {
      if k == 0 {
        assert FindNtchatMember(snap, roomWxid, names[0]) == Some(ids[k]);
      } else {
        assert ids[k] == rest[k - 1];
        ResolvedIdsFrom(snap, roomWxid, names[1..], k - 1);
        var m :| 0 <= m < |names[1..]| && FindNtchatMember(snap, roomWxid, names[1..][m]) == Some(rest[k - 1]);
        assert names[1..][m] == names[m + 1];
      }
    } else {
      assert ids[k] == rest[k];
      ResolvedIdsFrom(snap, roomWxid, names[1..], k);
      var m :| 0 <= m < |names[1..]| && FindNtchatMember(snap, roomWxid, names[1..][m]) == Some(rest[k]);
      assert names[1..][m] == names[m + 1];
    }
  }

  /** There are no ids exactly when no receiver resolves to a non-empty wxid. */
  lemma {:induction false} ResolvedIdsEmpty(snap: NtchatSnapshot, roomWxid: string, names: seq<string>)
    ensures ResolvedIds(snap, roomWxid, names) == [] <==>
      forall m :: 0 <= m < |names| ==> !Truthy(FindNtchatMember(snap, roomWxid, names[m]))
  {
    if names != [] {
      ResolvedIdsEmpty(snap, roomWxid, names[1..]);
      assert forall m :: 1 <= m < |names| ==> names[m] == names[1..][m - 1];
    }
  }

  /** `' '.join([f'@{name}' for name in names])`. */
  function Mentions(names: seq<string>): string {
    Join(seq(|names|, i requires 0 <= i < |names| => "@" + names[i]), " ")
  }

  /** What one found room gets. */
  function RoomSend(snap: NtchatSnapshot, req: Request, room: NtchatRoom): seq<Action> {
    if req.receivers != [] then
      if AnyBroadcast(req.receivers) then [SendRoomAt(room.wxid, AtEveryone + req.content, [])]
      else
        var ids := ResolvedIds(snap, room.wxid, req.receivers);
        if ids != [] then [SendRoomAt(room.wxid, Mentions(req.receivers) + " " + req.content, ids)] else []
    else [SendText(room.wxid, req.content)]
  }

  /**
   * A room gets at most one message.  Without receivers it is the content as plain
   * text, whatever the content's media kind.  With a broadcast token anywhere among
   * the receivers it is one `@所有人 ` message with no ids.  Otherwise there is a
   * message exactly when some receiver resolves; its ids are the resolved ones but
   * its text mentions every receiver, resolved or not.
   */
  lemma RoomSendSpec(snap: NtchatSnapshot, req: Request, room: NtchatRoom)
    ensures |RoomSend(snap, req, room)| <= 1
    ensures req.receivers == [] ==> RoomSend(snap, req, room) == [SendText(room.wxid, req.content)]
    ensures AnyBroadcast(req.receivers) ==>
      RoomSend(snap, req, room) == [SendRoomAt(room.wxid, "@所有人 " + req.content, [])]
    ensures req.receivers != [] && !AnyBroadcast(req.receivers) ==>
      (RoomSend(snap, req, room) != [] <==>
        exists m :: 0 <= m < |req.receivers| && Truthy(FindNtchatMember(snap, room.wxid, req.receivers[m])))
    ensures req.receivers != [] && !AnyBroadcast(req.receivers) && RoomSend(snap, req, room) != [] ==>
      RoomSend(snap, req, room) ==
        [SendRoomAt(room.wxid, Mentions(req.receivers) + " " + req.content, ResolvedIds(snap, room.wxid, req.receivers))]
  {
    ResolvedIdsEmpty(snap, room.wxid, req.receivers);
  }

  /** The loop over the groups: a group that is not found is skipped. */
  function SendToRooms(snap: NtchatSnapshot, req: Request, groups: seq<string>): seq<Action> {
    if groups == [] then []
    else
      var here := match FindNtchatChatroom(snap, groups[0])
        case None => []
        case Some(room) => RoomSend(snap, req, room);
      here + SendToRooms(snap, req, groups[1..])
  }

  /** Sending to `gs + hs` is sending to `gs` and then to `hs`: no group stops the others. */
  lemma {:induction false} RoomsAppend(snap: NtchatSnapshot, req: Request, gs: seq<string>, hs: seq<string>)
    ensures SendToRooms(snap, req, gs + hs) == SendToRooms(snap, req, gs) + SendToRooms(snap, req, hs)
  {
    if gs == [] {
      assert gs + hs == hs;
    } else {
      assert (gs + hs)[1..] == gs[1..] + hs;
      RoomsAppend(snap, req, gs[1..], hs);
    }
  }

  /** A group that is not found adds nothing, and the groups after it are still served. */
  lemma MissingRoomSkipped(snap: NtchatSnapshot, req: Request, gs: seq<string>, g: string, hs: seq<string>)
    requires FindNtchatChatroom(snap, g).None?
    ensures SendToRooms(snap, req, gs + [g] + hs) == SendToRooms(snap, req, gs) + SendToRooms(snap, req, hs)
  {
    RoomsAppend(snap, req, gs + [g], hs);
    RoomsAppend(snap, req, gs, [g]);
    assert SendToRooms(snap, req, [g]) == [];
  }

  /** Every group message is plain text of the content or an `@` message; no file is ever sent to a group. */
  lemma {:induction false} RoomsSendText(snap: NtchatSnapshot, req: Request, groups: seq<string>)
    ensures forall k :: 0 <= k < |SendToRooms(snap, req, groups)| ==>
      var a := SendToRooms(snap, req, groups)[k];
      (a.SendText? && a.text == req.content) || a.SendRoomAt?
  {
    if groups != [] {
      RoomsSendText(snap, req, groups[1..]);
    }
  }

  // ---------------------------------------------------------------------------
  // Direct messages

  /** The loop over the receivers: broadcast tokens raise, unknown friends are skipped. */
  function SendToContacts(snap: NtchatSnapshot, t: MediaType, content: string, fetch: Fetch, names: seq<string>): Delivery {
    if names == [] then Nothing
    else if IsBroadcast(names[0]) then Fail(BroadcastToFriend)
    else
      var wxid := FindNtchatFriend(snap, names[0]);
      if Truthy(wxid) then Then(MediaOrText(t, content, wxid.value, fetch), SendToContacts(snap, t, content, fetch, names[1..]))
      else SendToContacts(snap, t, content, fetch, names[1..])
  }

  lemma {:induction false} ContactsAppend(snap: NtchatSnapshot, t: MediaType, content: string, fetch: Fetch,
                                          ns: seq<string>, ms: seq<string>)
    ensures SendToContacts(snap, t, content, fetch, ns + ms) ==
      Then(SendToContacts(snap, t, content, fetch, ns), SendToContacts(snap, t, content, fetch, ms))
  {
    if ns == [] {
      assert ns + ms == ms;
    } else {
      assert (ns + ms)[1..] == ns[1..] + ms;
      ContactsAppend(snap, t, content, fetch, ns[1..], ms);
      var wxid := FindNtchatFriend(snap, ns[0]);
      if !IsBroadcast(ns[0]) && Truthy(wxid) {
        ThenAssoc(MediaOrText(t, content, wxid.value, fetch), SendToContacts(snap, t, content, fetch, ns[1..]),
                  SendToContacts(snap, t, content, fetch, ms));
      }
    }
  }

  /** A receiver that no contact resolves to is skipped: the ones around it are served as if it were absent. */
  lemma MissingContactSkipped(snap: NtchatSnapshot, t: MediaType, content: string, fetch: Fetch, names: seq<string>, k: nat)
    requires k < |names| && !IsBroadcast(names[k]) && !Truthy(FindNtchatFriend(snap, names[k]))
    ensures SendToContacts(snap, t, content, fetch, names) ==
      SendToContacts(snap, t, content, fetch, names[..k] + names[k + 1..])
  {
    assert names == names[..k] + names[k..];
    ContactsAppend(snap, t, content, fetch, names[..k], names[k..]);
    ContactsAppend(snap, t, content, fetch, names[..k], names[k + 1..]);
    assert names[k..][1..] == names[k + 1..];
  }

  /** A broadcast token in a direct message raises, after the sends to the receivers before it. */
  lemma BroadcastToContactStops(snap: NtchatSnapshot, t: MediaType, content: string, fetch: Fetch, names: seq<string>, k: nat)
    requires k < |names| && IsBroadcast(names[k])
    ensures SendToContacts(snap, t, content, fetch, names) ==
      Then(SendToContacts(snap, t, content, fetch, names[..k]), Fail(BroadcastToFriend))
  {
    assert names == names[..k] + names[k..];
    ContactsAppend(snap, t, content, fetch, names[..k], names[k..]);
    assert names[k..][0] == names[k];
  }

  /** `_send_ntchat_message`: groups win over direct messages; with neither list nothing happens. */
  function Route(snap: NtchatSnapshot, req: Request, fetch: Fetch): (d: Delivery)
    ensures DetectMediaType(req.content) == Unsupported ==> d == Nothing
    ensures req.groups == [] && req.receivers == [] ==> d == Nothing
    ensures DetectMediaType(req.content) != Unsupported && req.groups != [] ==>
      d == Delivery(SendToRooms(snap, req, req.groups), None)
  {
    var t := DetectMediaType(req.content);
    if t == Unsupported then Nothing
    else if req.groups != [] then Delivery(SendToRooms(snap, req, req.groups), None)
    else SendToContacts(snap, t, req.content, fetch, req.receivers)
  }

  // ---------------------------------------------------------------------------
  // The route as the source runs it

  /** `_send_ntchat_message`, issuing the sends one at a time. */
  method SendNtchatMessage(snap: NtchatSnapshot, req: Request, fetch: Fetch) returns (d: Delivery)
    ensures d == Route(snap, req, fetch)
  {
    var t := DetectMediaType(req.content);
    if t == Unsupported {
      d := Nothing;
    } else if req.groups != [] {
      var sent := SendRoomMessages(snap, req);
      d := Delivery(sent, None);
    } else {
      d := SendContactMessages(snap, t, req.content, fetch, req.receivers);
    }
  }

  /** The list comprehension and filter that collect the receivers' wxids. */
  method ResolveIds(snap: NtchatSnapshot, roomWxid: string, names: seq<string>) returns (ids: seq<string>)
    ensures ids == ResolvedIds(snap, roomWxid, names)
  {
    ids := [];
    var i := 0;
    while i < |names|
      invariant 0 <= i <= |names|
      invariant ids == ResolvedIds(snap, roomWxid, names[..i])
    {
      ResolvedIdsSnoc(snap, roomWxid, names[..i], names[i]);
      assert names[..i + 1] == names[..i] + [names[i]];
      var uid := FindNtchatMember(snap, roomWxid, names[i]);
      if Truthy(uid) {
        ids := ids + [uid.value];
      }
      i := i + 1;
    }
    assert names[..|names|] == names;
  }

  /** Resolving one more receiver appends its wxid, when it has one, to the ids so far. */
  lemma {:induction false} ResolvedIdsSnoc(snap: NtchatSnapshot, roomWxid: string, names: seq<string>, n: string)
    ensures var uid := FindNtchatMember(snap, roomWxid, n);
      ResolvedIds(snap, roomWxid, names + [n]) ==
        ResolvedIds(snap, roomWxid, names) + (if Truthy(uid) then [uid.value] else [])
  {
    if names == [] {
      assert names + [n] == [n];
    } else {
      assert (names + [n])[1..] == names[1..] + [n];
      ResolvedIdsSnoc(snap, roomWxid, names[1..], n);
    }
  }

  /** The loop over the groups, with `continue` for a group that is not found. */
  method SendRoomMessages(snap: NtchatSnapshot, req: Request) returns (sent: seq<Action>)
    ensures sent == SendToRooms(snap, req, req.groups)
  {
    sent := [];
    var i := 0;
    while i < |req.groups|
      invariant i <= |req.groups|
      invariant sent + SendToRooms(snap, req, req.groups[i..]) == SendToRooms(snap, req, req.groups)
    {
      var group := req.groups[i];
      RoomsUnfold(snap, req, req.groups, i);
      var room := FindNtchatChatroom(snap, group);
      if room.None? {
        i := i + 1;
        continue;
      }
      BroadcastIn(req.receivers);
      var wxid := room.value.wxid;
      var here: seq<Action>;
      if req.receivers != [] {
        if "所有人" in req.receivers || "all" in req.receivers {
          here := [SendRoomAt(wxid, AtEveryone + req.content, [])];
        } else {
          var ids := ResolveIds(snap, wxid, req.receivers);
          if ids != [] {
            here := [SendRoomAt(wxid, Mentions(req.receivers) + " " + req.content, ids)];
          } else {
            here := [];
          }
        }
      } else {
        here := [SendText(wxid, req.content)];
      }
      assert here == RoomSend(snap, req, room.value);
      AppendAssoc(sent, here, SendToRooms(snap, req, req.groups[i + 1..]));
      sent := sent + here;
      i := i + 1;
    }
    assert sent + [] == sent;
  }

  lemma RoomsUnfold(snap: NtchatSnapshot, req: Request, groups: seq<string>, i: nat)
    requires i < |groups|
    ensures FindNtchatChatroom(snap, groups[i]).None? ==>
      SendToRooms(snap, req, groups[i..]) == SendToRooms(snap, req, groups[i + 1..])
    ensures FindNtchatChatroom(snap, groups[i]).Some? ==>
      SendToRooms(snap, req, groups[i..]) ==
        RoomSend(snap, req, FindNtchatChatroom(snap, groups[i]).value) + SendToRooms(snap, req, groups[i + 1..])
  {
    assert groups[i..][1..] == groups[i + 1..];
  }

  /** The loop over the receivers of a direct message. */
  method SendContactMessages(snap: NtchatSnapshot, t: MediaType, content: string, fetch: Fetch,
                             names: seq<string>) returns (d: Delivery)
    ensures d == SendToContacts(snap, t, content, fetch, names)
  {
    var sent: seq<Action> := [];
    ghost var total := SendToContacts(snap, t, content, fetch, names);
    var j := 0;
    while j < |names|
      invariant j <= |names|
      invariant Then(Delivery(sent, None), SendToContacts(snap, t, content, fetch, names[j..])) == total
    {
      var name := names[j];
      ghost var rest := SendToContacts(snap, t, content, fetch, names[j + 1..]);
      assert names[j..][1..] == names[j + 1..];
      if IsBroadcast(name) {
        assert SendToContacts(snap, t, content, fetch, names[j..]) == Fail(BroadcastToFriend);
        Step(sent, Fail(BroadcastToFriend), rest, total);
        return Delivery(sent, Some(BroadcastToFriend));
      }
      var wxid := FindNtchatFriend(snap, name);
      if Truthy(wxid) {
        var one := MediaOrText(t, content, wxid.value, fetch);
        assert SendToContacts(snap, t, content, fetch, names[j..]) == Then(one, rest);
        Step(sent, one, rest, total);
        sent := sent + one.sent;
        if one.failure.Some? {
          return Delivery(sent, one.failure);
        }
      } else {
        assert SendToContacts(snap, t, content, fetch, names[j..]) == rest;
      }
      j := j + 1;
    }
    assert sent + [] == sent;
    d := Delivery(sent, None);
  }
}
