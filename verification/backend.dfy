/**
 * What the plugin sees of a chat backend and what it does to one.  The backend's
 * contact lists are an immutable snapshot; every call that would send something
 * becomes an `Action` appended to a log, and an exception the plugin raises is the
 * `failure` that ends a `Delivery`.
 */
module Backend {
  import opened Wrappers
  import opened Str

  // ---------------------------------------------------------------------------
  // Snapshots

  /** An itchat user record, a friend or a chat-room member. */
  datatype ItchatUser = ItchatUser(userName: string, nickName: string, remarkName: string, displayName: string)

  /** An itchat chat room and its member list. */
  datatype ItchatRoom = ItchatRoom(userName: string, nickName: string, members: seq<ItchatUser>)

  datatype ItchatSnapshot = ItchatSnapshot(friends: seq<ItchatUser>, rooms: seq<ItchatRoom>)

  /** An ntchat contact (`get_contacts`). */
  datatype NtchatContact = NtchatContact(wxid: string, nickname: string, remark: string)

  /** An ntchat room (`get_rooms`). */
  datatype NtchatRoom = NtchatRoom(wxid: string, nickname: string)

  /** An entry of an ntchat room's `member_list`. */
  datatype NtchatMember = NtchatMember(wxid: string, nickname: string)

  /** `roomMembers` holds `get_room_members(wxid)["member_list"]` for the rooms that have one. */
  datatype NtchatSnapshot = NtchatSnapshot(contacts: seq<NtchatContact>, rooms: seq<NtchatRoom>,
                                           roomMembers: map<string, seq<NtchatMember>>)

  /** `download_file`: the local path a link is saved under, or None when the download fails. */
  type Fetch = string -> Option<string>

  // ---------------------------------------------------------------------------
  // Actions, errors and deliveries

  /** One call into the backend that sends something; `to` is a UserName or a wxid. */
  datatype Action =
    | SendText(to: string, text: string)
    | SendImage(to: string, path: string)
    | SendVideo(to: string, path: string)
    | SendFile(to: string, path: string)
    | SendRoomAt(to: string, text: string, ids: seq<string>)

  /** The exceptions the plugin itself raises. */
  datatype Error =
    | RoomNotFound(group: string)
    | MemberNotFound(group: string, name: string)
    | FriendNotFound(name: string)
    | BroadcastToFriend
    | NoReceivers
    | DownloadFailed(url: string)
    | UnsupportedType
    | NotAnObject

  /** The sends a request made, in order, and the exception that ended it, if any. */
  datatype Delivery = Delivery(sent: seq<Action>, failure: Option<Error>)

  const Nothing: Delivery := Delivery([], None)

  function Fail(e: Error): Delivery {
    Delivery([], Some(e))
  }

  /** Running `d` and then, unless `d` raised, `rest`. */
  function Then(d: Delivery, rest: Delivery): Delivery {
    if d.failure.Some? then d else Delivery(d.sent + rest.sent, rest.failure)
  }

  lemma ThenAssoc(a: Delivery, b: Delivery, c: Delivery)
    ensures Then(Then(a, b), c) == Then(a, Then(b, c))
  {
  }

  /** A delivery that raised is final: nothing run after it adds a send or changes the error. */
  lemma ThenAfterFailure(d: Delivery, rest: Delivery)
    requires d.failure.Some?
    ensures Then(d, rest) == d
  {
  }

  /**
   * A loop that has logged `sent` without an error and still has to run `d` and then
   * `rest` ends as it would if it had run `d` first: with `d`'s sends appended and,
   * when `d` raised, `d`'s error.
   */
  lemma Absorb(sent: seq<Action>, d: Delivery, rest: Delivery)
    ensures d.failure.None? ==> Then(Delivery(sent, None), Then(d, rest)) == Then(Delivery(sent + d.sent, None), rest)
    ensures d.failure.Some? ==> Then(Delivery(sent, None), Then(d, rest)) == Delivery(sent + d.sent, d.failure)
  {
    if d.failure.None? {
      assert (sent + d.sent) + rest.sent == sent + (d.sent + rest.sent);
    }
  }

  /** One step of a loop that logs `sent`, runs `d` and then has `rest` left to do, towards `total`. */
  lemma Step(sent: seq<Action>, d: Delivery, rest: Delivery, total: Delivery)
    requires Then(Delivery(sent, None), Then(d, rest)) == total
    ensures d.failure.Some? ==> Delivery(sent + d.sent, d.failure) == total
    ensures d.failure.None? ==> Then(Delivery(sent + d.sent, None), rest) == total
  {
    Absorb(sent, d, rest);
  }

  lemma AppendAssoc<T>(a: seq<T>, b: seq<T>, c: seq<T>)
    ensures (a + b) + c == a + (b + c)
  {
  }

  /** A request: whom to send to, what, and in which groups. */
  datatype Request = Request(receivers: seq<string>, content: string, groups: seq<string>)

  /** The truth value of an optional text in Python: None and "" are false. */
  predicate Truthy(o: Option<string>) {
    o.Some? && o.value != []
  }

  /** The receiver names that mean everybody in the room. */
  predicate IsBroadcast(name: string) {
    name == "所有人" || name == "all"
  }

  /** The mention that addresses everybody in a room. */
  const AtEveryone: string := "@所有人 "

  // ---------------------------------------------------------------------------
  // First-match search

  /** The index of the first element satisfying `p`: the early-return scan of every lookup. */
  function FindFirst<T>(xs: seq<T>, p: T -> bool): (r: Option<nat>)
    ensures r.Some? ==> r.value < |xs|
  {
    if xs == [] then None
    else if p(xs[0]) then Some(0)
    else match FindFirst(xs[1..], p)
      case None => None
      case Some(i) => Some(i + 1)
  }

  /** The scan finds nothing exactly when no element satisfies `p`, and what it finds satisfies `p`. */
  lemma {:induction false} FindFirstSpec<T>(xs: seq<T>, p: T -> bool)
    ensures FindFirst(xs, p).None? <==> forall i :: 0 <= i < |xs| ==> !p(xs[i])
    ensures FindFirst(xs, p).Some? ==> p(xs[FindFirst(xs, p).value])
  {
    if xs != [] && !p(xs[0]) {
      FindFirstSpec(xs[1..], p);
      assert forall i :: 1 <= i < |xs| ==> xs[i] == xs[1..][i - 1];
    }
  }

  /** The scan stops at the first element satisfying `p`. */
  lemma {:induction false} FindFirstAt<T>(xs: seq<T>, p: T -> bool, i: nat)
    requires i < |xs| && p(xs[i])
    requires forall j :: 0 <= j < i ==> !p(xs[j])
    ensures FindFirst(xs, p) == Some(i)
  {
    if i > 0 {
      assert !p(xs[0]);
      FindFirstAt(xs[1..], p, i - 1);
    }
  }

  // ---------------------------------------------------------------------------
  // itchat lookups

  function RoomNamed(name: string): ItchatRoom -> bool {
    (room: ItchatRoom) => room.nickName == name
  }

  /** `search_chatrooms(name=...)[0]`: the first room with that nickname. */
  function SearchChatroom(snap: ItchatSnapshot, name: string): Option<ItchatRoom> {
    match FindFirst(snap.rooms, RoomNamed(name))
    case Some(i) => Some(snap.rooms[i])
    case None => None
  }

  /** The chat room found is the first with that nickname, and there is none only when no room has it. */
  lemma SearchChatroomSpec(snap: ItchatSnapshot, name: string)
    ensures SearchChatroom(snap, name).None? <==> forall i :: 0 <= i < |snap.rooms| ==> snap.rooms[i].nickName != name
    ensures forall i ::
      0 <= i < |snap.rooms| && snap.rooms[i].nickName == name && (forall j :: 0 <= j < i ==> snap.rooms[j].nickName != name) ==>
        SearchChatroom(snap, name) == Some(snap.rooms[i])
  {
    FindFirstSpec(snap.rooms, RoomNamed(name));
    forall i | 0 <= i < |snap.rooms| && snap.rooms[i].nickName == name &&
      (forall j :: 0 <= j < i ==> snap.rooms[j].nickName != name)
      ensures SearchChatroom(snap, name) == Some(snap.rooms[i])
    {
      FindFirstAt(snap.rooms, RoomNamed(name), i);
    }
  }

  function RemarkNamed(name: string): ItchatUser -> bool {
    (f: ItchatUser) => f.remarkName == name
  }

  function FriendNamed(name: string): ItchatUser -> bool {
    (f: ItchatUser) => f.remarkName == name || f.nickName == name
  }

  /**
   * `(search_friends(remarkName=n) or search_friends(name=n))[0]`: the first friend
   * with that remark name, failing that the first whose remark name or nickname is n.
   */
  function SearchFriend(snap: ItchatSnapshot, name: string): Option<ItchatUser> {
    match FindFirst(snap.friends, RemarkNamed(name))
    case Some(i) => Some(snap.friends[i])
    case None =>
      match FindFirst(snap.friends, FriendNamed(name))
      case Some(i) => Some(snap.friends[i])
      case None => None
  }

  /**
   * A remark name wins over an earlier nickname: the friend found is the first with
   * that remark name, and only when no friend has it the first with that nickname.
   */
  lemma SearchFriendSpec(snap: ItchatSnapshot, name: string)
    ensures SearchFriend(snap, name).None? <==>
      forall i :: 0 <= i < |snap.friends| ==> snap.friends[i].remarkName != name && snap.friends[i].nickName != name
    ensures forall i ::
      0 <= i < |snap.friends| && snap.friends[i].remarkName == name && (forall j :: 0 <= j < i ==> snap.friends[j].remarkName != name) ==>
        SearchFriend(snap, name) == Some(snap.friends[i])
    ensures (forall i :: 0 <= i < |snap.friends| ==> snap.friends[i].remarkName != name) ==>
      forall i ::
        0 <= i < |snap.friends| && snap.friends[i].nickName == name && (forall j :: 0 <= j < i ==> snap.friends[j].nickName != name) ==>
          SearchFriend(snap, name) == Some(snap.friends[i])
  {
    var fs := snap.friends;
    FindFirstSpec(fs, RemarkNamed(name));
    FindFirstSpec(fs, FriendNamed(name));
    forall i | 0 <= i < |fs| && fs[i].remarkName == name && (forall j :: 0 <= j < i ==> fs[j].remarkName != name)
      ensures SearchFriend(snap, name) == Some(fs[i])
    {
      FindFirstAt(fs, RemarkNamed(name), i);
    }
    if forall i :: 0 <= i < |fs| ==> fs[i].remarkName != name {
      forall i | 0 <= i < |fs| && fs[i].nickName == name && (forall j :: 0 <= j < i ==> fs[j].nickName != name)
        ensures SearchFriend(snap, name) == Some(fs[i])
      {
        FindFirstAt(fs, FriendNamed(name), i);
      }
    }
  }

  /** A member matches a name once the marker is removed from its nickname or display name. */
  predicate MemberNamed(m: ItchatUser, name: string) {
    Scrub(m.nickName) == name || Scrub(m.displayName) == name
  }

  function MemberMatches(name: string): ItchatUser -> bool {
    (m: ItchatUser) => MemberNamed(m, name)
  }

  /** `_find_itchat_member`: the first matching member of the room, failing that a friend. */
  function FindItchatMember(snap: ItchatSnapshot, room: ItchatRoom, name: string): Option<ItchatUser> {
    match FindFirst(room.members, MemberMatches(name))
    case Some(i) => Some(room.members[i])
    case None => SearchFriend(snap, name)
  }

  /** The member found is the first matching one in the room; only without one are friends searched. */
  lemma FindItchatMemberSpec(snap: ItchatSnapshot, room: ItchatRoom, name: string)
    ensures forall i ::
      0 <= i < |room.members| && MemberNamed(room.members[i], name) && (forall j :: 0 <= j < i ==> !MemberNamed(room.members[j], name)) ==>
        FindItchatMember(snap, room, name) == Some(room.members[i])
    ensures (forall i :: 0 <= i < |room.members| ==> !MemberNamed(room.members[i], name)) ==>
      FindItchatMember(snap, room, name) == SearchFriend(snap, name)
  {
    FindFirstSpec(room.members, MemberMatches(name));
    forall i | 0 <= i < |room.members| && MemberNamed(room.members[i], name) &&
      (forall j :: 0 <= j < i ==> !MemberNamed(room.members[j], name))
      ensures FindItchatMember(snap, room, name) == Some(room.members[i])
    {
      FindFirstAt(room.members, MemberMatches(name), i);
    }
  }

  /** A member whose nickname carries no marker is found by that nickname, in the room itself. */
  lemma PlainMemberFound(snap: ItchatSnapshot, room: ItchatRoom, k: nat)
    requires k < |room.members| && '\U{7f}' !in room.members[k].nickName
    ensures var r := FindItchatMember(snap, room, room.members[k].nickName);
      r.Some? && r.value in room.members && MemberNamed(r.value, room.members[k].nickName)
  {
    var name := room.members[k].nickName;
    ScrubIdentity(name);
    assert MemberNamed(room.members[k], name);
    FindFirstSpec(room.members, MemberMatches(name));
    var i := FindFirst(room.members, MemberMatches(name)).value;
    assert MemberMatches(name)(room.members[i]);
  }

  // ---------------------------------------------------------------------------
  // ntchat lookups

  function NtRoomNamed(name: string): NtchatRoom -> bool {
    (room: NtchatRoom) => room.nickname == name
  }

  /** `_find_ntchat_chatroom`: the first room with that nickname. */
  function FindNtchatChatroom(snap: NtchatSnapshot, name: string): Option<NtchatRoom> {
    match FindFirst(snap.rooms, NtRoomNamed(name))
    case Some(i) => Some(snap.rooms[i])
    case None => None
  }

  /** The room found is the first with that nickname, and there is none only when no room has it. */
  lemma FindNtchatChatroomSpec(snap: NtchatSnapshot, name: string)
    ensures FindNtchatChatroom(snap, name).None? <==> forall i :: 0 <= i < |snap.rooms| ==> snap.rooms[i].nickname != name
    ensures forall i ::
      0 <= i < |snap.rooms| && snap.rooms[i].nickname == name && (forall j :: 0 <= j < i ==> snap.rooms[j].nickname != name) ==>
        FindNtchatChatroom(snap, name) == Some(snap.rooms[i])
  {
    FindFirstSpec(snap.rooms, NtRoomNamed(name));
    forall i | 0 <= i < |snap.rooms| && snap.rooms[i].nickname == name &&
      (forall j :: 0 <= j < i ==> snap.rooms[j].nickname != name)
      ensures FindNtchatChatroom(snap, name) == Some(snap.rooms[i])
    {
      FindFirstAt(snap.rooms, NtRoomNamed(name), i);
    }
  }

  /** `get_room_members(wxid).get("member_list", [])`. */
  function RoomMembers(snap: NtchatSnapshot, roomWxid: string): seq<NtchatMember> {
    if roomWxid in snap.roomMembers then snap.roomMembers[roomWxid] else []
  }

  function NtMemberNamed(name: string): NtchatMember -> bool {
    (m: NtchatMember) => m.nickname == name
  }

  /** `_find_ntchat_member`: the wxid of the first room member with that nickname. */
  function FindNtchatMember(snap: NtchatSnapshot, roomWxid: string, name: string): Option<string> {
    var members := RoomMembers(snap, roomWxid);
    match FindFirst(members, NtMemberNamed(name))
    case Some(i) => Some(members[i].wxid)
    case None => None
  }

  /** The wxid found is that of the first member with the nickname; a room without a member list has none. */
  lemma FindNtchatMemberSpec(snap: NtchatSnapshot, roomWxid: string, name: string)
    ensures var ms := RoomMembers(snap, roomWxid);
      FindNtchatMember(snap, roomWxid, name).None? <==> forall i :: 0 <= i < |ms| ==> ms[i].nickname != name
    ensures var ms := RoomMembers(snap, roomWxid);
      forall i :: 0 <= i < |ms| && ms[i].nickname == name && (forall j :: 0 <= j < i ==> ms[j].nickname != name) ==>
        FindNtchatMember(snap, roomWxid, name) == Some(ms[i].wxid)
  {
    var ms := RoomMembers(snap, roomWxid);
    FindFirstSpec(ms, NtMemberNamed(name));
    forall i | 0 <= i < |ms| && ms[i].nickname == name && (forall j :: 0 <= j < i ==> ms[j].nickname != name)
      ensures FindNtchatMember(snap, roomWxid, name) == Some(ms[i].wxid)
    {
      FindFirstAt(ms, NtMemberNamed(name), i);
    }
  }

  predicate ContactNamed(c: NtchatContact, name: string) {
    c.nickname == name || c.remark == name
  }

  function ContactMatches(name: string): NtchatContact -> bool {
    (c: NtchatContact) => ContactNamed(c, name)
  }

  /** `_find_ntchat_friend`: the wxid of the first contact with that nickname or remark. */
  function FindNtchatFriend(snap: NtchatSnapshot, name: string): Option<string> {
    match FindFirst(snap.contacts, ContactMatches(name))
    case Some(i) => Some(snap.contacts[i].wxid)
    case None => None
  }

  /** The wxid found is that of the first contact whose nickname or remark is the name. */
  lemma FindNtchatFriendSpec(snap: NtchatSnapshot, name: string)
    ensures FindNtchatFriend(snap, name).None? <==>
      forall i :: 0 <= i < |snap.contacts| ==> !ContactNamed(snap.contacts[i], name)
    ensures forall i ::
      0 <= i < |snap.contacts| && ContactNamed(snap.contacts[i], name) && (forall j :: 0 <= j < i ==> !ContactNamed(snap.contacts[j], name)) ==>
        FindNtchatFriend(snap, name) == Some(snap.contacts[i].wxid)
  {
    FindFirstSpec(snap.contacts, ContactMatches(name));
    forall i | 0 <= i < |snap.contacts| && ContactNamed(snap.contacts[i], name) &&
      (forall j :: 0 <= j < i ==> !ContactNamed(snap.contacts[j], name))
      ensures FindNtchatFriend(snap, name) == Some(snap.contacts[i].wxid)
    {
      FindFirstAt(snap.contacts, ContactMatches(name), i);
    }
  }
}
