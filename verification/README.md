# send_msg: message routing, modelled in Dafny

`send_msg` is a chat-bot plugin that relays queued outbound messages to a WeChat
backend. A request names the receivers, the message and the groups. The plugin
decides what kind of content the message is: plain text, or a link to an image,
a video or a file. It then resolves the names to backend identities and sends
the content, with `@` mentions where receivers are addressed inside a group.

Requests come from two places. One is a JSON list in a queue file, drained by
`handle_message`. The other is the chat command `$send_msg [a, b] text group[g1, g2]`.

There are two backends, chosen by the configured `channel_type`:

- `wx` (itchat) raises at the first name that does not resolve. Nothing after it is sent.
- `ntchat` skips a group or friend it cannot find and carries on.
- Any other channel type sends nothing.

The model is pure and works on values:

- The backends' contact lists are immutable snapshots (`Backend.ItchatSnapshot`,
  `Backend.NtchatSnapshot`).
- Every backend call that sends something becomes an `Action` in a log.
- A request's outcome is a `Delivery`: the actions sent, in order, and the
  exception raised, if any.
- The download of a link is a function `Fetch` from the link to an optional local path.

The routing loops are `method`s with loop invariants. Each is proved equal to a
recursive specification function, and the properties of the routes are lemmas
about those functions.

Modules:

- `Str`: the Python string operations used.
- `Command`: the command parser, its regular expression written out with Python's
  backtracking order.
- `Media`: the content classifier.
- `Backend`: snapshots, actions, errors, deliveries and the name lookups.
- `Itchat` and `Ntchat`: the two routes.
- `Plugin`: `send_message`, `process_message` and `handle_message`.

## Behaviour worth knowing

- A request whose content is text or a link of a supported kind, with neither
  receivers nor groups, raises under itchat. The ntchat route loops over the
  empty receiver list and sends nothing (`Plugin.EmptyRequest`). A link of an
  unsupported kind returns silently on both routes before anything else
  (`Plugin.UnsupportedSendsNothing`).
- In an itchat group, a broadcast token is one receiver among the others. It
  produces its own `@所有人 ` send, and the other receivers are still resolved
  and sent to one by one. The ntchat route sends a single broadcast message per group.
- The itchat member lookup falls back to the friend list. A receiver who is not
  in the room but is a friend is mentioned by the friend's nickname
  (`Itchat.AtPrefixSpec`).
- Under ntchat, a group message is always the content as text, even when the
  content is a media link (`Ntchat.RoomsSendText`).

## Model

| member | source | states |
|---|---|---|
| Command.ParseCommand | send_msg.py:132-135 | A command that does not start with `$send_msg` is rejected |
| Command.ParseTotalOnOneLine | send_msg.py:132-135 | Every single-line text that starts with `$send_msg` matches the pattern, so only a multi-line text can be rejected after the keyword |
| Command.MatchWellCaptured | send_msg.py:132-137 | Whenever the pattern matches, a captured group part is `group[` followed by a closing `]` at its end, which is what the strip at line 140 relies on |
| Command.ParsedIsClean | send_msg.py:137-142 | Every receiver and group name is non-empty, trimmed and comma-free; the message is trimmed and on one line; without a `[` in the command both name lists are empty |
| Command.ParseFormatRoundTrip | send_msg.py:123-142 | A well-formed command written in the documented form is read back as itself, provided no group name begins or ends with a letter of `group[]` |
| Command.PlainRoundTrip | send_msg.py:123-142 | A well-formed command without groups, written as `$send_msg [names] message` with no group part, is read back as itself |
| Command.GroupNameEdgesLost | send_msg.py:140 | As written, a group name such as `gourmet` loses every leading and trailing character from `g r o u p [ ]` and is read back as `met` |
| Command.ParseCommandFixed | send_msg.py:140 | The parser with the group names cut out by position accepts exactly the commands the original accepts and reads the same receivers and message |
| Command.FixedRoundTrip | send_msg.py:123-142 | With the group names cut out by position, every well-formed command is read back as itself, whatever its group names |
| Command.MessageEndIsFirstStop | send_msg.py:132 | The lazy message ends at the first position from which the optional group part and `$` can match, without crossing a line break |
| Command.SkipSpacesSpec | send_msg.py:132 | `\s*` consumes white space only and stops at the end or at the first character that is not white space |
| Command.ListNames | send_msg.py:139-140 | The names cut from a list body are non-empty, trimmed and free of commas |
| Str.StripCharsExact | send_msg.py:139-140 | `strip(chars)` removes characters of the set from both ends and stops at the first character outside it |
| Str.SplitJoin | send_msg.py:139-140 | Joining the pieces of `split(',')` with `,` gives back the text |
| Str.EntriesOfJoined | send_msg.py:139-140 | Names joined with `, ` are recovered exactly by split, strip and the blank filter |
| Str.LowerIsLowerCase | send_msg.py:215-221 | After `lower()` no ASCII capital is left, so lower-casing again changes nothing, and two texts that differ only in the case of ASCII letters lower-case to the same text, which is why the extension tests ignore letter case |
| Str.ScrubLeavesNoMarker | send_msg.py:286 | After removing `\x7f\x7f` no pair of DEL characters is left |
| Str.ScrubIdentity | send_msg.py:286 | A name without DEL characters is unchanged by the removal |
| Media.DetectMediaType | send_msg.py:210-225 | The content is text exactly when it does not start with `http://` or `https://` |
| Media.ClassifyLink | send_msg.py:214-224 | A link is an image, video or file exactly when its lower-cased text ends in an extension of that list, and unsupported exactly when it ends in none |
| Media.ExtensionsDisjoint | send_msg.py:216-221 | No text ends in extensions of two different lists, so the order of the tests does not matter |
| Media.ClassifyByExtension | send_msg.py:214-221 | A link with a listed extension, in any letter case, gets that list's kind, whatever its path |
| Media.PdfIsVideo | send_msg.py:218 | A `.pdf` link, in any letter case, is sent as a video |
| Media.SchemeIsCaseSensitive | send_msg.py:214 | An upper-case scheme makes even an image link plain text |
| Backend.FindFirstSpec | send_msg.py:284-287 | The early-return scan finds nothing exactly when no element matches, and what it finds matches |
| Backend.FindFirstAt | send_msg.py:284-287 | The scan returns the first matching element |
| Backend.SearchChatroomSpec | send_msg.py:241-244 | The chat room used is the first with that name, and there is none only when no room has it |
| Backend.SearchFriendSpec | send_msg.py:268 | A friend with that remark name wins; only when no friend has it is the first with that nickname taken; none only when no friend has either |
| Backend.FindItchatMemberSpec | send_msg.py:280-290 | The first room member whose nickname or display name, with the marker removed, equals the name is found; only when none matches are the friends searched |
| Backend.PlainMemberFound | send_msg.py:284-287 | A member whose nickname has no marker is found in the room by that nickname |
| Backend.FindNtchatChatroomSpec | send_msg.py:344-352 | The room found is the first with that nickname, and there is none only when no room has it |
| Backend.FindNtchatMemberSpec | send_msg.py:354-362 | The wxid is that of the first room member with that nickname; none when no member has it or the room has no member list |
| Backend.FindNtchatFriendSpec | send_msg.py:364-372 | The wxid is that of the first contact whose nickname or remark is the name; none when no contact has it |
| Itchat.SendMsgSpec | send_msg.py:398-430 | Text goes out as one message with the mention in front. A media link is downloaded first and its mention, if any, goes out as a separate text before the file. A failed download raises before anything is sent. Every send goes to the given user |
| Itchat.AtPrefixSpec | send_msg.py:248-256 | The mention is `@所有人 ` for `所有人` or `all`. Otherwise it is `@`, a nickname and a space: that of the first room member whose nickname or display name is the name, failing that that of the friend found for it. There is no mention exactly when neither a room member nor a friend has the name |
| Itchat.MediaAction | send_msg.py:418-423 | A downloaded file is sent to the given user |
| Itchat.Route | send_msg.py:235-275 | An unsupported link sends nothing and raises nothing; a supported request with neither groups nor receivers raises |
| Itchat.SendItchatMessage | send_msg.py:227-278 | Issuing the sends one at a time and returning at the first exception gives exactly the route's outcome |
| Itchat.SendGroupMessages | send_msg.py:239-261 | The loop over the groups ends at the first exception and otherwise gives each group's sends in order |
| Itchat.SendGroupMessage | send_msg.py:241-261 | One group: a missing room raises, otherwise the members' sends or one plain send |
| Itchat.SendMemberMessages | send_msg.py:246-258 | The loop over the receivers in a group ends at the first member not found or failed send |
| Itchat.SendFriendMessages | send_msg.py:264-273 | The loop over direct receivers ends at the first broadcast token, unknown friend or failed send |
| Itchat.SendToFriendSpec | send_msg.py:266-273 | A direct message to `所有人` or `all` raises; one to a name no friend has as remark name or nickname raises naming it; otherwise one send without mention goes to the first friend with that remark name, failing that to the first with that nickname |
| Itchat.GroupFailureIsFinal | send_msg.py:240-243 | Once the groups so far raised, later groups add no send and leave the error unchanged |
| Itchat.MissingGroupStops | send_msg.py:241-243 | A group that is not found raises after the sends to the groups before it, and nothing after it is sent |
| Itchat.MissingMemberStops | send_msg.py:252-256 | A receiver that is not a broadcast token and is found neither in the room nor among the friends raises, and nothing after it is sent |
| Itchat.FriendStops | send_msg.py:266-273 | A direct message to a broadcast token or to an unknown friend raises after the earlier sends, and the receivers after it get nothing |
| Itchat.MembersSendTexts | send_msg.py:246-258 | For text, a group whose receivers all resolve gets one message per receiver, its mention followed by the content |
| Itchat.TextFanOut | send_msg.py:239-261 | For text, a request whose groups and receivers all resolve sends exactly the fan-out over groups and receivers and raises nothing |
| Itchat.FanOutLength | send_msg.py:240-258 | The fan-out has one message per pair of group and receiver |
| Itchat.FanOutAt | send_msg.py:240-258 | Message `i * n + j` of the fan-out is receiver `j`'s mention in group `i` followed by the content, sent to that group |
| Itchat.PlainFanOut | send_msg.py:259-261 | For text without receivers, each found group gets exactly one message, the content, in group order |
| Ntchat.MediaOrTextSpec | send_msg.py:374-396 | Each call sends at most one thing, to the given wxid. Text is sent as is. A media link is sent as a downloaded file with the primitive of its kind. The call raises exactly when a download fails, and then sends nothing |
| Ntchat.BroadcastIn | send_msg.py:312 | The membership test on `所有人` and `all` holds exactly when some receiver is a broadcast token |
| Ntchat.ResolvedIdsBound | send_msg.py:317-318 | There are no more ids than receivers and none is empty |
| Ntchat.ResolvedIdsFrom | send_msg.py:317-318 | Every id is the wxid some receiver resolves to |
| Ntchat.ResolvedIdsEmpty | send_msg.py:317-320 | There are no ids exactly when no receiver resolves to a non-empty wxid |
| Ntchat.RoomSendSpec | send_msg.py:311-328 | A found room gets at most one message. Without receivers it is the content as text. With a broadcast token it is `@所有人 ` and the content, with no ids. Otherwise there is a message exactly when some receiver resolves; its ids are the resolved ones and its text mentions every receiver |
| Ntchat.RoomsAppend | send_msg.py:301-306 | Sending to two lists of groups is sending to each in turn: no group stops the others |
| Ntchat.MissingRoomSkipped | send_msg.py:303-306 | A group that is not found adds nothing, and the groups after it are still served |
| Ntchat.RoomsSendText | send_msg.py:311-328 | Every group message is the content as text or an `@` message; no file is sent to a group |
| Ntchat.MissingContactSkipped | send_msg.py:334-339 | A receiver no contact resolves to is skipped: the others are served as if it were absent |
| Ntchat.BroadcastToContactStops | send_msg.py:331-333 | A broadcast token among direct receivers raises after the sends to the receivers before it |
| Ntchat.Route | send_msg.py:297-339 | An unsupported link sends nothing; with neither list nothing is sent and nothing raised; with groups the route never raises |
| Ntchat.SendNtchatMessage | send_msg.py:292-342 | Issuing the sends one at a time gives exactly the route's outcome |
| Ntchat.ResolveIds | send_msg.py:317-318 | Looking the receivers up in order and keeping the non-empty wxids collects exactly the resolved ids, in receiver order |
| Ntchat.SendRoomMessages | send_msg.py:301-328 | The loop over the groups with `continue` sends exactly what the route sends to the groups |
| Ntchat.SendContactMessages | send_msg.py:330-339 | The loop over the direct receivers sends exactly what the route sends and raises where it raises |
| Plugin.SendMessage | send_msg.py:193-208 | An unsupported channel type sends nothing and raises nothing; `wx` gives the itchat route and `ntchat` the ntchat route, errors included |
| Plugin.UnsupportedSendsNothing | send_msg.py:235-237 | A link of an unsupported kind makes both routes return, sending and raising nothing, before any name search or send: the itchat return at 236-237 and the ntchat one at 298-299 |
| Plugin.EmptyRequest | send_msg.py:274-275 | A text request with neither list raises under itchat (274-275) and is a silent no-op under ntchat, whose loop at 330-331 runs over no receiver |
| Plugin.NtchatGroupsNeverRaise | send_msg.py:301-328 | Under ntchat a request to groups never raises |
| Plugin.ProcessMessage | send_msg.py:183-191 | A missing key defaults to an empty list or empty text; an entry that is not an object raises; otherwise the outcome is `send_message`'s |
| Plugin.BareItem | send_msg.py:185-189 | An item with no keys is a text request to nobody: an error under itchat, nothing under ntchat |
| Plugin.UnsupportedChannelSendsNothing | send_msg.py:197-199 | With an unsupported channel type no item sends anything |
| Plugin.HandleMessage | send_msg.py:160-181 | Every item of a list is processed, in order, whatever earlier items raised, and the file is emptied. A missing, blank, unreadable or non-list file sends nothing and is left as it is. The batch's log of sends is the items' sends concatenated in item order |
| Plugin.AllSentSplit | send_msg.py:173-174 | The batch log `HandleMessage` returns splits at any item into the sends of the items before it, that item's own sends (those made before it raised, if it raised) and the sends of the items after it |

## Left out

- Watching the file, the HTTP intake (`file_api.py`), reading and writing the
  queue file, logging, and the `on_handle_context` / `handle_send_msg_command` /
  `get_help_text` entry points are not modelled. The file's content is the
  `Plugin.QueueFile` datatype, and "emptied" is the `cleared` flag.
- JSON parsing is not modelled. An entry of the list is an object with optional
  `receiver_name`, `message` and `group_name` keys, or a value that is not an
  object. Keys holding `null` or a value of another JSON type are not modelled.
- The chat SDKs are snapshots of their contact lists. Exceptions raised inside
  an SDK call are not modelled, nor is the refresh done by
  `get_friends(update=True)` / `get_chatrooms(update=True)`. The unused
  `get_room_members` call at send_msg.py:309 is not modelled either.
- Backend.SearchChatroom: itchat's `search_chatrooms(name=…)` is modelled as the
  first room whose nickname equals the name. The library's own matching rules
  are not part of this model.
- Backend.SearchFriend: itchat's `search_friends` is modelled the same way, as
  the first exact match, on the remark name and then on the remark name or the
  nickname.
- `download_file` is the function `Fetch` from link to optional local path.
  Its HTTP request, its timeout and the removal of the downloaded file after
  sending are not modelled.
- Backend.Fetch: one outcome per link, shared by every download of that link.
  The source downloads again on every send (send_msg.py:381 and 411): once per
  receiver in each itchat group and once per resolved ntchat contact. So the
  model cannot express a request, or a batch, where one download of a link
  succeeds and a later download of the same link fails. Its failed download
  therefore always comes before any send of that request's media.
- Str.Lower: lower-cases ASCII letters only, while Python's `lower()` also maps
  other scripts. This never changes a classification: no listed extension
  contains `k`, the letter the Kelvin sign lower-cases to, and U+0130 lower-cases
  to `i` followed by a combining dot, which cannot complete an extension.
- The channel type is a plain field of `Plugin.Channel`. The configuration
  lookup is not modelled.

## Findings

| source | as written | input that shows it | evidently intended | confidence | as-written member | corrected member |
|---|---|---|---|---|---|---|
| send_msg.py:140 | `group_part.strip('group[]')` strips any of the characters `g r o u p [ ]` from both ends, as a set, so it also eats the group name's own leading and trailing letters | `$send_msg [a] hi group[gourmet]` gives the group list `["met"]` instead of `["gourmet"]` | remove the `group[` prefix and the closing `]` only, so that every group name is read back as written | not executed | Command.GroupNameEdgesLost | Command.FixedRoundTrip |
