/**
 * The plugin's own entry points: `send_message` picks the backend named by the
 * configured channel type, `process_message` turns one queued item into a
 * request, and `handle_message` drains the queue file, one item at a time,
 * so that an item that fails never keeps the next one from being sent.
 */
module Plugin {
  import opened Wrappers
  import opened Media
  import opened Backend
  import Itchat
  import Ntchat

  /** The configured channel and what each backend's client knows. */
  datatype Channel = Channel(channelType: string, itchat: ItchatSnapshot, ntchat: NtchatSnapshot)

  /** The channel types the plugin can send through. */
  predicate Supported(channelType: string) {
    channelType == "wx" || channelType == "ntchat"
  }

  /** `send_message`: an unsupported channel type sends nothing and raises nothing. */
  function Dispatch(ch: Channel, req: Request, fetch: Fetch): Delivery {
    if ch.channelType == "wx" then Itchat.Route(ch.itchat, req, fetch)
    else if ch.channelType == "ntchat" then Ntchat.Route(ch.ntchat, req, fetch)
    else Nothing
  }

  /** `send_message`, calling the backend's sender. */
  method SendMessage(ch: Channel, req: Request, fetch: Fetch) returns (d: Delivery)
    ensures !Supported(ch.channelType) ==> d == Nothing
    ensures ch.channelType == "wx" ==> d == Itchat.Route(ch.itchat, req, fetch)
    ensures ch.channelType == "ntchat" ==> d == Ntchat.Route(ch.ntchat, req, fetch)
  {
    if !Supported(ch.channelType) {
      return Nothing;
    }
    if ch.channelType == "wx" {
      d := Itchat.SendItchatMessage(ch.itchat, req, fetch);
    } else {
      d := Ntchat.SendNtchatMessage(ch.ntchat, req, fetch);
    }
  }

  /** Neither backend sends anything for a link of an unsupported kind, and neither raises. */
  lemma UnsupportedSendsNothing(ch: Channel, req: Request, fetch: Fetch)
    requires DetectMediaType(req.content) == Unsupported
    ensures Dispatch(ch, req, fetch) == Nothing
  {
  }

  /**
   * Only an itchat request can fail for want of receivers: the same request
   * with neither list is an error under itchat and a silent no-op under ntchat.
   */
  lemma EmptyRequest(ch: Channel, content: string, fetch: Fetch)
    requires !IsUrl(content)
    ensures ch.channelType == "wx" ==> Dispatch(ch, Request([], content, []), fetch) == Fail(NoReceivers)
    ensures ch.channelType != "wx" ==> Dispatch(ch, Request([], content, []), fetch) == Nothing
  {
  }

  /** Under ntchat a request to groups always runs to the end: a missing group or member is skipped. */
  lemma NtchatGroupsNeverRaise(ch: Channel, req: Request, fetch: Fetch)
    requires ch.channelType == "ntchat" && req.groups != []
    ensures Dispatch(ch, req, fetch).failure == None
  {
  }

  // ---------------------------------------------------------------------------
  // One queued item

  /**
   * An entry of the queue file's list: an object whose keys may be missing, or
   * some other JSON value, on which `data.get` raises.
   */
  datatype QueueItem =
    | Item(receivers: Option<seq<string>>, message: Option<string>, groups: Option<seq<string>>)
    | NotAnItem

  /** `dict.get(key, default)`. */
  function Get<T>(o: Option<T>, default: T): T {
    if o.Some? then o.value else default
  }

  /** The request an item stands for: a missing list is empty, a missing message is empty text. */
  function RequestOf(item: QueueItem): Request
    requires item.Item?
  {
    Request(Get(item.receivers, []), Get(item.message, ""), Get(item.groups, []))
  }

  /** `process_message`: what one item sends, and the exception it logs. */
  function Process(ch: Channel, item: QueueItem, fetch: Fetch): Delivery {
    if item.NotAnItem? then Fail(NotAnObject) else Dispatch(ch, RequestOf(item), fetch)
  }

  /** `process_message`. */
  method ProcessMessage(ch: Channel, item: QueueItem, fetch: Fetch) returns (d: Delivery)
    ensures item.NotAnItem? ==> d == Fail(NotAnObject)
    ensures item.Item? ==> d == Dispatch(ch, RequestOf(item), fetch)
  {
    if item.NotAnItem? {
      return Fail(NotAnObject);
    }
    var req := Request(Get(item.receivers, []), Get(item.message, ""), Get(item.groups, []));
    d := SendMessage(ch, req, fetch);
  }

  /** An item whose keys are all missing is a text request to nobody. */
  lemma BareItem(ch: Channel, fetch: Fetch)
    ensures ch.channelType == "wx" ==> Process(ch, Item(None, None, None), fetch) == Fail(NoReceivers)
    ensures ch.channelType != "wx" ==> Process(ch, Item(None, None, None), fetch) == Nothing
  {
    EmptyRequest(ch, "", fetch);
  }

  /** With an unsupported channel type no item sends anything, whatever it holds. */
  lemma UnsupportedChannelSendsNothing(ch: Channel, item: QueueItem, fetch: Fetch)
    requires !Supported(ch.channelType)
    ensures Process(ch, item, fetch).sent == []
  {
  }

  // ---------------------------------------------------------------------------
  // Draining the queue file

  /** What `handle_message` finds on reading the queue file. */
  datatype QueueFile =
    | Missing
    | Blank
    | Malformed
    | NotAList
    | Items(items: seq<QueueItem>)

  /** Everything a batch sent, in the order of its items. */
  function AllSent(outcomes: seq<Delivery>): seq<Action> {
    if outcomes == [] then [] else outcomes[0].sent + AllSent(outcomes[1..])
  }

  /** The log of a batch grows by what its next item sent. */
  lemma {:induction false} AllSentSnoc(outcomes: seq<Delivery>, d: Delivery)
    ensures AllSent(outcomes + [d]) == AllSent(outcomes) + d.sent
  {
    if outcomes == [] {
      assert outcomes + [d] == [d];
      assert AllSent([d]) == d.sent + AllSent([]);
    } else {
      assert (outcomes + [d])[1..] == outcomes[1..] + [d];
      AllSentSnoc(outcomes[1..], d);
    }
  }

  /**
   * `handle_message`: each item of a list is processed in turn, whatever the
   * items before it raised, and the file is emptied afterwards; a missing,
   * blank, unreadable or non-list file sends nothing and is left as it is.
   * `sent` is the log of every send the batch made, in the order they were made.
   */
  method HandleMessage(ch: Channel, file: QueueFile, fetch: Fetch)
    returns (outcomes: seq<Delivery>, sent: seq<Action>, cleared: bool)
    ensures cleared <==> file.Items?
    ensures !file.Items? ==> outcomes == [] && sent == []
    ensures file.Items? ==> |outcomes| == |file.items|
    ensures file.Items? ==> forall i :: 0 <= i < |file.items| ==> outcomes[i] == Process(ch, file.items[i], fetch)
    ensures sent == AllSent(outcomes)
  {
    if !file.Items? {
      return [], [], false;
    }
    var items := file.items;
    outcomes, sent := [], [];
    var i := 0;
    while i < |items|
      invariant 0 <= i <= |items|
      invariant |outcomes| == i
      invariant forall j :: 0 <= j < i ==> outcomes[j] == Process(ch, items[j], fetch)
      invariant sent == AllSent(outcomes)
    {
      var d := ProcessMessage(ch, items[i], fetch);
      AllSentSnoc(outcomes, d);
      outcomes := outcomes + [d];
      sent := sent + d.sent;
      i := i + 1;
    }
    cleared := true;
  }

  /**
   * What a batch sent is what each item sent, in order: an item that raised
   * contributes the sends it made before raising and the items after it still
   * contribute theirs.
   */
  lemma {:induction false} AllSentSplit(outcomes: seq<Delivery>, k: nat)
    requires k < |outcomes|
    ensures AllSent(outcomes) == AllSent(outcomes[..k]) + outcomes[k].sent + AllSent(outcomes[k + 1..])
  {
    if k == 0 {
      assert outcomes[..0] == [];
    } else {
      AllSentSplit(outcomes[1..], k - 1);
      assert outcomes[1..][..k - 1] == outcomes[..k][1..];
      assert outcomes[1..][k..] == outcomes[k + 1..];
      assert outcomes[1..][k - 1] == outcomes[k];
      assert outcomes[..k][0] == outcomes[0];
    }
  }
}
