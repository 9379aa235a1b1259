/**
 * messages/messages.go: the dispatch of an in-tunnel management message on
 * its `type` field, and the router-event ring that `router_event` messages
 * write into.
 */
module Messages {
  import opened Wrappers
  import opened GoTypes
  import NhUtil
  import MessagesCommon

  /** The slots of the event ring (container/ring of this many elements). */
  const MAX_NUMBER_OF_EVENTS: nat := 8

  /** One router event, with the Active flag GetNextEvent clears. */
  datatype Event = Event(
    etype: int64, name: string, ipAddress: string, macAddress: string,
    extra: string, active: bool, tstamp: int64)

  /** The body of a `router_event` message. */
  datatype RouterEventBody = RouterEventBody(
    etype: int64, ipAddress: string, macAddress: string, name: string,
    extra: string, tstamp: int64)

  /** A decoded `Message`: its type and the wireless settings of its body, keyed as the settings script names them. */
  datatype Message = Message(msgType: string, wireless: map<string, string>)

  /**
   * What ProcessMessage does with a message: hand it to one of the handlers
   * (named after the Go functions), or answer with a fixed reply.
   */
  datatype Action =
    | SetWireless(wireless: map<string, string>)
    | GetWireless
    | GetClients
    | SetClientDetails
    | StartOnboarding(enable: int)
    | PauseClient
    | GetBlocklist
    | SetBlocklist(domains: seq<MessagesCommon.BlockEntry>)
    | GetClientStats
    | GetRepeaters
    | UpgradeFw
    | RouterEvent(body: RouterEventBody)
    | UploadLogs
    | Reply(text: string)

  /** The message types ProcessMessage has a case for. */
  const HANDLED_TYPES: set<string> := {
    "set_wireless", "get_wireless", "get_clients", "set_client_details",
    "start_onboarding", "stop_onboarding", "pause_client", "pause_all",
    "get_blocklist", "set_blocklist", "get_client_stats", "get_repeaters",
    "upgrade_fw", "router_event", "upload_logs"}

  /** The message a decode left behind, complete or partial. */
  function Decoded(first: Result<Message, DecodeFailure<Message>>): Message
  {
    match first
    case Ok(msg) => msg
    case Err(f) => f.partial
  }

  /**
   * ProcessMessage. The JSON decodes it performs are its inputs: `first` as a
   * `Message`, `pauseOk` whether the data decodes as a `PauseMessage`,
   * `blocklist` as a `BlocklistMessage` and `event` as a `RouterEventMessage`.
   * When the first decode fails but the second succeeds, the switch runs on
   * whatever type the first decode had filled in.
   */
  function Dispatch(first: Result<Message, DecodeFailure<Message>>, pauseOk: bool,
                    blocklist: Result<seq<MessagesCommon.BlockEntry>, string>,
                    event: Result<RouterEventBody, string>): (r: Action)
    ensures first.Err? && !pauseOk ==> r == Reply(NhUtil.ErrorStatusString(first.error.reason))
    ensures (first.Ok? || pauseOk) ==> (r == Reply("") <==> Decoded(first).msgType !in HANDLED_TYPES)
    ensures (first.Ok? || pauseOk) && Decoded(first).msgType in {"pause_client", "pause_all"} ==> r == PauseClient
    ensures (first.Ok? || pauseOk) && Decoded(first).msgType == "start_onboarding" ==> r == StartOnboarding(1)
    ensures (first.Ok? || pauseOk) && Decoded(first).msgType == "stop_onboarding" ==> r == StartOnboarding(0)
    ensures (first.Ok? || pauseOk) && Decoded(first).msgType == "set_blocklist" ==>
      r == (if blocklist.Err? then Reply(NhUtil.ErrorStatusString(blocklist.error)) else SetBlocklist(blocklist.value))
    ensures (first.Ok? || pauseOk) && Decoded(first).msgType == "router_event" ==>
      r == (if event.Err? then Reply(NhUtil.ErrorStatusString(event.error)) else RouterEvent(event.value))
  {
    if first.Err? && !pauseOk then Reply(NhUtil.ErrorStatusString(first.error.reason))
    else
      var msg := Decoded(first);
      match msg.msgType
      case "set_wireless" => SetWireless(msg.wireless)
      case "get_wireless" => GetWireless
      case "get_clients" => GetClients
      case "set_client_details" => SetClientDetails
      case "start_onboarding" => StartOnboarding(1)
      case "stop_onboarding" => StartOnboarding(0)
      case "pause_client" => PauseClient
      case "pause_all" => PauseClient
      case "get_blocklist" => GetBlocklist
      case "set_blocklist" =>
        (match blocklist
         case Err(e) => Reply(NhUtil.ErrorStatusString(e))
         case Ok(d) => SetBlocklist(d))
      case "get_client_stats" => GetClientStats
      case "get_repeaters" => GetRepeaters
      case "upgrade_fw" => UpgradeFw
      case "router_event" =>
        (match event
         case Err(e) => Reply(NhUtil.ErrorStatusString(e))
         case Ok(b) => RouterEvent(b))
      case "upload_logs" => UploadLogs
      case _ => Reply("")
  }

  /** The message type that leads to a handler, the one handler two types share named by `pause_all`. */
  function TypeOfHandler(a: Action): (t: Option<string>)
  {
    match a
    case SetWireless(_) => Some("set_wireless")
    case GetWireless => Some("get_wireless")
    case GetClients => Some("get_clients")
    case SetClientDetails => Some("set_client_details")
    case StartOnboarding(e) => Some(if e == 1 then "start_onboarding" else "stop_onboarding")
    case PauseClient => Some("pause_all")
    case GetBlocklist => Some("get_blocklist")
    case SetBlocklist(_) => Some("set_blocklist")
    case GetClientStats => Some("get_client_stats")
    case GetRepeaters => Some("get_repeaters")
    case UpgradeFw => Some("upgrade_fw")
    case RouterEvent(_) => Some("router_event")
    case UploadLogs => Some("upload_logs")
    case Reply(_) => None
  }

  /**
   * Every handler is reached from exactly one message type, except the pause
   * handler, which `pause_client` reaches by falling through to `pause_all`.
   */
  lemma HandlerDeterminesType(first: Result<Message, DecodeFailure<Message>>, pauseOk: bool,
                              blocklist: Result<seq<MessagesCommon.BlockEntry>, string>,
                              event: Result<RouterEventBody, string>)
    requires !Dispatch(first, pauseOk, blocklist, event).Reply?
    ensures first.Ok? || pauseOk
    ensures TypeOfHandler(Dispatch(first, pauseOk, blocklist, event))
      == Some(if Decoded(first).msgType == "pause_client" then "pause_all" else Decoded(first).msgType)
  {
  }

  /**
   * The ring of router events, seen from the element the messaging layer
   * holds: `slots[i]` is the value i steps after that element.
   */
  class EventRing {
    var slots: seq<Option<Event>>

    predicate Valid()
      reads this
    {
      |slots| == MAX_NUMBER_OF_EVENTS
    }

    /** ring.New: every element empty. */
    constructor()
      ensures Valid()
      ensures forall i :: 0 <= i < |slots| ==> slots[i].None?
    {
      slots := seq(MAX_NUMBER_OF_EVENTS, _ => None);
    }

    /**
     * newEvent: stores an active event in the element it was handed. Moving
     * to the next element changes only newEvent's own copy of the pointer,
     * so the holder's element stays where it was.
     */
    method NewEvent(body: RouterEventBody)
      requires Valid()
      modifies this
      ensures Valid()
      ensures slots == StoreEvent(old(slots), body)
    {
      slots := slots[0 := Some(EventOf(body))];
    }
  }

  function EventOf(b: RouterEventBody): (e: Event)
    ensures e.active
  {
    Event(b.etype, b.name, b.ipAddress, b.macAddress, b.extra, true, b.tstamp)
  }

  /** The ring after newEvent wrote an event into the holder's element. */
  function StoreEvent(slots: seq<Option<Event>>, body: RouterEventBody): (r: seq<Option<Event>>)
    requires |slots| > 0
    ensures |r| == |slots| && r[0] == Some(EventOf(body))
    ensures forall i :: 0 < i < |slots| ==> r[i] == slots[i]
  {
    slots[0 := Some(EventOf(body))]
  }

  /** The ring after several router events, stored one after the other. */
  function StoreEvents(slots: seq<Option<Event>>, bodies: seq<RouterEventBody>): (r: seq<Option<Event>>)
    requires |slots| > 0
    ensures |r| == |slots|
    decreases |bodies|
  {
    if |bodies| == 0 then slots
    else StoreEvents(StoreEvent(slots, bodies[0]), bodies[1..])
  }

  /**
   * Successive router events overwrite one another: after any number of
   * them only the holder's element has changed, and it holds the last one.
   */
  lemma {:induction false} EventsOverwriteOneSlot(slots: seq<Option<Event>>, bodies: seq<RouterEventBody>)
    requires |slots| > 0 && |bodies| > 0
    ensures StoreEvents(slots, bodies)[0] == Some(EventOf(bodies[|bodies| - 1]))
    ensures forall i :: 0 < i < |slots| ==> StoreEvents(slots, bodies)[i] == slots[i]
    decreases |bodies|
  {
    if |bodies| > 1 {
      EventsOverwriteOneSlot(StoreEvent(slots, bodies[0]), bodies[1..]);
    }
  }

  /**
   * newEvent as the Telemetry object of the router writes it, moving the
   * holder's pointer on: the k-th event (from 0) goes into the element k
   * steps after the one first held.
   */
  function StoreEventsAdvancing(slots: seq<Option<Event>>, bodies: seq<RouterEventBody>): (r: seq<Option<Event>>)
    requires |slots| > 0
    ensures |r| == |slots|
    decreases |bodies|
  {
    if |bodies| == 0 then slots
    else
      var n := |bodies| - 1;
      StoreEventsAdvancing(slots, bodies[..n])[n % |slots| := Some(EventOf(bodies[n]))]
  }

  /**
   * With the pointer moved on, up to a ring's worth of events are all kept,
   * in order: the k-th is in the element k steps on ...
   */
  lemma {:induction false} AdvancingKeepsEvents(slots: seq<Option<Event>>, bodies: seq<RouterEventBody>, k: nat)
    requires k < |bodies| <= |slots|
    ensures StoreEventsAdvancing(slots, bodies)[k] == Some(EventOf(bodies[k]))
    decreases |bodies|
  {
    var n := |bodies| - 1;
    assert n % |slots| == n;
    if k < n {
      AdvancingKeepsEvents(slots, bodies[..n], k);
      assert bodies[..n][k] == bodies[k];
    }
  }

  /** ... and the elements after them are untouched. */
  lemma {:induction false} AdvancingKeepsRest(slots: seq<Option<Event>>, bodies: seq<RouterEventBody>, i: nat)
    requires |bodies| <= i < |slots|
    ensures StoreEventsAdvancing(slots, bodies)[i] == slots[i]
    decreases |bodies|
  {
    if |bodies| > 0 {
      var n := |bodies| - 1;
      AdvancingKeepsRest(slots, bodies[..n], i);
      assert n % |slots| == n;
    }
  }

  /**
   * handle_router_event: a decode failure answers with the error status and
   * leaves the ring alone; a decoded event is stored and the answer is "".
   */
  method HandleRouterEvent(ring: EventRing, event: Result<RouterEventBody, string>) returns (reply: string)
    requires ring.Valid()
    modifies ring
    ensures ring.Valid()
    ensures event.Err? ==> reply == NhUtil.ErrorStatusString(event.error) && ring.slots == old(ring.slots)
    ensures event.Ok? ==> reply == "" && ring.slots == StoreEvent(old(ring.slots), event.value)
  {
    match event
    case Err(e) =>
      reply := NhUtil.ErrorStatusString(e);
    case Ok(b) =>
      ring.NewEvent(b);
      reply := "";
  }

  /**
   * ProcessMessage with its one effect the model keeps: a `router_event`
   * message is stored in the ring; every other action is returned to the
   * caller.
   */
  method ProcessMessage(ring: EventRing, first: Result<Message, DecodeFailure<Message>>, pauseOk: bool,
                        blocklist: Result<seq<MessagesCommon.BlockEntry>, string>,
                        event: Result<RouterEventBody, string>) returns (action: Action)
    requires ring.Valid()
    modifies ring
    ensures ring.Valid()
    ensures action == Dispatch(first, pauseOk, blocklist, event)
    ensures action.RouterEvent? ==> ring.slots == StoreEvent(old(ring.slots), action.body)
    ensures !action.RouterEvent? ==> ring.slots == old(ring.slots)
  {
    action := Dispatch(first, pauseOk, blocklist, event);
    if (first.Ok? || pauseOk) && Decoded(first).msgType == "router_event" {
      var _ := HandleRouterEvent(ring, event);
    }
  }
}
