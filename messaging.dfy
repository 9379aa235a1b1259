/**
 * messaging.go: reliable management messages inside the tunnel. Each frame
 * carries a 16-byte header (version, flags, sequence number, ack number,
 * checksum of the payload); every peer has a window of ten sequence slots,
 * a message is sent at most three times waiting for an ACK each time, and
 * ACKs themselves are sent once.
 */
module Messaging {
  import opened Wrappers
  import opened GoTypes
  import opened NhUtil
  import Messages
  import MessagesCommon

  const MAX_MESSAGES_PER_IP: nat := 10
  const MAX_RETRIES: nat := 3
  const MH_HEADER_LEN: nat := 16
  const MH_ACK_IN_MESSAGE: uint8 := 1

  // The header

  /** The fields of a messaging header; the two reserved bytes are not read. */
  datatype MH = MH(version: uint8, flags: uint8, seqnum: uint32, acknum: uint32, checksum: uint32)

  datatype MHError = ErrMHHeaderTooShort

  /** The sixteen header bytes: fields at offsets 0, 1, 4, 8 and 12, big-endian, bytes 2-3 as given. */
  function HeaderBytes(h: MH, r2: uint8, r3: uint8): (b: seq<uint8>)
    ensures |b| == MH_HEADER_LEN
  {
    [h.version, h.flags, r2, r3] + PutBE32(h.seqnum) + PutBE32(h.acknum) + PutBE32(h.checksum)
  }

  /** The header the first sixteen bytes of b hold. */
  function DecodeHeader(b: seq<uint8>): (h: MH)
    requires |b| >= MH_HEADER_LEN
    ensures h.version == b[0] && h.flags == b[1]
  {
    MH(b[0], b[1], BE32(b[4..8]), BE32(b[8..12]), BE32(b[12..16]))
  }

  /** Decoding the bytes written for a header gives the header back, whatever follows it. */
  lemma HeaderRoundTrip(h: MH, r2: uint8, r3: uint8, rest: seq<uint8>)
    ensures DecodeHeader(HeaderBytes(h, r2, r3) + rest) == h
  {
    var b := HeaderBytes(h, r2, r3) + rest;
    assert b[4..8] == PutBE32(h.seqnum);
    assert b[8..12] == PutBE32(h.acknum);
    assert b[12..16] == PutBE32(h.checksum);
    BE32OfPut(h.seqnum);
    BE32OfPut(h.acknum);
    BE32OfPut(h.checksum);
  }

  /** Encoding the header that sixteen bytes hold gives those bytes back. */
  lemma HeaderBytesOfDecode(b: seq<uint8>)
    requires |b| == MH_HEADER_LEN
    ensures HeaderBytes(DecodeHeader(b), b[2], b[3]) == b
  {
    PutOfBE32(b[4..8]);
    PutOfBE32(b[8..12]);
    PutOfBE32(b[12..16]);
    assert b == b[..4] + b[4..8] + b[8..12] + b[12..16];
  }

  /** binary.BigEndian.PutUint32 into b[off..off+4]. */
  method PutUint32(b: array<uint8>, off: nat, n: uint32)
    requires off + 4 <= b.Length
    modifies b
    ensures b[off..off + 4] == PutBE32(n)
    ensures forall k :: 0 <= k < b.Length && !(off <= k < off + 4) ==> b[k] == old(b[k])
  {
    b[off] := n / 0x100_0000;
    b[off + 1] := n / 0x1_0000 % 256;
    b[off + 2] := n / 256 % 256;
    b[off + 3] := n % 256;
  }

  /** MHEncode: writes the header into the first sixteen bytes of b in place, leaving bytes 2-3 and the payload alone. */
  method MHEncode(b: array<uint8>, h: MH)
    requires b.Length >= MH_HEADER_LEN
    modifies b
    ensures b[..MH_HEADER_LEN] == HeaderBytes(h, old(b[2]), old(b[3]))
    ensures b[MH_HEADER_LEN..] == old(b[MH_HEADER_LEN..])
  {
    b[0] := h.version;
    b[1] := h.flags;
    PutUint32(b, 4, h.seqnum);
    PutUint32(b, 8, h.acknum);
    PutUint32(b, 12, h.checksum);
    assert b[..MH_HEADER_LEN] == b[..4] + b[4..8] + b[8..12] + b[12..16];
  }

  /** The header struct MHParse fills in. */
  class Header {
    var version: uint8
    var flags: uint8
    var seqnum: uint32
    var acknum: uint32
    var checksum: uint32

    function Fields(): MH
      reads this
    {
      MH(version, flags, seqnum, acknum, checksum)
    }

    /** NewMH: every field zero. */
    constructor()
      ensures Fields() == MH(0, 0, 0, 0, 0)
    {
      version, flags, seqnum, acknum, checksum := 0, 0, 0, 0, 0;
    }

    /** MHParse: too short an input is an error and assigns nothing; otherwise every field is read. */
    method MHParse(b: seq<uint8>) returns (err: Option<MHError>)
      modifies this
      ensures |b| < MH_HEADER_LEN ==> err == Some(ErrMHHeaderTooShort) && Fields() == old(Fields())
      ensures |b| >= MH_HEADER_LEN ==> err.None? && Fields() == DecodeHeader(b)
    {
      if |b| < MH_HEADER_LEN {
        return Some(ErrMHHeaderTooShort);
      }
      version := b[0];
      flags := b[1];
      seqnum := BE32(b[4..8]);
      acknum := BE32(b[8..12]);
      checksum := BE32(b[12..16]);
      err := None;
    }
  }

  // Per-peer state

  /**
   * A MessageManager: which of the ten slots await an ACK, the reply each
   * slot last received, and the slot the next message uses. The ack channels
   * and the lock are not modelled.
   */
  datatype Manager = Manager(pending: seq<bool>, recvdmsg: seq<seq<uint8>>, seqnum: nat)
  {
    predicate Valid()
    {
      |pending| == MAX_MESSAGES_PER_IP && |recvdmsg| == MAX_MESSAGES_PER_IP && seqnum < MAX_MESSAGES_PER_IP
    }
  }

  /** NewMessageManager: nothing pending, no replies, slot 0. */
  function NewManager(): (m: Manager)
    ensures m.Valid() && m.seqnum == 0
    ensures forall i :: 0 <= i < MAX_MESSAGES_PER_IP ==> !m.pending[i] && m.recvdmsg[i] == []
  {
    Manager(seq(MAX_MESSAGES_PER_IP, _ => false), seq(MAX_MESSAGES_PER_IP, _ => []), 0)
  }

  datatype SubType = NonTunMessageMain | NonTunMessageACK

  /** What getOrHandshake and the connection state report for the peer. */
  datatype Reach = Unreachable | NotReady | Ready

  /**
   * Whether the i-th wait for an ACK succeeds; waits beyond the given
   * outcomes time out. An arriving ACK carries the payload the peer answered
   * with.
   */
  predicate AckArrives(acks: seq<Option<seq<uint8>>>, i: nat)
  {
    i < |acks| && acks[i].Some?
  }

  /** How many times a non-ACK message goes out: up to and including the first acknowledged try, at most three. */
  function Attempts(acks: seq<Option<seq<uint8>>>): (n: nat)
    ensures 1 <= n <= MAX_RETRIES
    ensures forall i :: 0 <= i < n - 1 ==> !AckArrives(acks, i)
    ensures n < MAX_RETRIES ==> AckArrives(acks, n - 1)
  {
    if AckArrives(acks, 0) then 1 else if AckArrives(acks, 1) then 2 else 3
  }

  predicate Acknowledged(acks: seq<Option<seq<uint8>>>)
  {
    exists i :: 0 <= i < MAX_RETRIES && AckArrives(acks, i)
  }

  /** The payload of the ACK that ended the waits: the first one to arrive, within three tries. */
  function AckPayload(acks: seq<Option<seq<uint8>>>): (p: seq<uint8>)
    requires Acknowledged(acks)
    ensures AckArrives(acks, Attempts(acks) - 1) && p == acks[Attempts(acks) - 1].value
  {
    acks[Attempts(acks) - 1].value
  }

  /** The frame sendMessage builds: the header over a zeroed buffer, then the payload. */
  function Frame(h: MH, packet: seq<uint8>): (f: seq<uint8>)
    ensures |f| == MH_HEADER_LEN + |packet| && f[MH_HEADER_LEN..] == packet
  {
    HeaderBytes(h, 0, 0) + packet
  }

  /** Every frame carries a checksum its receiver accepts, and its header reads back. */
  lemma FrameChecks(h: MH, packet: seq<uint8>)
    requires h.checksum == Checksum(packet)
    ensures DecodeHeader(Frame(h, packet)) == h
    ensures DecodeHeader(Frame(h, packet)).checksum == Checksum(Frame(h, packet)[MH_HEADER_LEN..])
  {
    HeaderRoundTrip(h, 0, 0, packet);
  }

  /** What became of a received frame. */
  datatype RecvOutcome =
    | Panic(why: string)
    | Dropped(why: string)
    | AckRecorded(acknum: nat, payload: seq<uint8>)
    | Deliver(payload: seq<uint8>, ackSeq: uint32)

  /**
   * recvMessage as written. The error from MHParse is ignored, so a frame
   * shorter than the header reaches `msg[16:]`, which panics; an ACK from a
   * peer with no manager dereferences a nil manager, which panics as well.
   */
  function RecvAsWritten(known: bool, msg: seq<uint8>): (r: RecvOutcome)
    ensures |msg| < MH_HEADER_LEN ==> r == Panic("slice bounds out of range")
  {
    if |msg| < MH_HEADER_LEN then Panic("slice bounds out of range")
    else RecvFrame(known, DecodeHeader(msg), msg[MH_HEADER_LEN..], Panic("nil MessageManager"))
  }

  /** The checks after the header is read: checksum, ack window, then ACK or delivery. */
  function RecvFrame(known: bool, mh: MH, inmsg: seq<uint8>, unknownAck: RecvOutcome): RecvOutcome
  {
    if mh.checksum != Checksum(inmsg) then Dropped("Checksum mismatch")
    else if mh.acknum >= MAX_MESSAGES_PER_IP then Dropped("ack number out of window")
    else if mh.flags % 2 == 1 then
      (if known then AckRecorded(mh.acknum, inmsg) else unknownAck)
    else Deliver(inmsg, mh.seqnum)
  }

  /** A three-byte frame brings the receiver down. */
  lemma ShortFramePanics()
    ensures RecvAsWritten(true, [1, 2, 3]).Panic?
  {
  }

  /**
   * recvMessage as evidently intended: a frame too short for a header, and an
   * ACK nobody is waiting for, are dropped like the other malformed frames.
   */
  function Recv(known: bool, msg: seq<uint8>): (r: RecvOutcome)
    ensures !r.Panic?
    ensures |msg| < MH_HEADER_LEN ==> r == Dropped("MH header is too short")
    ensures !RecvAsWritten(known, msg).Panic? ==> r == RecvAsWritten(known, msg)
    ensures r.AckRecorded? ==> (
      |msg| >= MH_HEADER_LEN && known
      && r.acknum == DecodeHeader(msg).acknum < MAX_MESSAGES_PER_IP
      && DecodeHeader(msg).flags % 2 == 1 && r.payload == msg[MH_HEADER_LEN..]
      && DecodeHeader(msg).checksum == Checksum(r.payload))
    ensures r.Deliver? ==> (
      |msg| >= MH_HEADER_LEN
      && r.ackSeq == DecodeHeader(msg).seqnum && r.payload == msg[MH_HEADER_LEN..]
      && DecodeHeader(msg).checksum == Checksum(r.payload)
      && DecodeHeader(msg).acknum < MAX_MESSAGES_PER_IP && DecodeHeader(msg).flags % 2 == 0)
  {
    if |msg| < MH_HEADER_LEN then Dropped("MH header is too short")
    else RecvFrame(known, DecodeHeader(msg), msg[MH_HEADER_LEN..], Dropped("unknown peer"))
  }

  /** A frame built by sendMessage is accepted by Recv: an ACK frame is recorded, any other delivered. */
  lemma SentFrameAccepted(h: MH, packet: seq<uint8>, known: bool)
    requires h.checksum == Checksum(packet) && h.acknum < MAX_MESSAGES_PER_IP
    requires h.flags == 0 || (h.flags == MH_ACK_IN_MESSAGE && known)
    ensures h.flags == 0 ==> Recv(known, Frame(h, packet)) == Deliver(packet, h.seqnum)
    ensures h.flags == MH_ACK_IN_MESSAGE ==> Recv(known, Frame(h, packet)) == AckRecorded(h.acknum, packet)
  {
    FrameChecks(h, packet);
  }

  // Ring order of the event ring

  predicate IsActive(o: Option<Messages.Event>)
  {
    o.Some? && o.value.active
  }

  /** The first active slot at or after i. */
  function FirstActiveFrom(slots: seq<Option<Messages.Event>>, i: nat): (r: Option<nat>)
    requires i <= |slots|
    ensures r.None? ==> forall k :: i <= k < |slots| ==> !IsActive(slots[k])
    ensures r.Some? ==> (
      i <= r.value < |slots| && IsActive(slots[r.value])
      && forall k :: i <= k < r.value ==> !IsActive(slots[k]))
    decreases |slots| - i
  {
    if i == |slots| then None
    else if IsActive(slots[i]) then Some(i)
    else FirstActiveFrom(slots, i + 1)
  }

  function FirstActive(slots: seq<Option<Messages.Event>>): Option<nat>
  {
    FirstActiveFrom(slots, 0)
  }

  /** How many slots hold an active event. */
  function ActiveCount(slots: seq<Option<Messages.Event>>): nat
  {
    if |slots| == 0 then 0
    else ActiveCount(slots[..|slots| - 1]) + (if IsActive(slots[|slots| - 1]) then 1 else 0)
  }

  /** Deactivating one active slot lowers the count of active events by exactly one. */
  lemma {:induction false} DeactivateCount(slots: seq<Option<Messages.Event>>, j: nat)
    requires j < |slots| && IsActive(slots[j])
    ensures ActiveCount(slots[j := Some(slots[j].value.(active := false))]) == ActiveCount(slots) - 1
  {
    var t := slots[j := Some(slots[j].value.(active := false))];
    if j < |slots| - 1 {
      assert t[..|t| - 1] == slots[..|slots| - 1][j := Some(slots[j].value.(active := false))];
      DeactivateCount(slots[..|slots| - 1], j);
    } else {
      assert t[..|t| - 1] == slots[..|slots| - 1];
    }
  }

  /**
   * After an event is taken, no active event is left at or before its slot,
   * so the next GetNextEvent cannot return it again.
   */
  lemma TakenOnce(slots: seq<Option<Messages.Event>>, j: nat)
    requires FirstActive(slots) == Some(j)
    ensures var t := slots[j := Some(slots[j].value.(active := false))];
      ActiveCount(t) == ActiveCount(slots) - 1
      && (FirstActive(t).None? || FirstActive(t).value > j)
  {
    DeactivateCount(slots, j);
  }

  /**
   * The messaging layer: one manager per peer and the event ring that
   * router events are written into and read out of.
   */
  class Messaging {
    var managers: map<VpnIp, Manager>
    const ring: Messages.EventRing

    predicate Valid()
      reads this, ring
    {
      ring.Valid() && forall v :: v in managers ==> managers[v].Valid()
    }

    /** NewMessaging: no managers, an empty ring. */
    constructor()
      ensures Valid() && managers == map[]
      ensures forall i :: 0 <= i < |ring.slots| ==> ring.slots[i].None?
      ensures fresh(ring)
    {
      managers := map[];
      ring := new Messages.EventRing();
    }

    /** The manager sendMessage works with, created if the peer has none. */
    static function ManagerOf(managers: map<VpnIp, Manager>, v: VpnIp): Manager
    {
      if v in managers then managers[v] else NewManager()
    }

    /**
     * sendMessage. `reach` is what getOrHandshake and the session report for
     * the peer, `acks` the outcomes of the successive eight-second waits for
     * an ACK (an arriving ACK with the payload recvMessage stores in the
     * slot); `sent` lists the frames handed to sendNoMetrics.
     */
    method SendMessage(vpnIp: VpnIp, packet: seq<uint8>, subtype: SubType, seqnum: uint32,
                       reach: Reach, acks: seq<Option<seq<uint8>>>)
      returns (reply: seq<uint8>, err: Option<string>, sent: seq<seq<uint8>>)
      requires Valid()
      modifies this
      ensures Valid()
      ensures vpnIp in managers && managers == old(managers)[vpnIp := managers[vpnIp]]
      // Before anything is sent
      ensures seqnum >= MAX_MESSAGES_PER_IP ==>
        err == Some("Some bigger sequence number") && sent == [] && managers[vpnIp] == ManagerOf(old(managers), vpnIp)
      ensures seqnum < MAX_MESSAGES_PER_IP && reach == Unreachable ==>
        err == Some("Can't reach the host") && sent == [] && managers[vpnIp] == ManagerOf(old(managers), vpnIp)
      ensures seqnum < MAX_MESSAGES_PER_IP && reach == NotReady ==>
        err == Some("Host not ready") && sent == [] && managers[vpnIp] == ManagerOf(old(managers), vpnIp)
      // What goes out
      ensures forall k :: 0 <= k < |sent| ==> sent[k] == Frame(
        MH(0, if subtype == NonTunMessageACK then MH_ACK_IN_MESSAGE else 0,
           ManagerOf(old(managers), vpnIp).seqnum, seqnum, Checksum(packet)), packet)
      // An ACK: sent once, no wait
      ensures seqnum < MAX_MESSAGES_PER_IP && reach == Ready && subtype == NonTunMessageACK ==>
        |sent| == 1 && err == Some("Not sure if this ack is sent")
        && var m := ManagerOf(old(managers), vpnIp);
           managers[vpnIp] == m.(pending := m.pending[m.seqnum := true])
      // A message: up to three tries
      ensures seqnum < MAX_MESSAGES_PER_IP && reach == Ready && subtype == NonTunMessageMain ==>
        |sent| == Attempts(acks)
        && var m := ManagerOf(old(managers), vpnIp);
           if Acknowledged(acks) then
             err.None? && reply == AckPayload(acks)
             && managers[vpnIp] == m.(pending := m.pending[m.seqnum := false], recvdmsg := m.recvdmsg[m.seqnum := reply],
                                      seqnum := (m.seqnum + 1) % MAX_MESSAGES_PER_IP)
           else
             err == Some("Message not sent. Try again")
             && managers[vpnIp] == m.(pending := m.pending[m.seqnum := true])
    {
      var m := ManagerOf(managers, vpnIp);
      managers := managers[vpnIp := m];
      reply, sent := [], [];
      if seqnum >= MAX_MESSAGES_PER_IP {
        return reply, Some("Some bigger sequence number"), sent;
      }
      var flags: uint8 := if subtype == NonTunMessageACK then MH_ACK_IN_MESSAGE else 0;
      var checksum := NHChecksum(packet);
      var frame := BuildFrame(MH(0, flags, m.seqnum, seqnum, checksum), packet);
      if reach == Unreachable {
        return reply, Some("Can't reach the host"), sent;
      }
      if reach == NotReady {
        return reply, Some("Host not ready"), sent;
      }
      reply, err, sent := SendReady(vpnIp, m, frame, subtype, acks);
    }

    /**
     * sendMessage once the peer is reachable: the slot is marked pending, the
     * frame goes out (once for an ACK, up to three times for a message) and an
     * acknowledged message completes its slot, whose reply recvMessage has
     * stored from the ACK.
     */
    method SendReady(vpnIp: VpnIp, m0: Manager, frame: seq<uint8>, subtype: SubType, acks: seq<Option<seq<uint8>>>)
      returns (reply: seq<uint8>, err: Option<string>, sent: seq<seq<uint8>>)
      requires Valid() && m0.Valid()
      modifies this
      ensures Valid()
      ensures vpnIp in managers && managers == old(managers)[vpnIp := managers[vpnIp]]
      ensures forall k :: 0 <= k < |sent| ==> sent[k] == frame
      ensures subtype == NonTunMessageACK ==>
        |sent| == 1 && err == Some("Not sure if this ack is sent")
        && managers[vpnIp] == m0.(pending := m0.pending[m0.seqnum := true])
      ensures subtype == NonTunMessageMain ==>
        |sent| == Attempts(acks)
        && if Acknowledged(acks) then
             err.None? && reply == AckPayload(acks)
             && managers[vpnIp] == m0.(pending := m0.pending[m0.seqnum := false], recvdmsg := m0.recvdmsg[m0.seqnum := reply],
                                       seqnum := (m0.seqnum + 1) % MAX_MESSAGES_PER_IP)
           else
             err == Some("Message not sent. Try again")
             && managers[vpnIp] == m0.(pending := m0.pending[m0.seqnum := true])
    {
      reply := [];
      var m := m0.(pending := m0.pending[m0.seqnum := true]);
      managers := managers[vpnIp := m];
      var ack;
      sent, ack := Transmit(frame, subtype, acks);
      if subtype == NonTunMessageACK {
        return reply, Some("Not sure if this ack is sent"), sent;
      }
      if ack.None? {
        return reply, Some("Message not sent. Try again"), sent;
      }
      // recvMessage stores the ACK's payload under its acknum, this slot
      m := m.(recvdmsg := m.recvdmsg[m.seqnum := ack.value]);
      reply := Complete(vpnIp, m);
      err := None;
    }

    /**
     * The acknowledged end of sendMessage: the slot is no longer pending,
     * its reply is returned and the next slot is taken.
     */
    method Complete(vpnIp: VpnIp, m: Manager) returns (reply: seq<uint8>)
      requires Valid() && m.Valid()
      modifies this
      ensures Valid()
      ensures reply == m.recvdmsg[m.seqnum]
      ensures managers == old(managers)[vpnIp :=
        m.(pending := m.pending[m.seqnum := false], seqnum := (m.seqnum + 1) % MAX_MESSAGES_PER_IP)]
    {
      var n := m.(pending := m.pending[m.seqnum := false]);
      reply := n.recvdmsg[n.seqnum];
      var next := NextSeqnum(n.pending, n.seqnum);
      managers := managers[vpnIp := n.(seqnum := next)];
    }

    /**
     * recvMessage, with the short-frame and unknown-peer cases dropped (see
     * RecvAsWritten): an ACK stores its payload as the reply of its slot; a
     * delivered payload goes through ProcessMessage on the event ring (the
     * JSON decodes it performs are the inputs `first`, `pauseOk`,
     * `blocklist` and `event`), and the action is returned for the answer
     * that goes back as an ACK with the sender's sequence number.
     */
    method RecvMessage(vpnIp: VpnIp, msg: seq<uint8>, first: Result<Messages.Message, DecodeFailure<Messages.Message>>,
                       pauseOk: bool, blocklist: Result<seq<MessagesCommon.BlockEntry>, string>,
                       event: Result<Messages.RouterEventBody, string>)
      returns (r: RecvOutcome, action: Option<Messages.Action>)
      requires Valid()
      modifies this, ring
      ensures Valid()
      ensures r == Recv(vpnIp in old(managers), msg)
      ensures r.AckRecorded? ==>
        managers == old(managers)[vpnIp := old(managers)[vpnIp].(recvdmsg := old(managers)[vpnIp].recvdmsg[r.acknum := r.payload])]
      ensures !r.AckRecorded? ==> managers == old(managers)
      ensures r.Deliver? <==> action.Some?
      ensures r.Deliver? ==> action.value == Messages.Dispatch(first, pauseOk, blocklist, event)
      ensures action.Some? && action.value.RouterEvent? ==>
        ring.slots == Messages.StoreEvent(old(ring.slots), action.value.body)
      ensures !(action.Some? && action.value.RouterEvent?) ==> ring.slots == old(ring.slots)
    {
      r := Recv(vpnIp in managers, msg);
      action := None;
      if r.AckRecorded? {
        var m := managers[vpnIp];
        managers := managers[vpnIp := m.(recvdmsg := m.recvdmsg[r.acknum := r.payload])];
      } else if r.Deliver? {
        var a := Messages.ProcessMessage(ring, first, pauseOk, blocklist, event);
        action := Some(a);
      }
    }

    /**
     * GetNextEvent: the first active event in ring order, marked inactive
     * and returned as it is then marshalled; None stands for the empty answer.
     */
    method GetNextEvent() returns (ev: Option<Messages.Event>)
      requires Valid()
      modifies ring
      ensures Valid()
      ensures FirstActive(old(ring.slots)).None? ==> ev.None? && ring.slots == old(ring.slots)
      ensures FirstActive(old(ring.slots)).Some? ==>
        var j := FirstActive(old(ring.slots)).value;
        ev == Some(old(ring.slots)[j].value.(active := false)) && ring.slots == old(ring.slots)[j := ev]
    {
      ev := None;
      var i := 0;
      while i < |ring.slots|
        invariant i <= |ring.slots| && ring.Valid()
        invariant ev.None? ==> ring.slots == old(ring.slots) && FirstActiveFrom(ring.slots, i) == FirstActive(ring.slots)
        invariant ev.Some? ==> (
          FirstActive(old(ring.slots)).Some?
          && var j := FirstActive(old(ring.slots)).value;
             ev == Some(old(ring.slots)[j].value.(active := false)) && ring.slots == old(ring.slots)[j := ev])
      {
        var p := ring.slots[i];
        if p.Some? && ev.None? && p.value.active {
          ev := Some(p.value.(active := false));
          ring.slots := ring.slots[i := ev];
        }
        i := i + 1;
      }
    }
  }

  /**
   * The retry loop of sendMessage: each try hands the frame to the sender; an
   * ACK goes out once and is not waited for; any other message waits for its
   * ACK after each try and gives up after three.
   */
  method Transmit(frame: seq<uint8>, subtype: SubType, acks: seq<Option<seq<uint8>>>)
    returns (sent: seq<seq<uint8>>, ack: Option<seq<uint8>>)
    ensures forall k :: 0 <= k < |sent| ==> sent[k] == frame
    ensures subtype == NonTunMessageACK ==> |sent| == 1 && ack.None?
    ensures subtype == NonTunMessageMain ==>
      |sent| == Attempts(acks) && (ack.Some? <==> Acknowledged(acks))
      && (ack.Some? ==> ack.value == AckPayload(acks))
  {
    sent := [];
    ack := None;
    var i := 0;
    while i < MAX_RETRIES
      invariant i <= MAX_RETRIES && |sent| == i
      invariant forall k :: 0 <= k < |sent| ==> sent[k] == frame
      invariant subtype == NonTunMessageACK ==> i == 0
      invariant forall k :: 0 <= k < i ==> !AckArrives(acks, k)
      invariant ack.None?
    {
      sent := sent + [frame];
      if subtype == NonTunMessageACK {
        return;
      }
      if AckArrives(acks, i) {
        ack := acks[i];
        return;
      }
      i := i + 1;
    }
  }

  /** The zeroed buffer with the header written over it and the payload copied behind. */
  method BuildFrame(h: MH, packet: seq<uint8>) returns (frame: seq<uint8>)
    ensures frame == Frame(h, packet)
  {
    var b := new uint8[MH_HEADER_LEN + |packet|](_ => 0);
    MHEncode(b, h);
    var k := 0;
    while k < |packet|
      invariant k <= |packet|
      invariant b[..MH_HEADER_LEN] == HeaderBytes(h, 0, 0)
      invariant b[MH_HEADER_LEN..MH_HEADER_LEN + k] == packet[..k]
    {
      b[MH_HEADER_LEN + k] := packet[k];
      k := k + 1;
    }
    frame := b[..];
    assert frame == b[..MH_HEADER_LEN] + b[MH_HEADER_LEN..MH_HEADER_LEN + |packet|];
  }

  /**
   * The scan after an acknowledged send: at the first slot not pending, the
   * sequence number moves on by one, wrapping at ten. The slot just released
   * is never pending, so it always moves on.
   */
  method NextSeqnum(pending: seq<bool>, seqnum: nat) returns (next: nat)
    requires |pending| == MAX_MESSAGES_PER_IP && seqnum < MAX_MESSAGES_PER_IP && !pending[seqnum]
    ensures next == (seqnum + 1) % MAX_MESSAGES_PER_IP
  {
    next := seqnum;
    var i := 0;
    while i < MAX_MESSAGES_PER_IP
      invariant i <= MAX_MESSAGES_PER_IP
      invariant forall k :: 0 <= k < i ==> pending[k]
      invariant next == seqnum
    {
      if !pending[i] {
        next := (next + 1) % MAX_MESSAGES_PER_IP;
        return;
      }
      i := i + 1;
    }
  }
}
