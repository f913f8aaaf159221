/** A member's side: it takes messages off its channel while it is connected. */
module RoomMembers {
  import opened Common
  import opened Packets
  import opened RoomMessages
  import opened RoomProtocol

  datatype State = Idle | Joining | Joined | Moderator

  class RoomMember {
    var state: State
    var memberInformation: seq<MemberInfo>
    var roomInformation: RoomInfo
    var macAddress: Mac
    var sendList: seq<seq<Byte>>

    predicate IsConnected()
      reads this
    {
      state.Joining? || state.Joined? || state.Moderator?
    }

    /** `Join` sets the state before the loop is started. */
    constructor ()
      ensures state == Joining && memberInformation == [] && sendList == []
    {
      state, memberInformation, sendList := Joining, [], [];
      roomInformation := RoomInfo([], [], 0, 0, [], []);
      macAddress := BROADCAST_MAC;
    }

    /** `HandleRoomInformationPacket`, on the bytes the server sent. */
    method HandleRoomInformation(bytes: seq<Byte>, ghost info: RoomInfo, ghost members: seq<MemberInfo>)
      requires InfoOk(info) && MembersOk(members) && bytes == RoomMessages.Message(info, members)
      modifies this
      ensures roomInformation == info && memberInformation == members
      ensures state == old(state) && macAddress == old(macAddress) && sendList == old(sendList)
    {
      roomInformation, memberInformation := ReadRoomInformation(bytes, info, members);
    }

    /** One received message of `MemberLoop`. A join success needs member information: the
        assertion is this method's precondition. */
    method Receive(m: RoomProtocol.Message)
      requires IsConnected() && GoodInfo(m) && (m.JoinSuccess? ==> memberInformation != [])
      modifies this
      ensures memberInformation == if m.Info? then m.members else old(memberInformation)
      ensures m.JoinSuccess? ==> macAddress == m.mac && state == if m.asMod then Moderator else Joined
      ensures Ends(m) <==> !IsConnected()
      ensures !m.JoinSuccess? && !Ends(m) ==> state == old(state) && macAddress == old(macAddress)
      ensures sendList == old(sendList)
    {
      match m {
        case Info(info, members) =>
          var packet := WriteRoomInformation(info, members);
          HandleRoomInformation(packet.data, info, members);
        case JoinSuccess(mac, asMod) =>
          assert memberInformation != [];
          macAddress := mac;
          state := if asMod then Moderator else Joined;
        case Refused(_) => state := Idle;
        case HostKicked => state := Idle;
        case CloseRoom => state := Idle;
        case _ =>
      }
    }

    /** The receiving half of one pass: a message, the end of the connection, or nothing. */
    method Serve(event: Event)
      requires IsConnected()
      requires event.Received? ==> GoodInfo(event.message) && (event.message.JoinSuccess? ==> memberInformation != [])
      modifies this
      ensures event.Received? && event.message.Info? ==> memberInformation == event.message.members
      ensures !(event.Received? && event.message.Info?) ==> memberInformation == old(memberInformation)
      ensures !IsConnected() <==> (event.Received? && Ends(event.message)) || (event.Lost? && !old(state).Joining?)
      ensures event.Received? && event.message.JoinSuccess? ==>
                macAddress == event.message.mac && state == if event.message.asMod then Moderator else Joined
      ensures sendList == old(sendList)
    {
      match event {
        case Received(m) => Receive(m);
        case Lost =>
          if state.Joined? || state.Moderator? {
            state := Idle;
          }
        case Quiet =>
      }
    }

    /** One pass of `MemberLoop`: serve the connection, then send what is queued. */
    method OnePass(passes: seq<Pass>, k: nat, sent: seq<seq<Byte>>, ghost first: seq<seq<Byte>>)
      returns (now: seq<seq<Byte>>)
      requires IsConnected() && k < |passes| && ChannelOk(Arrived(passes))
      requires memberInformation == MembersAfter(Arrived(passes[..k]))
      requires sent + sendList == first + QueuedIn(passes[..k])
      modifies this
      ensures sendList == [] && now == first + QueuedIn(passes[..k + 1])
      ensures IsConnected() ==> memberInformation == MembersAfter(Arrived(passes[..k + 1])) && Stays(passes[k].event)
      ensures !IsConnected() ==> MayEnd(passes[k].event)
    {
      NextPass(passes, k);
      Serve(passes[k].event);
      ghost var waiting := sendList;
      QueueAll(passes[k].queued);
      var packets := TakeSendList();
      Regroup(sent, first, QueuedIn(passes[..k]), passes[k].queued, waiting);
      now := sent + packets;
    }

    /** `MemberLoop`, pass by pass: what the connection brings, and what other threads queue
        meanwhile. The assertion on member information never fails: on a channel of the server a
        join success comes right behind it. Everything queued is sent once, in order, in the pass
        in which it is queued; once the connection has ended, the lists are empty. */
    method MemberLoop(passes: seq<Pass>) returns (taken: nat, sent: seq<seq<Byte>>)
      requires state == Joining && memberInformation == [] && ChannelOk(Arrived(passes))
      modifies this
      ensures taken <= |passes| && (IsConnected() ==> taken == |passes|)
      ensures sent + sendList == old(sendList) + QueuedIn(passes[..taken])
      ensures taken > 0 ==> sendList == []
      ensures IsConnected() ==> memberInformation == MembersAfter(Arrived(passes))
      ensures !IsConnected() ==> memberInformation == [] && roomInformation.memberSlots == 0 && roomInformation.name == []
      ensures !IsConnected() ==> taken > 0 && MayEnd(passes[taken - 1].event)
      ensures forall k :: 0 <= k < taken - 1 ==> Stays(passes[k].event)
    {
      taken, sent := 0, [];
      ghost var first := sendList;
      assert sent + sendList == first + QueuedIn(passes[..0]);
      while IsConnected() && taken < |passes|
        invariant taken <= |passes|
        invariant IsConnected() ==> memberInformation == MembersAfter(Arrived(passes[..taken]))
        invariant sent + sendList == first + QueuedIn(passes[..taken]) && (taken > 0 ==> sendList == [])
        invariant !IsConnected() ==> taken > 0 && MayEnd(passes[taken - 1].event)
        invariant forall k :: 0 <= k < taken && (k < taken - 1 || IsConnected()) ==> Stays(passes[k].event)
      {
        sent := OnePass(passes, taken, sent, first);
        assert sent + [] == sent;
        taken := taken + 1;
      }
      assert passes[..|passes|] == passes;
      if !IsConnected() {
        Disconnect();
      }
    }

    /** Other threads' `Send`. */
    method QueueAll(packets: seq<seq<Byte>>)
      modifies this`sendList
      ensures sendList == old(sendList) + packets
    {
      for i := 0 to |packets|
        invariant sendList == old(sendList) + packets[..i]
      {
        Send(packets[i]);
      }
      assert packets[..|packets|] == packets;
    }

    /** The end of `MemberLoop`: what is queued is handed over, in order, and the queue is
        empty again. */
    method TakeSendList() returns (packets: seq<seq<Byte>>)
      modifies this`sendList
      ensures packets == old(sendList) && sendList == []
    {
      packets := sendList;
      sendList := [];
    }

    method Send(packet: seq<Byte>)
      modifies this`sendList
      ensures sendList == old(sendList) + [packet]
    {
      sendList := sendList + [packet];
    }

    method Disconnect()
      modifies this
      ensures memberInformation == [] && roomInformation.memberSlots == 0 && roomInformation.name == []
      ensures state == old(state) && sendList == old(sendList)
    {
      memberInformation := [];
      roomInformation := roomInformation.(memberSlots := 0, name := []);
    }
  }

  /** What `enet_host_service` brings. */
  datatype Event = Quiet | Received(message: RoomProtocol.Message) | Lost

  /** One pass of `MemberLoop`: the event, and the packets other threads queue before the list is
      taken. */
  datatype Pass = Pass(event: Event, queued: seq<seq<Byte>>)

  /** The messages that arrive, in order. */
  function Arrived(passes: seq<Pass>): seq<RoomProtocol.Message> {
    if passes == [] then []
    else
      var last := passes[|passes| - 1].event;
      Arrived(passes[..|passes| - 1]) + if last.Received? then [last.message] else []
  }

  function QueuedIn(passes: seq<Pass>): seq<seq<Byte>> {
    if passes == [] then [] else QueuedIn(passes[..|passes| - 1]) + passes[|passes| - 1].queued
  }

  lemma {:induction false} ArrivedPrefix(passes: seq<Pass>, k: nat)
    requires k <= |passes|
    ensures Arrived(passes[..k]) <= Arrived(passes)
  {
    if k < |passes| {
      ArrivedPrefix(passes[..|passes| - 1], k);
      assert passes[..|passes| - 1][..k] == passes[..k];
    } else {
      assert passes[..k] == passes;
    }
  }

  lemma PrefixOk(ch: seq<RoomProtocol.Message>, whole: seq<RoomProtocol.Message>)
    requires ChannelOk(whole) && ch <= whole
    ensures ChannelOk(ch)
  {
    forall k | 0 <= k < |ch| ensures GoodInfo(ch[k]) && WellPlaced(ch, k) {
      assert GoodInfo(whole[k]) && WellPlaced(whole, k);
    }
  }

  /** What the next pass brings, and that it is in order. */
  lemma NextPass(passes: seq<Pass>, k: nat)
    requires k < |passes| && ChannelOk(Arrived(passes))
    ensures QueuedIn(passes[..k + 1]) == QueuedIn(passes[..k]) + passes[k].queued
    ensures var before, event := Arrived(passes[..k]), passes[k].event;
            && Arrived(passes[..k + 1]) == before + (if event.Received? then [event.message] else [])
            && MembersAfter(Arrived(passes[..k + 1]))
               == (if event.Received? && event.message.Info? then event.message.members else MembersAfter(before))
            && (event.Received? ==> GoodInfo(event.message)
                                    && (event.message.JoinSuccess? ==> MembersAfter(before) != []))
  {
    assert passes[..k + 1][..k] == passes[..k];
    var before, event := Arrived(passes[..k]), passes[k].event;
    if event.Received? {
      var now := Arrived(passes[..k + 1]);
      ArrivedPrefix(passes, k + 1);
      PrefixOk(now, Arrived(passes));
      AfterNext(now, |before|);
      assert now[..|before|] == before && now[..|before| + 1] == now && now[|before|] == event.message;
      assert GoodInfo(now[|before|]);
    } else {
      assert before + [] == before;
    }
  }

  lemma Regroup(sent: seq<seq<Byte>>, first: seq<seq<Byte>>, queued: seq<seq<Byte>>, more: seq<seq<Byte>>,
                waiting: seq<seq<Byte>>)
    requires sent + waiting == first + queued
    ensures sent + (waiting + more) == first + (queued + more)
  {
    assert sent + (waiting + more) == (sent + waiting) + more;
    assert (first + queued) + more == first + (queued + more);
  }

  /** The messages after which the loop ends. */
  predicate Ends(m: RoomProtocol.Message) { m.Refused? || m.HostKicked? || m.CloseRoom? }

  /** A message after which it goes on. */
  predicate Stays(event: Event) { !(event.Received? && Ends(event.message)) }

  /** The events after which it may end; a connection lost before joining changes nothing. */
  predicate MayEnd(event: Event) { event.Lost? || (event.Received? && Ends(event.message)) }

  /** The member list after these messages: the last one sent, or none. */
  function MembersAfter(ch: seq<RoomProtocol.Message>): seq<MemberInfo> {
    if LastMembers(ch).Some? then LastMembers(ch).value else []
  }

  lemma AfterNext(ch: seq<RoomProtocol.Message>, k: nat)
    requires ChannelOk(ch) && k < |ch|
    ensures MembersAfter(ch[..k + 1]) == if ch[k].Info? then ch[k].members else MembersAfter(ch[..k])
    ensures ch[k].JoinSuccess? ==> MembersAfter(ch[..k]) != []
  {
    assert ch[..k + 1][..k] == ch[..k];
    if ch[k].JoinSuccess? {
      assert WellPlaced(ch, k);
      assert ch[..k][..k - 1] == ch[..k - 1] && ch[..k][k - 1] == ch[k - 1];
    }
  }

  /** The passes of a member to whom these messages arrive one by one. */
  function OneByOne(ch: seq<RoomProtocol.Message>): (passes: seq<Pass>)
    ensures |passes| == |ch|
  {
    seq(|ch|, i requires 0 <= i < |ch| => Pass(Received(ch[i]), []))
  }

  lemma {:induction false} OneByOneArrives(ch: seq<RoomProtocol.Message>)
    ensures Arrived(OneByOne(ch)) == ch
  {
    if ch != [] {
      var n := |ch| - 1;
      OneByOneArrives(ch[..n]);
      assert OneByOne(ch)[..n] == OneByOne(ch[..n]);
    }
  }

  /** Server and member together: whatever the server did, a member that has taken everything
      from its channel and is still connected shows exactly the server's list, if it was told
      anything. */
  method ListsAgree(room: Room, peer: Peer) returns (member: RoomMember)
    requires room.Valid() && peer in room.connected
    ensures fresh(member)
    ensures member.IsConnected() && LastMembers(room.channels[peer]).Some? ==>
              member.memberInformation == Shown(room.members)
  {
    member := new RoomMember();
    OneByOneArrives(room.channels[peer]);
    var taken, sent := member.MemberLoop(OneByOne(room.channels[peer]));
    assert Current(room.channels[peer], room.members);
  }
}
