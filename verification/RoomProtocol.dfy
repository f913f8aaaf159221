/**
 The room server: members join, leave, are kicked and banned, and every change is broadcast.
 The network is one ordered reliable channel to each connected peer.
 */
module RoomProtocol {
  import opened Common
  import opened Packets
  import opened RoomMessages

  type Peer = nat

  const NETWORK_VERSION: nat := 4

  /** Asks for an assigned address in a join request, and for everybody in a wifi packet. */
  const BROADCAST_MAC: Mac := [0xFF, 0xFF, 0xFF, 0xFF, 0xFF, 0xFF]

  datatype Refusal = RoomIsFull | WrongPassword | NameCollision | MacCollision | ConsoleIdCollision | VersionMismatch | HostBanned

  datatype StatusKind = MemberJoin | MemberLeave | MemberKicked | MemberBanned | AddressUnbanned

  datatype Message =
    | Info(info: RoomInfo, members: seq<MemberInfo>)
    | JoinSuccess(mac: Mac, asMod: bool)
    | Refused(reason: Refusal)
    | Status(kind: StatusKind, nickname: Text, username: Text)
    | HostKicked
    | PermissionDenied
    | NoSuchUser
    | Wifi(payload: seq<Byte>)
    | CloseRoom

  datatype Member = Member(shown: MemberInfo, consoleId: Text, moderator: bool, peer: Peer)

  datatype JoinRequest = JoinRequest(nickname: Text, consoleId: Text, preferredMac: Mac, version: nat, password: Text)

  datatype UserData = UserData(username: Text, displayName: Text, avatarUrl: Text, moderator: bool)

  // ---------- members ----------

  /** `[ a-zA-Z0-9._-]`. */
  predicate NicknameChar(c: Byte) {
    c == 32 || 97 <= c <= 122 || 65 <= c <= 90 || 48 <= c <= 57 || c == 46 || c == 95 || c == 45
  }

  predicate NicknameForm(s: Text) { 4 <= |s| <= 20 && forall i :: 0 <= i < |s| ==> NicknameChar(s[i]) }

  predicate NicknameFree(ms: seq<Member>, s: Text) { forall i :: 0 <= i < |ms| ==> ms[i].shown.nickname != s }

  predicate MacFree(ms: seq<Member>, mac: Mac) { forall i :: 0 <= i < |ms| ==> ms[i].shown.mac != mac }

  predicate ConsoleIdFree(ms: seq<Member>, id: Text) { forall i :: 0 <= i < |ms| ==> ms[i].consoleId != id }

  ghost predicate Distinct(ms: seq<Member>) {
    forall i, j :: 0 <= i < j < |ms| ==>
      ms[i].shown.nickname != ms[j].shown.nickname && ms[i].shown.mac != ms[j].shown.mac && ms[i].consoleId != ms[j].consoleId
  }

  predicate MemberForm(m: Member) {
    MemberOk(m.shown) && NicknameForm(m.shown.nickname) && m.shown.mac != BROADCAST_MAC
  }

  ghost predicate MembersForm(ms: seq<Member>) { forall i :: 0 <= i < |ms| ==> MemberForm(ms[i]) }

  lemma DistinctAppend(ms: seq<Member>, m: Member)
    requires Distinct(ms) && NicknameFree(ms, m.shown.nickname) && MacFree(ms, m.shown.mac) && ConsoleIdFree(ms, m.consoleId)
    ensures Distinct(ms + [m])
  {
  }

  function Erase(ms: seq<Member>, i: nat): (r: seq<Member>)
    requires i < |ms|
    ensures |r| == |ms| - 1
  {
    ms[..i] + ms[i + 1..]
  }

  lemma EraseKeeps(ms: seq<Member>, i: nat)
    requires i < |ms| && Distinct(ms) && MembersForm(ms)
    ensures Distinct(Erase(ms, i)) && MembersForm(Erase(ms, i))
    ensures NicknameFree(Erase(ms, i), ms[i].shown.nickname)
  {
  }

  function Shown(ms: seq<Member>): (r: seq<MemberInfo>)
    ensures |r| == |ms| && forall i :: 0 <= i < |ms| ==> r[i] == ms[i].shown
  {
    seq(|ms|, i requires 0 <= i < |ms| => ms[i].shown)
  }

  /** `find_if`: the first member with the property. */
  function FindFirst(ms: seq<Member>, p: Member -> bool): (i: nat)
    ensures i <= |ms| && (i < |ms| ==> p(ms[i])) && forall j :: 0 <= j < i ==> !p(ms[j])
  {
    if ms == [] || p(ms[0]) then 0
    else
      var i := 1 + FindFirst(ms[1..], p);
      assert forall j :: 0 < j < i ==> ms[j] == ms[1..][j - 1];
      i
  }

  // ---------- channels ----------

  ghost predicate GoodInfo(m: Message) { m.Info? ==> InfoOk(m.info) && MembersOk(m.members) }

  /** A join success comes right behind room information with members in it. */
  predicate WellPlaced(ch: seq<Message>, k: nat)
    requires k < |ch|
  {
    ch[k].JoinSuccess? ==> k > 0 && ch[k - 1].Info? && ch[k - 1].members != []
  }

  ghost predicate ChannelOk(ch: seq<Message>) {
    forall k :: 0 <= k < |ch| ==> GoodInfo(ch[k]) && WellPlaced(ch, k)
  }

  /** The members of the last room information. */
  function LastMembers(ch: seq<Message>): Option<seq<MemberInfo>> {
    if ch == [] then None
    else if ch[|ch| - 1].Info? then Some(ch[|ch| - 1].members)
    else LastMembers(ch[..|ch| - 1])
  }

  ghost predicate Current(ch: seq<Message>, ms: seq<Member>) {
    LastMembers(ch).Some? ==> LastMembers(ch).value == Shown(ms)
  }

  lemma LastAppended(ch: seq<Message>, m: Message)
    ensures LastMembers(ch + [m]) == if m.Info? then Some(m.members) else LastMembers(ch)
  {
    assert (ch + [m])[..|ch|] == ch;
  }

  lemma Appended(ch: seq<Message>, m: Message)
    requires ChannelOk(ch) && GoodInfo(m)
    requires m.JoinSuccess? ==> ch != [] && ch[|ch| - 1].Info? && ch[|ch| - 1].members != []
    ensures ChannelOk(ch + [m])
    ensures LastMembers(ch + [m]) == if m.Info? then Some(m.members) else LastMembers(ch)
  {
    LastAppended(ch, m);
    forall k | 0 <= k < |ch + [m]| ensures GoodInfo((ch + [m])[k]) && WellPlaced(ch + [m], k) {
      if k < |ch| { assert GoodInfo(ch[k]) && WellPlaced(ch, k); }
    }
  }

  /** What the checks of `HandleJoinRequest` look at. */
  datatype Gate = Gate(
    members: seq<Member>,
    slots: int,
    password: Text,
    request: JoinRequest,
    user: UserData,
    ip: Text,
    userBans: seq<Text>,
    ipBans: seq<Text>)

  /** When each refusal is due. */
  predicate Applies(reason: Refusal, g: Gate) {
    match reason
    case RoomIsFull => |g.members| >= g.slots
    case WrongPassword => g.request.password != g.password
    case NameCollision => !NicknameForm(g.request.nickname) || !NicknameFree(g.members, g.request.nickname)
    case MacCollision => g.request.preferredMac != BROADCAST_MAC && !MacFree(g.members, g.request.preferredMac)
    case ConsoleIdCollision => !ConsoleIdFree(g.members, g.request.consoleId)
    case VersionMismatch => g.request.version != NETWORK_VERSION
    case HostBanned => (g.user.username != [] && g.user.username in g.userBans) || g.ip in g.ipBans
  }

  /** The order of precedence. */
  function Rank(reason: Refusal): nat {
    match reason
    case RoomIsFull => 0
    case WrongPassword => 1
    case NameCollision => 2
    case MacCollision => 3
    case ConsoleIdCollision => 4
    case VersionMismatch => 5
    case HostBanned => 6
  }

  /** The refusal is due and none before it is; without one, none is due. */
  ghost predicate FirstFailing(g: Gate, refusal: Option<Refusal>) {
    if refusal.None? then forall reason :: !Applies(reason, g)
    else Applies(refusal.value, g) && forall reason :: Rank(reason) < Rank(refusal.value) ==> !Applies(reason, g)
  }

  /** Three random bytes. */
  type Draw = d: seq<Byte> | |d| == 3 witness [0, 0, 0]

  /** An assigned address: the vendor's three bytes, then the random ones. */
  function Assigned(d: Draw): Mac { [0x00, 0x1F, 0x32] + d }

  /** One of the draws gives an address that nobody has. */
  predicate HasFree(ms: seq<Member>, draws: seq<Draw>) {
    exists i :: 0 <= i < |draws| && MacFree(ms, Assigned(draws[i]))
  }

  /** The first such draw gives `mac`. */
  predicate FirstFree(ms: seq<Member>, draws: seq<Draw>, mac: Mac) {
    exists i :: 0 <= i < |draws| && mac == Assigned(draws[i]) && MacFree(ms, mac)
                && forall j :: 0 <= j < i ==> !MacFree(ms, Assigned(draws[j]))
  }

  /** How many members a peer has. */
  function Seats(ms: seq<Member>, peer: Peer): nat {
    if ms == [] then 0 else Seats(ms[..|ms| - 1], peer) + if ms[|ms| - 1].peer == peer then 1 else 0
  }

  lemma {:induction false} SeatsSplit(a: seq<Member>, b: seq<Member>, peer: Peer)
    ensures Seats(a + b, peer) == Seats(a, peer) + Seats(b, peer)
  {
    if b == [] {
      assert a + b == a;
    } else {
      var n := |b| - 1;
      SeatsSplit(a, b[..n], peer);
      assert (a + b)[..|a| + n] == a + b[..n];
    }
  }

  lemma {:induction false} SeatedIff(ms: seq<Member>, peer: Peer)
    ensures Seats(ms, peer) == 0 <==> forall i :: 0 <= i < |ms| ==> ms[i].peer != peer
  {
    if ms != [] { SeatedIff(ms[..|ms| - 1], peer); }
  }

  lemma SeatTaken(a: seq<Member>, m: Member, b: seq<Member>, peer: Peer)
    ensures Seats(a + [m] + b, peer) == Seats(a + b, peer) + if m.peer == peer then 1 else 0
  {
    SeatsSplit(a, b, peer);
    SeatsSplit(a, [m], peer);
    SeatsSplit(a + [m], b, peer);
    assert [m][..0] == [];
  }

  /** What a disconnection leaves of a peer: its first member goes, the others stay. */
  lemma SeatsLeft(ms: seq<Member>, peer: Peer)
    ensures var i := FindFirst(ms, (m: Member) => m.peer == peer);
            if i < |ms| then Seats(Erase(ms, i), peer) == Seats(ms, peer) - 1 else Seats(ms, peer) == 0
  {
    var i := FindFirst(ms, (m: Member) => m.peer == peer);
    if i < |ms| {
      SeatTaken(ms[..i], ms[i], ms[i + 1..], peer);
      assert ms == ms[..i] + [ms[i]] + ms[i + 1..];
    } else {
      SeatedIff(ms, peer);
    }
  }

  /** Every connected peer got `m` once for each of its members. */
  ghost predicate SentToMembers(was: map<Peer, seq<Message>>, now: map<Peer, seq<Message>>, connected: set<Peer>,
                                ms: seq<Member>, m: Message) {
    && now.Keys == was.Keys
    && forall p :: p in now ==> now[p] == was[p] + if p in connected then Repeat(m, Seats(ms, p)) else []
  }

  lemma SentNext(was: map<Peer, seq<Message>>, mid: map<Peer, seq<Message>>, now: map<Peer, seq<Message>>,
                 connected: set<Peer>, ms: seq<Member>, next: Member, m: Message)
    requires SentToMembers(was, mid, connected, ms, m) && connected <= mid.Keys
    requires now == if next.peer in connected then mid[next.peer := mid[next.peer] + [m]] else mid
    ensures SentToMembers(was, now, connected, ms + [next], m)
  {
    assert (ms + [next])[..|ms|] == ms;
    forall p | p in now
      ensures now[p] == was[p] + if p in connected then Repeat(m, Seats(ms + [next], p)) else []
    {
      assert mid[p] == was[p] + if p in connected then Repeat(m, Seats(ms, p)) else [];
    }
  }

  /** Every connected peer was told what happened, once for each of its members, and then what
      the members are. */
  ghost predicate Announced(was: map<Peer, seq<Message>>, now: map<Peer, seq<Message>>, connected: set<Peer>,
                            told: seq<Member>, status: Message, info: Message) {
    && now.Keys == was.Keys
    && forall p :: p in now ==>
         now[p] == if p in connected then was[p] + Repeat(status, Seats(told, p)) + [info] else was[p]
  }

  lemma ThenInfo(was: map<Peer, seq<Message>>, mid: map<Peer, seq<Message>>, now: map<Peer, seq<Message>>,
                 connected: set<Peer>, told: seq<Member>, status: Message, info: Message)
    requires SentToMembers(was, mid, connected, told, status) && now.Keys == mid.Keys
    requires forall p :: p in now ==> now[p] == if p in connected then mid[p] + [info] else mid[p]
    ensures Announced(was, now, connected, told, status, info)
  {
    forall p | p in now
      ensures now[p] == if p in connected then was[p] + Repeat(status, Seats(told, p)) + [info] else was[p]
    {
      assert mid[p] == was[p] + if p in connected then Repeat(status, Seats(told, p)) else [];
    }
  }

  /** One message more for one peer, if it is connected. */
  function Told(was: map<Peer, seq<Message>>, connected: set<Peer>, peer: Peer, m: Message): map<Peer, seq<Message>>
    requires connected <= was.Keys
  {
    if peer in connected then was[peer := was[peer] + [m]] else was
  }

  class Room {
    const information: RoomInfo
    const password: Text
    var members: seq<Member>
    var usernameBans: seq<Text>
    var ipBans: seq<Text>
    var connected: set<Peer>
    var channels: map<Peer, seq<Message>>

    ghost predicate MembersValid()
      reads this
    {
      && InfoOk(information) && |members| <= information.memberSlots
      && Distinct(members) && MembersForm(members)
    }

    ghost predicate ChannelsOk()
      reads this
    {
      connected <= channels.Keys && forall p :: p in channels ==> ChannelOk(channels[p])
    }

    /** Every connected peer that was told at all was told the current list last. */
    ghost predicate AllCurrent()
      reads this
    {
      forall p :: p in connected && p in channels ==> Current(channels[p], members)
    }

    ghost predicate Valid()
      reads this
    {
      MembersValid() && ChannelsOk() && AllCurrent()
    }

    constructor (information: RoomInfo, password: Text, usernameBans: seq<Text>, ipBans: seq<Text>)
      requires InfoOk(information)
      ensures Valid() && members == [] && connected == {} && channels == map[]
      ensures this.information == information && this.password == password
      ensures this.usernameBans == usernameBans && this.ipBans == ipBans
    {
      this.information, this.password := information, password;
      this.usernameBans, this.ipBans := usernameBans, ipBans;
      members, connected, channels := [], {}, map[];
    }

    /** A peer connects: its channel starts empty. */
    method Connect(peer: Peer)
      requires Valid() && peer !in connected
      modifies this`connected, this`channels
      ensures Valid() && members == old(members)
      ensures connected == old(connected) + {peer} && channels == old(channels)[peer := []]
    {
      connected := connected + {peer};
      channels := channels[peer := []];
    }

    /** `enet_peer_send` of anything but room information and join success. */
    method Send(peer: Peer, m: Message)
      requires ChannelsOk() && !m.Info? && !m.JoinSuccess?
      modifies this`channels
      ensures ChannelsOk() && (old(AllCurrent()) ==> AllCurrent())
      ensures channels == Told(old(channels), connected, peer, m)
    {
      if peer in connected {
        Appended(channels[peer], m);
        channels := channels[peer := channels[peer] + [m]];
      }
    }

    /** `SendStatusMessage`: once for every member, to its peer. */
    method SendStatusMessage(kind: StatusKind, nickname: Text, username: Text)
      requires ChannelsOk()
      modifies this`channels
      ensures ChannelsOk() && (old(AllCurrent()) ==> AllCurrent())
      ensures SentToMembers(old(channels), channels, connected, members, Status(kind, nickname, username))
    {
      var m := Status(kind, nickname, username);
      for i := 0 to |members|
        invariant ChannelsOk() && (old(AllCurrent()) ==> AllCurrent())
        invariant SentToMembers(old(channels), channels, connected, members[..i], m)
      {
        ghost var before := channels;
        Send(members[i].peer, m);
        assert members[..i + 1] == members[..i] + [members[i]];
        SentNext(old(channels), before, channels, connected, members[..i], members[i], m);
      }
      assert members[..|members|] == members;
    }

    /** `BroadcastRoomInformation`: to every connected peer. */
    method BroadcastRoomInformation()
      requires MembersValid() && ChannelsOk()
      modifies this`channels
      ensures Valid() && channels.Keys == old(channels).Keys
      ensures forall p :: p in channels ==>
                channels[p] == if p in connected then old(channels)[p] + [Info(information, Shown(members))] else old(channels)[p]
    {
      var m := Info(information, Shown(members));
      assert GoodInfo(m);
      channels := map p | p in channels :: if p in connected then channels[p] + [m] else channels[p];
      forall p | p in channels
        ensures ChannelOk(channels[p]) && (p in connected ==> Current(channels[p], members))
      {
        Appended(old(channels)[p], m);
      }
    }

    /** `GenerateMacAddress` draws until nobody has the address. */
    method GenerateMacAddress(draws: seq<Draw>) returns (mac: Mac)
      requires HasFree(members, draws)
      ensures FirstFree(members, draws, mac) && mac != BROADCAST_MAC
    {
      var i := 0;
      mac := Assigned(draws[0]);
      while !MacFree(members, mac)
        invariant i < |draws| && mac == Assigned(draws[i])
        invariant forall j :: 0 <= j < i ==> !MacFree(members, Assigned(draws[j]))
        decreases |draws| - i
      {
        i := i + 1;
        mac := Assigned(draws[i]);
      }
      assert mac[0] != BROADCAST_MAC[0];
    }

    method SendJoinSuccess(peer: Peer, mac: Mac, asMod: bool)
      requires Valid() && members != [] && peer in connected
      requires channels[peer] != [] && channels[peer][|channels[peer]| - 1] == Info(information, Shown(members))
      modifies this`channels
      ensures Valid() && channels == old(channels)[peer := old(channels)[peer] + [JoinSuccess(mac, asMod)]]
    {
      Appended(channels[peer], JoinSuccess(mac, asMod));
      channels := channels[peer := channels[peer] + [JoinSuccess(mac, asMod)]];
    }

    method AddMember(member: Member)
      requires Valid() && |members| < information.memberSlots && MemberForm(member)
      requires NicknameFree(members, member.shown.nickname) && MacFree(members, member.shown.mac)
      requires ConsoleIdFree(members, member.consoleId)
      modifies this`members, this`channels
      ensures Valid() && members == old(members) + [member]
      ensures Announced(old(channels), channels, connected, old(members),
                        Status(MemberJoin, member.shown.nickname, member.shown.username), Info(information, Shown(members)))
    {
      SendStatusMessage(MemberJoin, member.shown.nickname, member.shown.username);
      ghost var mid := channels;
      DistinctAppend(members, member);
      members := members + [member];
      BroadcastRoomInformation();
      ThenInfo(old(channels), mid, channels, connected, old(members),
               Status(MemberJoin, member.shown.nickname, member.shown.username), Info(information, Shown(members)));
    }

    /** Adds the member and tells everybody; the new member is told last that it has joined. */
    method Admit(member: Member)
      requires Valid() && |members| < information.memberSlots && member.peer in connected && MemberForm(member)
      requires NicknameFree(members, member.shown.nickname) && MacFree(members, member.shown.mac)
      requires ConsoleIdFree(members, member.consoleId)
      modifies this`members, this`channels
      ensures Valid() && members == old(members) + [member]
      ensures Welcomed(old(channels), channels, connected, old(members), member, information)
    {
      AddMember(member);
      ghost var mid := channels;
      assert Announced(old(channels), mid, connected, old(members),
                       Status(MemberJoin, member.shown.nickname, member.shown.username), Info(information, Shown(members)));
      SendJoinSuccess(member.peer, member.shown.mac, HasModPermission(members, member.peer, information.hostUsername));
    }

    /** The checks of `HandleJoinRequest`, in their order, with the address the member would get. */
    method CheckRequest(request: JoinRequest, user: UserData, ip: Text, draws: seq<Draw>)
      returns (refusal: Option<Refusal>, mac: Mac)
      requires request.preferredMac == BROADCAST_MAC ==> HasFree(members, draws)
      ensures FirstFailing(Gate(members, information.memberSlots, password, request, user, ip, usernameBans, ipBans), refusal)
      ensures refusal.None? ==>
                && |members| < information.memberSlots && NicknameForm(request.nickname)
                && NicknameFree(members, request.nickname) && ConsoleIdFree(members, request.consoleId)
                && MacFree(members, mac) && mac != BROADCAST_MAC
                && if request.preferredMac == BROADCAST_MAC then FirstFree(members, draws, mac) else mac == request.preferredMac
    {
      mac := request.preferredMac;
      if |members| >= information.memberSlots {
        return Some(RoomIsFull), mac;
      }
      if request.password != password {
        return Some(WrongPassword), mac;
      }
      if !NicknameForm(request.nickname) || !NicknameFree(members, request.nickname) {
        return Some(NameCollision), mac;
      }
      if request.preferredMac != BROADCAST_MAC {
        if !MacFree(members, request.preferredMac) {
          return Some(MacCollision), mac;
        }
      } else {
        mac := GenerateMacAddress(draws);
      }
      if !ConsoleIdFree(members, request.consoleId) {
        return Some(ConsoleIdCollision), mac;
      }
      if request.version != NETWORK_VERSION {
        return Some(VersionMismatch), mac;
      }
      if user.username != [] && user.username in usernameBans {
        return Some(HostBanned), mac;
      }
      if ip in ipBans {
        return Some(HostBanned), mac;
      }
      refusal := None;
    }

    /** `HandleJoinRequest`. `user` is what the verification backend says of the token. */
    method HandleJoinRequest(peer: Peer, request: JoinRequest, user: UserData, ip: Text, draws: seq<Draw>)
      returns (refusal: Option<Refusal>)
      requires Valid() && peer in connected
      requires TextOk(request.nickname) && TextOk(user.username) && TextOk(user.displayName) && TextOk(user.avatarUrl)
      requires request.preferredMac == BROADCAST_MAC ==> HasFree(members, draws)
      modifies this`members, this`channels
      ensures Valid()
      ensures FirstFailing(Gate(old(members), information.memberSlots, password, request, user, ip, usernameBans, ipBans),
                           refusal)
      ensures refusal.Some? ==>
                && members == old(members)
                && channels == old(channels)[peer := old(channels)[peer] + [Refused(refusal.value)]]
      ensures refusal.None? ==>
                && |members| == |old(members)| + 1 && members[..|old(members)|] == old(members)
                && Joined(members[|old(members)|], old(members), peer, request, user, draws, information.hostUsername)
                && Welcomed(old(channels), channels, connected, old(members), members[|old(members)|], information)
    {
      var mac;
      refusal, mac := CheckRequest(request, user, ip, draws);
      if refusal.Some? {
        Send(peer, Refused(refusal.value));
        return;
      }
      LimitOf8();
      var shown := MemberInfo(request.nickname, mac, [], 0, user.username, user.displayName, user.avatarUrl);
      Admit(Member(shown, request.consoleId, user.moderator || request.nickname == information.hostUsername, peer));
    }

    /** Takes the member out and tells everybody that is still there. */
    method Remove(i: nat, kind: StatusKind)
      requires MembersValid() && ChannelsOk() && i < |members|
      modifies this`members, this`channels
      ensures Valid() && members == Erase(old(members), i)
      ensures var gone := old(members)[i].shown;
              Announced(old(channels), channels, connected, members, Status(kind, gone.nickname, gone.username),
                        Info(information, Shown(members)))
    {
      var gone := members[i].shown;
      EraseKeeps(members, i);
      members := Erase(members, i);
      SendStatusMessage(kind, gone.nickname, gone.username);
      ghost var mid := channels;
      BroadcastRoomInformation();
      ThenInfo(old(channels), mid, channels, connected, members, Status(kind, gone.nickname, gone.username),
               Info(information, Shown(members)));
    }

    /** The common part of kicking and banning: the target is told, disconnected and taken out,
        and the others are told. */
    method Expel(sender: Peer, nickname: Text, message: Message, kind: StatusKind) returns (target: Option<Member>)
      requires Valid() && !message.Info? && !message.JoinSuccess?
      modifies this`members, this`channels, this`connected
      ensures Valid()
      ensures Expelled(old(members), old(channels), old(connected), members, channels, connected, sender, nickname, message,
                       kind, information, target)
    {
      if !HasModPermission(members, sender, information.hostUsername) {
        Send(sender, PermissionDenied);
        return None;
      }
      var i := FindFirst(members, (m: Member) => m.shown.nickname == nickname);
      if i == |members| {
        Send(sender, NoSuchUser);
        return None;
      }
      target := Some(members[i]);
      Send(members[i].peer, message);
      connected := connected - {members[i].peer};
      Remove(i, kind);
    }

    method HandleModKickPacket(sender: Peer, nickname: Text) returns (target: Option<Member>)
      requires Valid()
      modifies this`members, this`channels, this`connected
      ensures Valid()
      ensures Expelled(old(members), old(channels), old(connected), members, channels, connected, sender, nickname,
                       HostKicked, MemberKicked, information, target)
    {
      target := Expel(sender, nickname, HostKicked, MemberKicked);
    }

    /** Bans by the forum name, if there is one, and by the address. */
    method HandleModBanPacket(sender: Peer, nickname: Text, ipOf: Peer -> Text) returns (target: Option<Member>)
      requires Valid()
      modifies this`members, this`channels, this`connected, this`usernameBans, this`ipBans
      ensures Valid()
      ensures Expelled(old(members), old(channels), old(connected), members, channels, connected, sender, nickname,
                       Refused(HostBanned), MemberBanned, information, target)
      ensures target.None? ==> usernameBans == old(usernameBans) && ipBans == old(ipBans)
      ensures target.Some? ==>
                && usernameBans == Added(old(usernameBans), target.value.shown.username, target.value.shown.username != [])
                && ipBans == Added(old(ipBans), ipOf(target.value.peer), true)
    {
      target := Expel(sender, nickname, Refused(HostBanned), MemberBanned);
      if target.Some? {
        var username := target.value.shown.username;
        usernameBans := Added(usernameBans, username, username != []);
        ipBans := Added(ipBans, ipOf(target.value.peer), true);
      }
    }

    /** Takes the first entry out of each ban list. */
    method HandleModUnbanPacket(sender: Peer, address: Text)
      requires Valid()
      modifies this`channels, this`usernameBans, this`ipBans
      ensures Valid()
      ensures var allowed := HasModPermission(members, sender, information.hostUsername);
              && usernameBans == (if allowed then WithoutFirst(old(usernameBans), address) else old(usernameBans))
              && ipBans == (if allowed then WithoutFirst(old(ipBans), address) else old(ipBans))
              && if !allowed then channels == Told(old(channels), connected, sender, PermissionDenied)
                 else if address in old(usernameBans) || address in old(ipBans) then
                   SentToMembers(old(channels), channels, connected, members, Status(AddressUnbanned, address, []))
                 else channels == Told(old(channels), connected, sender, NoSuchUser)
    {
      if !HasModPermission(members, sender, information.hostUsername) {
        Send(sender, PermissionDenied);
        return;
      }
      var unbanned := address in usernameBans || address in ipBans;
      WithoutNone(usernameBans, address);
      WithoutNone(ipBans, address);
      usernameBans := WithoutFirst(usernameBans, address);
      ipBans := WithoutFirst(ipBans, address);
      if unbanned {
        SendStatusMessage(AddressUnbanned, address, []);
      } else {
        Send(sender, NoSuchUser);
      }
    }

    /** `HandleClientDisconnection`: of a peer that joined several times only the first member goes.
        No member of the peer is left exactly when it had one at most. */
    method HandleClientDisconnection(peer: Peer)
      requires Valid()
      modifies this`members, this`channels, this`connected
      ensures Valid() && connected == old(connected) - {peer}
      ensures Seats(members, peer) == if Seats(old(members), peer) == 0 then 0 else Seats(old(members), peer) - 1
      ensures (forall i :: 0 <= i < |members| ==> members[i].peer != peer) <==> Seats(old(members), peer) <= 1
      ensures var i := FindFirst(old(members), (m: Member) => m.peer == peer);
              if i < |old(members)| then
                var gone := old(members)[i].shown;
                && members == Erase(old(members), i)
                && Announced(old(channels), channels, connected, members, Status(MemberLeave, gone.nickname, gone.username),
                             Info(information, Shown(members)))
              else
                && members == old(members) && channels.Keys == old(channels).Keys
                && forall p :: p in channels ==>
                     channels[p] == if p in connected then old(channels)[p] + [Info(information, Shown(members))]
                                    else old(channels)[p]
    {
      var i := FindFirst(members, (m: Member) => m.peer == peer);
      SeatsLeft(members, peer);
      SeatedIff(if i < |members| then Erase(members, i) else members, peer);
      connected := connected - {peer};
      if i < |members| {
        Remove(i, MemberLeave);
      } else {
        BroadcastRoomInformation();
      }
    }

    /** `HandleGameNamePacket`: the game of the sender's member is replaced. */
    method HandleGameNamePacket(peer: Peer, gameName: Text, gameId: nat)
      requires Valid() && TextOk(gameName) && gameId < Limit(8)
      modifies this`members, this`channels
      ensures Valid() && |members| == |old(members)|
      ensures forall i :: 0 <= i < |members| ==>
                members[i] == if i == FindFirst(old(members), (m: Member) => m.peer == peer)
                              then old(members)[i].(shown := old(members)[i].shown.(gameName := gameName, gameId := gameId))
                              else old(members)[i]
      ensures channels.Keys == old(channels).Keys
      ensures forall p :: p in channels ==>
                channels[p] == if p in connected then old(channels)[p] + [Info(information, Shown(members))] else old(channels)[p]
    {
      var i := FindFirst(members, (m: Member) => m.peer == peer);
      if i < |members| {
        members := members[i := members[i].(shown := members[i].shown.(gameName := gameName, gameId := gameId))];
      }
      BroadcastRoomInformation();
    }

    /** `HandleWifiPacket`: to everybody else, or to the one member with the address. */
    method HandleWifiPacket(sender: Peer, destination: Mac, payload: seq<Byte>)
      requires Valid()
      modifies this`channels
      ensures Valid() && channels.Keys == old(channels).Keys
      ensures forall p :: p in channels ==>
                channels[p] == old(channels)[p]
                               + if p in connected then Repeat(Wifi(payload), Copies(members, p, sender, destination)) else []
    {
      if destination == BROADCAST_MAC {
        WifiToOthers(sender, payload);
      } else {
        var i := FindFirst(members, (m: Member) => m.shown.mac == destination);
        CopiesToOne(members, sender, destination, i);
        if i < |members| {
          Send(members[i].peer, Wifi(payload));
        }
        assert [Wifi(payload)] == Repeat(Wifi(payload), 1) && [] == Repeat(Wifi(payload), 0);
      }
    }

    method WifiToOthers(sender: Peer, payload: seq<Byte>)
      requires Valid()
      modifies this`channels
      ensures Valid() && WifiSent(old(channels), channels, connected, members, sender, payload)
    {
      for i := 0 to |members|
        invariant Valid() && WifiSent(old(channels), channels, connected, members[..i], sender, payload)
      {
        WifiToNext(i, sender, payload, old(channels));
      }
      assert members[..|members|] == members;
    }

    method WifiToNext(i: nat, sender: Peer, payload: seq<Byte>, ghost was: map<Peer, seq<Message>>)
      requires Valid() && i < |members|
      requires WifiSent(was, channels, connected, members[..i], sender, payload)
      modifies this`channels
      ensures Valid() && WifiSent(was, channels, connected, members[..i + 1], sender, payload)
    {
      ghost var before := channels;
      if members[i].peer != sender {
        Send(members[i].peer, Wifi(payload));
      }
      WifiNext(was, before, channels, connected, members[..i], members[i], sender, payload);
      assert members[..i + 1] == members[..i] + [members[i]];
    }
  }

  /** A request that names its address and meets no refusal. */
  ghost predicate Admissible(g: Gate) {
    && g.request.preferredMac != BROADCAST_MAC && TextOk(g.request.nickname)
    && TextOk(g.user.username) && TextOk(g.user.displayName) && TextOk(g.user.avatarUrl)
    && forall reason :: !Applies(reason, g)
  }

  lemma AdmissibleJoins(g: Gate, refusal: Option<Refusal>)
    requires Admissible(g) && FirstFailing(g, refusal)
    ensures refusal.None?
  {
  }

  /** A second request of the same peer passes too, if it differs in what must not collide. */
  lemma SecondIsAdmissible(g: Gate, other: Member)
    requires Admissible(g) && other.shown.nickname != g.request.nickname && other.consoleId != g.request.consoleId
    requires other.shown.mac != g.request.preferredMac
    ensures Admissible(g.(members := g.members + [other], slots := g.slots + 1))
  {
    var h := g.(members := g.members + [other], slots := g.slots + 1);
    forall reason ensures !Applies(reason, h) {
      assert !Applies(reason, g);
    }
  }

  method JoinOnce(room: Room, peer: Peer, request: JoinRequest, user: UserData, ip: Text)
    requires room.Valid() && peer in room.connected
    requires Admissible(Gate(room.members, room.information.memberSlots, room.password, request, user, ip,
                             room.usernameBans, room.ipBans))
    modifies room`members, room`channels
    ensures room.Valid() && |room.members| == |old(room.members)| + 1
    ensures var joined := room.members[|old(room.members)|];
            && room.members == old(room.members) + [joined]
            && joined.peer == peer && joined.consoleId == request.consoleId
            && joined.shown.nickname == request.nickname && joined.shown.mac == request.preferredMac
  {
    ghost var gate := Gate(room.members, room.information.memberSlots, room.password, request, user, ip,
                           room.usernameBans, room.ipBans);
    var refusal := room.HandleJoinRequest(peer, request, user, ip, []);
    AdmissibleJoins(gate, refusal);
  }

  /** Nothing keeps a peer from joining twice, under two names. */
  method JoinTwice(room: Room, peer: Peer, first: JoinRequest, second: JoinRequest, user: UserData, ip: Text)
    requires room.Valid() && peer in room.connected
    requires Admissible(Gate(room.members, room.information.memberSlots, room.password, first, user, ip,
                             room.usernameBans, room.ipBans))
    requires Admissible(Gate(room.members, room.information.memberSlots - 1, room.password, second, user, ip,
                             room.usernameBans, room.ipBans))
    requires first.nickname != second.nickname && first.consoleId != second.consoleId
    requires first.preferredMac != second.preferredMac
    modifies room`members, room`channels
    ensures room.Valid() && |room.members| == |old(room.members)| + 2
    ensures room.members[..|old(room.members)|] == old(room.members)
    ensures room.members[|old(room.members)|].peer == peer && room.members[|old(room.members)| + 1].peer == peer
    ensures room.members[|old(room.members)|].shown.nickname == first.nickname
    ensures room.members[|old(room.members)| + 1].shown.nickname == second.nickname
  {
    ghost var gate := Gate(room.members, room.information.memberSlots - 1, room.password, second, user, ip,
                           room.usernameBans, room.ipBans);
    JoinOnce(room, peer, first, user, ip);
    SecondIsAdmissible(gate, room.members[|gate.members|]);
    JoinOnce(room, peer, second, user, ip);
  }

  /** And when it disconnects, the second of its members stays. */
  method StaleMemberStays(room: Room, peer: Peer, first: JoinRequest, second: JoinRequest, user: UserData, ip: Text)
    requires room.Valid() && peer in room.connected && Seats(room.members, peer) == 0
    requires Admissible(Gate(room.members, room.information.memberSlots, room.password, first, user, ip,
                             room.usernameBans, room.ipBans))
    requires Admissible(Gate(room.members, room.information.memberSlots - 1, room.password, second, user, ip,
                             room.usernameBans, room.ipBans))
    requires first.nickname != second.nickname && first.consoleId != second.consoleId
    requires first.preferredMac != second.preferredMac
    modifies room
    ensures room.Valid() && peer !in room.connected && |room.members| == |old(room.members)| + 1
    ensures var stale := room.members[|old(room.members)|]; stale.peer == peer && stale.shown.nickname == second.nickname
  {
    ghost var before := room.members;
    JoinTwice(room, peer, first, second, user, ip);
    ghost var two := room.members;
    FirstOfTwo(before, two, peer);
    room.HandleClientDisconnection(peer);
  }

  /** A room for two, and a peer that joins it as two members. */
  method StaleMemberExample() returns (room: Room)
    ensures fresh(room) && room.Valid() && 1 !in room.connected
    ensures |room.members| == 1 && room.members[0].peer == 1
  {
    var name: Text := [97, 97, 97, 97];
    var other: Text := [98, 98, 98, 98];
    LimitOf4();
    assert Limit(1) == 256 && Limit(2) == 256 * Limit(1);
    room := new Room(RoomInfo(name, [], 2, 1, [], []), [], [], []);
    room.Connect(1);
    var user := UserData([], [], [], false);
    var first := JoinRequest(name, [1], [1, 0, 0, 0, 0, 0], NETWORK_VERSION, []);
    var second := JoinRequest(other, [2], [2, 0, 0, 0, 0, 0], NETWORK_VERSION, []);
    assert first.preferredMac[0] != BROADCAST_MAC[0] && second.preferredMac[0] != BROADCAST_MAC[0];
    assert first.preferredMac[0] != second.preferredMac[0] && name[0] != other[0] && [1][0] != [2][0];
    StaleMemberStays(room, 1, first, second, user, []);
  }

  lemma FirstOfTwo(before: seq<Member>, two: seq<Member>, peer: Peer)
    requires Seats(before, peer) == 0 && |two| == |before| + 2 && two[..|before|] == before && two[|before|].peer == peer
    ensures FindFirst(two, (m: Member) => m.peer == peer) == |before|
  {
    SeatedIff(before, peer);
    assert forall i :: 0 <= i < |before| ==> two[i] == before[i];
  }

  /** Every peer got one copy for each of its members among `ms`, the sender none. */
  ghost predicate WifiSent(was: map<Peer, seq<Message>>, now: map<Peer, seq<Message>>, connected: set<Peer>,
                           ms: seq<Member>, sender: Peer, payload: seq<Byte>) {
    && now.Keys == was.Keys
    && forall p :: p in now ==>
         now[p] == was[p] + if p in connected then Repeat(Wifi(payload), Copies(ms, p, sender, BROADCAST_MAC)) else []
  }

  lemma WifiNext(was: map<Peer, seq<Message>>, mid: map<Peer, seq<Message>>, now: map<Peer, seq<Message>>,
                 connected: set<Peer>, ms: seq<Member>, m: Member, sender: Peer, payload: seq<Byte>)
    requires WifiSent(was, mid, connected, ms, sender, payload) && connected <= mid.Keys
    requires now == if m.peer != sender && m.peer in connected then mid[m.peer := mid[m.peer] + [Wifi(payload)]] else mid
    ensures WifiSent(was, now, connected, ms + [m], sender, payload)
  {
    assert (ms + [m])[..|ms|] == ms;
    forall p | p in now
      ensures now[p] == was[p] + if p in connected then Repeat(Wifi(payload), Copies(ms + [m], p, sender, BROADCAST_MAC)) else []
    {
      assert mid[p] == was[p] + if p in connected then Repeat(Wifi(payload), Copies(ms, p, sender, BROADCAST_MAC)) else [];
    }
  }

  /** A kick or ban: refused to a sender without permission; pointless for a name nobody has;
      otherwise the member with that name is told `message`, disconnected and gone, and the
      others are told. */
  ghost predicate Expelled(was: seq<Member>, wasTold: map<Peer, seq<Message>>, wasConnected: set<Peer>,
                           now: seq<Member>, nowTold: map<Peer, seq<Message>>, nowConnected: set<Peer>, sender: Peer,
                           nickname: Text, message: Message, kind: StatusKind, information: RoomInfo,
                           target: Option<Member>)
  {
    var i := FindFirst(was, (m: Member) => m.shown.nickname == nickname);
    var allowed := HasModPermission(was, sender, information.hostUsername);
    && wasConnected <= wasTold.Keys
    && if !allowed || i == |was| then
         && target.None? && now == was && nowConnected == wasConnected
         && nowTold == Told(wasTold, wasConnected, sender, if allowed then NoSuchUser else PermissionDenied)
       else
         && target == Some(was[i]) && now == Erase(was, i) && nowConnected == wasConnected - {was[i].peer}
         && Announced(Told(wasTold, wasConnected, was[i].peer, message), nowTold, nowConnected, now,
                      Status(kind, nickname, was[i].shown.username), Info(information, Shown(now)))
  }

  /** Nobody with the name is left after a kick or ban. */
  lemma ExpelledIsGone(was: seq<Member>, wasTold: map<Peer, seq<Message>>, wasConnected: set<Peer>,
                       now: seq<Member>, nowTold: map<Peer, seq<Message>>, nowConnected: set<Peer>, sender: Peer,
                       nickname: Text, message: Message, kind: StatusKind, information: RoomInfo, target: Option<Member>)
    requires Expelled(was, wasTold, wasConnected, now, nowTold, nowConnected, sender, nickname, message, kind, information,
                      target)
    requires Distinct(was) && MembersForm(was) && HasModPermission(was, sender, information.hostUsername)
    ensures NicknameFree(now, nickname)
    ensures !NicknameFree(was, nickname) ==> target.Some? && target.value.shown.nickname == nickname
    ensures target.Some? ==> target.value.peer !in nowConnected
                             && forall p :: p in nowTold && p !in nowConnected && p != target.value.peer ==> nowTold[p] == wasTold[p]
  {
    var i := FindFirst(was, (m: Member) => m.shown.nickname == nickname);
    if i < |was| { EraseKeeps(was, i); }
  }

  /** What everybody was told when `member` joined the `before`, and the new member on top. */
  ghost predicate Welcomed(was: map<Peer, seq<Message>>, now: map<Peer, seq<Message>>, connected: set<Peer>,
                           before: seq<Member>, member: Member, information: RoomInfo) {
    var status := Status(MemberJoin, member.shown.nickname, member.shown.username);
    var all := before + [member];
    exists mid :: Announced(was, mid, connected, before, status, Info(information, Shown(all)))
                  && member.peer in mid
                  && now == mid[member.peer := mid[member.peer]
                       + [JoinSuccess(member.shown.mac, HasModPermission(all, member.peer, information.hostUsername))]]
  }

  /** What is known of an admitted member. */
  predicate Joined(m: Member, before: seq<Member>, peer: Peer, request: JoinRequest, user: UserData, draws: seq<Draw>,
                   host: Text)
  {
    && m.peer == peer && m.consoleId == request.consoleId
    && m.shown == MemberInfo(request.nickname, m.shown.mac, [], 0, user.username, user.displayName, user.avatarUrl)
    && (if request.preferredMac == BROADCAST_MAC then FirstFree(before, draws, m.shown.mac)
        else m.shown.mac == request.preferredMac)
    && (m.moderator <==> user.moderator || request.nickname == host)
  }

  /** `HasModPermission`: the first member of the peer decides. */
  predicate HasModPermission(ms: seq<Member>, peer: Peer, host: Text) {
    var i := FindFirst(ms, (m: Member) => m.peer == peer);
    i < |ms| && (ms[i].moderator || (host != [] && ms[i].shown.username == host))
  }

  function Added(list: seq<Text>, x: Text, really: bool): seq<Text> {
    if really && x !in list then list + [x] else list
  }

  function WithoutFirst(list: seq<Text>, x: Text): seq<Text> {
    if list == [] then [] else if list[0] == x then list[1..] else [list[0]] + WithoutFirst(list[1..], x)
  }

  lemma {:induction false} WithoutNone(list: seq<Text>, x: Text)
    ensures x !in list ==> WithoutFirst(list, x) == list
    ensures |WithoutFirst(list, x)| == |list| - if x in list then 1 else 0
  {
    if list != [] { WithoutNone(list[1..], x); }
  }

  function Repeat(m: Message, n: nat): seq<Message> { if n == 0 then [] else Repeat(m, n - 1) + [m] }

  /** How many copies of a wifi packet a peer gets: one for each of its members it is meant for. */
  function Copies(ms: seq<Member>, peer: Peer, sender: Peer, destination: Mac): nat {
    if ms == [] then 0
    else
      var last := ms[|ms| - 1];
      Copies(ms[..|ms| - 1], peer, sender, destination)
      + if last.peer == peer && (if destination == BROADCAST_MAC then peer != sender else last.shown.mac == destination)
        then 1 else 0
  }

  /** Addresses are distinct: a packet with a destination goes to its owner, once. */
  lemma {:induction false} CopiesToOne(ms: seq<Member>, sender: Peer, destination: Mac, i: nat)
    requires Distinct(ms) && destination != BROADCAST_MAC
    requires i == FindFirst(ms, (m: Member) => m.shown.mac == destination)
    ensures forall p :: Copies(ms, p, sender, destination) == if i < |ms| && ms[i].peer == p then 1 else 0
  {
    forall p ensures Copies(ms, p, sender, destination) == if i < |ms| && ms[i].peer == p then 1 else 0 {
      CopiesOf(ms, p, sender, destination, i);
    }
  }

  lemma {:induction false} CopiesOf(ms: seq<Member>, p: Peer, sender: Peer, destination: Mac, i: nat)
    requires Distinct(ms) && destination != BROADCAST_MAC && i <= |ms|
    requires i < |ms| ==> ms[i].shown.mac == destination
    requires forall j :: 0 <= j < i ==> ms[j].shown.mac != destination
    ensures Copies(ms, p, sender, destination) == if i < |ms| && ms[i].peer == p then 1 else 0
  {
    if ms != [] {
      var n := |ms| - 1;
      CopiesOf(ms[..n], p, sender, destination, if i > n then n else i);
    }
  }

}
