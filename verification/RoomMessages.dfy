/** The room information packet: what the server writes and what a member reads. */
module RoomMessages {
  import opened Common
  import opened Packets

  const ID_ROOM_INFORMATION: Byte := 3

  /** A MAC address has six bytes. */
  type Mac = m: seq<Byte> | |m| == 6 witness [0, 0, 0, 0, 0, 0]

  datatype MemberInfo = MemberInfo(
    nickname: Text,
    mac: Mac,
    gameName: Text,
    gameId: nat,              // 64 bits
    username: Text,
    displayName: Text,
    avatarUrl: Text)

  datatype RoomInfo = RoomInfo(
    name: Text,
    description: Text,
    memberSlots: nat,         // 32 bits
    port: nat,                // 16 bits
    preferredGame: Text,
    hostUsername: Text)

  predicate TextOk(s: Text) { |s| < 0x1_0000_0000 }

  predicate MemberOk(m: MemberInfo) {
    && TextOk(m.nickname) && TextOk(m.gameName) && TextOk(m.username) && TextOk(m.displayName) && TextOk(m.avatarUrl)
    && m.gameId < Limit(8)
  }

  predicate InfoOk(i: RoomInfo) {
    && TextOk(i.name) && TextOk(i.description) && TextOk(i.preferredGame) && TextOk(i.hostUsername)
    && i.memberSlots < Limit(4) && i.port < Limit(2)
  }

  ghost predicate MembersOk(ms: seq<MemberInfo>) {
    |ms| < Limit(4) && forall i :: 0 <= i < |ms| ==> MemberOk(ms[i])
  }

  // ---------- the layout ----------

  /** The fields of a member, then `rest`. */
  function MemberThen(m: MemberInfo, rest: seq<Byte>): seq<Byte>
    requires MemberOk(m)
  {
    TextBytes(m.nickname) + (m.mac + (TextBytes(m.gameName) + (BigEndian(m.gameId, 8) +
      (TextBytes(m.username) + (TextBytes(m.displayName) + (TextBytes(m.avatarUrl) + rest))))))
  }

  ghost function MembersBytes(ms: seq<MemberInfo>): seq<Byte>
    requires forall i :: 0 <= i < |ms| ==> MemberOk(ms[i])
  {
    if ms == [] then [] else MemberThen(ms[0], MembersBytes(ms[1..]))
  }

  /** The fields of the room, then `rest`. */
  function InfoThen(i: RoomInfo, rest: seq<Byte>): seq<Byte>
    requires InfoOk(i)
  {
    TextBytes(i.name) + (TextBytes(i.description) + (BigEndian(i.memberSlots, 4) + (BigEndian(i.port, 2) +
      (TextBytes(i.preferredGame) + (TextBytes(i.hostUsername) + rest)))))
  }

  ghost function Message(i: RoomInfo, ms: seq<MemberInfo>): seq<Byte>
    requires InfoOk(i) && MembersOk(ms)
  {
    [ID_ROOM_INFORMATION] + InfoThen(i, BigEndian(|ms|, 4) + MembersBytes(ms))
  }

  lemma Assoc(a: seq<Byte>, b: seq<Byte>, c: seq<Byte>)
    ensures (a + b) + c == a + (b + c)
  {
  }

  lemma MemberAlone(m: MemberInfo, rest: seq<Byte>)
    requires MemberOk(m)
    ensures MemberThen(m, rest) == MemberThen(m, []) + rest
  {
    var a, u, d, n := TextBytes(m.avatarUrl), TextBytes(m.username), TextBytes(m.displayName), TextBytes(m.nickname);
    var g, k := TextBytes(m.gameName), BigEndian(m.gameId, 8);
    Assoc(a, [], rest);
    Assoc(d, a + [], rest);
    Assoc(u, d + (a + []), rest);
    Assoc(k, u + (d + (a + [])), rest);
    Assoc(g, k + (u + (d + (a + []))), rest);
    Assoc(m.mac, g + (k + (u + (d + (a + [])))), rest);
    Assoc(n, m.mac + (g + (k + (u + (d + (a + []))))), rest);
    assert [] + rest == rest;
  }

  lemma {:induction false} MembersAppend(ms: seq<MemberInfo>, m: MemberInfo)
    requires MemberOk(m) && forall i :: 0 <= i < |ms| ==> MemberOk(ms[i])
    ensures MembersBytes(ms + [m]) == MembersBytes(ms) + MemberThen(m, [])
  {
    if ms == [] {
      assert ms + [m] == [m] && [m][1..] == [];
      assert [] + MemberThen(m, []) == MemberThen(m, []);
    } else {
      MembersAppend(ms[1..], m);
      assert (ms + [m])[1..] == ms[1..] + [m];
      MemberAlone(ms[0], MembersBytes(ms[1..]) + MemberThen(m, []));
      MemberAlone(ms[0], MembersBytes(ms[1..]));
      Assoc(MemberThen(ms[0], []), MembersBytes(ms[1..]), MemberThen(m, []));
    }
  }

  // ---------- writing ----------

  method WriteMember(packet: Packet, m: MemberInfo)
    requires MemberOk(m)
    modifies packet
    ensures packet.data == old(packet.data) + MemberThen(m, [])
    ensures packet.readPos == old(packet.readPos) && packet.isValid == old(packet.isValid)
  {
    packet.WriteText(m.nickname);
    packet.WriteArray(m.mac);
    packet.WriteText(m.gameName);
    packet.Append(BigEndian(m.gameId, 8));
    packet.WriteText(m.username);
    packet.WriteText(m.displayName);
    packet.WriteText(m.avatarUrl);
    var a, u, d, n := TextBytes(m.avatarUrl), TextBytes(m.username), TextBytes(m.displayName), TextBytes(m.nickname);
    var g, k := TextBytes(m.gameName), BigEndian(m.gameId, 8);
    assert packet.data == old(packet.data) + n + m.mac + g + k + u + d + a;
    Flatten(old(packet.data), n, m.mac, g, k, u, d, a);
  }

  lemma Flatten(s: seq<Byte>, n: seq<Byte>, mac: seq<Byte>, g: seq<Byte>, k: seq<Byte>, u: seq<Byte>, d: seq<Byte>, a: seq<Byte>)
    ensures s + n + mac + g + k + u + d + a == s + (n + (mac + (g + (k + (u + (d + (a + [])))))))
  {
    assert a + [] == a;
    Assoc(s + n + mac + g + k + u, d, a);
    Assoc(s + n + mac + g + k, u, d + a);
    Assoc(s + n + mac + g, k, u + (d + a));
    Assoc(s + n + mac, g, k + (u + (d + a)));
    Assoc(s + n, mac, g + (k + (u + (d + a))));
    Assoc(s, n, mac + (g + (k + (u + (d + a)))));
  }

  method WriteHead(packet: Packet, info: RoomInfo, count: nat)
    requires InfoOk(info) && count < Limit(4)
    modifies packet
    ensures packet.data == old(packet.data) + TextBytes(info.name) + TextBytes(info.description)
                           + BigEndian(info.memberSlots, 4) + BigEndian(info.port, 2) + TextBytes(info.preferredGame)
                           + TextBytes(info.hostUsername) + BigEndian(count, 4)
    ensures packet.readPos == old(packet.readPos) && packet.isValid == old(packet.isValid)
  {
    packet.WriteText(info.name);
    packet.WriteText(info.description);
    packet.Append(BigEndian(info.memberSlots, 4));
    packet.Append(BigEndian(info.port, 2));
    packet.WriteText(info.preferredGame);
    packet.WriteText(info.hostUsername);
    packet.Append(BigEndian(count, 4));
  }

  /** The packet of `BroadcastRoomInformation`. */
  method WriteRoomInformation(info: RoomInfo, ms: seq<MemberInfo>) returns (packet: Packet)
    requires InfoOk(info) && MembersOk(ms)
    ensures fresh(packet) && packet.data == Message(info, ms) && packet.readPos == 0 && packet.isValid
  {
    packet := new Packet();
    packet.Append([ID_ROOM_INFORMATION]);
    assert packet.data == [ID_ROOM_INFORMATION];
    WriteHead(packet, info, |ms|);
    ghost var head := packet.data;
    assert head + [] == head;
    WriteMembers(packet, ms);
    HeadAndMembers(info, |ms|, MembersBytes(ms), head);
  }

  method WriteMembers(packet: Packet, ms: seq<MemberInfo>)
    requires MembersOk(ms)
    modifies packet
    ensures packet.data == old(packet.data) + MembersBytes(ms)
    ensures packet.readPos == old(packet.readPos) && packet.isValid == old(packet.isValid)
  {
    ghost var head := packet.data;
    for i := 0 to |ms|
      invariant packet.data == head + MembersBytes(ms[..i])
      invariant packet.readPos == old(packet.readPos) && packet.isValid == old(packet.isValid)
    {
      WriteMember(packet, ms[i]);
      assert ms[..i + 1] == ms[..i] + [ms[i]];
      MembersAppend(ms[..i], ms[i]);
      Assoc(head, MembersBytes(ms[..i]), MemberThen(ms[i], []));
    }
    assert ms[..|ms|] == ms;
  }

  lemma HeadAndMembers(i: RoomInfo, count: nat, members: seq<Byte>, head: seq<Byte>)
    requires InfoOk(i) && count < Limit(4)
    requires head == [ID_ROOM_INFORMATION] + TextBytes(i.name) + TextBytes(i.description) + BigEndian(i.memberSlots, 4)
                     + BigEndian(i.port, 2) + TextBytes(i.preferredGame) + TextBytes(i.hostUsername) + BigEndian(count, 4)
    ensures head + members == [ID_ROOM_INFORMATION] + InfoThen(i, BigEndian(count, 4) + members)
  {
    var a, b, c, d := [ID_ROOM_INFORMATION], TextBytes(i.name), TextBytes(i.description), BigEndian(i.memberSlots, 4);
    var e, f, g, h := BigEndian(i.port, 2), TextBytes(i.preferredGame), TextBytes(i.hostUsername), BigEndian(count, 4);
    Assoc(a + b + c + d + e + f + g, h, members);
    Assoc(a + b + c + d + e + f, g, h + members);
    Assoc(a + b + c + d + e, f, g + (h + members));
    Assoc(a + b + c + d, e, f + (g + (h + members)));
    Assoc(a + b + c, d, e + (f + (g + (h + members))));
    Assoc(a + b, c, d + (e + (f + (g + (h + members)))));
    Assoc(a, b, c + (d + (e + (f + (g + (h + members))))));
  }

  // ---------- reading ----------

  method ReadMember(packet: Packet, ghost m: MemberInfo, ghost rest: seq<Byte>) returns (r: MemberInfo)
    requires MemberOk(m)
    modifies packet
    ensures packet.data == old(packet.data)
    ensures old(packet.Ahead(MemberThen(m, rest))) ==> r == m && packet.Ahead(rest)
  {
    ghost var a := TextBytes(m.avatarUrl) + rest;
    ghost var d := TextBytes(m.displayName) + a;
    ghost var u := TextBytes(m.username) + d;
    ghost var k := BigEndian(m.gameId, 8) + u;
    ghost var g := TextBytes(m.gameName) + k;
    var nickname := packet.ReadText(m.nickname, m.mac + g);
    var mac := packet.ReadArray(6, m.mac, g);
    var gameName := packet.ReadText(m.gameName, k);
    var gameId := packet.ReadInt(8, m.gameId, u);
    var username := packet.ReadText(m.username, d);
    var displayName := packet.ReadText(m.displayName, a);
    var avatarUrl := packet.ReadText(m.avatarUrl, rest);
    r := MemberInfo(nickname, if |mac| == 6 then mac else [0, 0, 0, 0, 0, 0], gameName, gameId, username, displayName,
                    avatarUrl);
  }

  method ReadInfo(packet: Packet, ghost i: RoomInfo, ghost rest: seq<Byte>) returns (r: RoomInfo)
    requires InfoOk(i)
    modifies packet
    ensures packet.data == old(packet.data)
    ensures old(packet.Ahead(InfoThen(i, rest))) ==> r == i && packet.Ahead(rest)
  {
    ghost var h := TextBytes(i.hostUsername) + rest;
    ghost var g := TextBytes(i.preferredGame) + h;
    ghost var p := BigEndian(i.port, 2) + g;
    ghost var s := BigEndian(i.memberSlots, 4) + p;
    var name := packet.ReadText(i.name, TextBytes(i.description) + s);
    var description := packet.ReadText(i.description, s);
    var memberSlots := packet.ReadInt(4, i.memberSlots, p);
    var port := packet.ReadInt(2, i.port, g);
    var preferredGame := packet.ReadText(i.preferredGame, h);
    var hostUsername := packet.ReadText(i.hostUsername, rest);
    r := RoomInfo(name, description, memberSlots, port, preferredGame, hostUsername);
  }

  const NOBODY: MemberInfo := MemberInfo([], [0, 0, 0, 0, 0, 0], [], 0, [], [], [])

  ghost function MembersFrom(ms: seq<MemberInfo>, j: nat): seq<Byte>
    requires MembersOk(ms)
  {
    if j < |ms| then MembersBytes(ms[j..]) else []
  }

  lemma MembersNext(ms: seq<MemberInfo>, j: nat)
    requires MembersOk(ms) && j < |ms|
    ensures MembersFrom(ms, j) == MemberThen(ms[j], MembersFrom(ms, j + 1))
  {
    assert ms[j..][1..] == ms[j + 1..];
    if j + 1 == |ms| {
      assert ms[j + 1..] == [];
      assert MembersBytes(ms[j + 1..]) == [];
    }
  }

  /** One pass of the reading loop. */
  method ReadNext(packet: Packet, ghost ms: seq<MemberInfo>, ghost j: nat) returns (m: MemberInfo)
    requires MembersOk(ms)
    modifies packet
    ensures j < |ms| && old(packet.Ahead(MembersFrom(ms, j))) ==> m == ms[j] && packet.Ahead(MembersFrom(ms, j + 1))
  {
    ghost var next := if j < |ms| then ms[j] else NOBODY;
    if j < |ms| { MembersNext(ms, j); }
    m := ReadMember(packet, next, MembersFrom(ms, j + 1));
  }

  method ReadMembers(packet: Packet, numMembers: nat, ghost ms: seq<MemberInfo>) returns (members: seq<MemberInfo>)
    requires MembersOk(ms)
    modifies packet
    ensures numMembers == |ms| && old(packet.Ahead(MembersFrom(ms, 0))) ==> members == ms
  {
    members := [];
    ghost var good := numMembers == |ms| && packet.Ahead(MembersFrom(ms, 0));
    for j := 0 to numMembers
      invariant good ==> numMembers == |ms| && members == ms[..j] && packet.Ahead(MembersFrom(ms, j))
    {
      var m := ReadNext(packet, ms, j);
      members := members + [m];
    }
  }

  ghost function Counted(ms: seq<MemberInfo>): seq<Byte>
    requires MembersOk(ms)
  {
    BigEndian(|ms|, 4) + MembersFrom(ms, 0)
  }

  method OpenMessage(bytes: seq<Byte>, ghost i: RoomInfo, ghost ms: seq<MemberInfo>) returns (packet: Packet)
    requires InfoOk(i) && MembersOk(ms)
    ensures fresh(packet) && (bytes == Message(i, ms) ==> packet.Ahead(InfoThen(i, Counted(ms))))
  {
    packet := new Packet();
    packet.Append(bytes);
    packet.IgnoreBytes(1);
    assert packet.data == bytes;
    ghost var ahead := InfoThen(i, Counted(ms));
    BehindId(bytes, i, ms);
    assert bytes == Message(i, ms) ==> bytes[1..1 + |ahead|] == ahead;
  }

  method ReadCount(packet: Packet, ghost ms: seq<MemberInfo>) returns (numMembers: nat)
    requires MembersOk(ms)
    modifies packet
    ensures old(packet.Ahead(Counted(ms))) ==> numMembers == |ms| && packet.Ahead(MembersFrom(ms, 0))
  {
    numMembers := packet.ReadInt(4, |ms|, MembersFrom(ms, 0));
  }

  /** `HandleRoomInformationPacket` decodes exactly what the server encoded. */
  method ReadRoomInformation(bytes: seq<Byte>, ghost i: RoomInfo, ghost ms: seq<MemberInfo>)
    returns (info: RoomInfo, members: seq<MemberInfo>)
    requires InfoOk(i) && MembersOk(ms)
    ensures bytes == Message(i, ms) ==> info == i && members == ms
  {
    var packet := OpenMessage(bytes, i, ms);
    info := ReadInfo(packet, i, Counted(ms));
    var numMembers := ReadCount(packet, ms);
    members := ReadMembers(packet, numMembers, ms);
  }

  lemma BehindId(bytes: seq<Byte>, i: RoomInfo, ms: seq<MemberInfo>)
    requires InfoOk(i) && MembersOk(ms)
    ensures bytes == Message(i, ms) ==> bytes != [] && bytes[1..] == InfoThen(i, Counted(ms))
  {
    assert ms[0..] == ms;
    assert ms == [] ==> MembersBytes(ms) == [];
  }
}
