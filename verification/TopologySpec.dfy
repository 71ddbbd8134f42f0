/**
  The topology of boards and channel groups and the rules for editing it
  (tools/psb_modbus_core/topology_rules.cpp), as functions on a value.
 */
module TopologySpec {
  import opened Wrappers

  datatype Board = Board(nickname: string, slaveId: int)

  datatype Bus = Bus(name: string, port: string, baud: int, boards: seq<Board>)

  // A channel of a group, by the nickname of its board.
  datatype Ref = Ref(board: string, channel: int, alias: string)

  datatype Group = Group(name: string, channels: seq<Ref>)

  datatype Topology = Topology(buses: seq<Bus>, groups: seq<Group>)

  const EMPTY: Topology := Topology([], [])

  datatype Error =
    | PortRequired | PortInUse(bus: string)
    | InvalidBusIndex | InvalidBoardIndex | InvalidGroupIndex | InvalidChannelIndex
    | NicknameRequired | NicknameInUse | BoardNotFound
    | SlaveIdRange | SlaveIdInUse
    | GroupNameRequired | GroupNameInUse
    | BoardRequired | AlreadyAssigned(group: string) | AliasInUse | NotAssigned
    | NoSuchBoard | BoardAmbiguous | NoBoards

  // ---- Names ----

  function Digit(d: nat): char
    requires d < 10
  {
    "0123456789"[d]
  }

  function Decimal(n: nat): (s: string)
    ensures |s| >= 1 && (|s| == 1 <==> n < 10)
  {
    if n < 10 then [Digit(n)] else Decimal(n / 10) + [Digit(n % 10)]
  }

  function DefaultAlias(channel: int): string {
    "CH" + if channel < 0 then "-" + Decimal(-channel) else Decimal(channel)
  }

  function FinalAlias(alias: string, channel: int): string {
    if alias == "" then DefaultAlias(channel) else alias
  }

  // ---- Lookups ----

  predicate HasNickname(boards: seq<Board>, name: string) {
    exists i :: 0 <= i < |boards| && boards[i].nickname == name
  }

  predicate NicknameUsed(buses: seq<Bus>, name: string) {
    exists b :: 0 <= b < |buses| && HasNickname(buses[b].boards, name)
  }

  predicate SlaveIdUsed(boards: seq<Board>, id: int) {
    exists i :: 0 <= i < |boards| && boards[i].slaveId == id
  }

  predicate GroupNamed(groups: seq<Group>, name: string, besides: int) {
    exists g :: 0 <= g < |groups| && g != besides && groups[g].name == name
  }

  predicate AliasUsed(channels: seq<Ref>, alias: string, besides: int) {
    exists i :: 0 <= i < |channels| && i != besides && channels[i].alias == alias
  }

  predicate IsFor(r: Ref, board: string, channel: int) {
    r.board == board && r.channel == channel
  }

  // The position of the channel within a group, or -1.
  function FindRef(channels: seq<Ref>, board: string, channel: int): (i: int)
    ensures -1 <= i < |channels|
    ensures i >= 0 ==> IsFor(channels[i], board, channel)
    ensures forall j :: 0 <= j < |channels| && (i < 0 || j < i) ==> !IsFor(channels[j], board, channel)
  {
    if channels == [] then -1
    else
      var last := |channels| - 1;
      var i := FindRef(channels[..last], board, channel);
      if i >= 0 then i else if IsFor(channels[last], board, channel) then last else -1
  }

  predicate Contains(g: Group, board: string, channel: int) {
    exists i :: 0 <= i < |g.channels| && IsFor(g.channels[i], board, channel)
  }

  // The first group that holds the channel, or -1.
  function FindGroup(groups: seq<Group>, board: string, channel: int): (g: int)
    ensures -1 <= g < |groups|
    ensures g >= 0 ==> Contains(groups[g], board, channel)
    ensures forall h :: 0 <= h < |groups| && (g < 0 || h < g) ==> !Contains(groups[h], board, channel)
  {
    if groups == [] then -1
    else
      var last := |groups| - 1;
      var g := FindGroup(groups[..last], board, channel);
      if g >= 0 then g else if Contains(groups[last], board, channel) then last else -1
  }

  // The last board with that nickname on one bus, or -1.
  function LastBoard(boards: seq<Board>, name: string): (i: int)
    ensures -1 <= i < |boards|
    ensures i >= 0 ==> boards[i].nickname == name
    ensures forall j :: 0 <= j < |boards| && j > i ==> boards[j].nickname != name
  {
    if boards == [] then -1
    else if boards[|boards| - 1].nickname == name then |boards| - 1
    else LastBoard(boards[..|boards| - 1], name)
  }

  datatype Place = Place(bus: nat, board: nat)

  predicate Located(buses: seq<Bus>, p: Place, name: string) {
    p.bus < |buses| && p.board < |buses[p.bus].boards| && buses[p.bus].boards[p.board].nickname == name
  }

  function Locate(buses: seq<Bus>, name: string): (p: Option<Place>)
    ensures p.Some? ==> Located(buses, p.value, name)
    ensures p.None? ==> !NicknameUsed(buses, name)
  {
    if buses == [] then None
    else
      var last := |buses| - 1;
      var i := LastBoard(buses[last].boards, name);
      if i >= 0 then Some(Place(last, i)) else Locate(buses[..last], name)
  }

  // ---- Editing ----

  function Erase<T>(s: seq<T>, i: nat): seq<T>
    requires i < |s|
  {
    s[..i] + s[i + 1..]
  }

  function BusWithPort(buses: seq<Bus>, port: string): (b: int)
    ensures -1 <= b < |buses|
    ensures b >= 0 ==> buses[b].port == port
    ensures forall c :: 0 <= c < |buses| && (b < 0 || c < b) ==> buses[c].port != port
  {
    if buses == [] then -1
    else
      var last := |buses| - 1;
      var b := BusWithPort(buses[..last], port);
      if b >= 0 then b else if buses[last].port == port then last else -1
  }

  function AddBus(t: Topology, name: string, port: string, baud: int): (Topology, Option<Error>) {
    var b := BusWithPort(t.buses, port);
    if port == "" then (t, Some(PortRequired))
    else if b >= 0 then (t, Some(PortInUse(t.buses[b].name)))
    else
      var finalName := if name == "" then "bus" + Decimal(|t.buses| + 1) else name;
      (t.(buses := t.buses + [Bus(finalName, port, baud, [])]), None)
  }

  function RemoveBus(t: Topology, b: int): (Topology, Option<Error>) {
    if b < 0 || b >= |t.buses| then (t, Some(InvalidBusIndex))
    else (t.(buses := Erase(t.buses, b)), None)
  }

  function WithBoards(t: Topology, b: nat, boards: seq<Board>): Topology
    requires b < |t.buses|
  {
    t.(buses := t.buses[b := t.buses[b].(boards := boards)])
  }

  function AddBoard(t: Topology, b: int, nickname: string, slaveId: int): (Topology, Option<Error>) {
    if b < 0 || b >= |t.buses| then (t, Some(InvalidBusIndex))
    else if nickname == "" then (t, Some(NicknameRequired))
    else if slaveId < 0 || slaveId > 247 then (t, Some(SlaveIdRange))
    else if NicknameUsed(t.buses, nickname) then (t, Some(NicknameInUse))
    else if SlaveIdUsed(t.buses[b].boards, slaveId) then (t, Some(SlaveIdInUse))
    else (WithBoards(t, b, t.buses[b].boards + [Board(nickname, slaveId)]), None)
  }

  function RenameRef(r: Ref, old_: string, name: string): Ref {
    if r.board == old_ then r.(board := name) else r
  }

  function RenameInGroup(g: Group, old_: string, name: string): Group {
    g.(channels := seq(|g.channels|, i requires 0 <= i < |g.channels| => RenameRef(g.channels[i], old_, name)))
  }

  function RenameInGroups(groups: seq<Group>, old_: string, name: string): seq<Group> {
    seq(|groups|, g requires 0 <= g < |groups| => RenameInGroup(groups[g], old_, name))
  }

  function RenamePlace(buses: seq<Bus>, p: Place, name: string): seq<Bus>
    requires p.bus < |buses| && p.board < |buses[p.bus].boards|
  {
    var boards := buses[p.bus].boards;
    buses[p.bus := buses[p.bus].(boards := boards[p.board := boards[p.board].(nickname := name)])]
  }

  function RenameBoard(t: Topology, old_: string, name: string): (Topology, Option<Error>) {
    if name == "" then (t, Some(NicknameRequired))
    else if name != old_ && NicknameUsed(t.buses, name) then (t, Some(NicknameInUse))
    else
      match Locate(t.buses, old_)
      case None => (t, Some(BoardNotFound))
      case Some(p) => (Topology(RenamePlace(t.buses, p, name), RenameInGroups(t.groups, old_, name)), None)
  }

  function RemoveBoard(t: Topology, b: int, i: int): (Topology, Option<Error>) {
    if b < 0 || b >= |t.buses| then (t, Some(InvalidBusIndex))
    else if i < 0 || i >= |t.buses[b].boards| then (t, Some(InvalidBoardIndex))
    else (WithBoards(t, b, Erase(t.buses[b].boards, i)), None)
  }

  function AddGroup(t: Topology, name: string): (Topology, Option<Error>) {
    if name == "" then (t, Some(GroupNameRequired))
    else if GroupNamed(t.groups, name, -1) then (t, Some(GroupNameInUse))
    else (t.(groups := t.groups + [Group(name, [])]), None)
  }

  function RenameGroup(t: Topology, g: int, name: string): (Topology, Option<Error>) {
    if g < 0 || g >= |t.groups| then (t, Some(InvalidGroupIndex))
    else if name == "" then (t, Some(GroupNameRequired))
    else if GroupNamed(t.groups, name, g) then (t, Some(GroupNameInUse))
    else (t.(groups := t.groups[g := t.groups[g].(name := name)]), None)
  }

  function RemoveGroup(t: Topology, g: int): (Topology, Option<Error>) {
    if g < 0 || g >= |t.groups| then (t, Some(InvalidGroupIndex))
    else (t.(groups := Erase(t.groups, g)), None)
  }

  function WithChannels(t: Topology, g: nat, channels: seq<Ref>): Topology
    requires g < |t.groups|
  {
    t.(groups := t.groups[g := t.groups[g].(channels := channels)])
  }

  function AddChannel(t: Topology, g: int, board: string, channel: int, alias: string): (Topology, Option<Error>) {
    if g < 0 || g >= |t.groups| then (t, Some(InvalidGroupIndex))
    else if board == "" then (t, Some(BoardRequired))
    else if channel < 0 then (t, Some(InvalidChannelIndex))
    else
      var holder := FindGroup(t.groups, board, channel);
      var finalAlias := FinalAlias(alias, channel);
      if holder >= 0 then (t, Some(AlreadyAssigned(t.groups[holder].name)))
      else if AliasUsed(t.groups[g].channels, finalAlias, -1) then (t, Some(AliasInUse))
      else (WithChannels(t, g, t.groups[g].channels + [Ref(board, channel, finalAlias)]), None)
  }

  function RenameAlias(t: Topology, g: int, i: int, alias: string): (Topology, Option<Error>) {
    if g < 0 || g >= |t.groups| then (t, Some(InvalidGroupIndex))
    else if i < 0 || i >= |t.groups[g].channels| then (t, Some(InvalidChannelIndex))
    else
      var channels := t.groups[g].channels;
      var finalAlias := FinalAlias(alias, channels[i].channel);
      if AliasUsed(channels, finalAlias, i) then (t, Some(AliasInUse))
      else (WithChannels(t, g, channels[i := channels[i].(alias := finalAlias)]), None)
  }

  function RenameAliasOf(t: Topology, board: string, channel: int, alias: string): (Topology, Option<Error>) {
    var g := FindGroup(t.groups, board, channel);
    if g < 0 then (t, Some(NotAssigned))
    else RenameAlias(t, g, FindRef(t.groups[g].channels, board, channel), alias)
  }

  function RemoveChannel(t: Topology, g: int, i: int): (Topology, Option<Error>) {
    if g < 0 || g >= |t.groups| then (t, Some(InvalidGroupIndex))
    else if i < 0 || i >= |t.groups[g].channels| then (t, Some(InvalidChannelIndex))
    else (WithChannels(t, g, Erase(t.groups[g].channels, i)), None)
  }

  // ---- Channels that can still be assigned ----

  datatype LiveBoard = LiveBoard(nickname: string, numChannels: int)

  // The unassigned ones among the first `n` channels of one board, in order.
  function Unassigned(groups: seq<Group>, board: string, n: int): seq<Ref>
    decreases if n < 0 then 0 else n
  {
    if n <= 0 then []
    else
      Unassigned(groups, board, n - 1) +
      if FindGroup(groups, board, n - 1) >= 0 then [] else [Ref(board, n - 1, DefaultAlias(n - 1))]
  }

  function Available(groups: seq<Group>, live: seq<LiveBoard>): seq<Ref> {
    if live == [] then []
    else
      var last := live[|live| - 1];
      Available(groups, live[..|live| - 1]) + Unassigned(groups, last.nickname, last.numChannels)
  }

  // ---- Finding a board ----

  datatype Endpoint = Endpoint(port: string, baud: int, slaveId: int, nickname: string)

  datatype Resolution = Found(endpoint: Endpoint) | Failed(error: Error)

  function BoardCount(buses: seq<Bus>): nat {
    if buses == [] then 0 else BoardCount(buses[..|buses| - 1]) + |buses[|buses| - 1].boards|
  }

  function FirstBoard(boards: seq<Board>, name: string): (i: int)
    ensures -1 <= i < |boards|
    ensures i >= 0 ==> boards[i].nickname == name
    ensures i < 0 ==> !HasNickname(boards, name)
  {
    if boards == [] then -1
    else
      var last := |boards| - 1;
      var i := FirstBoard(boards[..last], name);
      if i >= 0 then i else if boards[last].nickname == name then last else -1
  }

  // The first board with that nickname, bus by bus.
  function FirstPlace(buses: seq<Bus>, name: string): (p: Option<Place>)
    ensures p.Some? ==> Located(buses, p.value, name)
    ensures p.None? ==> !NicknameUsed(buses, name)
  {
    if buses == [] then None
    else
      var last := |buses| - 1;
      var p := FirstPlace(buses[..last], name);
      if p.Some? then p
      else
        var i := FirstBoard(buses[last].boards, name);
        if i >= 0 then Some(Place(last, i)) else None
  }

  // The first bus that has a board, or -1.
  function FirstPopulated(buses: seq<Bus>): (b: int)
    ensures -1 <= b < |buses|
    ensures b >= 0 ==> buses[b].boards != []
    ensures b < 0 ==> BoardCount(buses) == 0
  {
    if buses == [] then -1
    else
      var last := |buses| - 1;
      var b := FirstPopulated(buses[..last]);
      if b >= 0 then b else if buses[last].boards != [] then last else -1
  }

  function EndpointAt(buses: seq<Bus>, p: Place): Endpoint
    requires p.bus < |buses| && p.board < |buses[p.bus].boards|
  {
    var bus := buses[p.bus];
    Endpoint(bus.port, bus.baud, bus.boards[p.board].slaveId, bus.boards[p.board].nickname)
  }

  function Resolve(buses: seq<Bus>, nickname: string): Resolution {
    if nickname != "" then
      match FirstPlace(buses, nickname)
      case None => Failed(NoSuchBoard)
      case Some(p) => Found(EndpointAt(buses, p))
    else if BoardCount(buses) == 1 then Found(EndpointAt(buses, Place(FirstPopulated(buses), 0)))
    else if BoardCount(buses) > 1 then Failed(BoardAmbiguous)
    else Failed(NoBoards)
  }

  // ---- Runs ----

  datatype Edit =
    | EAddBus(name: string, port: string, baud: int)
    | ERemoveBus(bus: int)
    | EAddBoard(bus: int, nickname: string, slaveId: int)
    | ERenameBoard(was: string, nickname: string)
    | ERemoveBoard(bus: int, board: int)
    | EAddGroup(name: string)
    | ERenameGroup(group: int, name: string)
    | ERemoveGroup(group: int)
    | EAddChannel(group: int, nickname: string, channel: int, alias: string)
    | ERenameAlias(group: int, index: int, alias: string)
    | ERenameAliasOf(nickname: string, channel: int, alias: string)
    | ERemoveChannel(group: int, index: int)

  function Apply(t: Topology, e: Edit): (Topology, Option<Error>) {
    match e
    case EAddBus(name, port, baud) => AddBus(t, name, port, baud)
    case ERemoveBus(b) => RemoveBus(t, b)
    case EAddBoard(b, nickname, slaveId) => AddBoard(t, b, nickname, slaveId)
    case ERenameBoard(was, nickname) => RenameBoard(t, was, nickname)
    case ERemoveBoard(b, i) => RemoveBoard(t, b, i)
    case EAddGroup(name) => AddGroup(t, name)
    case ERenameGroup(g, name) => RenameGroup(t, g, name)
    case ERemoveGroup(g) => RemoveGroup(t, g)
    case EAddChannel(g, nickname, channel, alias) => AddChannel(t, g, nickname, channel, alias)
    case ERenameAlias(g, i, alias) => RenameAlias(t, g, i, alias)
    case ERenameAliasOf(nickname, channel, alias) => RenameAliasOf(t, nickname, channel, alias)
    case ERemoveChannel(g, i) => RemoveChannel(t, g, i)
  }

  function ApplyAll(t: Topology, es: seq<Edit>): Topology {
    if es == [] then t else Apply(ApplyAll(t, es[..|es| - 1]), es[|es| - 1]).0
  }
}
