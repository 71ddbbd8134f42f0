/**
  The topology as the tools keep it: vectors of buses and groups edited in
  place, with the loops of tools/psb_modbus_core/topology_rules.cpp. Every
  method is proved to do what the function of the same name in TopologySpec says.
 */
module TopologyImpl {
  import opened Spec = TopologySpec
  import opened Wrappers

  class TopologyConfig {
    var buses: seq<Bus>
    var groups: seq<Group>

    ghost function View(): Topology
      reads this
    {
      Topology(buses, groups)
    }

    constructor ()
      ensures View() == EMPTY
    {
      buses, groups := [], [];
    }

    // ---- Lookups ----

    method BoardNicknameInUse(nickname: string) returns (used: bool)
      ensures used == NicknameUsed(buses, nickname)
    {
      for b := 0 to |buses|
        invariant forall c :: 0 <= c < b ==> !HasNickname(buses[c].boards, nickname)
      {
        var boards := buses[b].boards;
        for i := 0 to |boards|
          invariant forall j :: 0 <= j < i ==> boards[j].nickname != nickname
        {
          if boards[i].nickname == nickname {
            assert HasNickname(buses[b].boards, nickname);
            return true;
          }
        }
      }
      return false;
    }

    static method SlaveIdInUse(boards: seq<Board>, slaveId: int) returns (used: bool)
      ensures used == SlaveIdUsed(boards, slaveId)
    {
      for i := 0 to |boards|
        invariant forall j :: 0 <= j < i ==> boards[j].slaveId != slaveId
      {
        if boards[i].slaveId == slaveId {
          return true;
        }
      }
      return false;
    }

    method GroupNameInUse(name: string, besides: int) returns (used: bool)
      ensures used == GroupNamed(groups, name, besides)
    {
      for g := 0 to |groups|
        invariant forall h :: 0 <= h < g && h != besides ==> groups[h].name != name
      {
        if g != besides && groups[g].name == name {
          return true;
        }
      }
      return false;
    }

    static method GroupAliasInUse(channels: seq<Ref>, alias: string, besides: int) returns (used: bool)
      ensures used == AliasUsed(channels, alias, besides)
    {
      for i := 0 to |channels|
        invariant forall j :: 0 <= j < i && j != besides ==> channels[j].alias != alias
      {
        if i != besides && channels[i].alias == alias {
          return true;
        }
      }
      return false;
    }

    method FindGroupForBoardChannel(board: string, channel: int) returns (g: int)
      ensures g == FindGroup(groups, board, channel)
    {
      for h := 0 to |groups|
        invariant forall k :: 0 <= k < h ==> !Contains(groups[k], board, channel)
      {
        var channels := groups[h].channels;
        for i := 0 to |channels|
          invariant forall j :: 0 <= j < i ==> !IsFor(channels[j], board, channel)
        {
          if IsFor(channels[i], board, channel) {
            assert Contains(groups[h], board, channel);
            return h;
          }
        }
      }
      return -1;
    }

    // ---- Buses and boards ----

    method AddBus(name: string, port: string, baud: int) returns (err: Option<Error>)
      modifies this
      ensures (View(), err) == Spec.AddBus(old(View()), name, port, baud)
    {
      if port == "" {
        return Some(PortRequired);
      }
      for b := 0 to |buses|
        invariant View() == old(View())
        invariant forall c :: 0 <= c < b ==> buses[c].port != port
      {
        if buses[b].port == port {
          assert BusWithPort(buses, port) == b;
          return Some(PortInUse(buses[b].name));
        }
      }
      var finalName := if name == "" then "bus" + Decimal(|buses| + 1) else name;
      buses := buses + [Bus(finalName, port, baud, [])];
      return None;
    }

    method RemoveBus(b: int) returns (err: Option<Error>)
      modifies this
      ensures (View(), err) == Spec.RemoveBus(old(View()), b)
    {
      if b < 0 || b >= |buses| {
        return Some(InvalidBusIndex);
      }
      buses := Erase(buses, b);
      return None;
    }

    method AddBoard(b: int, nickname: string, slaveId: int) returns (err: Option<Error>)
      modifies this
      ensures (View(), err) == Spec.AddBoard(old(View()), b, nickname, slaveId)
    {
      if b < 0 || b >= |buses| {
        return Some(InvalidBusIndex);
      }
      if nickname == "" {
        return Some(NicknameRequired);
      }
      if slaveId < 0 || slaveId > 247 {
        return Some(SlaveIdRange);
      }
      var used := BoardNicknameInUse(nickname);
      if used {
        return Some(NicknameInUse);
      }
      used := SlaveIdInUse(buses[b].boards, slaveId);
      if used {
        return Some(Error.SlaveIdInUse);
      }
      buses := buses[b := buses[b].(boards := buses[b].boards + [Board(nickname, slaveId)])];
      return None;
    }

    // The scan of renameBoard: the place of the board to rename, or that the
    // new nickname belongs to another board.
    method FindForRename(was: string, nickname: string) returns (found: Option<Place>, taken: bool)
      ensures taken == (nickname != was && NicknameUsed(buses, nickname))
      ensures !taken ==> found == Locate(buses, was)
    {
      found := None;
      for b := 0 to |buses|
        invariant found == Locate(buses[..b], was)
        invariant nickname != was ==> forall c :: 0 <= c < b ==> !HasNickname(buses[c].boards, nickname)
      {
        var boards := buses[b].boards;
        ghost var before := found;
        for i := 0 to |boards|
          invariant nickname != was ==> forall j :: 0 <= j < i ==> boards[j].nickname != nickname
          invariant found == if LastBoard(boards[..i], was) >= 0 then Some(Place(b, LastBoard(boards[..i], was)))
                             else before
        {
          assert boards[..i + 1][..i] == boards[..i];
          if boards[i].nickname == was {
            found := Some(Place(b, i));
          } else if boards[i].nickname == nickname {
            assert HasNickname(buses[b].boards, nickname);
            return found, true;
          }
        }
        assert boards[..|boards|] == boards;
        assert buses[..b + 1][..b] == buses[..b];
      }
      assert buses[..|buses|] == buses;
      return found, false;
    }

    // Rewrites the references of one group in place.
    method RenameRefs(g: nat, was: string, nickname: string)
      requires g < |groups|
      modifies this
      ensures buses == old(buses)
      ensures groups == old(groups)[g := RenameInGroup(old(groups)[g], was, nickname)]
    {
      ghost var gs := groups;
      var n := |groups[g].channels|;
      for i := 0 to n
        invariant buses == old(buses) && |groups| == |gs| && |groups[g].channels| == n
        invariant groups[g].name == gs[g].name
        invariant forall h :: 0 <= h < |gs| && h != g ==> groups[h] == gs[h]
        invariant forall j :: 0 <= j < i ==> groups[g].channels[j] == RenameRef(gs[g].channels[j], was, nickname)
        invariant forall j :: i <= j < n ==> groups[g].channels[j] == gs[g].channels[j]
      {
        var channels := groups[g].channels;
        if channels[i].board == was {
          groups := groups[g := groups[g].(channels := channels[i := channels[i].(board := nickname)])];
        }
      }
      assert groups[g].channels == RenameInGroup(gs[g], was, nickname).channels;
    }

    method RenameBoard(was: string, nickname: string) returns (err: Option<Error>)
      modifies this
      ensures (View(), err) == Spec.RenameBoard(old(View()), was, nickname)
    {
      if nickname == "" {
        return Some(NicknameRequired);
      }
      var found, taken := FindForRename(was, nickname);
      if taken {
        return Some(NicknameInUse);
      }
      if found.None? {
        return Some(BoardNotFound);
      }
      var b, i := found.value.bus, found.value.board;
      var boards := buses[b].boards;
      buses := buses[b := buses[b].(boards := boards[i := boards[i].(nickname := nickname)])];
      for g := 0 to |groups|
        invariant |groups| == |old(groups)| && buses == RenamePlace(old(buses), found.value, nickname)
        invariant forall h :: 0 <= h < g ==> groups[h] == RenameInGroup(old(groups)[h], was, nickname)
        invariant forall h :: g <= h < |groups| ==> groups[h] == old(groups)[h]
      {
        RenameRefs(g, was, nickname);
      }
      assert groups == RenameInGroups(old(groups), was, nickname);
      return None;
    }

    method RemoveBoard(b: int, i: int) returns (err: Option<Error>)
      modifies this
      ensures (View(), err) == Spec.RemoveBoard(old(View()), b, i)
    {
      if b < 0 || b >= |buses| {
        return Some(InvalidBusIndex);
      }
      if i < 0 || i >= |buses[b].boards| {
        return Some(InvalidBoardIndex);
      }
      buses := buses[b := buses[b].(boards := Erase(buses[b].boards, i))];
      return None;
    }

    // ---- Groups ----

    method AddGroup(name: string) returns (err: Option<Error>)
      modifies this
      ensures (View(), err) == Spec.AddGroup(old(View()), name)
    {
      if name == "" {
        return Some(GroupNameRequired);
      }
      var used := GroupNameInUse(name, -1);
      if used {
        return Some(Error.GroupNameInUse);
      }
      groups := groups + [Group(name, [])];
      return None;
    }

    method RenameGroup(g: int, name: string) returns (err: Option<Error>)
      modifies this
      ensures (View(), err) == Spec.RenameGroup(old(View()), g, name)
    {
      if g < 0 || g >= |groups| {
        return Some(InvalidGroupIndex);
      }
      if name == "" {
        return Some(GroupNameRequired);
      }
      var used := GroupNameInUse(name, g);
      if used {
        return Some(Error.GroupNameInUse);
      }
      groups := groups[g := groups[g].(name := name)];
      return None;
    }

    method RemoveGroup(g: int) returns (err: Option<Error>)
      modifies this
      ensures (View(), err) == Spec.RemoveGroup(old(View()), g)
    {
      if g < 0 || g >= |groups| {
        return Some(InvalidGroupIndex);
      }
      groups := Erase(groups, g);
      return None;
    }

    method AddChannelToGroup(g: int, board: string, channel: int, alias: string) returns (err: Option<Error>)
      modifies this
      ensures (View(), err) == Spec.AddChannel(old(View()), g, board, channel, alias)
    {
      if g < 0 || g >= |groups| {
        return Some(InvalidGroupIndex);
      }
      if board == "" {
        return Some(BoardRequired);
      }
      if channel < 0 {
        return Some(InvalidChannelIndex);
      }
      var finalAlias := if alias == "" then DefaultAlias(channel) else alias;
      var holder := FindGroupForBoardChannel(board, channel);
      if holder >= 0 {
        return Some(AlreadyAssigned(groups[holder].name));
      }
      var used := GroupAliasInUse(groups[g].channels, finalAlias, -1);
      if used {
        return Some(AliasInUse);
      }
      groups := groups[g := groups[g].(channels := groups[g].channels + [Ref(board, channel, finalAlias)])];
      return None;
    }

    method RenameGroupChannelAlias(g: int, i: int, alias: string) returns (err: Option<Error>)
      modifies this
      ensures (View(), err) == Spec.RenameAlias(old(View()), g, i, alias)
    {
      if g < 0 || g >= |groups| {
        return Some(InvalidGroupIndex);
      }
      var channels := groups[g].channels;
      if i < 0 || i >= |channels| {
        return Some(InvalidChannelIndex);
      }
      var finalAlias := if alias == "" then DefaultAlias(channels[i].channel) else alias;
      var used := GroupAliasInUse(channels, finalAlias, i);
      if used {
        return Some(AliasInUse);
      }
      groups := groups[g := groups[g].(channels := channels[i := channels[i].(alias := finalAlias)])];
      return None;
    }

    method RenameAliasForBoardChannel(board: string, channel: int, alias: string) returns (err: Option<Error>)
      modifies this
      ensures (View(), err) == Spec.RenameAliasOf(old(View()), board, channel, alias)
    {
      var g := FindGroupForBoardChannel(board, channel);
      if g < 0 {
        return Some(NotAssigned);
      }
      var channels := groups[g].channels;
      for i := 0 to |channels|
        invariant View() == old(View())
        invariant forall j :: 0 <= j < i ==> !IsFor(channels[j], board, channel)
      {
        if IsFor(channels[i], board, channel) {
          assert FindRef(channels, board, channel) == i;
          err := RenameGroupChannelAlias(g, i, alias);
          return;
        }
      }
      assert false;
    }

    method RemoveChannelFromGroup(g: int, i: int) returns (err: Option<Error>)
      modifies this
      ensures (View(), err) == Spec.RemoveChannel(old(View()), g, i)
    {
      if g < 0 || g >= |groups| {
        return Some(InvalidGroupIndex);
      }
      if i < 0 || i >= |groups[g].channels| {
        return Some(InvalidChannelIndex);
      }
      groups := groups[g := groups[g].(channels := Erase(groups[g].channels, i))];
      return None;
    }

    method AvailableGroupChannels(live: seq<LiveBoard>) returns (available: seq<Ref>)
      ensures available == Available(groups, live)
    {
      hide Unassigned;
      available := [];
      for k := 0 to |live|
        invariant available == Available(groups, live[..k])
      {
        assert live[..k + 1][..k] == live[..k];
        var more := UnassignedChannels(live[k]);
        available := available + more;
      }
      assert live[..|live|] == live;
    }

    // The inner loop: the channels of one live board.
    method UnassignedChannels(board: LiveBoard) returns (refs: seq<Ref>)
      ensures refs == Unassigned(groups, board.nickname, board.numChannels)
    {
      refs := [];
      var channel := 0;
      while channel < board.numChannels
        invariant 0 <= channel && (channel <= board.numChannels || channel == 0)
        invariant refs == Unassigned(groups, board.nickname, channel)
      {
        var g := FindGroupForBoardChannel(board.nickname, channel);
        if g < 0 {
          refs := refs + [Ref(board.nickname, channel, DefaultAlias(channel))];
        }
        channel := channel + 1;
      }
    }

    method TotalBoardCount() returns (n: nat)
      ensures n == BoardCount(buses)
    {
      n := 0;
      for b := 0 to |buses|
        invariant n == BoardCount(buses[..b])
      {
        n := n + |buses[b].boards|;
        assert buses[..b + 1][..b] == buses[..b];
      }
      assert buses[..|buses|] == buses;
    }

    // The two nested searches of resolveBoardEndpoint, each ending with `break`.
    method FindNamed(nickname: string) returns (found: Option<Place>)
      ensures found == FirstPlace(buses, nickname)
    {
      found := None;
      for b := 0 to |buses|
        invariant found == None && FirstPlace(buses[..b], nickname) == None
      {
        var boards := buses[b].boards;
        for i := 0 to |boards|
          invariant found == None && FirstBoard(boards[..i], nickname) == -1
        {
          assert boards[..i + 1][..i] == boards[..i];
          if boards[i].nickname == nickname {
            found := Some(Place(b, i));
            FirstBoardStays(boards, i + 1, nickname);
            assert buses[..b + 1][..b] == buses[..b];
            FirstPlaceStays(buses, b + 1, nickname);
            return;
          }
        }
        assert boards[..|boards|] == boards;
        assert buses[..b + 1][..b] == buses[..b];
      }
      assert buses[..|buses|] == buses;
    }

    static lemma {:induction false} FirstBoardStays(boards: seq<Board>, n: nat, nickname: string)
      requires n <= |boards| && FirstBoard(boards[..n], nickname) >= 0
      ensures FirstBoard(boards, nickname) == FirstBoard(boards[..n], nickname)
      decreases |boards|
    {
      if n < |boards| {
        assert boards[..|boards| - 1][..n] == boards[..n];
        FirstBoardStays(boards[..|boards| - 1], n, nickname);
      } else {
        assert boards[..n] == boards;
      }
    }

    static lemma {:induction false} FirstPlaceStays(buses: seq<Bus>, n: nat, nickname: string)
      requires n <= |buses| && FirstPlace(buses[..n], nickname).Some?
      ensures FirstPlace(buses, nickname) == FirstPlace(buses[..n], nickname)
      decreases |buses|
    {
      if n < |buses| {
        assert buses[..|buses| - 1][..n] == buses[..n];
        FirstPlaceStays(buses[..|buses| - 1], n, nickname);
      } else {
        assert buses[..n] == buses;
      }
    }

    method FindPopulated() returns (b: int)
      ensures b == FirstPopulated(buses)
    {
      for c := 0 to |buses|
        invariant FirstPopulated(buses[..c]) == -1
      {
        assert buses[..c + 1][..c] == buses[..c];
        if buses[c].boards != [] {
          FirstPopulatedStays(buses, c + 1);
          return c;
        }
      }
      assert buses[..|buses|] == buses;
      return -1;
    }

    static lemma {:induction false} FirstPopulatedStays(buses: seq<Bus>, n: nat)
      requires n <= |buses| && FirstPopulated(buses[..n]) >= 0
      ensures FirstPopulated(buses) == FirstPopulated(buses[..n])
      decreases |buses|
    {
      if n < |buses| {
        assert buses[..|buses| - 1][..n] == buses[..n];
        FirstPopulatedStays(buses[..|buses| - 1], n);
      } else {
        assert buses[..n] == buses;
      }
    }

    method ResolveBoardEndpoint(nickname: string) returns (r: Resolution)
      ensures r == Resolve(buses, nickname)
    {
      if nickname != "" {
        var found := FindNamed(nickname);
        if found.None? {
          return Failed(NoSuchBoard);
        }
        var bus := buses[found.value.bus];
        var board := bus.boards[found.value.board];
        return Found(Endpoint(bus.port, bus.baud, board.slaveId, board.nickname));
      }
      var count := TotalBoardCount();
      if count == 1 {
        var b := FindPopulated();
        var board := buses[b].boards[0];
        return Found(Endpoint(buses[b].port, buses[b].baud, board.slaveId, board.nickname));
      }
      return Failed(if count > 1 then BoardAmbiguous else NoBoards);
    }

    // One edit of a run.
    method Perform(e: Edit) returns (err: Option<Error>)
      modifies this
      ensures (View(), err) == Spec.Apply(old(View()), e)
    {
      hide Spec.AddBus, Spec.RemoveBus, Spec.AddBoard, Spec.RenameBoard, Spec.RemoveBoard;
      hide Spec.AddGroup, Spec.RenameGroup, Spec.RemoveGroup;
      hide Spec.AddChannel, Spec.RenameAlias, Spec.RenameAliasOf, Spec.RemoveChannel;
      match e {
        case EAddBus(name, port, baud) => err := AddBus(name, port, baud);
        case ERemoveBus(b) => err := RemoveBus(b);
        case EAddBoard(b, nickname, slaveId) => err := AddBoard(b, nickname, slaveId);
        case ERenameBoard(was, nickname) => err := RenameBoard(was, nickname);
        case ERemoveBoard(b, i) => err := RemoveBoard(b, i);
        case EAddGroup(name) => err := AddGroup(name);
        case ERenameGroup(g, name) => err := RenameGroup(g, name);
        case ERemoveGroup(g) => err := RemoveGroup(g);
        case EAddChannel(g, nickname, channel, alias) => err := AddChannelToGroup(g, nickname, channel, alias);
        case ERenameAlias(g, i, alias) => err := RenameGroupChannelAlias(g, i, alias);
        case ERenameAliasOf(nickname, channel, alias) =>
          err := RenameAliasForBoardChannel(nickname, channel, alias);
        case ERemoveChannel(g, i) => err := RemoveChannelFromGroup(g, i);
      }
    }
  }
}
