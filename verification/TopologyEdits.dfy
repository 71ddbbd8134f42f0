/**
  Which edits of the topology are accepted, and what each one leaves: the new
  entry, everything else in place, and what the lookups then find
  (tools/psb_modbus_core/topology_rules.cpp:52-231).
 */
module TopologyEdits {
  import opened TopologySpec
  import opened TopologyRules
  import opened TopologyLookup
  import opened Wrappers

  // `after` is `before` without the entry at `i`, in order.
  predicate Without<T(==)>(before: seq<T>, after: seq<T>, i: nat) {
    && |after| + 1 == |before| && i < |before|
    && (forall j :: 0 <= j < i ==> after[j] == before[j])
    && (forall j :: i <= j < |after| ==> after[j] == before[j + 1])
  }

  // `after` is `before` with one more entry at its end.
  predicate Extends<T(==)>(before: seq<T>, after: seq<T>) {
    |after| == |before| + 1 && forall j :: 0 <= j < |before| ==> after[j] == before[j]
  }

  predicate Within(i: int, n: nat) {
    0 <= i < n
  }

  // ---- Buses ----

  predicate IsFirstWithPort(buses: seq<Bus>, b: int, port: string) {
    Within(b, |buses|) && buses[b].port == port && forall c :: 0 <= c < b ==> buses[c].port != port
  }

  lemma AddBusExactly(t: Topology, name: string, port: string, baud: int)
    ensures var (t', err) := AddBus(t, name, port, baud);
            && (err.None? <==> port != "" && forall b :: 0 <= b < |t.buses| ==> t.buses[b].port != port)
            && (err.None? ==>
                  && Extends(t.buses, t'.buses) && t'.groups == t.groups
                  && t'.buses[|t.buses|].port == port && t'.buses[|t.buses|].baud == baud
                  && t'.buses[|t.buses|].boards == []
                  && t'.buses[|t.buses|].name == (if name != "" then name else "bus" + Decimal(|t.buses| + 1)))
            && (err.Some? && port == "" ==> err.value == PortRequired)
            && (err.Some? && port != "" ==> exists b :: IsFirstWithPort(t.buses, b, port) &&
                                                        err.value == PortInUse(t.buses[b].name))
  {
    hide Decimal;
    var b := BusWithPort(t.buses, port);
    assert b >= 0 ==> IsFirstWithPort(t.buses, b, port);
  }

  lemma RemoveBusExactly(t: Topology, b: int)
    ensures var (t', err) := RemoveBus(t, b);
            && (err.None? <==> Within(b, |t.buses|))
            && (err.None? ==> Without(t.buses, t'.buses, b) && t'.groups == t.groups)
  {
  }

  // ---- Boards ----

  // Only bus `b` differs, and only in its boards.
  predicate OnlyBoards(t: Topology, t': Topology, b: nat) {
    && |t'.buses| == |t.buses| && b < |t.buses| && t'.groups == t.groups
    && (forall c :: 0 <= c < |t.buses| && c != b ==> t'.buses[c] == t.buses[c])
    && t'.buses[b].name == t.buses[b].name && t'.buses[b].port == t.buses[b].port
    && t'.buses[b].baud == t.buses[b].baud
  }

  lemma AddBoardExactly(t: Topology, b: int, nickname: string, slaveId: int)
    ensures var (t', err) := AddBoard(t, b, nickname, slaveId);
            && (err.None? <==> Within(b, |t.buses|) && nickname != "" && 0 <= slaveId <= 247 &&
                               !NicknameUsed(t.buses, nickname) && !SlaveIdUsed(t.buses[b].boards, slaveId))
            && (err.None? ==>
                  && OnlyBoards(t, t', b) && Extends(t.buses[b].boards, t'.buses[b].boards)
                  && t'.buses[b].boards[|t.buses[b].boards|] == Board(nickname, slaveId))
  {
  }

  /**
    An added board is found under its nickname, at the port and baud rate of its
    bus and with its own slave ID, and every other nickname resolves as before.
   */
  lemma AddedBoardResolves(t: Topology, b: int, nickname: string, slaveId: int, other: string)
    requires NicknamesUnique(t.buses) && AddBoard(t, b, nickname, slaveId).1.None?
    ensures var t' := AddBoard(t, b, nickname, slaveId).0;
            && Resolve(t'.buses, nickname) ==
                 Found(Endpoint(t.buses[b].port, t.buses[b].baud, slaveId, nickname))
            && (other != nickname && other != "" ==> Resolve(t'.buses, other) == Resolve(t.buses, other))
  {
    hide FirstPlace, BusesOk;
    var t' := AddBoard(t, b, nickname, slaveId).0;
    AddBoardExactly(t, b, nickname, slaveId);
    AddBoardKeepsNicknames(t, b, nickname, slaveId);
    ResolveFindsBoard(t'.buses, Place(b, |t.buses[b].boards|), nickname);
    if other != nickname && other != "" {
      SameOthers(t.buses, t'.buses, other);
    }
  }

  lemma AddBoardKeepsNicknames(t: Topology, b: int, nickname: string, slaveId: int)
    requires NicknamesUnique(t.buses) && AddBoard(t, b, nickname, slaveId).1.None?
    ensures var t' := AddBoard(t, b, nickname, slaveId).0;
            && NicknamesUnique(t'.buses)
            && (forall p: Place, n: string :: n != nickname ==> (Located(t'.buses, p, n) <==> Located(t.buses, p, n)))
            && (forall p: Place, n: string ::
                  Located(t.buses, p, n) ==> EndpointAt(t'.buses, p) == EndpointAt(t.buses, p))
  {
    var t' := AddBoard(t, b, nickname, slaveId).0;
    var fresh_ := Place(b, |t.buses[b].boards|);
    assert forall r: Place, n: string :: Located(t.buses, r, n) ==> HasNickname(t.buses[r.bus].boards, n);
    forall p: Place, q: Place, name: string | Located(t'.buses, p, name) && Located(t'.buses, q, name)
      ensures p == q
    {
      assert p == fresh_ || Located(t.buses, p, name);
      assert q == fresh_ || Located(t.buses, q, name);
    }
  }

  // The places of a nickname are the same, and so are the endpoints there.
  lemma SameOthers(buses: seq<Bus>, buses': seq<Bus>, name: string)
    requires NicknamesUnique(buses) && NicknamesUnique(buses') && name != ""
    requires forall p: Place :: Located(buses', p, name) <==> Located(buses, p, name)
    requires forall p: Place :: Located(buses, p, name) ==> EndpointAt(buses', p) == EndpointAt(buses, p)
    ensures Resolve(buses', name) == Resolve(buses, name)
  {
    hide FirstPlace;
    UsedWhereLocated(buses, name);
    UsedWhereLocated(buses', name);
  }

  lemma UsedWhereLocated(buses: seq<Bus>, name: string)
    ensures NicknameUsed(buses, name) <==> exists p: Place :: Located(buses, p, name)
    ensures FirstPlace(buses, name).Some? ==> Located(buses, FirstPlace(buses, name).value, name)
    ensures FirstPlace(buses, name).None? ==> forall p: Place :: !Located(buses, p, name)
  {
    if b :| 0 <= b < |buses| && HasNickname(buses[b].boards, name) {
      var i :| 0 <= i < |buses[b].boards| && buses[b].boards[i].nickname == name;
      assert Located(buses, Place(b, i), name);
    }
    forall p: Place | Located(buses, p, name) ensures NicknameUsed(buses, name) {
      assert HasNickname(buses[p.bus].boards, name);
    }
  }

  // Accepted exactly when the old nickname is in use and the new one is free.
  lemma RenameBoardExactly(t: Topology, was: string, name: string)
    ensures RenameBoard(t, was, name).1.None? <==>
            name != "" && NicknameUsed(t.buses, was) && (name == was || !NicknameUsed(t.buses, name))
  {
    hide RenamePlace, RenameInGroups;
    var p := Locate(t.buses, was);
    if p.Some? {
      assert HasNickname(t.buses[p.value.bus].boards, was);
    }
  }

  lemma RemoveBoardExactly(t: Topology, b: int, i: int)
    ensures var (t', err) := RemoveBoard(t, b, i);
            && (err.None? <==> Within(b, |t.buses|) && Within(i, |t.buses[b].boards|))
            && (err.None? ==> OnlyBoards(t, t', b) && Without(t.buses[b].boards, t'.buses[b].boards, i))
  {
  }

  // Where a board was before the one at `i` of bus `b` was removed.
  function BackPlace(p: Place, b: nat, i: nat): Place {
    if p.bus == b then Place(b, Back(p.board, i)) else p
  }

  // A removed board is no longer found.
  lemma RemovedBoardIsGone(t: Topology, b: int, i: int)
    requires NicknamesUnique(t.buses) && RemoveBoard(t, b, i).1.None?
    requires t.buses[b].boards[i].nickname != ""
    ensures Resolve(RemoveBoard(t, b, i).0.buses, t.buses[b].boards[i].nickname) == Failed(NoSuchBoard)
  {
    hide FirstPlace, Erase;
    var name := t.buses[b].boards[i].nickname;
    var after := RemoveBoard(t, b, i).0.buses;
    ErasedAt(t.buses[b].boards, i);
    assert Located(t.buses, Place(b, i), name);
    forall p: Place ensures Located(after, p, name) ==> Located(t.buses, BackPlace(p, b, i), name) {
    }
    assert forall p: Place :: BackPlace(p, b, i) != Place(b, i);
    UsedWhereLocated(after, name);
  }

  // ---- Groups ----

  lemma AddGroupExactly(t: Topology, name: string)
    ensures var (t', err) := AddGroup(t, name);
            && (err.None? <==> name != "" && forall g :: 0 <= g < |t.groups| ==> t.groups[g].name != name)
            && (err.None? ==>
                  Extends(t.groups, t'.groups) && t'.groups[|t.groups|] == Group(name, []) && t'.buses == t.buses)
  {
  }

  lemma RenameGroupExactly(t: Topology, g: int, name: string)
    ensures var (t', err) := RenameGroup(t, g, name);
            && (err.None? <==> Within(g, |t.groups|) && name != "" &&
                               forall h :: 0 <= h < |t.groups| && h != g ==> t.groups[h].name != name)
            && (err.None? ==>
                  && |t'.groups| == |t.groups| && t'.buses == t.buses
                  && t'.groups[g] == Group(name, t.groups[g].channels)
                  && forall h :: 0 <= h < |t.groups| && h != g ==> t'.groups[h] == t.groups[h])
  {
  }

  lemma RemoveGroupExactly(t: Topology, g: int)
    ensures var (t', err) := RemoveGroup(t, g);
            && (err.None? <==> Within(g, |t.groups|))
            && (err.None? ==> Without(t.groups, t'.groups, g) && t'.buses == t.buses)
  {
  }

  // ---- Channels of a group ----

  // Only group `g` differs, and only in its channels.
  predicate OnlyChannels(t: Topology, t': Topology, g: nat) {
    && |t'.groups| == |t.groups| && g < |t.groups| && t'.buses == t.buses
    && t'.groups[g].name == t.groups[g].name
    && forall h :: 0 <= h < |t.groups| && h != g ==> t'.groups[h] == t.groups[h]
  }

  /**
    A channel is assigned if and only if no group holds it and its alias (the
    given one, or CH and its number) is free in the group.
   */
  lemma AddChannelExactly(t: Topology, g: int, board: string, channel: int, alias: string)
    ensures var (t', err) := AddChannel(t, g, board, channel, alias);
            var shown := if alias != "" then alias else DefaultAlias(channel);
            && (err.None? <==> Within(g, |t.groups|) && board != "" && channel >= 0 &&
                               (forall h :: 0 <= h < |t.groups| ==> !Contains(t.groups[h], board, channel)) &&
                               !AliasUsed(t.groups[g].channels, shown, -1))
            && (err.None? ==>
                  && OnlyChannels(t, t', g) && Extends(t.groups[g].channels, t'.groups[g].channels)
                  && t'.groups[g].channels[|t.groups[g].channels|] == Ref(board, channel, shown))
            && (err.Some? && err.value.AlreadyAssigned? ==>
                  exists h :: 0 <= h < |t.groups| && Contains(t.groups[h], board, channel) &&
                              err.value.group == t.groups[h].name)
  {
    hide DefaultAlias;
  }

  lemma RenameAliasExactly(t: Topology, g: int, i: int, alias: string)
    ensures var (t', err) := RenameAlias(t, g, i, alias);
            && (err.None? <==>
                  && Within(g, |t.groups|) && Within(i, |t.groups[g].channels|)
                  && var shown := if alias != "" then alias else DefaultAlias(t.groups[g].channels[i].channel);
                     forall j :: 0 <= j < |t.groups[g].channels| && j != i ==> t.groups[g].channels[j].alias != shown)
            && (err.None? ==>
                  && OnlyChannels(t, t', g) && |t'.groups[g].channels| == |t.groups[g].channels|
                  && (forall j :: 0 <= j < |t.groups[g].channels| && j != i ==>
                        t'.groups[g].channels[j] == t.groups[g].channels[j])
                  && var was := t.groups[g].channels[i];
                     t'.groups[g].channels[i] ==
                       Ref(was.board, was.channel, if alias != "" then alias else DefaultAlias(was.channel)))
  {
    hide DefaultAlias;
  }

  // By board and channel: the one place that holds it gets the alias.
  lemma RenameAliasOfExactly(t: Topology, p: Spot, board: string, channel: int, alias: string)
    requires RefsUnique(t.groups) && HeldAt(t.groups, p, board, channel)
    ensures RenameAliasOf(t, board, channel, alias) == RenameAlias(t, p.group, p.index, alias)
  {
    hide FindGroup, FindRef, RenameAlias;
    FoundIffHeld(t.groups, board, channel);
    var g := FindGroup(t.groups, board, channel);
    var i := FindRef(t.groups[g].channels, board, channel);
    assert HeldAt(t.groups, Spot(g, i), board, channel);
  }

  // A channel that no group holds cannot be renamed.
  lemma RenameAliasNeedsGroup(t: Topology, board: string, channel: int, alias: string)
    requires forall g :: 0 <= g < |t.groups| ==> !Contains(t.groups[g], board, channel)
    ensures RenameAliasOf(t, board, channel, alias) == (t, Some(NotAssigned))
  {
  }

  lemma RemoveChannelExactly(t: Topology, g: int, i: int)
    ensures var (t', err) := RemoveChannel(t, g, i);
            && (err.None? <==> Within(g, |t.groups|) && Within(i, |t.groups[g].channels|))
            && (err.None? ==> OnlyChannels(t, t', g) && Without(t.groups[g].channels, t'.groups[g].channels, i))
  {
  }

  /**
    Removing a channel frees it, and it alone: it is then in no group, and every
    other channel is found where it was.
   */
  lemma FindAfterRemove(t: Topology, g: int, i: int, board: string, channel: int)
    requires RefsUnique(t.groups) && RemoveChannel(t, g, i).1.None?
    ensures FindGroup(RemoveChannel(t, g, i).0.groups, board, channel) ==
            if IsFor(t.groups[g].channels[i], board, channel) then -1 else FindGroup(t.groups, board, channel)
  {
    hide Erase;
    var was, after := t.groups, RemoveChannel(t, g, i).0.groups;
    ErasedAt(was[g].channels, i);
    forall h | 0 <= h < |was|
      ensures Contains(after[h], board, channel) <==>
              Contains(was[h], board, channel) && !IsFor(was[g].channels[i], board, channel)
    {
      ContainsAfterRemove(was, after, g, i, h, board, channel);
    }
  }

  lemma ContainsAfterRemove(was: seq<Group>, after: seq<Group>, g: nat, i: nat, h: nat, board: string, channel: int)
    requires RefsUnique(was) && |after| == |was| && g < |was| && h < |was| && i < |was[g].channels|
    requires forall k :: 0 <= k < |was| && k != g ==> after[k] == was[k]
    requires |after[g].channels| == |was[g].channels| - 1
    requires forall k :: 0 <= k < |after[g].channels| ==> after[g].channels[k] == was[g].channels[Back(k, i)]
    ensures Contains(after[h], board, channel) <==>
            Contains(was[h], board, channel) && !IsFor(was[g].channels[i], board, channel)
  {
    if Contains(after[h], board, channel) {
      var j :| 0 <= j < |after[h].channels| && IsFor(after[h].channels[j], board, channel);
      var spot := Spot(h, if h == g then Back(j, i) else j);
      assert HeldAt(was, spot, board, channel);
      assert IsFor(was[g].channels[i], board, channel) ==> HeldAt(was, Spot(g, i), board, channel);
    }
    if Contains(was[h], board, channel) && !IsFor(was[g].channels[i], board, channel) {
      var j :| 0 <= j < |was[h].channels| && IsFor(was[h].channels[j], board, channel);
      assert IsFor(after[h].channels[if h == g && j > i then j - 1 else j], board, channel);
    }
  }
}
