/**
  What the editing rules of the topology keep: the six uniqueness properties,
  with the exact condition under which a rename keeps the last one, and how a
  rename acts on lookups (tools/psb_modbus_core/topology_rules.cpp).
 */
module TopologyRules {
  import opened TopologySpec
  import opened Wrappers

  // ---- The six properties ----

  ghost predicate NicknamesUnique(buses: seq<Bus>) {
    forall p: Place, q: Place, name: string :: Located(buses, p, name) && Located(buses, q, name) ==> p == q
  }

  predicate PortsUnique(buses: seq<Bus>) {
    forall b, c :: 0 <= b < |buses| && 0 <= c < |buses| && buses[b].port == buses[c].port ==> b == c
  }

  predicate SlaveIdsUnique(boards: seq<Board>) {
    && (forall i, j :: 0 <= i < |boards| && 0 <= j < |boards| && boards[i].slaveId == boards[j].slaveId ==> i == j)
    && (forall i :: 0 <= i < |boards| ==> 0 <= boards[i].slaveId <= 247)
  }

  predicate GroupNamesUnique(groups: seq<Group>) {
    forall g, h :: 0 <= g < |groups| && 0 <= h < |groups| && groups[g].name == groups[h].name ==> g == h
  }

  predicate AliasesUnique(channels: seq<Ref>) {
    forall i, j :: 0 <= i < |channels| && 0 <= j < |channels| && channels[i].alias == channels[j].alias ==> i == j
  }

  datatype Spot = Spot(group: nat, index: nat)

  predicate HeldAt(groups: seq<Group>, p: Spot, board: string, channel: int) {
    p.group < |groups| && p.index < |groups[p.group].channels| &&
    IsFor(groups[p.group].channels[p.index], board, channel)
  }

  // Each channel of a board is in at most one place of one group.
  ghost predicate RefsUnique(groups: seq<Group>) {
    forall p: Spot, q: Spot, board: string, channel: int ::
      HeldAt(groups, p, board, channel) && HeldAt(groups, q, board, channel) ==> p == q
  }

  ghost predicate BusesOk(buses: seq<Bus>) {
    && NicknamesUnique(buses)
    && PortsUnique(buses)
    && (forall b :: 0 <= b < |buses| ==> SlaveIdsUnique(buses[b].boards))
  }

  ghost predicate NamesOk(groups: seq<Group>) {
    && GroupNamesUnique(groups)
    && (forall g :: 0 <= g < |groups| ==> AliasesUnique(groups[g].channels))
  }

  ghost predicate WellFormed(t: Topology) {
    BusesOk(t.buses) && NamesOk(t.groups) && RefsUnique(t.groups)
  }

  // ---- Erasing ----

  function Back(k: nat, i: nat): nat {
    if k < i then k else k + 1
  }

  lemma ErasedAt<T>(s: seq<T>, i: nat)
    requires i < |s|
    ensures |Erase(s, i)| == |s| - 1
    ensures forall k :: 0 <= k < |s| - 1 ==> Erase(s, i)[k] == s[Back(k, i)]
  {
  }

  lemma EraseBusKeeps(buses: seq<Bus>, b: nat)
    requires BusesOk(buses) && b < |buses|
    ensures BusesOk(Erase(buses, b))
  {
    var after := Erase(buses, b);
    ErasedAt(buses, b);
    hide Erase;
    forall p: Place, q: Place, name: string | Located(after, p, name) && Located(after, q, name)
      ensures p == q
    {
      assert Located(buses, Place(Back(p.bus, b), p.board), name);
      assert Located(buses, Place(Back(q.bus, b), q.board), name);
    }
  }

  lemma EraseGroupKeepsRefs(groups: seq<Group>, g: nat)
    requires RefsUnique(groups) && g < |groups|
    ensures RefsUnique(Erase(groups, g))
  {
    var after := Erase(groups, g);
    ErasedAt(groups, g);
    hide Erase;
    forall p: Spot, q: Spot, board: string, channel: int |
      HeldAt(after, p, board, channel) && HeldAt(after, q, board, channel)
      ensures p == q
    {
      assert HeldAt(groups, Spot(Back(p.group, g), p.index), board, channel);
      assert HeldAt(groups, Spot(Back(q.group, g), q.index), board, channel);
    }
  }

  lemma EraseGroupKeepsNames(groups: seq<Group>, g: nat)
    requires NamesOk(groups) && g < |groups|
    ensures NamesOk(Erase(groups, g))
  {
    ErasedAt(groups, g);
    hide Erase;
  }

  // ---- Boards ----

  lemma EraseBoardKeeps(buses: seq<Bus>, b: nat, i: nat)
    requires BusesOk(buses) && b < |buses| && i < |buses[b].boards|
    ensures BusesOk(buses[b := buses[b].(boards := Erase(buses[b].boards, i))])
  {
    var after := buses[b := buses[b].(boards := Erase(buses[b].boards, i))];
    ErasedAt(buses[b].boards, i);
    hide Erase;
    forall p: Place, q: Place, name: string | Located(after, p, name) && Located(after, q, name)
      ensures p == q
    {
      assert Located(buses, if p.bus == b then Place(b, Back(p.board, i)) else p, name);
      assert Located(buses, if q.bus == b then Place(b, Back(q.board, i)) else q, name);
    }
    assert SlaveIdsUnique(after[b].boards);
  }

  lemma AddBoardKeeps(t: Topology, b: int, nickname: string, slaveId: int)
    requires BusesOk(t.buses)
    ensures BusesOk(AddBoard(t, b, nickname, slaveId).0.buses)
  {
    var (t', err) := AddBoard(t, b, nickname, slaveId);
    if err.None? {
      var fresh_ := Place(b, |t.buses[b].boards|);
      forall p: Place, q: Place, name: string | Located(t'.buses, p, name) && Located(t'.buses, q, name)
        ensures p == q
      {
        assert p == fresh_ || Located(t.buses, p, name);
        assert q == fresh_ || Located(t.buses, q, name);
        assert forall r: Place, n: string :: Located(t.buses, r, n) ==> HasNickname(t.buses[r.bus].boards, n);
      }
    }
  }

  lemma RenamePlaceKeeps(buses: seq<Bus>, p: Place, old_: string, name: string)
    requires BusesOk(buses) && Located(buses, p, old_)
    requires name != old_ ==> !NicknameUsed(buses, name)
    ensures BusesOk(RenamePlace(buses, p, name))
  {
    var after := RenamePlace(buses, p, name);
    forall q: Place, r: Place, n: string | Located(after, q, n) && Located(after, r, n)
      ensures q == r
    {
      assert q == p || Located(buses, q, n);
      assert r == p || Located(buses, r, n);
      assert forall s: Place, m: string :: Located(buses, s, m) ==> HasNickname(buses[s.bus].boards, m);
    }
    assert forall i :: 0 <= i < |after[p.bus].boards| ==>
      after[p.bus].boards[i].slaveId == buses[p.bus].boards[i].slaveId;
  }

  // ---- Groups ----

  lemma FoundIffHeld(groups: seq<Group>, board: string, channel: int)
    ensures FindGroup(groups, board, channel) >= 0 <==> exists p: Spot :: HeldAt(groups, p, board, channel)
    ensures forall p: Spot :: HeldAt(groups, p, board, channel) ==> Contains(groups[p.group], board, channel)
  {
    var g := FindGroup(groups, board, channel);
    if g >= 0 {
      var i :| 0 <= i < |groups[g].channels| && IsFor(groups[g].channels[i], board, channel);
      assert HeldAt(groups, Spot(g, i), board, channel);
    }
  }

  lemma AddChannelKeepsRefs(t: Topology, g: int, board: string, channel: int, alias: string)
    requires RefsUnique(t.groups)
    ensures RefsUnique(AddChannel(t, g, board, channel, alias).0.groups)
  {
    var (t', err) := AddChannel(t, g, board, channel, alias);
    if err.None? {
      FoundIffHeld(t.groups, board, channel);
      hide FindGroup;
      var fresh_ := Spot(g, |t.groups[g].channels|);
      forall p: Spot, q: Spot, b: string, c: int | HeldAt(t'.groups, p, b, c) && HeldAt(t'.groups, q, b, c)
        ensures p == q
      {
        assert p == fresh_ || HeldAt(t.groups, p, b, c);
        assert q == fresh_ || HeldAt(t.groups, q, b, c);
      }
    }
  }

  lemma RenameAliasKeepsRefs(t: Topology, g: int, i: int, alias: string)
    requires RefsUnique(t.groups)
    ensures RefsUnique(RenameAlias(t, g, i, alias).0.groups)
  {
    var (t', err) := RenameAlias(t, g, i, alias);
    if err.None? {
      forall p: Spot, q: Spot, b: string, c: int | HeldAt(t'.groups, p, b, c) && HeldAt(t'.groups, q, b, c)
        ensures p == q
      {
        assert HeldAt(t.groups, p, b, c) && HeldAt(t.groups, q, b, c);
      }
    }
  }

  lemma EraseChannelKeepsRefs(groups: seq<Group>, g: nat, i: nat)
    requires RefsUnique(groups) && g < |groups| && i < |groups[g].channels|
    ensures RefsUnique(groups[g := groups[g].(channels := Erase(groups[g].channels, i))])
  {
    var after := groups[g := groups[g].(channels := Erase(groups[g].channels, i))];
    ErasedAt(groups[g].channels, i);
    hide Erase;
    forall p: Spot, q: Spot, b: string, c: int | HeldAt(after, p, b, c) && HeldAt(after, q, b, c)
      ensures p == q
    {
      assert HeldAt(groups, if p.group == g then Spot(g, Back(p.index, i)) else p, b, c);
      assert HeldAt(groups, if q.group == g then Spot(g, Back(q.index, i)) else q, b, c);
    }
  }

  lemma ChannelEditKeepsNames(t: Topology, e: Edit)
    requires (e.EAddChannel? || e.ERenameAlias? || e.ERemoveChannel?) && NamesOk(t.groups)
    ensures NamesOk(Apply(t, e).0.groups)
  {
    if e.ERemoveChannel? && 0 <= e.group < |t.groups| && 0 <= e.index < |t.groups[e.group].channels| {
      ErasedAt(t.groups[e.group].channels, e.index);
      hide Erase;
      assert AliasesUnique(Erase(t.groups[e.group].channels, e.index));
    }
  }

  lemma GroupEditKeepsRefs(t: Topology, e: Edit)
    requires (e.EAddGroup? || e.ERenameGroup?) && RefsUnique(t.groups)
    ensures RefsUnique(Apply(t, e).0.groups)
  {
    var after := Apply(t, e).0.groups;
    forall p: Spot, q: Spot, b: string, c: int | HeldAt(after, p, b, c) && HeldAt(after, q, b, c)
      ensures p == q
    {
      assert HeldAt(t.groups, p, b, c) && HeldAt(t.groups, q, b, c);
    }
  }

  // ---- Renaming a board: exactly when channels stay in one place ----

  // Some channel is referenced under both names.
  ghost predicate Collides(groups: seq<Group>, old_: string, name: string) {
    old_ != name &&
    exists p: Spot, q: Spot, channel: int ::
      HeldAt(groups, p, old_, channel) && HeldAt(groups, q, name, channel)
  }

  lemma RenamedAt(groups: seq<Group>, old_: string, name: string, p: Spot, board: string, channel: int)
    ensures HeldAt(RenameInGroups(groups, old_, name), p, board, channel) <==>
            || (board != old_ && HeldAt(groups, p, board, channel))
            || (board == name && HeldAt(groups, p, old_, channel))
  {
    var after := RenameInGroups(groups, old_, name);
    assert |after| == |groups|;
    if p.group < |groups| {
      assert after[p.group] == RenameInGroup(groups[p.group], old_, name);
    }
  }

  /**
    After an accepted rename every channel is still in at most one place if and
    only if no channel was referenced under both the old and the new nickname.
    References outlive their boards, so the check for a used nickname does not
    rule that out.
   */
  lemma RenameKeepsRefsExactly(groups: seq<Group>, old_: string, name: string)
    requires RefsUnique(groups)
    ensures RefsUnique(RenameInGroups(groups, old_, name)) <==> !Collides(groups, old_, name)
  {
    hide RenameInGroups, HeldAt;
    var after := RenameInGroups(groups, old_, name);
    forall p: Spot, board: string, channel: int
      ensures HeldAt(after, p, board, channel) <==>
              || (board != old_ && HeldAt(groups, p, board, channel))
              || (board == name && HeldAt(groups, p, old_, channel))
    {
      RenamedAt(groups, old_, name, p, board, channel);
    }
    if Collides(groups, old_, name) {
      var p: Spot, q: Spot, c: int :| HeldAt(groups, p, old_, c) && HeldAt(groups, q, name, c);
      assert HeldAt(after, p, name, c) && HeldAt(after, q, name, c);
      OneNameEach(groups, p, old_, name, c);
    }
  }

  lemma OneNameEach(groups: seq<Group>, p: Spot, a: string, b: string, channel: int)
    requires a != b && HeldAt(groups, p, a, channel)
    ensures !HeldAt(groups, p, b, channel)
  {
  }

  lemma RenameKeepsNames(groups: seq<Group>, old_: string, name: string)
    requires NamesOk(groups)
    ensures NamesOk(RenameInGroups(groups, old_, name))
  {
    var after := RenameInGroups(groups, old_, name);
    forall g | 0 <= g < |after|
      ensures after[g].name == groups[g].name && AliasesUnique(after[g].channels)
    {
      assert after[g] == RenameInGroup(groups[g], old_, name);
    }
  }

  // ---- All edits ----

  // An edit that merges two references to one channel.
  ghost predicate Merges(t: Topology, e: Edit) {
    e.ERenameBoard? && Apply(t, e).1.None? && Collides(t.groups, e.was, e.nickname)
  }

  lemma EditKeepsBuses(t: Topology, e: Edit)
    requires BusesOk(t.buses)
    ensures BusesOk(Apply(t, e).0.buses)
  {
    hide Erase;
    match e {
      case EAddBus(_, _, _) => AddBusKeeps(t, e);
      case ERemoveBus(b) => if 0 <= b < |t.buses| { EraseBusKeeps(t.buses, b); }
      case EAddBoard(b, nickname, slaveId) => AddBoardKeeps(t, b, nickname, slaveId);
      case ERenameBoard(was, nickname) =>
        if Apply(t, e).1.None? {
          RenamePlaceKeeps(t.buses, Locate(t.buses, was).value, was, nickname);
        }
      case ERemoveBoard(b, i) =>
        if 0 <= b < |t.buses| && 0 <= i < |t.buses[b].boards| {
          EraseBoardKeeps(t.buses, b, i);
        }
      case _ =>
    }
  }

  lemma AddBusKeeps(t: Topology, e: Edit)
    requires e.EAddBus? && BusesOk(t.buses)
    ensures BusesOk(Apply(t, e).0.buses)
  {
    var (t', err) := Apply(t, e);
    if err.None? {
      forall p: Place, q: Place, name: string | Located(t'.buses, p, name) && Located(t'.buses, q, name)
        ensures p == q
      {
        assert Located(t.buses, p, name) && Located(t.buses, q, name);
      }
    }
  }

  lemma EditKeepsNames(t: Topology, e: Edit)
    requires NamesOk(t.groups)
    ensures NamesOk(Apply(t, e).0.groups)
  {
    hide Erase, RenameInGroups, AddChannel, RenameAlias, RemoveChannel;
    match e {
      case ERenameBoard(was, nickname) => RenameKeepsNames(t.groups, was, nickname);
      case ERemoveGroup(g) => if 0 <= g < |t.groups| { EraseGroupKeepsNames(t.groups, g); }
      case EAddChannel(_, _, _, _) => ChannelEditKeepsNames(t, e);
      case ERenameAlias(_, _, _) => ChannelEditKeepsNames(t, e);
      case ERemoveChannel(_, _) => ChannelEditKeepsNames(t, e);
      case ERenameAliasOf(nickname, channel, alias) =>
        var g := FindGroup(t.groups, nickname, channel);
        if g >= 0 {
          ChannelEditKeepsNames(t, ERenameAlias(g, FindRef(t.groups[g].channels, nickname, channel), alias));
        }
      case _ =>
    }
  }

  lemma EditKeepsRefsExactly(t: Topology, e: Edit)
    requires RefsUnique(t.groups)
    ensures RefsUnique(Apply(t, e).0.groups) <==> !Merges(t, e)
  {
    hide Erase, RenameInGroups, AddChannel, RenameAlias, RefsUnique, Collides;
    match e {
      case ERenameBoard(was, nickname) => RenameKeepsRefsExactly(t.groups, was, nickname);
      case EAddGroup(_) => GroupEditKeepsRefs(t, e);
      case ERenameGroup(_, _) => GroupEditKeepsRefs(t, e);
      case ERemoveGroup(g) => if 0 <= g < |t.groups| { EraseGroupKeepsRefs(t.groups, g); }
      case EAddChannel(g, nickname, channel, alias) => AddChannelKeepsRefs(t, g, nickname, channel, alias);
      case ERenameAlias(g, i, alias) => RenameAliasKeepsRefs(t, g, i, alias);
      case ERenameAliasOf(nickname, channel, alias) =>
        var g := FindGroup(t.groups, nickname, channel);
        if g >= 0 {
          RenameAliasKeepsRefs(t, g, FindRef(t.groups[g].channels, nickname, channel), alias);
        }
      case ERemoveChannel(g, i) =>
        if 0 <= g < |t.groups| && 0 <= i < |t.groups[g].channels| {
          EraseChannelKeepsRefs(t.groups, g, i);
        }
      case _ =>
    }
  }

  // One edit keeps all six properties exactly when it merges no references.
  lemma EditKeepsExactly(t: Topology, e: Edit)
    requires WellFormed(t)
    ensures WellFormed(Apply(t, e).0) <==> !Merges(t, e)
  {
    hide Apply, BusesOk, NamesOk, RefsUnique, Merges;
    EditKeepsBuses(t, e);
    EditKeepsNames(t, e);
    EditKeepsRefsExactly(t, e);
  }

  // Five of the six properties hold after every run of edits.
  lemma {:induction false} FiveOnEveryRun(es: seq<Edit>)
    ensures BusesOk(ApplyAll(EMPTY, es).buses) && NamesOk(ApplyAll(EMPTY, es).groups)
  {
    hide Apply;
    if es != [] {
      var last := |es| - 1;
      FiveOnEveryRun(es[..last]);
      EditKeepsBuses(ApplyAll(EMPTY, es[..last]), es[last]);
      EditKeepsNames(ApplyAll(EMPTY, es[..last]), es[last]);
    }
  }

  ghost predicate NeverMerges(t: Topology, es: seq<Edit>) {
    forall n :: 0 <= n < |es| ==> !Merges(ApplyAll(t, es[..n]), es[n])
  }

  // From the empty topology, every run of edits that merges no references
  // keeps all six properties.
  lemma {:induction false} WellFormedOnEveryRun(es: seq<Edit>)
    requires NeverMerges(EMPTY, es)
    ensures WellFormed(ApplyAll(EMPTY, es))
  {
    hide Apply, Merges;
    if es != [] {
      var last := |es| - 1;
      assert forall n | 0 <= n < last :: es[..last][n] == es[n] && es[..last][..n] == es[..n];
      WellFormedOnEveryRun(es[..last]);
      EditKeepsExactly(ApplyAll(EMPTY, es[..last]), es[last]);
    }
  }

  // A refused edit changes nothing.
  lemma ErrorChangesNothing(t: Topology, e: Edit)
    ensures Apply(t, e).1.Some? ==> Apply(t, e).0 == t
  {
    hide Erase, FindGroup, FindRef, Locate, RenamePlace, RenameInGroups;
  }

  // ---- A run that merges two references ----

  lemma ApplyNext(t: Topology, es: seq<Edit>, e: Edit)
    ensures ApplyAll(t, es + [e]) == Apply(ApplyAll(t, es), e).0
  {
    assert (es + [e])[..|es|] == es;
  }

  lemma BoardAppended(bus: Bus, nickname: string, id: int)
    requires nickname != "" && 0 <= id <= 247
    requires !HasNickname(bus.boards, nickname) && !SlaveIdUsed(bus.boards, id)
    ensures AddBoard(Topology([bus], []), 0, nickname, id) ==
            (Topology([bus.(boards := bus.boards + [Board(nickname, id)])], []), None)
  {
    assert [bus][0 := bus.(boards := bus.boards + [Board(nickname, id)])] ==
           [bus.(boards := bus.boards + [Board(nickname, id)])];
  }

  lemma ChannelAppended(buses: seq<Bus>, g: Group, board: string, channel: nat, alias: string)
    requires board != "" && alias != "" && !Contains(g, board, channel) && !AliasUsed(g.channels, alias, -1)
    ensures AddChannel(Topology(buses, [g]), 0, board, channel, alias) ==
            (Topology(buses, [g.(channels := g.channels + [Ref(board, channel, alias)])]), None)
  {
    var t := Topology(buses, [g]);
    assert FindGroup(t.groups, board, channel) < 0;
    assert [g][0 := g.(channels := g.channels + [Ref(board, channel, alias)])] ==
           [g.(channels := g.channels + [Ref(board, channel, alias)])];
  }

  lemma Grown(es: seq<Edit>, e: Edit, t: Topology) returns (more: seq<Edit>)
    requires !e.ERenameBoard? && (forall d | d in es :: !d.ERenameBoard?)
    requires Apply(ApplyAll(EMPTY, es), e).0 == t
    ensures more == es + [e] && ApplyAll(EMPTY, more) == t
    ensures forall d | d in more :: !d.ERenameBoard?
  {
    hide Apply;
    ApplyNext(EMPTY, es, e);
    more := es + [e];
  }

  // Two boards on one bus, then a group with channel 0 of both.
  lemma TwoBoardsGrouped() returns (es: seq<Edit>)
    ensures forall e | e in es :: !e.ERenameBoard?
    ensures ApplyAll(EMPTY, es) ==
            Topology([Bus("s", "p", 9600, [Board("a", 1), Board("b", 2)])],
                     [Group("g", [Ref("a", 0, "x"), Ref("b", 0, "y")])])
  {
    hide ApplyAll, AddBoard, AddChannel;
    var bus := Bus("s", "p", 9600, []);
    var a, b := Board("a", 1), Board("b", 2);
    var x, y := Ref("a", 0, "x"), Ref("b", 0, "y");
    NoEdits();
    es := Grown([], EAddBus("s", "p", 9600), Topology([bus], []));
    BoardAppended(bus, "a", 1);
    assert [] + [a] == [a];
    es := Grown(es, EAddBoard(0, "a", 1), Topology([bus.(boards := [a])], []));
    BoardAppended(bus.(boards := [a]), "b", 2);
    assert [a] + [b] == [a, b];
    var buses := [bus.(boards := [a, b])];
    es := Grown(es, EAddBoard(0, "b", 2), Topology(buses, []));
    es := Grown(es, EAddGroup("g"), Topology(buses, [Group("g", [])]));
    ChannelAppended(buses, Group("g", []), "a", 0, "x");
    assert [] + [x] == [x];
    es := Grown(es, EAddChannel(0, "a", 0, "x"), Topology(buses, [Group("g", [x])]));
    ChannelAppended(buses, Group("g", [x]), "b", 0, "y");
    assert [x] + [y] == [x, y];
    es := Grown(es, EAddChannel(0, "b", 0, "y"), Topology(buses, [Group("g", [x, y])]));
  }

  lemma NoEdits()
    ensures ApplyAll(EMPTY, []) == EMPTY
  {
  }

  /**
    The merge does happen: remove board "b" (its reference stays) and rename
    "a" to "b"; the rename is accepted and channel 0 of "b" is then held twice.
   */
  lemma RenameCanMerge()
    ensures exists es, e ::
              && NeverMerges(EMPTY, es)
              && WellFormed(ApplyAll(EMPTY, es))
              && Apply(ApplyAll(EMPTY, es), e).1 == None
              && !RefsUnique(Apply(ApplyAll(EMPTY, es), e).0.groups)
  {
    hide ApplyAll, WellFormed, RefsUnique, Collides;
    var es := TwoBoardsGrouped();
    ApplyNext(EMPTY, es, ERemoveBoard(0, 1));
    es := es + [ERemoveBoard(0, 1)];
    var t := Topology([Bus("s", "p", 9600, [Board("a", 1)])], [Group("g", [Ref("a", 0, "x"), Ref("b", 0, "y")])]);
    assert Erase([Board("a", 1), Board("b", 2)], 1) == [Board("a", 1)];
    assert ApplyAll(EMPTY, es) == t;
    assert NeverMerges(EMPTY, es) by {
      assert forall n :: 0 <= n < |es| ==> es[n] in es;
    }
    WellFormedOnEveryRun(es);
    var e := ERenameBoard("a", "b");
    assert Located(t.buses, Place(0, 0), "a");
    assert Apply(t, e).1 == None;
    StaleCollides(t.groups);
    assert RefsUnique(t.groups) by { Refs(t); }
    EditKeepsRefsExactly(t, e);
  }

  lemma Refs(t: Topology)
    requires WellFormed(t)
    ensures RefsUnique(t.groups)
  {
  }

  lemma StaleCollides(groups: seq<Group>)
    requires groups == [Group("g", [Ref("a", 0, "x"), Ref("b", 0, "y")])]
    ensures Collides(groups, "a", "b")
  {
    assert HeldAt(groups, Spot(0, 0), "a", 0) && HeldAt(groups, Spot(0, 1), "b", 0);
  }
}
