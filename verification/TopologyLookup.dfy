/**
  How lookups behave across edits: renaming commutes with finding, the offered
  channels are exactly the assignable ones, and nicknames address boards
  without confusion (tools/psb_modbus_core/topology_rules.cpp).
 */
module TopologyLookup {
  import opened TopologySpec
  import opened TopologyRules
  import opened Wrappers

  // ---- Finding after a rename ----

  // The earlier of two group indices, where -1 stands for none.
  function Earlier(g: int, h: int): int {
    if g < 0 then h else if h < 0 || g < h then g else h
  }

  lemma ContainsRenamed(g: Group, old_: string, name: string, board: string, channel: int)
    ensures Contains(RenameInGroup(g, old_, name), board, channel) <==>
            || (board != old_ && Contains(g, board, channel))
            || (board == name && Contains(g, old_, channel))
  {
    var after := RenameInGroup(g, old_, name);
    assert |after.channels| == |g.channels|;
    assert forall i :: 0 <= i < |g.channels| ==> after.channels[i] == RenameRef(g.channels[i], old_, name);
    if Contains(g, board, channel) {
      var i :| 0 <= i < |g.channels| && IsFor(g.channels[i], board, channel);
      assert board != old_ ==> IsFor(after.channels[i], board, channel);
    }
    if Contains(g, old_, channel) {
      var i :| 0 <= i < |g.channels| && IsFor(g.channels[i], old_, channel);
      assert IsFor(after.channels[i], name, channel);
    }
    if Contains(after, board, channel) {
      var i :| 0 <= i < |after.channels| && IsFor(after.channels[i], board, channel);
      assert IsFor(g.channels[i], if g.channels[i].board == old_ then old_ else board, channel);
    }
  }

  /**
    A rename moves what was found under the old nickname to the new one; where
    both were referenced, the earlier group wins.
   */
  lemma FindAfterRename(groups: seq<Group>, old_: string, name: string, board: string, channel: int)
    requires old_ != name
    ensures FindGroup(RenameInGroups(groups, old_, name), board, channel) ==
            if board == name then Earlier(FindGroup(groups, old_, channel), FindGroup(groups, name, channel))
            else if board == old_ then -1
            else FindGroup(groups, board, channel)
  {
    hide Contains, RenameInGroup;
    var after := RenameInGroups(groups, old_, name);
    assert |after| == |groups|;
    forall g | 0 <= g < |groups|
      ensures Contains(after[g], board, channel) <==>
              || (board != old_ && Contains(groups[g], board, channel))
              || (board == name && Contains(groups[g], old_, channel))
    {
      assert after[g] == RenameInGroup(groups[g], old_, name);
      ContainsRenamed(groups[g], old_, name, board, channel);
    }
  }

  // When no group refers to the new nickname, renaming and finding commute.
  lemma RenameCommutesWithFind(t: Topology, old_: string, name: string, board: string, channel: int)
    requires RenameBoard(t, old_, name).1 == None && old_ != name && board != name
    requires forall c :: FindGroup(t.groups, name, c) < 0
    ensures FindGroup(RenameBoard(t, old_, name).0.groups, if board == old_ then name else board, channel) ==
            FindGroup(t.groups, board, channel)
  {
    FindAfterRename(t.groups, old_, name, if board == old_ then name else board, channel);
  }

  // ---- Channels offered for assignment ----

  lemma {:induction false} UnassignedExact(groups: seq<Group>, board: string, n: int, r: Ref)
    ensures r in Unassigned(groups, board, n) <==>
            && r.board == board && 0 <= r.channel < n
            && FindGroup(groups, board, r.channel) < 0
            && r.alias == DefaultAlias(r.channel)
    decreases if n < 0 then 0 else n
  {
    hide FindGroup, DefaultAlias;
    if n > 0 {
      UnassignedExact(groups, board, n - 1, r);
    }
  }

  // Some live board of that name has that channel.
  predicate IsLive(live: seq<LiveBoard>, board: string, channel: int) {
    exists k :: 0 <= k < |live| && live[k].nickname == board && 0 <= channel < live[k].numChannels
  }

  lemma IsLiveNext(live: seq<LiveBoard>, board: string, channel: int)
    requires live != []
    ensures var last := live[|live| - 1];
            IsLive(live, board, channel) <==>
            || IsLive(live[..|live| - 1], board, channel)
            || (last.nickname == board && 0 <= channel < last.numChannels)
  {
    var before := live[..|live| - 1];
    assert forall k :: 0 <= k < |before| ==> before[k] == live[k];
  }

  /**
    Offered are exactly the channels of the live boards that no group holds,
    each with its default alias.
   */
  lemma {:induction false} AvailableExact(groups: seq<Group>, live: seq<LiveBoard>, r: Ref)
    ensures r in Available(groups, live) <==>
            && IsLive(live, r.board, r.channel)
            && FindGroup(groups, r.board, r.channel) < 0
            && r.alias == DefaultAlias(r.channel)
  {
    hide FindGroup, DefaultAlias, IsLive, Unassigned;
    if live != [] {
      var last := |live| - 1;
      AvailableExact(groups, live[..last], r);
      UnassignedExact(groups, live[last].nickname, live[last].numChannels, r);
      IsLiveNext(live, r.board, r.channel);
    } else {
      assert !IsLive(live, r.board, r.channel) by { NoneLive(r.board, r.channel); }
    }
  }

  lemma NoneLive(board: string, channel: int)
    ensures !IsLive([], board, channel)
  {
  }

  // The channels of one board are offered in increasing order, each once.
  lemma {:induction false} UnassignedIncreases(groups: seq<Group>, board: string, n: int, i: nat, j: nat)
    requires i < j < |Unassigned(groups, board, n)|
    ensures Unassigned(groups, board, n)[i].channel < Unassigned(groups, board, n)[j].channel
    decreases if n < 0 then 0 else n
  {
    hide FindGroup, DefaultAlias;
    var before := Unassigned(groups, board, n - 1);
    if j < |before| {
      UnassignedIncreases(groups, board, n - 1, i, j);
    } else {
      UnassignedExact(groups, board, n - 1, before[i]);
    }
  }

  lemma FindAfterAdd(t: Topology, g: int, board: string, channel: int, alias: string, b: string, c: int)
    requires AddChannel(t, g, board, channel, alias).1 == None
    ensures FindGroup(AddChannel(t, g, board, channel, alias).0.groups, b, c) ==
            if b == board && c == channel then g else FindGroup(t.groups, b, c)
  {
    var after := AddChannel(t, g, board, channel, alias).0.groups;
    var was, now := t.groups[g].channels, after[g].channels;
    assert forall i :: 0 <= i < |was| ==> now[i] == was[i];
    assert Contains(after[g], board, channel) by {
      assert IsFor(now[|was|], board, channel);
    }
    assert Contains(after[g], b, c) <==> Contains(t.groups[g], b, c) || (b == board && c == channel) by {
      if Contains(t.groups[g], b, c) {
        var i :| 0 <= i < |was| && IsFor(was[i], b, c);
        assert IsFor(now[i], b, c);
      }
    }
    hide Contains;
    assert forall h :: 0 <= h < |after| && h != g ==> after[h] == t.groups[h];
  }

  // Assigning a channel takes it, and only it, off the offer.
  lemma AddingShrinksOffer(t: Topology, g: int, board: string, channel: int, alias: string,
                           live: seq<LiveBoard>, r: Ref)
    requires AddChannel(t, g, board, channel, alias).1 == None
    ensures r in Available(AddChannel(t, g, board, channel, alias).0.groups, live) <==>
            r in Available(t.groups, live) && !IsFor(r, board, channel)
  {
    hide AddChannel, Available, DefaultAlias;
    FindAfterAdd(t, g, board, channel, alias, r.board, r.channel);
    AvailableExact(t.groups, live, r);
    AvailableExact(AddChannel(t, g, board, channel, alias).0.groups, live, r);
    if IsFor(r, board, channel) {
      InRange(t, g, board, channel, alias);
    }
  }

  lemma InRange(t: Topology, g: int, board: string, channel: int, alias: string)
    requires AddChannel(t, g, board, channel, alias).1 == None
    ensures 0 <= g < |t.groups| && FindGroup(t.groups, board, channel) < 0
  {
  }

  // What is offered can be assigned, unless its alias is taken in that group.
  lemma OfferedCanBeAdded(t: Topology, live: seq<LiveBoard>, r: Ref, g: nat)
    requires r in Available(t.groups, live) && r.board != "" && g < |t.groups|
    ensures AddChannel(t, g, r.board, r.channel, r.alias).1 ==
            if AliasUsed(t.groups[g].channels, r.alias, -1) then Some(AliasInUse) else None
  {
    AvailableExact(t.groups, live, r);
    hide Available, DefaultAlias, AliasUsed, Contains;
    assert r.alias == DefaultAlias(r.channel) && FinalAlias(r.alias, r.channel) == r.alias;
  }

  // ---- Default aliases ----

  lemma {:induction false} DecimalInjective(m: nat, n: nat)
    requires Decimal(m) == Decimal(n)
    ensures m == n
  {
    if m >= 10 && n >= 10 {
      var a, b := Decimal(m), Decimal(n);
      assert a[..|a| - 1] == Decimal(m / 10) && b[..|b| - 1] == Decimal(n / 10);
      assert a[|a| - 1] == Digit(m % 10) && b[|b| - 1] == Digit(n % 10);
      DecimalInjective(m / 10, n / 10);
    }
  }

  // The number that a string of digits stands for.
  function NumberOf(s: string): int {
    if s == "" then 0
    else NumberOf(s[..|s| - 1]) * 10 + (s[|s| - 1] as int - '0' as int)
  }

  // The decimal numeral reads as the number, in digits and without leading zero.
  lemma {:induction false} DecimalReads(n: nat)
    ensures NumberOf(Decimal(n)) == n
    ensures forall i :: 0 <= i < |Decimal(n)| ==> '0' <= Decimal(n)[i] <= '9'
    ensures n > 0 ==> Decimal(n)[0] != '0'
  {
    if n >= 10 {
      var s := Decimal(n);
      assert s[..|s| - 1] == Decimal(n / 10) && s[|s| - 1] == Digit(n % 10);
      DecimalReads(n / 10);
    } else {
      assert Decimal(n) == [Digit(n)] && [Digit(n)][..0] == "";
    }
  }

  lemma DefaultAliasInjective(c: nat, d: nat)
    requires DefaultAlias(c) == DefaultAlias(d)
    ensures c == d
  {
    hide Decimal;
    assert DefaultAlias(c)[2..] == Decimal(c) && DefaultAlias(d)[2..] == Decimal(d);
    DecimalInjective(c, d);
  }

  // Channels 0 .. n-1 of one board, added to one group without naming them.
  function AddFirst(t: Topology, g: nat, board: string, n: nat): (Topology, Option<Error>) {
    if n == 0 then (t, None)
    else
      var (t1, err) := AddFirst(t, g, board, n - 1);
      if err.Some? then (t1, err) else AddChannel(t1, g, board, n - 1, "")
  }

  // An empty group takes a whole unassigned board, default aliases and all.
  lemma {:induction false} WholeBoardFits(t: Topology, g: nat, board: string, n: nat)
    requires g < |t.groups| && t.groups[g].channels == [] && board != ""
    requires forall c :: FindGroup(t.groups, board, c) < 0
    ensures var (t', err) := AddFirst(t, g, board, n);
            && err == None && |t'.groups| == |t.groups|
            && (forall c :: FindGroup(t'.groups, board, c) == if 0 <= c < n then g else -1)
            && |t'.groups[g].channels| == n
            && (forall i :: 0 <= i < n ==> t'.groups[g].channels[i] == Ref(board, i, DefaultAlias(i)))
  {
    hide FindGroup, DefaultAlias;
    if n > 0 {
      WholeBoardFits(t, g, board, n - 1);
      var t1 := AddFirst(t, g, board, n - 1).0;
      NextAliasIsFree(t1.groups[g].channels, board, n - 1);
      assert AddChannel(t1, g, board, n - 1, "").1 == None;
      forall c
        ensures FindGroup(AddFirst(t, g, board, n).0.groups, board, c) == if 0 <= c < n then g else -1
      {
        FindAfterAdd(t1, g, board, n - 1, "", board, c);
      }
    }
  }

  lemma NextAliasIsFree(channels: seq<Ref>, board: string, n: nat)
    requires |channels| == n
    requires forall i :: 0 <= i < n ==> channels[i] == Ref(board, i, DefaultAlias(i))
    ensures !AliasUsed(channels, DefaultAlias(n), -1)
  {
    hide DefaultAlias;
    if AliasUsed(channels, DefaultAlias(n), -1) {
      var i :| 0 <= i < |channels| && channels[i].alias == DefaultAlias(n);
      DefaultAliasInjective(i, n);
    }
  }

  // ---- Addressing boards ----

  // A nickname resolves to the board that carries it, wherever that is.
  lemma ResolveFindsBoard(buses: seq<Bus>, p: Place, nickname: string)
    requires NicknamesUnique(buses) && Located(buses, p, nickname) && nickname != ""
    ensures Resolve(buses, nickname) == Found(EndpointAt(buses, p))
  {
    assert NicknameUsed(buses, nickname) by {
      assert HasNickname(buses[p.bus].boards, nickname);
    }
  }

  // Two boards never resolve to the same port and slave ID.
  lemma ResolveInjective(buses: seq<Bus>, a: string, b: string)
    requires BusesOk(buses) && a != "" && b != ""
    requires Resolve(buses, a).Found? && Resolve(buses, b).Found?
    requires Resolve(buses, a).endpoint.port == Resolve(buses, b).endpoint.port
    requires Resolve(buses, a).endpoint.slaveId == Resolve(buses, b).endpoint.slaveId
    ensures a == b
  {
    hide FirstPlace;
    var p, q := FirstPlace(buses, a).value, FirstPlace(buses, b).value;
    assert SlaveIdsUnique(buses[p.bus].boards);
  }

  // The renamed board keeps its address; every other board keeps its own.
  lemma ResolveAfterRename(t: Topology, old_: string, name: string, board: string)
    requires BusesOk(t.buses) && RenameBoard(t, old_, name).1 == None && old_ != name && old_ != ""
    requires Resolve(t.buses, board).Found? && board != ""
    ensures var now := if board == old_ then name else board;
            Resolve(RenameBoard(t, old_, name).0.buses, now) ==
            Found(Resolve(t.buses, board).endpoint.(nickname := now))
  {
    hide FirstPlace, Locate, RenameInGroups;
    var p, q := Locate(t.buses, old_).value, FirstPlace(t.buses, board).value;
    var after := RenamePlace(t.buses, p, name);
    var now := if board == old_ then name else board;
    RenamePlaceKeeps(t.buses, p, old_, name);
    assert Located(after, q, now);
    ResolveFindsBoard(after, q, now);
  }

  lemma {:induction false} OnlyBoard(buses: seq<Bus>, p: Place)
    requires p.bus < |buses| && p.board < |buses[p.bus].boards|
    ensures BoardCount(buses) >= |buses[p.bus].boards|
    ensures BoardCount(buses) == 1 ==> p == Place(FirstPopulated(buses), 0)
  {
    var last := |buses| - 1;
    if p.bus < last {
      OnlyBoard(buses[..last], p);
    } else if BoardCount(buses) == 1 {
      NoBoardsBefore(buses[..last]);
    }
  }

  lemma {:induction false} NoBoardsBefore(buses: seq<Bus>)
    ensures BoardCount(buses) == 0 ==> FirstPopulated(buses) == -1
  {
    if buses != [] {
      NoBoardsBefore(buses[..|buses| - 1]);
    }
  }

  // Without a nickname the lookup succeeds exactly when there is one board in
  // all, and then finds it.
  lemma ResolveWithoutName(buses: seq<Bus>, p: Place)
    requires p.bus < |buses| && p.board < |buses[p.bus].boards|
    ensures if BoardCount(buses) == 1 then Resolve(buses, "") == Found(EndpointAt(buses, p))
            else Resolve(buses, "") == Failed(BoardAmbiguous)
  {
    OnlyBoard(buses, p);
  }

  // No board, no endpoint, whatever the nickname.
  lemma {:induction false} ResolveWithoutBoards(buses: seq<Bus>, nickname: string)
    requires forall b :: 0 <= b < |buses| ==> buses[b].boards == []
    ensures Resolve(buses, nickname) == Failed(if nickname == "" then NoBoards else NoSuchBoard)
  {
    NothingToCount(buses);
    assert !NicknameUsed(buses, nickname);
  }

  lemma {:induction false} NothingToCount(buses: seq<Bus>)
    requires forall b :: 0 <= b < |buses| ==> buses[b].boards == []
    ensures BoardCount(buses) == 0
  {
    if buses != [] {
      NothingToCount(buses[..|buses| - 1]);
    }
  }
}
