/**
  Rollover groups: sets of source buttons of which at most one is active. Profiles are layered, a
  later group replacing every earlier one that shares a button with it. Groups also come from profile
  files, where the parser refuses what layering would drop.
*/
module Rollover {
  import opened Wrappers

  datatype Member = Member(hardwareId: string, button: string)

  datatype Winner = Newest | Oldest | Neutral | Priority

  datatype Group = Group(name: string, members: seq<Member>, winner: Winner, restore: bool)

  const MIN_MEMBERS := 2

  function MemberSet(g: Group): set<Member> { set m | m in g.members }

  /** A group that can roll over at all: two different members or more. */
  predicate Big(g: Group) { |MemberSet(g)| >= MIN_MEMBERS }

  predicate Disjoint(g: Group, h: Group) { MemberSet(g) !! MemberSet(h) }

  // ---- Layering ----

  /** The groups that share no member with `g`. */
  function Without(groups: seq<Group>, g: Group): seq<Group> {
    if groups == [] then []
    else
      Without(groups[..|groups| - 1], g)
      + if Disjoint(groups[|groups| - 1], g) then [groups[|groups| - 1]] else []
  }

  function Layer(groups: seq<Group>): seq<Group> {
    if groups == [] then []
    else
      var last := groups[|groups| - 1];
      var below := Layer(groups[..|groups| - 1]);
      if Big(last) then Without(below, last) + [last] else below
  }

  /** Nothing after it takes one of its members. */
  predicate Survives(groups: seq<Group>, i: nat)
    requires i < |groups|
  {
    && Big(groups[i])
    && forall j | i < j < |groups| :: Big(groups[j]) ==> Disjoint(groups[i], groups[j])
  }

  /** The surviving ones of the first `n` groups, in order. */
  function Survivors(groups: seq<Group>, n: nat): seq<Group>
    requires n <= |groups|
  {
    if n == 0 then [] else Survivors(groups, n - 1) + if Survives(groups, n - 1) then [groups[n - 1]] else []
  }

  lemma {:induction false} WithoutSurvivors(groups: seq<Group>, g: Group, n: nat)
    requires n <= |groups|
    ensures Big(g) ==> Survivors(groups + [g], n) == Without(Survivors(groups, n), g)
    ensures !Big(g) ==> Survivors(groups + [g], n) == Survivors(groups, n)
  {
    if n > 0 {
      WithoutSurvivors(groups, g, n - 1);
      var all := groups + [g];
      SurvivesMore(groups, g, n - 1);
      assert Survivors(all, n) == Survivors(all, n - 1) + if Survives(all, n - 1) then [groups[n - 1]] else [];
      if Survives(groups, n - 1) {
        WithoutAppend(Survivors(groups, n - 1), groups[n - 1], g);
      } else {
        assert Survivors(groups, n) == Survivors(groups, n - 1);
      }
    }
  }

  lemma WithoutAppend(groups: seq<Group>, x: Group, g: Group)
    ensures Without(groups + [x], g) == Without(groups, g) + if Disjoint(x, g) then [x] else []
  {
    assert (groups + [x])[..|groups|] == groups;
  }

  lemma SurvivesMore(groups: seq<Group>, g: Group, i: nat)
    requires i < |groups|
    ensures Survives(groups + [g], i) <==> Survives(groups, i) && (Big(g) ==> Disjoint(groups[i], g))
  {
    var all := groups + [g];
    assert all[|groups|] == g;
    assert forall j | 0 <= j < |groups| :: all[j] == groups[j];
  }

  /** Layering returns, in order, exactly the groups with two members or more that share none with a
      later such group. */
  lemma {:induction false} LayerIsSurvivors(groups: seq<Group>)
    ensures Layer(groups) == Survivors(groups, |groups|)
  {
    if groups != [] {
      var front, last := groups[..|groups| - 1], groups[|groups| - 1];
      LayerIsSurvivors(front);
      assert front + [last] == groups;
      WithoutSurvivors(front, last, |front|);
    }
  }

  /** No two groups share a member and every group is big enough. */
  ghost predicate Settled(groups: seq<Group>) {
    && (forall g | g in groups :: Big(g))
    && (forall i, j | 0 <= i < j < |groups| :: Disjoint(groups[i], groups[j]))
  }

  lemma AppendSettled(groups: seq<Group>, g: Group)
    requires Settled(groups)
    ensures Big(g) && (forall h | h in groups :: Disjoint(h, g)) ==> Settled(groups + [g])
  {
    assert forall i | 0 <= i < |groups| :: groups[i] in groups;
  }

  lemma {:induction false} WithoutSettled(groups: seq<Group>, g: Group)
    requires Settled(groups)
    ensures Settled(Without(groups, g))
    ensures forall h | h in Without(groups, g) :: h in groups && Disjoint(h, g)
  {
    if groups != [] {
      var front, last := groups[..|groups| - 1], groups[|groups| - 1];
      assert groups == front + [last];
      WithoutSettled(front, g);
      AppendSettled(Without(front, g), last);
    }
  }

  /** The result of layering has no shared members. */
  lemma {:induction false} LayerSettles(groups: seq<Group>)
    ensures Settled(Layer(groups))
  {
    if groups != [] {
      var below, last := Layer(groups[..|groups| - 1]), groups[|groups| - 1];
      LayerSettles(groups[..|groups| - 1]);
      WithoutSettled(below, last);
      AppendSettled(Without(below, last), last);
    }
  }

  lemma {:induction false} SurvivorsOfSettled(groups: seq<Group>, n: nat)
    requires Settled(groups) && n <= |groups|
    ensures Survivors(groups, n) == groups[..n]
  {
    if n > 0 { SurvivorsOfSettled(groups, n - 1); }
  }

  /** Layering changes nothing exactly when the groups are settled; in particular it is idempotent. */
  lemma LayerIdentity(groups: seq<Group>)
    ensures Layer(groups) == groups <==> Settled(groups)
    ensures Layer(Layer(groups)) == Layer(groups)
  {
    LayerSettles(groups);
    SettledIsFixed(Layer(groups));
    if Settled(groups) { SettledIsFixed(groups); }
  }

  lemma SettledIsFixed(groups: seq<Group>)
    requires Settled(groups)
    ensures Layer(groups) == groups
  {
    LayerIsSurvivors(groups);
    SurvivorsOfSettled(groups, |groups|);
  }

  method LayerRolloverGroups(groups: seq<Group>) returns (layered: seq<Group>)
    ensures layered == Survivors(groups, |groups|)
    ensures Settled(layered)
  {
    layered := [];
    for i := 0 to |groups|
      invariant layered == Layer(groups[..i])
    {
      assert groups[..i + 1][..i] == groups[..i];
      var g := groups[i];
      if |MemberSet(g)| >= MIN_MEMBERS {
        var kept := KeepDisjoint(layered, g);
        layered := kept + [Group(g.name, g.members, g.winner, g.restore)];
      }
    }
    assert groups[..|groups|] == groups;
    LayerIsSurvivors(groups);
    LayerSettles(groups);
  }

  method KeepDisjoint(groups: seq<Group>, g: Group) returns (kept: seq<Group>)
    ensures kept == Without(groups, g)
  {
    kept := [];
    for i := 0 to |groups|
      invariant kept == Without(groups[..i], g)
    {
      assert groups[..i + 1][..i] == groups[..i];
      if MemberSet(groups[i]) !! MemberSet(g) { kept := kept + [groups[i]]; }
    }
    assert groups[..|groups|] == groups;
  }

  // ---- Dropping members ----

  function Keep(members: seq<Member>, drop: Member -> bool): seq<Member> {
    if members == [] then []
    else Keep(members[..|members| - 1], drop) + if drop(members[|members| - 1]) then [] else [members[|members| - 1]]
  }

  function DropMembers(groups: seq<Group>, drop: Member -> bool): seq<Group> {
    if groups == [] then []
    else
      var last := groups[|groups| - 1];
      var kept := Keep(last.members, drop);
      DropMembers(groups[..|groups| - 1], drop) + if |kept| < MIN_MEMBERS then [] else [last.(members := kept)]
  }

  ghost predicate DistinctMembers(members: seq<Member>) {
    forall i, j | 0 <= i < j < |members| :: members[i] != members[j]
  }

  lemma {:induction false} KeepFacts(members: seq<Member>, drop: Member -> bool)
    ensures forall m :: m in Keep(members, drop) <==> m in members && !drop(m)
    ensures DistinctMembers(members) ==> DistinctMembers(Keep(members, drop))
  {
    if members != [] {
      KeepFacts(members[..|members| - 1], drop);
      assert members == members[..|members| - 1] + [members[|members| - 1]];
    }
  }

  lemma {:induction false} DistinctIsSet(members: seq<Member>)
    requires DistinctMembers(members)
    ensures |set m | m in members| == |members|
  {
    if members != [] {
      var front, last := members[..|members| - 1], members[|members| - 1];
      DistinctIsSet(front);
      assert members == front + [last];
      assert (set m | m in members) == (set m | m in front) + {last};
    }
  }

  lemma KeptGroup(g: Group, drop: Member -> bool)
    requires DistinctMembers(g.members)
    ensures var h := g.(members := Keep(g.members, drop));
            && MemberSet(h) <= MemberSet(g) && DistinctMembers(h.members)
            && (|h.members| >= MIN_MEMBERS ==> Big(h))
  {
    KeepFacts(g.members, drop);
    DistinctIsSet(Keep(g.members, drop));
  }

  /** The group is what is left of one of the given groups. */
  ghost predicate PartOf(h: Group, groups: seq<Group>) {
    exists g | g in groups :: MemberSet(h) <= MemberSet(g)
  }

  lemma {:induction false} DropParts(groups: seq<Group>, drop: Member -> bool)
    requires forall g | g in groups :: DistinctMembers(g.members)
    ensures forall h | h in DropMembers(groups, drop) :: Big(h) && DistinctMembers(h.members) && PartOf(h, groups)
  {
    if groups != [] {
      var front, last := groups[..|groups| - 1], groups[|groups| - 1];
      assert groups == front + [last];
      DropParts(front, drop);
      KeptGroup(last, drop);
      forall h | h in DropMembers(front, drop) ensures PartOf(h, groups) {
        var g :| g in front && MemberSet(h) <= MemberSet(g);
        assert g in groups;
      }
    }
  }

  lemma PartsDisjoint(x: Group, front: seq<Group>, last: Group)
    requires Settled(front + [last]) && PartOf(x, front)
    ensures Disjoint(x, last)
  {
    var groups := front + [last];
    var g :| g in front && MemberSet(x) <= MemberSet(g);
    var i :| 0 <= i < |front| && front[i] == g;
    assert Disjoint(groups[i], groups[|front|]);
  }

  lemma {:induction false} DropFacts(groups: seq<Group>, drop: Member -> bool)
    requires Settled(groups) && forall g | g in groups :: DistinctMembers(g.members)
    ensures Settled(DropMembers(groups, drop))
  {
    if groups != [] {
      var front, last := groups[..|groups| - 1], groups[|groups| - 1];
      assert groups == front + [last];
      DropFacts(front, drop);
      DropParts(front, drop);
      KeptGroup(last, drop);
      var h := last.(members := Keep(last.members, drop));
      forall x | x in DropMembers(front, drop) ensures Disjoint(x, h) {
        PartsDisjoint(x, front, last);
      }
      AppendSettled(DropMembers(front, drop), h);
    }
  }

  /** Places in a list, in order. */
  ghost predicate Places(at: seq<nat>, length: nat) {
    && (forall k | 0 <= k < |at| :: at[k] < length)
    && (forall i, j | 0 <= i < j < |at| :: at[i] < at[j])
  }

  /** The members that are not dropped are all kept, in order: `at` gives their places. */
  lemma {:induction false} KeepExactly(members: seq<Member>, drop: Member -> bool) returns (at: seq<nat>)
    ensures Places(at, |members|) && |Keep(members, drop)| == |at|
    ensures forall k | 0 <= k < |at| :: Keep(members, drop)[k] == members[at[k]]
    ensures forall i | 0 <= i < |members| :: i in at <==> !drop(members[i])
  {
    if members == [] {
      at := [];
    } else {
      var n := |members| - 1;
      at := KeepExactly(members[..n], drop);
      assert forall i | 0 <= i < n :: members[..n][i] == members[i];
      if !drop(members[n]) { at := at + [n]; }
    }
  }

  /** The group, with the members that are left. */
  ghost predicate LeftOf(g: Group, h: Group, drop: Member -> bool) {
    h.name == g.name && h.winner == g.winner && h.restore == g.restore && h.members == Keep(g.members, drop)
  }

  ghost predicate Remain(groups: seq<Group>, drop: Member -> bool, at: seq<nat>, kept: seq<Group>) {
    && Places(at, |groups|) && |kept| == |at|
    && (forall k | 0 <= k < |at| :: LeftOf(groups[at[k]], kept[k], drop))
    && (forall i | 0 <= i < |groups| :: i in at <==> |Keep(groups[i].members, drop)| >= 2)
  }

  lemma RemainSkip(front: seq<Group>, last: Group, drop: Member -> bool, at: seq<nat>, kept: seq<Group>)
    requires Remain(front, drop, at, kept) && |Keep(last.members, drop)| < 2
    ensures Remain(front + [last], drop, at, kept)
  {
  }

  lemma RemainNext(front: seq<Group>, last: Group, drop: Member -> bool, at: seq<nat>, kept: seq<Group>, h: Group)
    requires Remain(front, drop, at, kept) && |Keep(last.members, drop)| >= 2 && LeftOf(last, h, drop)
    ensures Remain(front + [last], drop, at + [|front|], kept + [h])
  {
    var groups, more := front + [last], at + [|front|];
    assert forall k | 0 <= k < |at| :: more[k] == at[k] && groups[at[k]] == front[at[k]];
  }

  /** Exactly the groups with two members left or more are kept, in order, with those members and otherwise
      as they were: `at` gives their places. */
  lemma {:induction false} DropExactly(groups: seq<Group>, drop: Member -> bool) returns (at: seq<nat>)
    ensures Remain(groups, drop, at, DropMembers(groups, drop))
  {
    if groups == [] {
      at := [];
    } else {
      var front, last := groups[..|groups| - 1], groups[|groups| - 1];
      at := DropExactly(front, drop);
      assert groups == front + [last];
      if |Keep(last.members, drop)| >= MIN_MEMBERS {
        RemainNext(front, last, drop, at, DropMembers(front, drop), last.(members := Keep(last.members, drop)));
        at := at + [|front|];
      } else {
        RemainSkip(front, last, drop, at, DropMembers(front, drop));
        assert DropMembers(front, drop) + [] == DropMembers(front, drop);
      }
    }
  }

  // ---- Parsing a profile file ----

  datatype Field<+T> = Missing | WrongType | Is(value: T)

  datatype RawMember = NotAMapping | RawMember(hardwareId: Field<string>, button: Field<string>)

  datatype RawGroup =
    | NotATable
    | RawGroup(name: Field<string>, winner: Field<string>, restore: Field<bool>, members: Field<seq<RawMember>>)

  datatype Raw = Absent | NotAList | Items(items: seq<RawGroup>)

  /** How strings are trimmed, and which winner a word names. */
  datatype Reading = Reading(strip: string -> string, winner: string -> Option<Winner>)

  function MemberOf(raw: RawMember, reading: Reading): Option<Member> {
    if raw.RawMember? && raw.hardwareId.Is? && raw.button.Is?
       && reading.strip(raw.hardwareId.value) != "" && reading.strip(raw.button.value) != ""
    then Some(Member(reading.strip(raw.hardwareId.value), reading.strip(raw.button.value)))
    else None
  }

  ghost predicate AllMembers(raws: seq<RawMember>, reading: Reading) {
    forall i | 0 <= i < |raws| :: MemberOf(raws[i], reading).Some?
  }

  ghost function MembersOf(raws: seq<RawMember>, reading: Reading): seq<Member>
    requires AllMembers(raws, reading)
  {
    seq(|raws|, i requires 0 <= i < |raws| => MemberOf(raws[i], reading).value)
  }

  /** The fields of a table are of the right kind. */
  ghost predicate FieldsOk(raw: RawGroup, reading: Reading) {
    HeadOk(raw, reading) && AllMembers(raw.members.value, reading)
  }

  predicate HeadOk(raw: RawGroup, reading: Reading) {
    && raw.RawGroup? && !raw.name.WrongType?
    && (raw.winner.Missing? || (raw.winner.Is? && reading.winner(raw.winner.value).Some?))
    && !raw.restore.WrongType?
    && raw.members.Is?
  }

  function GroupWith(raw: RawGroup, members: seq<Member>, reading: Reading): Group
    requires HeadOk(raw, reading)
  {
    Group(if raw.name.Is? then reading.strip(raw.name.value) else "",
          members,
          if raw.winner.Is? then reading.winner(raw.winner.value).value else Newest,
          if raw.restore.Is? then raw.restore.value else true)
  }

  ghost function GroupOf(raw: RawGroup, reading: Reading): Group
    requires FieldsOk(raw, reading)
  {
    GroupWith(raw, MembersOf(raw.members.value, reading), reading)
  }

  /** A group on its own: well typed, two members or more, none of them twice. */
  ghost predicate GroupOk(raw: RawGroup, reading: Reading) {
    && FieldsOk(raw, reading)
    && |GroupOf(raw, reading).members| >= MIN_MEMBERS
    && DistinctMembers(GroupOf(raw, reading).members)
  }

  /** What a profile file must satisfy: every group on its own, and no member in two groups. */
  ghost predicate Acceptable(items: seq<RawGroup>, reading: Reading) {
    && (forall i | 0 <= i < |items| :: GroupOk(items[i], reading))
    && (forall i, j | 0 <= i < j < |items| :: Disjoint(GroupOf(items[i], reading), GroupOf(items[j], reading)))
  }

  ghost function GroupsOf(items: seq<RawGroup>, reading: Reading): seq<Group>
    requires forall i | 0 <= i < |items| :: GroupOk(items[i], reading)
  {
    seq(|items|, i requires 0 <= i < |items| && GroupOk(items[i], reading) => GroupOf(items[i], reading))
  }

  /** The table stands for the group: its name is trimmed and empty if missing, the newest member wins and
      the previous one is restored unless it says otherwise, and its members are those listed, trimmed. */
  ghost predicate Denotes(raw: RawGroup, g: Group, reading: Reading)
    requires raw.RawGroup?
  {
    && g.name == (match raw.name case Is(name) => reading.strip(name) case _ => "")
    && (raw.winner == Missing ==> g.winner == Newest)
    && (raw.winner.Is? ==> reading.winner(raw.winner.value) == Some(g.winner))
    && (g.restore <==> raw.restore != Is(false))
    && raw.members.Is? && |g.members| == |raw.members.value|
    && forall i | 0 <= i < |g.members| ::
         && raw.members.value[i].RawMember?
         && raw.members.value[i].hardwareId.Is? && raw.members.value[i].button.Is?
         && g.members[i] == Member(reading.strip(raw.members.value[i].hardwareId.value),
                                   reading.strip(raw.members.value[i].button.value))
  }

  lemma GroupDenotes(raw: RawGroup, reading: Reading)
    requires FieldsOk(raw, reading)
    ensures Denotes(raw, GroupOf(raw, reading), reading)
  {
  }

  /** Everything the parser accepts is settled, and stays so when members are dropped; layering
      changes neither. */
  lemma AcceptedIsSettled(items: seq<RawGroup>, reading: Reading, drop: Member -> bool)
    requires Acceptable(items, reading)
    ensures var groups := GroupsOf(items, reading);
            && Settled(groups) && Layer(groups) == groups
            && Layer(DropMembers(groups, drop)) == DropMembers(groups, drop)
  {
    var groups := GroupsOf(items, reading);
    forall i | 0 <= i < |items| ensures Big(groups[i]) && DistinctMembers(groups[i].members) {
      assert GroupOk(items[i], reading);
      DistinctIsSet(groups[i].members);
    }
    assert Settled(groups);
    LayerIdentity(groups);
    DropFacts(groups, drop);
    LayerIdentity(DropMembers(groups, drop));
  }

  /** Read the members of one group, none of which may be taken already. */
  method ReadMembers(raws: seq<RawMember>, owners: set<Member>, reading: Reading) returns (r: Option<seq<Member>>)
    ensures r.Some? <==> AllMembers(raws, reading) && DistinctMembers(MembersOf(raws, reading))
                         && forall m | m in MembersOf(raws, reading) :: m !in owners
    ensures r.Some? ==> r.value == MembersOf(raws, reading)
  {
    var members: seq<Member> := [];
    for i := 0 to |raws|
      invariant |members| == i && AllMembers(raws[..i], reading) && members == MembersOf(raws[..i], reading)
      invariant DistinctMembers(members) && forall m | m in members :: m !in owners
    {
      var member := MemberOf(raws[i], reading);
      if member.None? { return None; }
      if member.value in members || member.value in owners {
        if AllMembers(raws, reading) {
          ghost var all := MembersOf(raws, reading);
          assert all[..i] == members && all[i] == member.value;
          if member.value in members {
            var k :| 0 <= k < |members| && members[k] == member.value;
            assert all[k] == all[i];
          }
        }
        return None;
      }
      members := members + [member.value];
    }
    assert raws[..|raws|] == raws;
    r := Some(members);
  }

  ghost predicate Taken(owners: set<Member>, groups: seq<Group>) {
    forall m :: m in owners <==> exists g | g in groups :: m in g.members
  }

  lemma Clash(items: seq<RawGroup>, reading: Reading, i: nat, m: Member, owners: set<Member>)
    requires i < |items| && Acceptable(items[..i], reading) && Taken(owners, GroupsOf(items[..i], reading))
    requires FieldsOk(items[i], reading) && m in GroupOf(items[i], reading).members && m in owners
    ensures !Acceptable(items, reading)
  {
    var front := items[..i];
    var g :| g in GroupsOf(front, reading) && m in g.members;
    var k :| 0 <= k < i && GroupsOf(front, reading)[k] == g;
    assert front[k] == items[k];
    assert m in MemberSet(GroupOf(items[k], reading)) && m in MemberSet(GroupOf(items[i], reading));
  }

  lemma Extend(items: seq<RawGroup>, reading: Reading, i: nat, owners: set<Member>)
    requires i < |items| && Acceptable(items[..i], reading) && Taken(owners, GroupsOf(items[..i], reading))
    requires GroupOk(items[i], reading)
    requires forall m | m in GroupOf(items[i], reading).members :: m !in owners
    ensures Acceptable(items[..i + 1], reading)
    ensures GroupsOf(items[..i + 1], reading) == GroupsOf(items[..i], reading) + [GroupOf(items[i], reading)]
    ensures Taken(owners + MemberSet(GroupOf(items[i], reading)), GroupsOf(items[..i + 1], reading))
  {
    var front, more, g := items[..i], items[..i + 1], GroupOf(items[i], reading);
    forall k | 0 <= k < i ensures Disjoint(GroupOf(more[k], reading), g) {
      assert more[k] == front[k];
      assert GroupsOf(front, reading)[k] in GroupsOf(front, reading);
    }
    forall k | 0 <= k < i ensures more[k] == front[k] {}
    var groups := GroupsOf(front, reading) + [g];
    assert GroupsOf(more, reading) == groups;
    forall m ensures m in owners + MemberSet(g) <==> exists h | h in groups :: m in h.members {
      if m in MemberSet(g) { assert g in groups; }
      if m in owners { var h :| h in GroupsOf(front, reading) && m in h.members; assert h in groups; }
    }
  }

  /** Parse the groups of a profile file. It succeeds exactly on acceptable files, and then returns
      the groups as written. */
  method GroupsFromToml(raw: Raw, reading: Reading) returns (r: Result<seq<Group>>)
    ensures r.Ok? <==> raw.Absent? || (raw.Items? && Acceptable(raw.items, reading))
    ensures r.Ok? ==> r.value == if raw.Items? then GroupsOf(raw.items, reading) else []
    ensures r.Ok? && raw.Items? ==> |r.value| == |raw.items| && forall i | 0 <= i < |raw.items| ::
              raw.items[i].RawGroup? && Denotes(raw.items[i], r.value[i], reading)
  {
    if raw.Absent? { return Ok([]); }
    if raw.NotAList? { return Err("rollover_groups must be an array of tables"); }
    var items := raw.items;
    var groups: seq<Group> := [];
    var owners: set<Member> := {};
    for i := 0 to |items|
      invariant Acceptable(items[..i], reading) && groups == GroupsOf(items[..i], reading) && Taken(owners, groups)
    {
      var item := items[i];
      if !HeadOk(item, reading) {
        assert !GroupOk(items[i], reading);
        return Err("malformed rollover group");
      }
      var members := ReadMembers(item.members.value, owners, reading);
      if members.None? {
        Refused(items, reading, i, owners);
        return Err("malformed, repeated or shared rollover member");
      }
      if |members.value| < MIN_MEMBERS {
        assert !GroupOk(items[i], reading);
        return Err("rollover group needs at least two members");
      }
      Extend(items, reading, i, owners);
      groups := groups + [GroupWith(item, members.value, reading)];
      owners := owners + set m | m in members.value;
    }
    assert items[..|items|] == items;
    forall i | 0 <= i < |items| ensures Denotes(items[i], groups[i], reading) {
      assert GroupOk(items[i], reading);
      GroupDenotes(items[i], reading);
    }
    r := Ok(groups);
  }

  lemma Refused(items: seq<RawGroup>, reading: Reading, i: nat, owners: set<Member>)
    requires i < |items| && HeadOk(items[i], reading)
    requires Acceptable(items[..i], reading) && Taken(owners, GroupsOf(items[..i], reading))
    requires var raws := items[i].members.value;
             !(AllMembers(raws, reading) && DistinctMembers(MembersOf(raws, reading))
               && forall m | m in MembersOf(raws, reading) :: m !in owners)
    ensures !Acceptable(items, reading)
  {
    if GroupOk(items[i], reading) {
      var m :| m in GroupOf(items[i], reading).members && m in owners;
      Clash(items, reading, i, m, owners);
    }
  }

  method DropRolloverMembers(groups: seq<Group>, drop: Member -> bool) returns (remaining: seq<Group>)
    ensures remaining == DropMembers(groups, drop)
  {
    remaining := [];
    for i := 0 to |groups|
      invariant remaining == DropMembers(groups[..i], drop)
    {
      assert groups[..i + 1][..i] == groups[..i];
      var g := groups[i];
      var members: seq<Member> := [];
      for j := 0 to |g.members|
        invariant members == Keep(g.members[..j], drop)
      {
        assert g.members[..j + 1][..j] == g.members[..j];
        if !drop(g.members[j]) { members := members + [g.members[j]]; }
      }
      assert g.members[..|g.members|] == g.members;
      if |members| >= MIN_MEMBERS {
        remaining := remaining + [Group(g.name, members, g.winner, g.restore)];
      }
    }
    assert groups[..|groups|] == groups;
  }
}
