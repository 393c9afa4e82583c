/**
 Merging Salidium's hooks into a provider's settings, and telling them apart again.

 Settings map an event to a list of groups; a group has attributes of its own and a list of hooks.
 `isOurs` is the recogniser of Salidium's hooks. Objects are compared as the source compares them,
 without regard to key order.
 */
module HookMerge {
  import opened Wrappers

  type Event = string

  datatype Group<A, H> = Group(attributes: A, hooks: seq<H>)

  type Settings<A, H> = map<Event, seq<Group<A, H>>>

  function Groups<A, H>(s: Settings<A, H>, event: Event): seq<Group<A, H>> {
    if event in s then s[event] else []
  }

  // ---- The merge ----

  function Foreign<H>(hooks: seq<H>, isOurs: H -> bool): seq<H> {
    if hooks == [] then []
    else if isOurs(hooks[0]) then Foreign(hooks[1..], isOurs)
    else [hooks[0]] + Foreign(hooks[1..], isOurs)
  }

  /** The groups without Salidium's hooks; a group left without hooks goes. */
  function Kept<A, H>(groups: seq<Group<A, H>>, isOurs: H -> bool): seq<Group<A, H>> {
    if groups == [] then []
    else
      var foreign := Foreign(groups[0].hooks, isOurs);
      if foreign == [] then Kept(groups[1..], isOurs)
      else [groups[0].(hooks := foreign)] + Kept(groups[1..], isOurs)
  }

  function MergedGroups<A, H>(existing: Settings<A, H>, ours: Settings<A, H>, isOurs: H -> bool,
                              event: Event): seq<Group<A, H>> {
    Kept(Groups(existing, event), isOurs) + Groups(ours, event)
  }

  /** The merged settings: for each event the kept groups, then Salidium's; no empty events. */
  function Merged<A, H>(existing: Settings<A, H>, ours: Settings<A, H>, isOurs: H -> bool)
    : Settings<A, H>
  {
    map event | event in existing.Keys + ours.Keys
                && MergedGroups(existing, ours, isOurs, event) != []
      :: MergedGroups(existing, ours, isOurs, event)
  }

  method MergeHookGroups<A(==), H(==)>(existing: Settings<A, H>, ours: Settings<A, H>,
                                       isOurs: H -> bool)
    returns (hooks: Settings<A, H>, changed: bool)
    ensures hooks == Merged(existing, ours, isOurs)
    ensures changed <==> existing != hooks
  {
    hide MergedGroups, Merged;
    hooks := map[];
    var events := existing.Keys + ours.Keys;
    ghost var all := events;
    while events != {}
      invariant events <= all
      invariant forall event :: event in hooks <==>
                  event in all && event !in events
                  && MergedGroups(existing, ours, isOurs, event) != []
      invariant forall event :: event in hooks ==>
                  hooks[event] == MergedGroups(existing, ours, isOurs, event)
      decreases |events|
    {
      var event :| event in events;
      var merged := MergedGroups(existing, ours, isOurs, event);
      if merged != [] {
        hooks := hooks[event := merged];
      }
      events := events - {event};
    }
    MergedIs(existing, ours, isOurs, hooks);
    changed := existing != hooks;
  }

  lemma MergedIs<A, H>(existing: Settings<A, H>, ours: Settings<A, H>, isOurs: H -> bool,
                       hooks: Settings<A, H>)
    requires forall event :: event in hooks <==>
               event in existing.Keys + ours.Keys
               && MergedGroups(existing, ours, isOurs, event) != []
    requires forall event :: event in hooks ==>
               hooks[event] == MergedGroups(existing, ours, isOurs, event)
    ensures hooks == Merged(existing, ours, isOurs)
  {
    hide MergedGroups;
  }

  lemma GroupsOfMerged<A, H>(existing: Settings<A, H>, ours: Settings<A, H>, isOurs: H -> bool,
                             event: Event)
    ensures Groups(Merged(existing, ours, isOurs), event)
            == MergedGroups(existing, ours, isOurs, event)
  {
  }

  lemma MergedHasNoEmpty<A, H>(existing: Settings<A, H>, ours: Settings<A, H>, isOurs: H -> bool)
    ensures forall event :: event in Merged(existing, ours, isOurs) ==>
              Merged(existing, ours, isOurs)[event] != []
  {
  }

  /** Settings without empty events are told apart by their groups. */
  lemma SameGroups<A, H>(one: Settings<A, H>, two: Settings<A, H>)
    requires forall event :: event in one ==> one[event] != []
    requires forall event :: event in two ==> two[event] != []
    requires forall event :: Groups(one, event) == Groups(two, event)
    ensures one == two
  {
    forall event ensures event in one <==> event in two {
      assert Groups(one, event) == Groups(two, event);
    }
    forall event | event in one ensures one[event] == two[event] {
      assert Groups(one, event) == Groups(two, event);
    }
  }

  // ---- Laws ----

  /** Every hook of the settings is one the recogniser accepts. */
  ghost predicate Recognised<A, H>(s: Settings<A, H>, isOurs: H -> bool) {
    forall event, i, j :: GroupHook(s, event, i, j) ==> isOurs(s[event][i].hooks[j])
  }

  predicate GroupHook<A, H>(s: Settings<A, H>, event: Event, i: int, j: int) {
    event in s && 0 <= i < |s[event]| && 0 <= j < |s[event][i].hooks|
  }

  lemma {:induction false} ForeignAgain<H>(hooks: seq<H>, isOurs: H -> bool)
    ensures Foreign(Foreign(hooks, isOurs), isOurs) == Foreign(hooks, isOurs)
  {
    if hooks != [] {
      ForeignAgain(hooks[1..], isOurs);
      if !isOurs(hooks[0]) {
        assert Foreign(hooks, isOurs)[1..] == Foreign(hooks[1..], isOurs);
      }
    }
  }

  lemma {:induction false} KeptAgain<A, H>(groups: seq<Group<A, H>>, isOurs: H -> bool)
    ensures Kept(Kept(groups, isOurs), isOurs) == Kept(groups, isOurs)
  {
    if groups != [] {
      KeptAgain(groups[1..], isOurs);
      ForeignAgain(groups[0].hooks, isOurs);
      if Foreign(groups[0].hooks, isOurs) != [] {
        assert Kept(groups, isOurs)[1..] == Kept(groups[1..], isOurs);
      }
    }
  }

  lemma {:induction false} KeptAppend<A, H>(a: seq<Group<A, H>>, b: seq<Group<A, H>>,
                                            isOurs: H -> bool)
    ensures Kept(a + b, isOurs) == Kept(a, isOurs) + Kept(b, isOurs)
  {
    if a == [] {
      assert a + b == b;
    } else {
      assert (a + b)[1..] == a[1..] + b;
      KeptAppend(a[1..], b, isOurs);
    }
  }

  lemma {:induction false} ForeignNone<H>(hooks: seq<H>, isOurs: H -> bool)
    ensures Foreign(hooks, isOurs) == [] <==> forall j :: 0 <= j < |hooks| ==> isOurs(hooks[j])
  {
    if hooks != [] {
      ForeignNone(hooks[1..], isOurs);
      assert forall j :: 0 < j < |hooks| ==> hooks[j] == hooks[1..][j - 1];
    }
  }

  lemma {:induction false} KeptNone<A, H>(groups: seq<Group<A, H>>, isOurs: H -> bool)
    ensures Kept(groups, isOurs) == []
            <==> forall i :: 0 <= i < |groups| ==> Foreign(groups[i].hooks, isOurs) == []
  {
    if groups != [] {
      KeptNone(groups[1..], isOurs);
      assert forall i :: 0 < i < |groups| ==> groups[i] == groups[1..][i - 1];
    }
  }

  /** Recognised hooks are exactly those that leave nothing behind. */
  lemma RecognisedIffNoneKept<A, H>(s: Settings<A, H>, isOurs: H -> bool)
    ensures Recognised(s, isOurs) <==> forall event :: Kept(Groups(s, event), isOurs) == []
  {
    if Recognised(s, isOurs) {
      forall event ensures Kept(Groups(s, event), isOurs) == [] {
        forall i | 0 <= i < |Groups(s, event)|
          ensures Foreign(Groups(s, event)[i].hooks, isOurs) == []
        {
          ForeignNone(s[event][i].hooks, isOurs);
          assert forall j :: 0 <= j < |s[event][i].hooks| ==> GroupHook(s, event, i, j);
        }
        KeptNone(Groups(s, event), isOurs);
      }
    }
    if forall event :: Kept(Groups(s, event), isOurs) == [] {
      forall event, i, j | GroupHook(s, event, i, j) ensures isOurs(s[event][i].hooks[j]) {
        assert Kept(Groups(s, event), isOurs) == [];
        KeptNone(s[event], isOurs);
        ForeignNone(s[event][i].hooks, isOurs);
      }
    }
  }

  lemma KeptOfMerged<A, H>(existing: Settings<A, H>, ours: Settings<A, H>, isOurs: H -> bool,
                           event: Event)
    ensures Kept(Groups(Merged(existing, ours, isOurs), event), isOurs)
            == Kept(Groups(existing, event), isOurs) + Kept(Groups(ours, event), isOurs)
  {
    GroupsOfMerged(existing, ours, isOurs, event);
    KeptAppend(Kept(Groups(existing, event), isOurs), Groups(ours, event), isOurs);
    KeptAgain(Groups(existing, event), isOurs);
  }

  /** Whatever the settings and the later hooks are, only the later merge shows. */
  ghost predicate Superseded<A(!new), H(!new)>(first: Settings<A, H>, isOurs: H -> bool) {
    forall existing: Settings<A, H>, second: Settings<A, H> ::
      Merged(Merged(existing, first, isOurs), second, isOurs) == Merged(existing, second, isOurs)
  }

  lemma Supersedes<A, H>(existing: Settings<A, H>, first: Settings<A, H>, second: Settings<A, H>,
                         isOurs: H -> bool)
    requires Recognised(first, isOurs)
    ensures Merged(Merged(existing, first, isOurs), second, isOurs)
            == Merged(existing, second, isOurs)
  {
    RecognisedIffNoneKept(first, isOurs);
    hide Recognised, Groups;
    var twice := Merged(Merged(existing, first, isOurs), second, isOurs);
    var direct := Merged(existing, second, isOurs);
    MergedHasNoEmpty(Merged(existing, first, isOurs), second, isOurs);
    MergedHasNoEmpty(existing, second, isOurs);
    hide Merged;
    forall event ensures Groups(twice, event) == Groups(direct, event) {
      KeptOfMerged(existing, first, isOurs, event);
      GroupsOfMerged(Merged(existing, first, isOurs), second, isOurs, event);
      GroupsOfMerged(existing, second, isOurs, event);
    }
    SameGroups(twice, direct);
  }

  /**
   A later merge supersedes an earlier one, for all settings and all later hooks, exactly when the
   recogniser accepts every hook of the earlier one. Merging twice and installing then removing are
   the cases where the later hooks are the same, and none.
   */
  lemma SupersedesIff<A(!new), H(!new)>(first: Settings<A, H>, isOurs: H -> bool)
    ensures Recognised(first, isOurs) <==> Superseded(first, isOurs)
  {
    if Recognised(first, isOurs) {
      forall existing: Settings<A, H>, second: Settings<A, H>
        ensures Merged(Merged(existing, first, isOurs), second, isOurs)
                == Merged(existing, second, isOurs)
      {
        Supersedes(existing, first, second, isOurs);
      }
    } else {
      RecognisedIffNoneKept(first, isOurs);
      var event :| Kept(Groups(first, event), isOurs) != [];
      var none: Settings<A, H> := map[];
      KeptOfMerged(none, first, isOurs, event);
      GroupsOfMerged(Merged(none, first, isOurs), none, isOurs, event);
      GroupsOfMerged(none, none, isOurs, event);
    }
  }

  /** A foreign hook's place: its group's attributes, then the hook. */
  function ForeignHooks<A, H>(groups: seq<Group<A, H>>, isOurs: H -> bool): seq<(A, H)> {
    if groups == [] then []
    else Paired(groups[0].attributes, Foreign(groups[0].hooks, isOurs))
         + ForeignHooks(groups[1..], isOurs)
  }

  function Paired<A, H>(attributes: A, hooks: seq<H>): seq<(A, H)> {
    if hooks == [] then [] else [(attributes, hooks[0])] + Paired(attributes, hooks[1..])
  }

  lemma {:induction false} ForeignOfKept<A, H>(groups: seq<Group<A, H>>, isOurs: H -> bool)
    ensures ForeignHooks(Kept(groups, isOurs), isOurs) == ForeignHooks(groups, isOurs)
  {
    if groups != [] {
      ForeignOfKept(groups[1..], isOurs);
      ForeignAgain(groups[0].hooks, isOurs);
      if Foreign(groups[0].hooks, isOurs) != [] {
        assert Kept(groups, isOurs)[1..] == Kept(groups[1..], isOurs);
      }
    }
  }

  lemma {:induction false} ForeignAppend<A, H>(a: seq<Group<A, H>>, b: seq<Group<A, H>>,
                                               isOurs: H -> bool)
    ensures ForeignHooks(a + b, isOurs) == ForeignHooks(a, isOurs) + ForeignHooks(b, isOurs)
  {
    if a == [] {
      assert a + b == b;
    } else {
      assert (a + b)[1..] == a[1..] + b;
      ForeignAppend(a[1..], b, isOurs);
    }
  }

  lemma {:induction false} NoForeignHooks<A, H>(groups: seq<Group<A, H>>, isOurs: H -> bool)
    requires Kept(groups, isOurs) == []
    ensures ForeignHooks(groups, isOurs) == []
  {
    if groups != [] {
      NoForeignHooks(groups[1..], isOurs);
    }
  }

  /** Merging keeps every foreign hook under its event, with its group's attributes, in its order. */
  lemma ForeignHooksKept<A, H>(existing: Settings<A, H>, ours: Settings<A, H>, isOurs: H -> bool,
                               event: Event)
    requires Recognised(ours, isOurs)
    ensures ForeignHooks(Groups(Merged(existing, ours, isOurs), event), isOurs)
            == ForeignHooks(Groups(existing, event), isOurs)
  {
    RecognisedIffNoneKept(ours, isOurs);
    GroupsOfMerged(existing, ours, isOurs, event);
    ForeignAppend(Kept(Groups(existing, event), isOurs), Groups(ours, event), isOurs);
    ForeignOfKept(Groups(existing, event), isOurs);
    NoForeignHooks(Groups(ours, event), isOurs);
  }

  // ---- Where everything stands ----

  /** The places, in order, of all elements that satisfy a test. */
  ghost predicate Places<T>(all: seq<T>, holds: T -> bool, places: seq<int>) {
    && (forall i, j :: 0 <= i < j < |places| ==> places[i] < places[j])
    && (forall i :: 0 <= i < |places| ==> 0 <= places[i] < |all|)
    && (forall n :: 0 <= n < |all| ==> (n in places <==> holds(all[n])))
  }

  function Shifted(places: seq<int>): (later: seq<int>)
    ensures |later| == |places| && forall i :: 0 <= i < |places| ==> later[i] == places[i] + 1
  {
    seq(|places|, i requires 0 <= i < |places| => places[i] + 1)
  }

  function OneMorePlace(first: bool, later: seq<int>): seq<int> {
    if first then [0] + Shifted(later) else Shifted(later)
  }

  lemma ShiftedHas(places: seq<int>, n: int)
    ensures n in Shifted(places) <==> n - 1 in places
  {
    var later := Shifted(places);
    if n - 1 in places {
      var i :| 0 <= i < |places| && places[i] == n - 1;
      assert later[i] == n;
    }
  }

  lemma PlacesGrow<T>(all: seq<T>, holds: T -> bool, later: seq<int>)
    requires all != [] && Places(all[1..], holds, later)
    ensures Places(all, holds, OneMorePlace(holds(all[0]), later))
  {
    var places := OneMorePlace(holds(all[0]), later);
    forall n | 0 <= n < |all| ensures n in places <==> holds(all[n]) {
      ShiftedHas(later, n);
      if n > 0 {
        assert all[n] == all[1..][n - 1];
        assert n in places <==> n in Shifted(later);
      } else {
        assert n - 1 !in later;
      }
    }
  }

  /** A list is what stands at all places of another that satisfy a test, in order. */
  ghost predicate Selects<T>(all: seq<T>, holds: T -> bool, some: seq<T>) {
    exists places :: Places(all, holds, places) && Picks(all, places, some)
  }

  ghost predicate Picks<T>(all: seq<T>, places: seq<int>, some: seq<T>) {
    && |some| == |places|
    && forall i :: 0 <= i < |places| ==> 0 <= places[i] < |all| && some[i] == all[places[i]]
  }

  lemma PicksGrow<T>(all: seq<T>, later: seq<int>, rest: seq<T>, first: bool)
    requires all != [] && Picks(all[1..], later, rest)
    ensures Picks(all, OneMorePlace(first, later), if first then [all[0]] + rest else rest)
  {
  }

  lemma {:induction false} ForeignStands<H>(hooks: seq<H>, isOurs: H -> bool)
    ensures Selects(hooks, h => !isOurs(h), Foreign(hooks, isOurs))
  {
    var holds := (h: H) => !isOurs(h);
    if hooks == [] {
      assert Places(hooks, holds, []) && Picks(hooks, [], Foreign(hooks, isOurs));
    } else {
      ForeignStands(hooks[1..], isOurs);
      var later :| Places(hooks[1..], holds, later)
                   && Picks(hooks[1..], later, Foreign(hooks[1..], isOurs));
      PlacesGrow(hooks, holds, later);
      PicksGrow(hooks, later, Foreign(hooks[1..], isOurs), holds(hooks[0]));
      hide Places, Picks, OneMorePlace;
      assert Places(hooks, holds, OneMorePlace(holds(hooks[0]), later));
    }
  }

  predicate HasForeign<A, H>(isOurs: H -> bool, group: Group<A, H>) {
    exists j :: 0 <= j < |group.hooks| && !isOurs(group.hooks[j])
  }

  /** A group keeps its attributes and, in order, exactly its foreign hooks. */
  ghost predicate KeepsForeign<A, H>(group: Group<A, H>, kept: Group<A, H>, isOurs: H -> bool) {
    kept.attributes == group.attributes && Selects(group.hooks, h => !isOurs(h), kept.hooks)
  }

  lemma KeptGroup<A, H>(group: Group<A, H>, isOurs: H -> bool)
    ensures HasForeign(isOurs, group) <==> Foreign(group.hooks, isOurs) != []
    ensures KeepsForeign(group, group.(hooks := Foreign(group.hooks, isOurs)), isOurs)
  {
    ForeignNone(group.hooks, isOurs);
    ForeignStands(group.hooks, isOurs);
  }

  /** Each kept group stands for the group at its place. */
  ghost predicate KeepsAt<A, H>(groups: seq<Group<A, H>>, places: seq<int>, kept: seq<Group<A, H>>,
                                isOurs: H -> bool) {
    && |kept| >= |places|
    && forall i :: 0 <= i < |places| ==>
         0 <= places[i] < |groups| && KeepsForeign(groups[places[i]], kept[i], isOurs)
  }

  lemma KeepsAtGrows<A, H>(groups: seq<Group<A, H>>, later: seq<int>, rest: seq<Group<A, H>>,
                           isOurs: H -> bool, kept: Group<A, H>, first: bool)
    requires groups != [] && KeepsAt(groups[1..], later, rest, isOurs)
    requires first ==> KeepsForeign(groups[0], kept, isOurs)
    ensures KeepsAt(groups, OneMorePlace(first, later), if first then [kept] + rest else rest, isOurs)
  {
    hide KeepsForeign;
  }

  lemma {:induction false} KeptStands<A, H>(groups: seq<Group<A, H>>, isOurs: H -> bool)
    returns (places: seq<int>)
    ensures Places(groups, g => HasForeign(isOurs, g), places)
    ensures |Kept(groups, isOurs)| == |places| && KeepsAt(groups, places, Kept(groups, isOurs), isOurs)
  {
    if groups == [] {
      places := [];
    } else {
      var later := KeptStands(groups[1..], isOurs);
      var holds := (g: Group<A, H>) => HasForeign(isOurs, g);
      var kept := groups[0].(hooks := Foreign(groups[0].hooks, isOurs));
      KeptGroup(groups[0], isOurs);
      PlacesGrow(groups, holds, later);
      KeepsAtGrows(groups, later, Kept(groups[1..], isOurs), isOurs, kept, holds(groups[0]));
      hide Places, KeepsAt, KeepsForeign, HasForeign;
      places := OneMorePlace(holds(groups[0]), later);
    }
  }

  /**
   What a merge makes of an event: in order, the groups with a foreign hook, each with its attributes and
   exactly its foreign hooks, and then the groups merged in, as they are. An event without any goes.
   */
  lemma MergedStands<A, H>(existing: Settings<A, H>, ours: Settings<A, H>, isOurs: H -> bool,
                           event: Event) returns (places: seq<int>)
    ensures var merged, before := Groups(Merged(existing, ours, isOurs), event), Groups(existing, event);
            && Places(before, g => HasForeign(isOurs, g), places)
            && |merged| == |places| + |Groups(ours, event)|
            && KeepsAt(before, places, merged, isOurs)
            && merged[|places|..] == Groups(ours, event)
            && (event in Merged(existing, ours, isOurs) <==> merged != [])
  {
    hide KeepsForeign, Places, Kept, HasForeign;
    places := KeptStands(Groups(existing, event), isOurs);
    GroupsOfMerged(existing, ours, isOurs, event);
    MergedHasNoEmpty(existing, ours, isOurs);
  }

  // ---- Inspection ----

  function Owned<H>(hooks: seq<H>, isOurs: H -> bool): seq<H> {
    if hooks == [] then []
    else if isOurs(hooks[0]) then [hooks[0]] + Owned(hooks[1..], isOurs)
    else Owned(hooks[1..], isOurs)
  }

  /** Salidium's hooks among some groups, in order. */
  function OwnedHooks<A, H>(groups: seq<Group<A, H>>, isOurs: H -> bool): seq<H> {
    if groups == [] then [] else Owned(groups[0].hooks, isOurs) + OwnedHooks(groups[1..], isOurs)
  }

  function AllHooks<A, H>(groups: seq<Group<A, H>>): seq<H> {
    if groups == [] then [] else groups[0].hooks + AllHooks(groups[1..])
  }

  lemma {:induction false} OwnedOfForeign<H>(hooks: seq<H>, isOurs: H -> bool)
    ensures Owned(Foreign(hooks, isOurs), isOurs) == []
    ensures Foreign(hooks, isOurs) == [] ==> Owned(hooks, isOurs) == hooks
  {
    if hooks != [] {
      OwnedOfForeign(hooks[1..], isOurs);
      if !isOurs(hooks[0]) {
        assert Foreign(hooks, isOurs)[1..] == Foreign(hooks[1..], isOurs);
      }
    }
  }

  lemma {:induction false} OwnedOfKept<A, H>(groups: seq<Group<A, H>>, isOurs: H -> bool)
    ensures OwnedHooks(Kept(groups, isOurs), isOurs) == []
    ensures Kept(groups, isOurs) == [] ==> OwnedHooks(groups, isOurs) == AllHooks(groups)
  {
    if groups != [] {
      OwnedOfKept(groups[1..], isOurs);
      OwnedOfForeign(groups[0].hooks, isOurs);
      if Foreign(groups[0].hooks, isOurs) != [] {
        assert Kept(groups, isOurs)[1..] == Kept(groups[1..], isOurs);
      }
    }
  }

  lemma {:induction false} OwnedAppend<A, H>(a: seq<Group<A, H>>, b: seq<Group<A, H>>,
                                             isOurs: H -> bool)
    ensures OwnedHooks(a + b, isOurs) == OwnedHooks(a, isOurs) + OwnedHooks(b, isOurs)
  {
    if a == [] {
      assert a + b == b;
    } else {
      assert (a + b)[1..] == a[1..] + b;
      OwnedAppend(a[1..], b, isOurs);
    }
  }

  /** After a merge an event's recognised hooks are exactly the ones that were merged in. */
  lemma OwnedAreOurs<A, H>(existing: Settings<A, H>, ours: Settings<A, H>, isOurs: H -> bool,
                           event: Event)
    requires Recognised(ours, isOurs)
    ensures OwnedHooks(Groups(Merged(existing, ours, isOurs), event), isOurs)
            == AllHooks(Groups(ours, event))
  {
    RecognisedIffNoneKept(ours, isOurs);
    GroupsOfMerged(existing, ours, isOurs, event);
    OwnedAppend(Kept(Groups(existing, event), isOurs), Groups(ours, event), isOurs);
    OwnedOfKept(Groups(existing, event), isOurs);
    OwnedOfKept(Groups(ours, event), isOurs);
  }

  datatype Status = Configured | NotConfigured | Partial

  predicate Incomplete<A(==), H(==)>(existing: Settings<A, H>, ours: Settings<A, H>,
                                     isOurs: H -> bool, event: Event) {
    OwnedHooks(Groups(existing, event), isOurs) != AllHooks(Groups(ours, event))
  }

  ghost predicate NoneOwned<A, H>(existing: Settings<A, H>, isOurs: H -> bool) {
    forall event :: OwnedHooks(Groups(existing, event), isOurs) == []
  }

  /** What inspecting settings reports, given whether the relay script is healthy. */
  method InspectHooks<A(==), H(==)>(existing: Settings<A, H>, ours: Settings<A, H>,
                                    isOurs: H -> bool, relayHealthy: bool)
    returns (status: Status, incomplete: set<Event>)
    ensures forall event :: event in incomplete <==>
              event in existing.Keys + ours.Keys && Incomplete(existing, ours, isOurs, event)
    ensures status == Configured <==>
              existing == Merged(existing, ours, isOurs) && (relayHealthy || NoneOwned(existing, isOurs))
    ensures status == NotConfigured <==>
              existing != Merged(existing, ours, isOurs) && NoneOwned(existing, isOurs)
    ensures status == Configured && Recognised(ours, isOurs) ==> incomplete == {}
  {
    hide Merged, Recognised, OwnedHooks, AllHooks, NoneOwned;
    var merged, changed := MergeHookGroups(existing, ours, isOurs);
    var owned := OwnedEvents(existing, isOurs);
    incomplete := IncompleteEvents(existing, ours, isOurs);
    status := if !changed then Configured else if owned != {} then Partial else NotConfigured;
    if owned != {} && !relayHealthy {
      status := Partial;
    }
    ConfiguredIsComplete(existing, ours, isOurs);
  }

  method IncompleteEvents<A(==), H(==)>(existing: Settings<A, H>, ours: Settings<A, H>,
                                        isOurs: H -> bool) returns (incomplete: set<Event>)
    ensures forall event :: event in incomplete <==>
              event in existing.Keys + ours.Keys && Incomplete(existing, ours, isOurs, event)
  {
    hide Incomplete;
    incomplete := {};
    var events := existing.Keys + ours.Keys;
    while events != {}
      invariant events <= existing.Keys + ours.Keys
      invariant forall event :: event in incomplete <==>
                  event in existing.Keys + ours.Keys && event !in events
                  && Incomplete(existing, ours, isOurs, event)
      decreases |events|
    {
      var event :| event in events;
      if Incomplete(existing, ours, isOurs, event) {
        incomplete := incomplete + {event};
      }
      events := events - {event};
    }
  }

  /** The events with a hook of Salidium's. */
  method OwnedEvents<A(==), H(==)>(existing: Settings<A, H>, isOurs: H -> bool)
    returns (owned: set<Event>)
    ensures owned == {} <==> NoneOwned(existing, isOurs)
    ensures forall event :: event in owned <==>
              event in existing && OwnedHooks(existing[event], isOurs) != []
  {
    owned := set event | event in existing.Keys && OwnedHooks(existing[event], isOurs) != [];
    if owned == {} {
      forall event ensures OwnedHooks(Groups(existing, event), isOurs) == [] {
        assert event !in owned;
      }
    } else {
      var event :| event in owned;
      assert OwnedHooks(Groups(existing, event), isOurs) != [];
    }
  }

  /** Settings that a merge would not change have exactly the wanted hooks under every event. */
  lemma ConfiguredIsComplete<A, H>(existing: Settings<A, H>, ours: Settings<A, H>,
                                   isOurs: H -> bool)
    ensures existing == Merged(existing, ours, isOurs) && Recognised(ours, isOurs) ==>
              forall event ::
                OwnedHooks(Groups(existing, event), isOurs) == AllHooks(Groups(ours, event))
  {
    if existing == Merged(existing, ours, isOurs) && Recognised(ours, isOurs) {
      forall event
        ensures OwnedHooks(Groups(existing, event), isOurs) == AllHooks(Groups(ours, event))
      {
        OwnedAreOurs(existing, ours, isOurs, event);
      }
    }
  }
}
