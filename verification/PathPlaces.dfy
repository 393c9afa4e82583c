/**
 Which strings of an argument tree are met, in which order and in which context: said of the places in
 the tree, each the list of child numbers that leads to it.
 */
module PathPlaces {
  import opened Wrappers
  import opened JsonText
  import opened CanonicalJson
  import opened PathMetadata

  type Place = seq<int>

  function Children(v: Value): seq<Value> {
    match v
    case List(items) => items
    case Object(fields) => seq(|fields|, i requires 0 <= i < |fields| => fields[i].value)
    case _ => []
  }

  /** The value at a place, if the tree has it. */
  function At(v: Value, place: Place): Option<Value>
    decreases |place|
  {
    if place == [] then Some(v)
    else if 0 <= place[0] < |Children(v)| then At(Children(v)[place[0]], place[1..])
    else None
  }

  /** Some member key on the way to a place satisfies a test. */
  predicate OnTheWay(v: Value, place: Place, test: Text -> bool)
    decreases |place|
  {
    && place != [] && 0 <= place[0] < |Children(v)|
    && (|| (v.Object? && test(v.fields[place[0]].key))
        || OnTheWay(Children(v)[place[0]], place[1..], test))
  }

  /** A URI's context wins over a path's, wherever on the way its key stands. */
  function ContextOf(keys: Keys, v: Value, place: Place, outer: Context): Context {
    if outer.UriContext? || OnTheWay(v, place, keys.isUri) then UriContext
    else if outer.PathContext? || OnTheWay(v, place, keys.isPath) then PathContext
    else NoContext
  }

  /** The first child number that differs is smaller. */
  predicate Ahead(a: Place, b: Place) {
    exists k :: 0 <= k < |a| && k < |b| && a[..k] == b[..k] && a[k] < b[k]
  }

  /** A leaf tells of the string at a place. */
  predicate Tells(keys: Keys, v: Value, outer: Context, root: bool, leaf: Leaf, place: Place) {
    && At(v, place) == Some(Str(leaf.text))
    && leaf.context == ContextOf(keys, v, place, outer)
    && leaf.root == (root && place == [])
  }

  /** The leaves tell of these places in tree order, and no other place has a string. */
  ghost predicate Stand(keys: Keys, v: Value, outer: Context, root: bool, leaves: seq<Leaf>,
                        places: seq<Place>) {
    && |places| == |leaves|
    && (forall i :: 0 <= i < |leaves| ==> Tells(keys, v, outer, root, leaves[i], places[i]))
    && (forall i, j :: 0 <= i < j < |places| ==> Ahead(places[i], places[j]))
    && (forall place :: HasString(v, place) ==> place in places)
  }

  predicate HasString(v: Value, place: Place) {
    At(v, place).Some? && At(v, place).value.Str?
  }

  // ---- One more child ----

  function Under(n: int, places: seq<Place>): (under: seq<Place>)
    ensures |under| == |places| && forall i :: 0 <= i < |places| ==> under[i] == [n] + places[i]
  {
    seq(|places|, i requires 0 <= i < |places| => [n] + places[i])
  }

  /** The tree of the first children only. */
  function FirstChildren(v: Value, n: nat): Value
    requires v.List? || v.Object?
    requires n <= |Children(v)|
  {
    match v
    case List(items) => List(items[..n])
    case Object(fields) => Object(fields[..n])
  }

  /** The context in which the strings under a child are met. */
  function Inner(keys: Keys, v: Value, n: nat, outer: Context): Context
    requires n < |Children(v)|
  {
    if v.Object? then keys.Within(v.fields[n].key, outer) else outer
  }

  lemma TellsUnder(keys: Keys, v: Value, outer: Context, n: nat, leaf: Leaf, place: Place)
    requires n < |Children(v)|
    requires Tells(keys, Children(v)[n], Inner(keys, v, n, outer), false, leaf, place)
    ensures Tells(keys, v, outer, false, leaf, [n] + place)
  {
    assert ([n] + place)[1..] == place;
  }

  lemma FirstChildrenAt(v: Value, n: nat, place: Place)
    requires (v.List? || v.Object?) && n <= |Children(v)| && place != []
    ensures Children(FirstChildren(v, n)) == Children(v)[..n]
    ensures place[0] < n ==> At(FirstChildren(v, n), place) == At(v, place)
    ensures place[0] < n ==> forall test ::
              OnTheWay(FirstChildren(v, n), place, test) == OnTheWay(v, place, test)
  {
  }

  lemma AheadUnder(n: int, a: Place, b: Place)
    requires Ahead(a, b)
    ensures Ahead([n] + a, [n] + b)
  {
    var k :| 0 <= k < |a| && k < |b| && a[..k] == b[..k] && a[k] < b[k];
    assert ([n] + a)[..k + 1] == [n] + a[..k] && ([n] + b)[..k + 1] == [n] + b[..k];
    assert ([n] + a)[k + 1] < ([n] + b)[k + 1];
  }

  lemma AheadAtOnce(a: Place, b: Place)
    requires a != [] && b != [] && a[0] < b[0]
    ensures Ahead(a, b)
  {
    assert a[..0] == b[..0];
  }

  /** The leaves of the first children. */
  function PartLeaves(keys: Keys, v: Value, n: nat, outer: Context): seq<Leaf>
    requires (v.List? || v.Object?) && n <= |Children(v)|
  {
    match v
    case List(items) => ItemLeaves(keys, items[..n], outer)
    case Object(fields) => FieldLeaves(keys, fields[..n], outer)
  }

  lemma OneMoreChild(keys: Keys, v: Value, n: nat, outer: Context)
    requires (v.List? || v.Object?) && n < |Children(v)|
    ensures PartLeaves(keys, v, n + 1, outer)
            == PartLeaves(keys, v, n, outer)
               + Leaves(keys, Children(v)[n], Inner(keys, v, n, outer), false)
  {
    match v
    case List(items) =>
      assert items[..n + 1][..n] == items[..n];
    case Object(fields) =>
      assert fields[..n + 1][..n] == fields[..n];
  }

  lemma InnerPlaces(v: Value, n: nat, place: Place)
    requires (v.List? || v.Object?) && n < |Children(v)|
    ensures var w := FirstChildren(v, n + 1);
            HasString(w, place) <==>
              place != []
              && (HasString(FirstChildren(v, n), place)
                  || (place[0] == n && HasString(Children(v)[n], place[1..])))
  {
    if place != [] {
      FirstChildrenAt(v, n, place);
      FirstChildrenAt(v, n + 1, place);
    }
  }

  lemma FrontStillTells(keys: Keys, v: Value, n: nat, outer: Context, leaf: Leaf, place: Place)
    requires (v.List? || v.Object?) && n < |Children(v)|
    requires Tells(keys, FirstChildren(v, n), outer, false, leaf, place)
    ensures Tells(keys, FirstChildren(v, n + 1), outer, false, leaf, place)
    ensures place != [] && 0 <= place[0] < n
  {
    if place != [] {
      FirstChildrenAt(v, n, place);
      FirstChildrenAt(v, n + 1, place);
    }
  }

  lemma LastTells(keys: Keys, v: Value, n: nat, outer: Context, leaf: Leaf, place: Place)
    requires (v.List? || v.Object?) && n < |Children(v)|
    requires Tells(keys, Children(v)[n], Inner(keys, v, n, outer), false, leaf, place)
    ensures Tells(keys, FirstChildren(v, n + 1), outer, false, leaf, [n] + place)
  {
    TellsUnder(keys, v, outer, n, leaf, place);
    FirstChildrenAt(v, n + 1, [n] + place);
  }

  lemma JoinedAhead(front: seq<Place>, n: nat, inner: seq<Place>)
    requires forall i, j :: 0 <= i < j < |front| ==> Ahead(front[i], front[j])
    requires forall i, j :: 0 <= i < j < |inner| ==> Ahead(inner[i], inner[j])
    requires forall i :: 0 <= i < |front| ==> front[i] != [] && front[i][0] < n
    ensures var places := front + Under(n, inner);
            forall i, j :: 0 <= i < j < |places| ==> Ahead(places[i], places[j])
  {
    hide Ahead;
    var places := front + Under(n, inner);
    forall i, j | 0 <= i < j < |places| ensures Ahead(places[i], places[j]) {
      if i < |front| <= j {
        AheadAtOnce(places[i], places[j]);
      } else if |front| <= i {
        AheadUnder(n, inner[i - |front|], inner[j - |front|]);
      }
    }
  }

  lemma JoinedMeetAll(v: Value, n: nat, front: seq<Place>, inner: seq<Place>)
    requires (v.List? || v.Object?) && n < |Children(v)|
    requires forall place :: HasString(FirstChildren(v, n), place) ==> place in front
    requires forall place :: HasString(Children(v)[n], place) ==> place in inner
    ensures forall place :: HasString(FirstChildren(v, n + 1), place) ==> place in front + Under(n, inner)
  {
    var places := front + Under(n, inner);
    forall place | HasString(FirstChildren(v, n + 1), place) ensures place in places {
      InnerPlaces(v, n, place);
      if !HasString(FirstChildren(v, n), place) {
        assert place[1..] in inner;
        var k :| 0 <= k < |inner| && inner[k] == place[1..];
        var first: Place := [n];
        assert place == first + place[1..];
        assert places[|front| + k] == place;
      }
    }
  }

  /** Each leaf tells of its place. */
  ghost predicate AllTell(keys: Keys, v: Value, outer: Context, leaves: seq<Leaf>, places: seq<Place>) {
    && |places| == |leaves|
    && forall i :: 0 <= i < |leaves| ==> Tells(keys, v, outer, false, leaves[i], places[i])
  }

  lemma TellTogether(keys: Keys, v: Value, outer: Context, before: seq<Leaf>, front: seq<Place>,
                     more: seq<Leaf>, back: seq<Place>)
    requires AllTell(keys, v, outer, before, front) && AllTell(keys, v, outer, more, back)
    ensures AllTell(keys, v, outer, before + more, front + back)
  {
    hide Tells;
    var leaves, places := before + more, front + back;
    forall i | 0 <= i < |leaves| ensures Tells(keys, v, outer, false, leaves[i], places[i]) {
      if i < |before| {
        assert leaves[i] == before[i] && places[i] == front[i];
      } else {
        assert leaves[i] == more[i - |before|] && places[i] == back[i - |before|];
      }
    }
  }

  lemma JoinedTell(keys: Keys, v: Value, n: nat, outer: Context, before: seq<Leaf>, front: seq<Place>,
                   more: seq<Leaf>, inner: seq<Place>)
    requires (v.List? || v.Object?) && n < |Children(v)|
    requires AllTell(keys, FirstChildren(v, n), outer, before, front)
    requires AllTell(keys, Children(v)[n], Inner(keys, v, n, outer), more, inner)
    ensures AllTell(keys, FirstChildren(v, n + 1), outer, before + more, front + Under(n, inner))
    ensures forall i :: 0 <= i < |front| ==> front[i] != [] && front[i][0] < n
  {
    hide Inner, FirstChildren, Children, Tells;
    var w := FirstChildren(v, n + 1);
    forall i | 0 <= i < |front|
      ensures Tells(keys, w, outer, false, before[i], front[i]) && front[i] != [] && front[i][0] < n
    {
      FrontStillTells(keys, v, n, outer, before[i], front[i]);
    }
    forall i | 0 <= i < |inner| ensures Tells(keys, w, outer, false, more[i], Under(n, inner)[i]) {
      LastTells(keys, v, n, outer, more[i], inner[i]);
    }
    TellTogether(keys, w, outer, before, front, more, Under(n, inner));
  }

  lemma ChildJoins(keys: Keys, v: Value, n: nat, outer: Context, front: seq<Place>, inner: seq<Place>)
    requires (v.List? || v.Object?) && n < |Children(v)|
    requires Stand(keys, FirstChildren(v, n), outer, false, PartLeaves(keys, v, n, outer), front)
    requires Stand(keys, Children(v)[n], Inner(keys, v, n, outer), false,
                   Leaves(keys, Children(v)[n], Inner(keys, v, n, outer), false), inner)
    ensures Stand(keys, FirstChildren(v, n + 1), outer, false, PartLeaves(keys, v, n + 1, outer),
                  front + Under(n, inner))
  {
    hide PartLeaves, Leaves, Inner, FirstChildren, Children, Ahead, Tells, HasString;
    OneMoreChild(keys, v, n, outer);
    JoinedTell(keys, v, n, outer, PartLeaves(keys, v, n, outer), front,
               Leaves(keys, Children(v)[n], Inner(keys, v, n, outer), false), inner);
    JoinedAhead(front, n, inner);
    JoinedMeetAll(v, n, front, inner);
  }

  lemma {:induction false} PartStands(keys: Keys, v: Value, n: nat, outer: Context)
    returns (places: seq<Place>)
    requires (v.List? || v.Object?) && n <= |Children(v)|
    ensures Stand(keys, FirstChildren(v, n), outer, false, PartLeaves(keys, v, n, outer), places)
    decreases v, 0, n
  {
    if n == 0 {
      places := [];
      NoChildren(keys, v, outer);
    } else {
      var front := PartStands(keys, v, n - 1, outer);
      ChildIsSmaller(v, n - 1);
      var inner := LeavesStand(keys, Children(v)[n - 1], Inner(keys, v, n - 1, outer), false);
      places := front + Under(n - 1, inner);
      ChildJoins(keys, v, n - 1, outer, front, inner);
    }
  }

  lemma ChildIsSmaller(v: Value, n: nat)
    requires n < |Children(v)|
    ensures Children(v)[n] < v
  {
    match v
    case List(items) => assert items[n] < v;
    case Object(fields) => assert fields[n].value < v;
    case _ =>
  }

  lemma NoChildren(keys: Keys, v: Value, outer: Context)
    requires v.List? || v.Object?
    ensures Stand(keys, FirstChildren(v, 0), outer, false, PartLeaves(keys, v, 0, outer), [])
  {
    forall place ensures !HasString(FirstChildren(v, 0), place) {
    }
  }

  /**
   The walk meets every string of the tree and nothing else, in tree order, each in the context the keys
   on the way to it give, whatever the tree and the keys.
   */
  lemma {:induction false} LeavesStand(keys: Keys, v: Value, outer: Context, root: bool)
    returns (places: seq<Place>)
    ensures Stand(keys, v, outer, root, Leaves(keys, v, outer, root), places)
    decreases v, 1
  {
    if v.List? || v.Object? {
      var n := |Children(v)|;
      places := PartStands(keys, v, n, outer);
      WholeStands(keys, v, outer, root, places);
    } else {
      places := if v.Str? then [[]] else [];
      SingleStands(keys, v, outer, root);
    }
  }

  lemma WholeStands(keys: Keys, v: Value, outer: Context, root: bool, places: seq<Place>)
    requires v.List? || v.Object?
    requires var n := |Children(v)|;
             Stand(keys, FirstChildren(v, n), outer, false, PartLeaves(keys, v, n, outer), places)
    ensures Stand(keys, v, outer, root, Leaves(keys, v, outer, root), places)
  {
    var n := |Children(v)|;
    match v {
      case List(items) => assert items[..n] == items;
      case Object(fields) => assert fields[..n] == fields;
    }
    assert FirstChildren(v, n) == v;
    assert PartLeaves(keys, v, n, outer) == Leaves(keys, v, outer, root);
    hide PartLeaves, Leaves, FirstChildren, Ahead, OnTheWay;
    forall i | 0 <= i < |places|
      ensures Tells(keys, v, outer, root, Leaves(keys, v, outer, root)[i], places[i])
    {
      assert At(v, places[i]).value.Str?;
    }
  }

  lemma SingleStands(keys: Keys, v: Value, outer: Context, root: bool)
    requires !v.List? && !v.Object?
    ensures Stand(keys, v, outer, root, Leaves(keys, v, outer, root), if v.Str? then [[]] else [])
  {
    forall place | HasString(v, place) ensures place == [] && v.Str? {
    }
  }

  /** A text stands at the root, or where a path or a URI is expected. */
  predicate Expected(leaf: Leaf) {
    leaf.text != [] && (leaf.root || leaf.context.PathContext? || leaf.context.UriContext?)
  }

  /** The leaf is the first that counts with its text. */
  predicate FirstOfItsText(leaves: seq<Leaf>, i: int) {
    && 0 <= i < |leaves| && Expected(leaves[i])
    && forall j :: 0 <= j < i ==> !(Expected(leaves[j]) && leaves[j].text == leaves[i].text)
  }

  /** The texts collected are those of the leaves that count for the first time, in their order. */
  lemma {:induction false} FirstVisitsInOrder(leaves: seq<Leaf>) returns (first: seq<int>)
    ensures |first| == |FirstVisits(leaves)|
    ensures forall i, j :: 0 <= i < j < |first| ==> first[i] < first[j]
    ensures forall i :: 0 <= i < |first| ==>
              FirstOfItsText(leaves, first[i]) && leaves[first[i]].text == FirstVisits(leaves)[i]
    ensures forall n :: FirstOfItsText(leaves, n) ==> n in first
  {
    if leaves == [] {
      first := [];
    } else {
      var n := |leaves| - 1;
      var front := leaves[..n];
      var before := FirstVisitsInOrder(front);
      FirstVisitsIff(front, leaves[n].text);
      var isNew := leaves[n].Counts() && leaves[n].text !in FirstVisits(front);
      first := before + if isNew then [n] else [];
      assert forall leaf: Leaf :: leaf.Counts() <==> Expected(leaf);
      hide FirstVisits, Leaf.Counts, Expected;
      forall i ensures FirstOfItsText(leaves, i) <==>
                         if i == n then isNew else FirstOfItsText(front, i)
      {
        FrontFirst(leaves, i);
      }
    }
  }

  lemma FrontFirst(leaves: seq<Leaf>, i: int)
    requires leaves != []
    ensures i != |leaves| - 1 ==>
              (FirstOfItsText(leaves, i) <==> FirstOfItsText(leaves[..|leaves| - 1], i))
    ensures var n := |leaves| - 1;
            var front := leaves[..n];
            FirstOfItsText(leaves, n) <==>
              Expected(leaves[n]) && !exists j :: 0 <= j < |front| && Expected(front[j])
                                                  && front[j].text == leaves[n].text
  {
    var n := |leaves| - 1;
    var front := leaves[..n];
    assert forall j :: 0 <= j < n ==> front[j] == leaves[j];
  }

  /** A text of up to 1000 units is kept; of a longer one its first and last 490, with an ellipsis between. */
  lemma ClipKeepsEnds(text: Text)
    ensures |text| <= 1000 ==> Clip(text) == text
    ensures |text| > 1000 ==>
              Clip(text)[..490] == text[..490] && Clip(text)[490..491] == [0x2026]
              && Clip(text)[491..] == text[|text| - 490..]
  {
  }
}
