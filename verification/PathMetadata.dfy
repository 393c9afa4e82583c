/**
 Collecting the path- and URI-bearing arguments of a tool call, in a bounded list that says when it
 is not the whole truth.

 Which keys name paths or URIs, and which texts a URI's opener cannot decode, are parameters.
 */
module PathMetadata {
  import opened Wrappers
  import opened JsonText
  import opened CanonicalJson

  const MAX_PATHS := 32
  const MAX_CHARS := 1000
  const KEPT_CHARS := 490
  const ELLIPSIS := 0x2026

  datatype Context = NoContext | PathContext | UriContext

  datatype Keys = Keys(isPath: Text -> bool, isUri: Text -> bool) {
    /** What a key makes of the context it appears in. */
    function Within(key: Text, context: Context): Context {
      if isUri(key) then UriContext
      else if context != NoContext then context
      else if isPath(key) then PathContext
      else NoContext
    }
  }

  /** A string of the tree, where the walk meets it. */
  datatype Leaf = Leaf(text: Text, context: Context, root: bool) {
    predicate Counts() {
      (context != NoContext || root) && text != []
    }
  }

  // ---- What there is to collect ----

  /** The strings of a tree in visiting order. */
  function Leaves(keys: Keys, v: Value, context: Context, root: bool): seq<Leaf>
    decreases v, 0
  {
    match v
    case Str(text) => [Leaf(text, context, root)]
    case List(items) => ItemLeaves(keys, items, context)
    case Object(fields) => FieldLeaves(keys, fields, context)
    case _ => []
  }

  function ItemLeaves(keys: Keys, items: seq<Value>, context: Context): seq<Leaf>
    decreases items, 0
  {
    if items == [] then []
    else
      ItemLeaves(keys, items[..|items| - 1], context)
      + Leaves(keys, items[|items| - 1], context, false)
  }

  function FieldLeaves(keys: Keys, fields: seq<Field>, context: Context): seq<Leaf>
    decreases fields, 0
  {
    if fields == [] then []
    else
      var f := fields[|fields| - 1];
      FieldLeaves(keys, fields[..|fields| - 1], context)
      + Leaves(keys, f.value, keys.Within(f.key, context), false)
  }

  /** The distinct texts that count, in the order they are first met. */
  function FirstVisits(leaves: seq<Leaf>): (texts: seq<Text>)
    ensures forall i, j :: 0 <= i < j < |texts| ==> texts[i] != texts[j]
    ensures forall i :: 0 <= i < |texts| ==> texts[i] != []
  {
    if leaves == [] then []
    else
      var leaf := leaves[|leaves| - 1];
      var before := FirstVisits(leaves[..|leaves| - 1]);
      if leaf.Counts() && leaf.text !in before then before + [leaf.text] else before
  }

  lemma {:induction false} FirstVisitsIff(leaves: seq<Leaf>, text: Text)
    ensures text in FirstVisits(leaves)
            <==> exists i :: 0 <= i < |leaves| && leaves[i].Counts() && leaves[i].text == text
  {
    if leaves != [] {
      FirstVisitsIff(leaves[..|leaves| - 1], text);
      assert forall i :: 0 <= i < |leaves| - 1 ==> leaves[i] == leaves[..|leaves| - 1][i];
    }
  }

  /** A text within the bound, or its head and its tail with the middle cut out. */
  function Clip(text: Text): (clipped: Text)
    ensures |clipped| <= MAX_CHARS
  {
    if |text| <= MAX_CHARS then text
    else text[..KEPT_CHARS] + [ELLIPSIS] + text[|text| - KEPT_CHARS..]
  }

  function Bounded(texts: seq<Text>): seq<Text> {
    if |texts| <= MAX_PATHS then texts else texts[..MAX_PATHS]
  }

  function Clipped(texts: seq<Text>): (clipped: seq<Text>)
    ensures |clipped| == |texts|
    ensures forall i :: 0 <= i < |texts| ==> clipped[i] == Clip(texts[i])
  {
    if texts == [] then [] else Clipped(texts[..|texts| - 1]) + [Clip(texts[|texts| - 1])]
  }

  /** Something was left out or cut: a text past the bound, or one too long among those kept. */
  ghost predicate Incomplete(texts: seq<Text>) {
    |texts| > MAX_PATHS || exists i :: 0 <= i < |texts| && |texts[i]| > MAX_CHARS
  }

  ghost predicate Undecodable(undecodes: Text -> bool, leaves: seq<Leaf>) {
    exists i :: 0 <= i < |leaves| && leaves[i].context == UriContext && undecodes(leaves[i].text)
  }

  // ---- Collecting ----

  class PathCollector {
    const keys: Keys
    const undecodes: Text -> bool
    var paths: seq<Text>
    var seen: set<Text>
    var truncated: bool
    var undecodable: bool
    ghost var visited: seq<Leaf>

    /** What was collected is what the strings visited so far call for. */
    ghost predicate Valid()
      reads this
    {
      var texts := FirstVisits(visited);
      && paths == Clipped(Bounded(texts))
      && (forall t :: t in seen <==> t in texts)
      && (truncated <==> Incomplete(texts))
      && (undecodable <==> Undecodable(undecodes, visited))
    }

    constructor (keys: Keys, undecodes: Text -> bool)
      ensures Valid() && visited == []
      ensures this.keys == keys && this.undecodes == undecodes
    {
      this.keys, this.undecodes := keys, undecodes;
      paths, seen, truncated, undecodable, visited := [], {}, false, false, [];
    }

    method VisitText(text: Text, context: Context, root: bool)
      requires Valid()
      modifies this
      ensures Valid() && visited == old(visited) + [Leaf(text, context, root)]
    {
      hide Incomplete, Undecodable, FirstVisits, Clipped, Clip, Bounded;
      ghost var leaf := Leaf(text, context, root);
      PathsCount(visited);
      OneMoreText(visited, leaf);
      OneMoreUndecodable(undecodes, visited, leaf);
      if context == UriContext && !undecodable {
        undecodable := undecodes(text);
      }
      if (context != NoContext || root) && text != [] && text !in seen {
        seen := seen + {text};
        if |paths| >= MAX_PATHS {
          truncated := true;
        } else {
          if |text| > MAX_CHARS {
            truncated := true;
          }
          paths := paths + [Clip(text)];
        }
      }
      visited := visited + [leaf];
    }

    /** Walks a tree, collecting every string in a path or URI context. */
    method Visit(v: Value, context: Context, root: bool)
      requires Valid()
      modifies this
      ensures Valid() && visited == old(visited) + Leaves(keys, v, context, root)
      decreases v
    {
      hide FirstVisits, Incomplete, Undecodable, Clipped, Bounded;
      match v
      case Str(text) =>
        VisitText(text, context, root);
      case List(items) =>
        var i := 0;
        while i < |items|
          invariant 0 <= i <= |items|
          invariant Valid()
          invariant visited == old(visited) + ItemLeaves(keys, items[..i], context)
        {
          assert items[..i + 1][..i] == items[..i];
          Visit(items[i], context, false);
          i := i + 1;
        }
        assert items[..i] == items;
      case Object(fields) =>
        var i := 0;
        while i < |fields|
          invariant 0 <= i <= |fields|
          invariant Valid()
          invariant visited == old(visited) + FieldLeaves(keys, fields[..i], context)
        {
          assert fields[..i + 1][..i] == fields[..i];
          Visit(fields[i].value, keys.Within(fields[i].key, context), false);
          i := i + 1;
        }
        assert fields[..i] == fields;
      case _ =>
    }
  }

  /**
   The path metadata of an argument tree. The list is within its bounds; when it is not flagged as
   truncated it is exactly the distinct texts that count, in first-visit order; and it is flagged
   exactly when a text was left out or cut.
   */
  method PathArgumentMetadata(keys: Keys, undecodes: Text -> bool, v: Value)
    returns (paths: seq<Text>, truncated: bool, undecodable: bool)
    ensures var leaves := Leaves(keys, v, NoContext, true);
            var texts := FirstVisits(leaves);
            && |paths| <= MAX_PATHS && (forall i :: 0 <= i < |paths| ==> |paths[i]| <= MAX_CHARS)
            && (truncated <==> Incomplete(texts))
            && (!truncated ==> paths == texts)
            && (truncated ==> |paths| == if |texts| < MAX_PATHS then |texts| else MAX_PATHS)
            && (forall i :: 0 <= i < |paths| ==> paths[i] == Clip(texts[i]))
            && (undecodable <==> Undecodable(undecodes, leaves))
  {
    var collector := new PathCollector(keys, undecodes);
    collector.Visit(v, NoContext, true);
    paths, truncated, undecodable := collector.paths, collector.truncated, collector.undecodable;
    ghost var leaves := Leaves(keys, v, NoContext, true);
    assert collector.visited == leaves;
    Collected(FirstVisits(leaves));
  }

  lemma Collected(texts: seq<Text>)
    ensures var paths := Clipped(Bounded(texts));
            && |paths| <= MAX_PATHS && (forall i :: 0 <= i < |paths| ==> |paths[i]| <= MAX_CHARS)
            && |paths| == (if |texts| < MAX_PATHS then |texts| else MAX_PATHS)
            && (forall i :: 0 <= i < |paths| ==> paths[i] == Clip(texts[i]))
            && (!Incomplete(texts) ==> paths == texts)
  {
  }

  lemma PathsCount(leaves: seq<Leaf>)
    ensures var texts := FirstVisits(leaves);
            |Clipped(Bounded(texts))| == if |texts| < MAX_PATHS then |texts| else MAX_PATHS
  {
  }

  /** How one more string changes what is to be collected. */
  lemma OneMoreText(leaves: seq<Leaf>, leaf: Leaf)
    ensures var before, after := FirstVisits(leaves), FirstVisits(leaves + [leaf]);
            if leaf.Counts() && leaf.text !in before then
              && after == before + [leaf.text]
              && (forall t :: t in after <==> t in before || t == leaf.text)
              && (Incomplete(after) <==>
                    Incomplete(before) || |before| >= MAX_PATHS || |leaf.text| > MAX_CHARS)
              && Clipped(Bounded(after))
                 == Clipped(Bounded(before)) + if |before| < MAX_PATHS then [Clip(leaf.text)] else []
            else after == before
  {
    assert (leaves + [leaf])[..|leaves|] == leaves;
    var before, after := FirstVisits(leaves), FirstVisits(leaves + [leaf]);
    if leaf.Counts() && leaf.text !in before {
      assert after == before + [leaf.text];
      if |before| < MAX_PATHS {
        assert Bounded(after)[..|before|] == Bounded(before);
      } else {
        assert Bounded(after) == Bounded(before);
      }
      IncompleteGrows(before, leaf.text);
    }
  }

  lemma IncompleteGrows(before: seq<Text>, text: Text)
    ensures Incomplete(before + [text]) <==>
              Incomplete(before) || |before| >= MAX_PATHS || |text| > MAX_CHARS
  {
    var after := before + [text];
    if exists i :: 0 <= i < |before| && |before[i]| > MAX_CHARS {
      var i :| 0 <= i < |before| && |before[i]| > MAX_CHARS;
      assert |after[i]| > MAX_CHARS;
    }
    assert after[|before|] == text;
  }

  lemma OneMoreUndecodable(undecodes: Text -> bool, leaves: seq<Leaf>, leaf: Leaf)
    ensures Undecodable(undecodes, leaves + [leaf]) <==>
              Undecodable(undecodes, leaves)
              || (leaf.context == UriContext && undecodes(leaf.text))
  {
    var after := leaves + [leaf];
    if Undecodable(undecodes, leaves) {
      var i :| 0 <= i < |leaves| && leaves[i].context == UriContext && undecodes(leaves[i].text);
      assert after[i] == leaves[i];
    }
    assert after[|leaves|] == leaf;
  }
}
