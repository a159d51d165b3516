/** The workspace walker. A tree lists each directory's entries in the order the file system gives them; the
    ignore patterns are a predicate on the relative path and on whether it names a directory. */
module Walker {
  import opened Ordering
  import opened RelPaths
  import opened Wrappers

  datatype Node = Plain(size: nat, mode: nat) | Link | Dir(mode: nat, entries: seq<Entry>)

  datatype Entry = Entry(name: string, node: Node)

  type Ignore = (string, bool) -> bool

  datatype WalkEntry = WalkEntry(relPath: string, size: nat, mode: nat, isDir: bool)

  function NameOf(e: Entry): string {
    e.name
  }

  function PathOf(w: WalkEntry): string {
    w.relPath
  }

  /** Names are as a file system allows them: distinct in a directory, not empty, without a slash. */
  ghost predicate Valid(node: Node) {
    node.Dir? ==>
      && DistinctKeys(node.entries, NameOf)
      && forall i :: 0 <= i < |node.entries| ==>
           node.entries[i].name != "" && '/' !in node.entries[i].name && Valid(node.entries[i].node)
  }

  function Rel(prefix: string, name: string): string {
    if prefix == "" then name else prefix + "/" + name
  }

  function EntryOf(rel: string, node: Node): WalkEntry
    requires !node.Link?
  {
    if node.Dir? then WalkEntry(rel, 0, node.mode, true) else WalkEntry(rel, node.size, node.mode, false)
  }

  // ---- what the recursion pushes -----------------------------------------------------------------------------

  /** The listing of one entry of a directory. */
  function Listed(ignored: Ignore, e: Entry, prefix: string): seq<WalkEntry>
    decreases e.node, 1, 0
  {
    var rel := Rel(prefix, e.name);
    if ignored(rel, e.node.Dir?) || e.node.Link? then []
    else if e.node.Dir? then [EntryOf(rel, e.node)] + ListedFrom(ignored, e.node, 0, rel)
    else [EntryOf(rel, e.node)]
  }

  /** The listing of a directory's entries from the `i`-th on. */
  function ListedFrom(ignored: Ignore, dir: Node, i: nat, prefix: string): seq<WalkEntry>
    requires dir.Dir? && i <= |dir.entries|
    decreases dir, 0, |dir.entries| - i
  {
    if i == |dir.entries| then []
    else Listed(ignored, dir.entries[i], prefix) + ListedFrom(ignored, dir, i + 1, prefix)
  }

  /** The symbolic links met and not ignored. */
  function Links(ignored: Ignore, e: Entry, prefix: string): seq<string>
    decreases e.node, 1, 0
  {
    var rel := Rel(prefix, e.name);
    if ignored(rel, e.node.Dir?) then []
    else if e.node.Link? then [rel]
    else if e.node.Dir? then LinksFrom(ignored, e.node, 0, rel)
    else []
  }

  function LinksFrom(ignored: Ignore, dir: Node, i: nat, prefix: string): seq<string>
    requires dir.Dir? && i <= |dir.entries|
    decreases dir, 0, |dir.entries| - i
  {
    if i == |dir.entries| then []
    else Links(ignored, dir.entries[i], prefix) + LinksFrom(ignored, dir, i + 1, prefix)
  }

  // ---- the walk ----------------------------------------------------------------------------------------------

  /** The listings of some entries, order forgotten. */
  function Bag(ignored: Ignore, es: seq<Entry>, prefix: string): multiset<WalkEntry> {
    if es == [] then multiset{}
    else Bag(ignored, es[..|es| - 1], prefix) + multiset(Listed(ignored, es[|es| - 1], prefix))
  }

  function LinkBag(ignored: Ignore, es: seq<Entry>, prefix: string): multiset<string> {
    if es == [] then multiset{}
    else LinkBag(ignored, es[..|es| - 1], prefix) + multiset(Links(ignored, es[|es| - 1], prefix))
  }

  lemma {:induction false} BagOfConcat(ignored: Ignore, a: seq<Entry>, b: seq<Entry>, prefix: string)
    ensures Bag(ignored, a + b, prefix) == Bag(ignored, a, prefix) + Bag(ignored, b, prefix)
  {
    hide Listed;
    if b == [] {
      assert a + b == a;
    } else {
      var n := |b| - 1;
      BagOfConcat(ignored, a, b[..n], prefix);
      assert (a + b)[..|a + b| - 1] == a + b[..n];
    }
  }

  lemma {:induction false} LinkBagOfConcat(ignored: Ignore, a: seq<Entry>, b: seq<Entry>, prefix: string)
    ensures LinkBag(ignored, a + b, prefix) == LinkBag(ignored, a, prefix) + LinkBag(ignored, b, prefix)
  {
    hide Links;
    if b == [] {
      assert a + b == a;
    } else {
      var n := |b| - 1;
      LinkBagOfConcat(ignored, a, b[..n], prefix);
      assert (a + b)[..|a + b| - 1] == a + b[..n];
    }
  }

  lemma BagOfSplit(ignored: Ignore, a: seq<Entry>, x: Entry, b: seq<Entry>, prefix: string)
    ensures Bag(ignored, a + [x] + b, prefix) == Bag(ignored, a + b, prefix) + Bag(ignored, [x], prefix)
    ensures LinkBag(ignored, a + [x] + b, prefix) == LinkBag(ignored, a + b, prefix) + LinkBag(ignored, [x], prefix)
  {
    hide Bag, LinkBag;
    BagOfConcat(ignored, a, b, prefix);
    BagOfConcat(ignored, a + [x], b, prefix);
    BagOfConcat(ignored, a, [x], prefix);
    LinkBagOfConcat(ignored, a, b, prefix);
    LinkBagOfConcat(ignored, a + [x], b, prefix);
    LinkBagOfConcat(ignored, a, [x], prefix);
  }

  lemma RemovedFromBoth(a: seq<Entry>, left: seq<Entry>, x: Entry, right: seq<Entry>)
    requires multiset(a + [x]) == multiset(left + [x] + right)
    ensures multiset(a) == multiset(left + right)
  {
    assert multiset(a + [x]) == multiset(a) + multiset{x};
    assert multiset(left + [x] + right) == multiset(left) + multiset{x} + multiset(right);
    assert multiset(left + right) == multiset(left) + multiset(right);
    assert multiset(a) == multiset(a + [x]) - multiset{x};
  }

  /** The order of the entries does not matter. */
  lemma {:induction false} BagOfPermutation(ignored: Ignore, a: seq<Entry>, b: seq<Entry>, prefix: string)
    requires multiset(a) == multiset(b)
    ensures Bag(ignored, a, prefix) == Bag(ignored, b, prefix)
    ensures LinkBag(ignored, a, prefix) == LinkBag(ignored, b, prefix)
    decreases |a|
  {
    hide Bag, LinkBag;
    if a == [] {
      assert b == [] by { assert |multiset(b)| == |b|; }
    } else {
      var n := |a| - 1;
      var x := a[n];
      InMultiset(a, b, x);
      var k :| 0 <= k < |b| && b[k] == x;
      var left, right := b[..k], b[k + 1..];
      assert a == a[..n] + [x] && b == left + [x] + right;
      RemovedFromBoth(a[..n], left, x, right);
      BagOfPermutation(ignored, a[..n], left + right, prefix);
      BagOfSplit(ignored, a[..n], x, [], prefix);
      BagOfSplit(ignored, left, x, right, prefix);
      assert a[..n] + [x] + [] == a && a[..n] + [] == a[..n];
    }
  }

  lemma BagOfOne(ignored: Ignore, e: Entry, prefix: string)
    ensures Bag(ignored, [e], prefix) == multiset(Listed(ignored, e, prefix))
    ensures LinkBag(ignored, [e], prefix) == multiset(Links(ignored, e, prefix))
  {
    assert [e][..0] == [];
    hide Listed, Links;
  }

  lemma OneEntryMore(ignored: Ignore, dir: Node, i: nat, prefix: string)
    requires dir.Dir? && i < |dir.entries|
    ensures dir.entries[i..] == [dir.entries[i]] + dir.entries[i + 1..]
    ensures ListedFrom(ignored, dir, i, prefix)
            == Listed(ignored, dir.entries[i], prefix) + ListedFrom(ignored, dir, i + 1, prefix)
    ensures LinksFrom(ignored, dir, i, prefix)
            == Links(ignored, dir.entries[i], prefix) + LinksFrom(ignored, dir, i + 1, prefix)
  {
    hide Listed, Links;
  }

  lemma NoEntry(ignored: Ignore, dir: Node, prefix: string)
    requires dir.Dir?
    ensures var rest := dir.entries[|dir.entries|..];
            Bag(ignored, rest, prefix) == multiset{} && LinkBag(ignored, rest, prefix) == multiset{}
    ensures ListedFrom(ignored, dir, |dir.entries|, prefix) == []
    ensures LinksFrom(ignored, dir, |dir.entries|, prefix) == []
  {
  }

  lemma {:induction false} BagOfDir(ignored: Ignore, dir: Node, i: nat, prefix: string)
    requires dir.Dir? && i <= |dir.entries|
    ensures Bag(ignored, dir.entries[i..], prefix) == multiset(ListedFrom(ignored, dir, i, prefix))
    decreases |dir.entries| - i
  {
    hide *;
    if i == |dir.entries| {
      NoEntry(ignored, dir, prefix);
    } else {
      var e := dir.entries[i];
      BagOfDir(ignored, dir, i + 1, prefix);
      BagOfConcat(ignored, [e], dir.entries[i + 1..], prefix);
      BagOfOne(ignored, e, prefix);
      OneEntryMore(ignored, dir, i, prefix);
    }
  }

  lemma {:induction false} LinkBagOfDir(ignored: Ignore, dir: Node, i: nat, prefix: string)
    requires dir.Dir? && i <= |dir.entries|
    ensures LinkBag(ignored, dir.entries[i..], prefix) == multiset(LinksFrom(ignored, dir, i, prefix))
    decreases |dir.entries| - i
  {
    hide *;
    if i == |dir.entries| {
      NoEntry(ignored, dir, prefix);
    } else {
      var e := dir.entries[i];
      LinkBagOfDir(ignored, dir, i + 1, prefix);
      LinkBagOfConcat(ignored, [e], dir.entries[i + 1..], prefix);
      BagOfOne(ignored, e, prefix);
      OneEntryMore(ignored, dir, i, prefix);
    }
  }

  lemma BagSteps(ignored: Ignore, es: seq<Entry>, k: nat, prefix: string)
    requires k <= |es|
    ensures k == 0 ==> Bag(ignored, es[..k], prefix) == multiset{} && LinkBag(ignored, es[..k], prefix) == multiset{}
    ensures k < |es| ==>
              && Bag(ignored, es[..k + 1], prefix)
                 == Bag(ignored, es[..k], prefix) + multiset(Listed(ignored, es[k], prefix))
              && LinkBag(ignored, es[..k + 1], prefix)
                 == LinkBag(ignored, es[..k], prefix) + multiset(Links(ignored, es[k], prefix))
  {
    hide Listed, Links;
    if k < |es| {
      assert es[..k + 1][..k] == es[..k];
    }
  }

  class WalkSummary {
    var entries: seq<WalkEntry>
    var skippedSymlinks: seq<string>

    constructor ()
      ensures entries == [] && skippedSymlinks == []
    {
      entries, skippedSymlinks := [], [];
    }

    /** Lists one directory in name order, descending into the directories it lists. */
    method WalkDir(ignored: Ignore, dir: Node, prefix: string)
      requires dir.Dir?
      modifies this
      ensures multiset(entries) == old(multiset(entries)) + multiset(ListedFrom(ignored, dir, 0, prefix))
      ensures multiset(skippedSymlinks)
              == old(multiset(skippedSymlinks)) + multiset(LinksFrom(ignored, dir, 0, prefix))
      decreases dir, 0
    {
      hide Bag, LinkBag, Listed, Links;
      var sorted := Sort(dir.entries, NameOf);
      var k := 0;
      BagSteps(ignored, sorted, 0, prefix);
      while k < |sorted|
        invariant 0 <= k <= |sorted|
        invariant multiset(entries) == old(multiset(entries)) + Bag(ignored, sorted[..k], prefix)
        invariant multiset(skippedSymlinks) == old(multiset(skippedSymlinks)) + LinkBag(ignored, sorted[..k], prefix)
      {
        BagSteps(ignored, sorted, k, prefix);
        InMultiset(dir.entries, sorted, sorted[k]);
        WalkEntryOf(ignored, dir, sorted[k], prefix);
        k := k + 1;
      }
      assert sorted[..k] == sorted && dir.entries[0..] == dir.entries;
      BagOfPermutation(ignored, sorted, dir.entries, prefix);
      BagOfDir(ignored, dir, 0, prefix);
      LinkBagOfDir(ignored, dir, 0, prefix);
    }

    method WalkEntryOf(ignored: Ignore, ghost dir: Node, entry: Entry, prefix: string)
      requires dir.Dir? && entry in dir.entries
      modifies this
      ensures multiset(entries) == old(multiset(entries)) + multiset(Listed(ignored, entry, prefix))
      ensures multiset(skippedSymlinks) == old(multiset(skippedSymlinks)) + multiset(Links(ignored, entry, prefix))
      decreases entry.node, 1
    {
      var rel := if prefix == "" then entry.name else prefix + "/" + entry.name;
      var isSymlink := entry.node.Link?;
      var isDir := !isSymlink && entry.node.Dir?;
      if ignored(rel, isDir) {
        return;
      }
      if isSymlink {
        skippedSymlinks := skippedSymlinks + [rel];
        return;
      }
      if isDir {
        entries := entries + [WalkEntry(rel, 0, entry.node.mode, true)];
        WalkDir(ignored, entry.node, rel);
      } else {
        entries := entries + [WalkEntry(rel, entry.node.size, entry.node.mode, false)];
      }
    }
  }

  method Walk(ignored: Ignore, root: Node) returns (entries: seq<WalkEntry>, skipped: seq<string>)
    requires root.Dir?
    ensures Ordered(entries, PathOf) && multiset(entries) == multiset(ListedFrom(ignored, root, 0, ""))
    ensures Ordered(skipped, Itself) && multiset(skipped) == multiset(LinksFrom(ignored, root, 0, ""))
  {
    var summary := new WalkSummary();
    summary.WalkDir(ignored, root, "");
    entries := Sort(summary.entries, PathOf);
    skipped := Sort(summary.skippedSymlinks, Itself);
    SortOrders(summary.entries, PathOf);
    SortOrders(summary.skippedSymlinks, Itself);
  }

  // ---- what is visible ---------------------------------------------------------------------------------------

  ghost function Lookup(dir: Node, name: string): Option<Node> {
    if dir.Dir? && exists i :: 0 <= i < |dir.entries| && dir.entries[i].name == name then
      var i :| 0 <= i < |dir.entries| && dir.entries[i].name == name;
      Some(dir.entries[i].node)
    else None
  }

  /** The node under these names, one per level. */
  ghost function Find(dir: Node, names: seq<string>): Option<Node> {
    if names == [] then Some(dir)
    else
      match Lookup(dir, names[0])
      case None => None
      case Some(node) => Find(node, names[1..])
  }

  /** The relative path of these names under a prefix. */
  function RelOf(prefix: string, names: seq<string>): string
    decreases |names|
  {
    if names == [] then prefix else RelOf(Rel(prefix, names[0]), names[1..])
  }

  predicate Passes(ignored: Ignore, rel: string, node: Node) {
    !node.Link? && !ignored(rel, node.Dir?)
  }

  /** The node under these names exists, and neither it nor any node on the way to it is ignored or a link. */
  ghost predicate Visible(ignored: Ignore, dir: Node, prefix: string, names: seq<string>) {
    && names != []
    && Find(dir, names).Some?
    && forall k :: 1 <= k <= |names| ==>
         Find(dir, names[..k]).Some? && Passes(ignored, RelOf(prefix, names[..k]), Find(dir, names[..k]).value)
  }

  ghost function EntryAt(dir: Node, prefix: string, names: seq<string>): WalkEntry
    requires Find(dir, names).Some? && !Find(dir, names).value.Link?
  {
    EntryOf(RelOf(prefix, names), Find(dir, names).value)
  }

  lemma LookupAt(dir: Node, i: nat)
    requires dir.Dir? && Valid(dir) && i < |dir.entries|
    ensures Lookup(dir, dir.entries[i].name) == Some(dir.entries[i].node)
  {
    assert dir.entries[i].name == dir.entries[i].name;
    var j :| 0 <= j < |dir.entries| && dir.entries[j].name == dir.entries[i].name
             && Lookup(dir, dir.entries[i].name) == Some(dir.entries[j].node);
    assert NameOf(dir.entries[i]) == NameOf(dir.entries[j]);
  }

  lemma Descend(dir: Node, names: seq<string>, k: nat)
    requires 1 <= k <= |names|
    ensures names[..k][0] == names[0] && names[..k][1..] == names[1..][..k - 1]
    ensures Find(dir, names[..k])
            == (if Lookup(dir, names[0]).None? then None else Find(Lookup(dir, names[0]).value, names[1..][..k - 1]))
  {
    assert names[..k][1..] == names[1..][..k - 1];
    hide Lookup;
  }

  /** Visibility, one level at a time. */
  lemma VisibleUnfolds(ignored: Ignore, dir: Node, prefix: string, names: seq<string>)
    requires names != []
    ensures Visible(ignored, dir, prefix, names)
            <==> && Lookup(dir, names[0]).Some?
                 && Passes(ignored, Rel(prefix, names[0]), Lookup(dir, names[0]).value)
                 && (|names| == 1
                     || Visible(ignored, Lookup(dir, names[0]).value, Rel(prefix, names[0]), names[1..]))
  {
    assert names[..|names|] == names;
    Descend(dir, names, 1);
    Descend(dir, names, |names|);
    assert names[1..][..0] == [];
    assert RelOf(prefix, names[..1]) == Rel(prefix, names[0]) by { assert names[..1] == [names[0]]; }
    if Lookup(dir, names[0]).Some? {
      var node, rel := Lookup(dir, names[0]).value, Rel(prefix, names[0]);
      forall k | 1 <= k <= |names|
        ensures Find(dir, names[..k]) == Find(node, names[1..][..k - 1])
        ensures RelOf(prefix, names[..k]) == RelOf(rel, names[1..][..k - 1])
      {
        Descend(dir, names, k);
      }
      hide Lookup, Find, RelOf, Rel, Passes;
      if Visible(ignored, dir, prefix, names) {
        forall k | 1 <= k <= |names[1..]|
          ensures Find(node, names[1..][..k]).Some?
                  && Passes(ignored, RelOf(rel, names[1..][..k]), Find(node, names[1..][..k]).value)
        {
          assert Find(dir, names[..k + 1]).Some?;
        }
        assert names[1..][..|names| - 1] == names[1..];
      }
      if Passes(ignored, rel, node) && (|names| == 1 || Visible(ignored, node, rel, names[1..])) {
        forall k | 1 <= k <= |names|
          ensures Find(dir, names[..k]).Some? && Passes(ignored, RelOf(prefix, names[..k]), Find(dir, names[..k]).value)
        {
          if k > 1 {
            assert Find(node, names[1..][..k - 1]).Some?;
          }
        }
      }
    }
  }

  /** These names start at the `i`-th entry or later. */
  predicate StartsFrom(dir: Node, i: nat, names: seq<string>) {
    dir.Dir? && names != [] && exists j :: i <= j < |dir.entries| && dir.entries[j].name == names[0]
  }

  lemma OneLevel(dir: Node, prefix: string, name: string, node: Node)
    requires Lookup(dir, name) == Some(node)
    ensures Find(dir, [name]) == Some(node) && RelOf(prefix, [name]) == Rel(prefix, name)
  {
    assert [name][1..] == [];
    hide Lookup, Rel;
  }

  // ---- listed is visible -------------------------------------------------------------------------------------

  lemma {:induction false} ListedOneIsVisible(ignored: Ignore, dir: Node, i: nat, prefix: string, w: WalkEntry)
    returns (names: seq<string>)
    requires dir.Dir? && Valid(dir) && i < |dir.entries| && w in Listed(ignored, dir.entries[i], prefix)
    ensures Visible(ignored, dir, prefix, names) && !Find(dir, names).value.Link?
    ensures w == EntryAt(dir, prefix, names) && names[0] == dir.entries[i].name
    decreases dir, 0
  {
    var e := dir.entries[i];
    var rel := Rel(prefix, e.name);
    LookupAt(dir, i);
    if w == EntryOf(rel, e.node) {
      names := [e.name];
      VisibleUnfolds(ignored, dir, prefix, names);
      assert names[1..] == [];
      OneLevel(dir, prefix, e.name, e.node);
    } else {
      var inner := ListedIsVisible(ignored, e.node, 0, rel, w);
      names := [e.name] + inner;
      assert names[1..] == inner;
      VisibleUnfolds(ignored, dir, prefix, names);
    }
  }

  lemma {:induction false} ListedIsVisible(ignored: Ignore, dir: Node, i: nat, prefix: string, w: WalkEntry)
    returns (names: seq<string>)
    requires dir.Dir? && Valid(dir) && i <= |dir.entries| && w in ListedFrom(ignored, dir, i, prefix)
    ensures Visible(ignored, dir, prefix, names) && !Find(dir, names).value.Link?
    ensures w == EntryAt(dir, prefix, names) && StartsFrom(dir, i, names)
    decreases dir, 1, |dir.entries| - i
  {
    if w in Listed(ignored, dir.entries[i], prefix) {
      names := ListedOneIsVisible(ignored, dir, i, prefix, w);
    } else {
      names := ListedIsVisible(ignored, dir, i + 1, prefix, w);
    }
  }

  lemma {:induction false} VisibleIsListed(ignored: Ignore, dir: Node, i: nat, prefix: string, names: seq<string>)
    requires dir.Dir? && Valid(dir) && i <= |dir.entries|
    requires Visible(ignored, dir, prefix, names) && StartsFrom(dir, i, names)
    ensures !Find(dir, names).value.Link?
    ensures EntryAt(dir, prefix, names) in ListedFrom(ignored, dir, i, prefix)
    decreases dir, |dir.entries| - i
  {
    assert names[..|names|] == names;
    VisibleUnfolds(ignored, dir, prefix, names);
    var e := dir.entries[i];
    if e.name == names[0] {
      LookupAt(dir, i);
      if |names| > 1 {
        var inner := names[1..];
        VisibleUnfolds(ignored, e.node, Rel(prefix, e.name), inner);
        assert StartsFrom(e.node, 0, inner);
        VisibleIsListed(ignored, e.node, 0, Rel(prefix, e.name), inner);
      } else {
        assert names == [e.name];
        OneLevel(dir, prefix, e.name, e.node);
      }
    } else {
      VisibleIsListed(ignored, dir, i + 1, prefix, names);
    }
  }

  // ---- paths tell entries apart ------------------------------------------------------------------------------

  predicate ProperNames(names: seq<string>) {
    forall k :: 0 <= k < |names| ==> names[k] != "" && '/' !in names[k]
  }

  lemma {:induction false} FoundNamesAreProper(dir: Node, names: seq<string>)
    requires Valid(dir) && Find(dir, names).Some?
    ensures ProperNames(names)
    decreases |names|
  {
    if names == [] {
    } else {
      var i :| 0 <= i < |dir.entries| && dir.entries[i].name == names[0];
      LookupAt(dir, i);
      FoundNamesAreProper(dir.entries[i].node, names[1..]);
      assert names == [names[0]] + names[1..];
    }
  }

  lemma {:induction false} RelOfIsJoin(prefix: string, names: seq<string>)
    requires names != [] && ProperNames(names)
    ensures RelOf(prefix, names) == if prefix == "" then Join(names) else prefix + "/" + Join(names)
    decreases |names|
  {
    var rel := Rel(prefix, names[0]);
    if |names| == 1 {
      assert names[1..] == [];
    } else {
      RelOfIsJoin(rel, names[1..]);
      assert names[0] != "";
      assert rel != "";
      assert (prefix + "/" + names[0]) + "/" + Join(names[1..]) == prefix + "/" + (names[0] + "/" + Join(names[1..]));
    }
  }

  /** Under one prefix, names with the same relative path are the same names. */
  lemma RelOfIsInjective(prefix: string, a: seq<string>, b: seq<string>)
    requires a != [] && b != [] && ProperNames(a) && ProperNames(b) && RelOf(prefix, a) == RelOf(prefix, b)
    ensures a == b
  {
    RelOfIsJoin(prefix, a);
    RelOfIsJoin(prefix, b);
    if prefix != "" {
      var p := prefix + "/";
      assert Join(a) == (p + Join(a))[|p|..] == (p + Join(b))[|p|..] == Join(b);
    }
    SplitUndoesJoin(a);
    SplitUndoesJoin(b);
  }

  /** The path of what lies under a directory properly extends the directory's. */
  lemma InsideIsLonger(prefix: string, names: seq<string>)
    requires prefix != "" && names != [] && ProperNames(names)
    ensures prefix < RelOf(prefix, names)
  {
    RelOfIsJoin(prefix, names);
  }

  lemma {:induction false} OneListingIsDistinct(ignored: Ignore, dir: Node, i: nat, prefix: string)
    requires dir.Dir? && Valid(dir) && i < |dir.entries|
    ensures DistinctKeys(Listed(ignored, dir.entries[i], prefix), PathOf)
    decreases dir, 0
  {
    var e := dir.entries[i];
    var rel := Rel(prefix, e.name);
    var l := Listed(ignored, e, prefix);
    if l != [] && e.node.Dir? {
      var inner := ListedFrom(ignored, e.node, 0, rel);
      ListingIsDistinct(ignored, e.node, 0, rel);
      assert l == [EntryOf(rel, e.node)] + inner;
      forall j | 0 <= j < |inner|
        ensures PathOf(inner[j]) != rel
      {
        var names := ListedIsVisible(ignored, e.node, 0, rel, inner[j]);
        FoundNamesAreProper(e.node, names);
        InsideIsLonger(rel, names);
      }
    }
  }

  lemma {:induction false} ListingIsDistinct(ignored: Ignore, dir: Node, i: nat, prefix: string)
    requires dir.Dir? && Valid(dir) && i <= |dir.entries|
    ensures DistinctKeys(ListedFrom(ignored, dir, i, prefix), PathOf)
    decreases dir, 1, |dir.entries| - i
  {
    if i == |dir.entries| {
    } else {
      var first, later := Listed(ignored, dir.entries[i], prefix), ListedFrom(ignored, dir, i + 1, prefix);
      OneListingIsDistinct(ignored, dir, i, prefix);
      ListingIsDistinct(ignored, dir, i + 1, prefix);
      forall a, b | 0 <= a < |first| && 0 <= b < |later|
        ensures PathOf(first[a]) != PathOf(later[b])
      {
        SiblingsDiffer(ignored, dir, i, prefix, first[a], later[b]);
      }
      hide Listed, ListedFrom, Valid;
      DistinctConcat(first, later, PathOf);
    }
  }

  lemma DistinctConcat<T>(a: seq<T>, b: seq<T>, key: T -> string)
    requires DistinctKeys(a, key) && DistinctKeys(b, key)
    requires forall i, j :: 0 <= i < |a| && 0 <= j < |b| ==> key(a[i]) != key(b[j])
    ensures DistinctKeys(a + b, key)
  {
  }

  lemma SiblingsDiffer(ignored: Ignore, dir: Node, i: nat, prefix: string, w: WalkEntry, v: WalkEntry)
    requires dir.Dir? && Valid(dir) && i < |dir.entries|
    requires w in Listed(ignored, dir.entries[i], prefix) && v in ListedFrom(ignored, dir, i + 1, prefix)
    ensures PathOf(w) != PathOf(v)
  {
    var names := ListedOneIsVisible(ignored, dir, i, prefix, w);
    var other := ListedIsVisible(ignored, dir, i + 1, prefix, v);
    FoundNamesAreProper(dir, names);
    FoundNamesAreProper(dir, other);
    hide Listed, ListedFrom, Find, RelOf, Visible;
    var j :| i + 1 <= j < |dir.entries| && dir.entries[j].name == other[0];
    assert NameOf(dir.entries[i]) != NameOf(dir.entries[j]);
    if PathOf(w) == PathOf(v) {
      RelOfIsInjective(prefix, names, other);
    }
  }

  // ---- the listing ---------------------------------------------------------------------------------------------

  /** What an entry says of its node: a file's size and mode, a directory's mode, nothing of a link. */
  predicate Describes(w: WalkEntry, node: Node) {
    match node
    case Plain(size, mode) => !w.isDir && w.size == size && w.mode == mode
    case Dir(mode, _) => w.isDir && w.size == 0 && w.mode == mode
    case Link => false
  }

  /** `w` describes the visible node under these names. */
  ghost predicate Shows(ignored: Ignore, root: Node, names: seq<string>, w: WalkEntry) {
    Visible(ignored, root, "", names) && w.relPath == RelOf("", names) && Describes(w, Find(root, names).value)
  }

  lemma ShowsIff(ignored: Ignore, root: Node, names: seq<string>, w: WalkEntry)
    ensures Shows(ignored, root, names, w)
            <==> Visible(ignored, root, "", names) && !Find(root, names).value.Link? && w == EntryAt(root, "", names)
  {
    hide Find, RelOf;
  }

  /** What `Walk` returns for this tree. */
  ghost predicate WalkResult(ignored: Ignore, root: Node, out: seq<WalkEntry>) {
    root.Dir? && Valid(root) && Ordered(out, PathOf) && multiset(out) == multiset(ListedFrom(ignored, root, 0, ""))
  }

  lemma VisibleStarts(ignored: Ignore, root: Node, names: seq<string>)
    requires root.Dir? && Visible(ignored, root, "", names)
    ensures StartsFrom(root, 0, names)
  {
    VisibleUnfolds(ignored, root, "", names);
  }

  /** Exact: the listing is strictly sorted by path, and shows exactly the files and directories such that
      neither they nor any directory above them is ignored or a symbolic link. */
  lemma WalkListsExactlyTheVisible(ignored: Ignore, root: Node, out: seq<WalkEntry>)
    requires WalkResult(ignored, root, out)
    ensures StrictlyOrdered(out, PathOf)
    ensures forall w :: w in out <==> exists names :: Shows(ignored, root, names, w)
  {
    var listed := ListedFrom(ignored, root, 0, "");
    ListingIsDistinct(ignored, root, 0, "");
    hide Visible, Find, ListedFrom, Valid, RelOf;
    DistinctOfMultiset(listed, out, PathOf);
    forall i, j | 0 <= i < j < |out|
      ensures Less(PathOf(out[i]), PathOf(out[j]))
    {
      LessTrichotomy(PathOf(out[i]), PathOf(out[j]));
    }
    forall w
      ensures w in out <==> exists names :: Shows(ignored, root, names, w)
    {
      InMultiset(listed, out, w);
      if w in listed {
        var names := ListedIsVisible(ignored, root, 0, "", w);
        ShowsIff(ignored, root, names, w);
      }
      if names :| Shows(ignored, root, names, w) {
        ShowsIff(ignored, root, names, w);
        VisibleStarts(ignored, root, names);
        VisibleIsListed(ignored, root, 0, "", names);
      }
    }
  }

  lemma {:induction false} FindParent(dir: Node, names: seq<string>)
    requires |names| >= 2 && Find(dir, names).Some?
    ensures Find(dir, names[..|names| - 1]).Some? && Find(dir, names[..|names| - 1]).value.Dir?
    decreases |names|
  {
    var n := |names| - 1;
    Descend(dir, names, n);
    Descend(dir, names, |names|);
    assert names[..|names|] == names && names[1..][..|names| - 1] == names[1..];
    var node := Lookup(dir, names[0]).value;
    if n == 1 {
      assert names[1..][..0] == [];
      assert Lookup(node, names[1]).Some?;
    } else {
      FindParent(node, names[1..]);
      assert names[1..][..|names[1..]| - 1] == names[1..][..n - 1];
    }
  }

  lemma {:induction false} RelOfSplit(prefix: string, names: seq<string>, k: nat)
    requires k <= |names|
    ensures RelOf(prefix, names) == RelOf(RelOf(prefix, names[..k]), names[k..])
    decreases k
  {
    if k == 0 {
      assert names[0..] == names;
    } else {
      RelOfSplit(Rel(prefix, names[0]), names[1..], k - 1);
      assert names[..k][1..] == names[1..][..k - 1] && names[1..][k - 1..] == names[k..];
    }
  }

  /** The listing is closed under parents, and lists each directory before anything inside it. */
  lemma DirectoriesComeFirst(ignored: Ignore, root: Node, out: seq<WalkEntry>, names: seq<string>, j: nat)
    returns (i: nat)
    requires WalkResult(ignored, root, out) && |names| >= 2 && j < |out| && Shows(ignored, root, names, out[j])
    ensures i < j && out[i].isDir && Shows(ignored, root, names[..|names| - 1], out[i])
  {
    var above := names[..|names| - 1];
    FoundNamesAreProper(root, names);
    FindParent(root, names);
    ParentIsVisible(ignored, root, names);
    RelOfSplit("", names, |names| - 1);
    RelOfIsJoin("", above);
    JoinIsNotEmpty(above);
    InsideIsLonger(RelOf("", above), names[|names| - 1..]);
    WalkListsExactlyTheVisible(ignored, root, out);
    hide Visible, Find, RelOf, WalkResult, Valid;
    var w := EntryAt(root, "", above);
    ShowsIff(ignored, root, above, w);
    assert w in out;
    i :| 0 <= i < |out| && out[i] == w;
    PrefixIsLess(PathOf(out[i]), PathOf(out[j]));
    LessGivesIndex(out, PathOf, i, j);
  }

  lemma JoinIsNotEmpty(names: seq<string>)
    requires names != [] && ProperNames(names)
    ensures Join(names) != ""
  {
  }

  lemma ParentIsVisible(ignored: Ignore, root: Node, names: seq<string>)
    requires |names| >= 2 && Visible(ignored, root, "", names)
    ensures Visible(ignored, root, "", names[..|names| - 1])
  {
    var above := names[..|names| - 1];
    assert forall k :: 1 <= k <= |above| ==> above[..k] == names[..k];
    assert above[..|above|] == above;
    hide Find, RelOf, Passes;
  }
}
