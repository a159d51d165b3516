/** The symbolic links a walk reports apart: exactly those it met. */
module WalkerLinks {
  import opened Ordering
  import opened Walker
  import opened Wrappers

  /** A link lies under these names, is not ignored itself, and every directory on the way is visible. */
  ghost predicate Met(ignored: Ignore, dir: Node, prefix: string, names: seq<string>) {
    && names != [] && Find(dir, names) == Some(Link) && !ignored(RelOf(prefix, names), false)
    && (|names| > 1 ==> Visible(ignored, dir, prefix, names[..|names| - 1]))
  }

  lemma MetAtOnce(ignored: Ignore, dir: Node, prefix: string, name: string)
    ensures Met(ignored, dir, prefix, [name])
            <==> Lookup(dir, name) == Some(Link) && !ignored(Rel(prefix, name), false)
  {
    assert [name][1..] == [];
    assert RelOf(prefix, [name]) == RelOf(Rel(prefix, name), []) == Rel(prefix, name);
    hide Lookup, Rel;
    if Lookup(dir, name).Some? {
      OneLevel(dir, prefix, name, Lookup(dir, name).value);
    }
  }

  /** Meeting a link, one level at a time. */
  lemma MetBelow(ignored: Ignore, dir: Node, prefix: string, names: seq<string>)
    requires |names| > 1
    ensures Met(ignored, dir, prefix, names)
            <==> && Lookup(dir, names[0]).Some?
                 && Passes(ignored, Rel(prefix, names[0]), Lookup(dir, names[0]).value)
                 && Met(ignored, Lookup(dir, names[0]).value, Rel(prefix, names[0]), names[1..])
  {
    var above, rest := names[..|names| - 1], names[1..];
    VisibleUnfolds(ignored, dir, prefix, above);
    assert above[1..] == rest[..|rest| - 1] && above[0] == names[0];
    hide Lookup, Visible, Rel;
  }

  lemma {:induction false} OneLinkIsMet(ignored: Ignore, dir: Node, i: nat, prefix: string, p: string)
    returns (names: seq<string>)
    requires dir.Dir? && Valid(dir) && i < |dir.entries| && p in Links(ignored, dir.entries[i], prefix)
    ensures Met(ignored, dir, prefix, names) && p == RelOf(prefix, names) && names[0] == dir.entries[i].name
    decreases dir, 0
  {
    var e := dir.entries[i];
    LookupAt(dir, i);
    if e.node.Link? {
      names := [e.name];
      MetAtOnce(ignored, dir, prefix, e.name);
      OneLevel(dir, prefix, e.name, e.node);
    } else {
      var inner := LinkIsMet(ignored, e.node, 0, Rel(prefix, e.name), p);
      names := [e.name] + inner;
      assert names[1..] == inner;
      hide Met;
      MetBelow(ignored, dir, prefix, names);
    }
  }

  lemma {:induction false} LinkIsMet(ignored: Ignore, dir: Node, i: nat, prefix: string, p: string)
    returns (names: seq<string>)
    requires dir.Dir? && Valid(dir) && i <= |dir.entries| && p in LinksFrom(ignored, dir, i, prefix)
    ensures names != [] && Met(ignored, dir, prefix, names) && p == RelOf(prefix, names) && StartsFrom(dir, i, names)
    decreases dir, 1, |dir.entries| - i
  {
    hide Met, RelOf;
    if p in Links(ignored, dir.entries[i], prefix) {
      names := OneLinkIsMet(ignored, dir, i, prefix, p);
      MetIsNamed(ignored, dir, prefix, names);
    } else {
      names := LinkIsMet(ignored, dir, i + 1, prefix, p);
    }
  }

  lemma MetIsNamed(ignored: Ignore, dir: Node, prefix: string, names: seq<string>)
    requires Met(ignored, dir, prefix, names)
    ensures names != [] && Find(dir, names).Some?
  {
  }

  lemma {:induction false} MetIsReported(ignored: Ignore, dir: Node, i: nat, prefix: string, names: seq<string>)
    requires dir.Dir? && Valid(dir) && i <= |dir.entries|
    requires Met(ignored, dir, prefix, names) && StartsFrom(dir, i, names)
    ensures RelOf(prefix, names) in LinksFrom(ignored, dir, i, prefix)
    decreases dir, |dir.entries| - i
  {
    var e := dir.entries[i];
    if e.name != names[0] {
      hide Met, RelOf, Links;
      MetIsReported(ignored, dir, i + 1, prefix, names);
    } else {
      LookupAt(dir, i);
      if |names| == 1 {
        assert names == [e.name];
        MetAtOnce(ignored, dir, prefix, e.name);
        OneLevel(dir, prefix, e.name, e.node);
        hide Met, RelOf, LinksFrom;
        assert Links(ignored, e, prefix) == [Rel(prefix, e.name)];
        LinksStart(ignored, dir, i, prefix, Rel(prefix, e.name));
      } else {
        var inner, rel := names[1..], Rel(prefix, e.name);
        MetBelow(ignored, dir, prefix, names);
        MetIsNamed(ignored, e.node, rel, inner);
        MetStarts(ignored, e.node, rel, inner);
        hide Met, LinksFrom, Lookup, Find;
        MetIsReported(ignored, e.node, 0, rel, inner);
        assert RelOf(prefix, names) == RelOf(rel, inner);
        LinksStart(ignored, dir, i, prefix, RelOf(prefix, names));
      }
    }
  }

  lemma LinksStart(ignored: Ignore, dir: Node, i: nat, prefix: string, p: string)
    requires dir.Dir? && i < |dir.entries| && p in Links(ignored, dir.entries[i], prefix)
    ensures p in LinksFrom(ignored, dir, i, prefix)
  {
    hide Links;
  }

  lemma MetStarts(ignored: Ignore, dir: Node, prefix: string, names: seq<string>)
    requires Met(ignored, dir, prefix, names)
    ensures StartsFrom(dir, 0, names)
  {
    assert Lookup(dir, names[0]).Some?;
    var i :| 0 <= i < |dir.entries| && dir.entries[i].name == names[0];
  }

  // ---- each link once ------------------------------------------------------------------------------------------

  lemma {:induction false} OneEntrysLinksDiffer(ignored: Ignore, dir: Node, i: nat, prefix: string)
    requires dir.Dir? && Valid(dir) && i < |dir.entries|
    ensures DistinctKeys(Links(ignored, dir.entries[i], prefix), Itself)
    decreases dir, 0
  {
    var e := dir.entries[i];
    if e.node.Dir? {
      LinksDiffer(ignored, e.node, 0, Rel(prefix, e.name));
    }
  }

  lemma {:induction false} LinksDiffer(ignored: Ignore, dir: Node, i: nat, prefix: string)
    requires dir.Dir? && Valid(dir) && i <= |dir.entries|
    ensures DistinctKeys(LinksFrom(ignored, dir, i, prefix), Itself)
    decreases dir, 1, |dir.entries| - i
  {
    if i == |dir.entries| {
    } else {
      var first, later := Links(ignored, dir.entries[i], prefix), LinksFrom(ignored, dir, i + 1, prefix);
      OneEntrysLinksDiffer(ignored, dir, i, prefix);
      LinksDiffer(ignored, dir, i + 1, prefix);
      forall a, b | 0 <= a < |first| && 0 <= b < |later|
        ensures Itself(first[a]) != Itself(later[b])
      {
        NeighboursDiffer(ignored, dir, i, prefix, first[a], later[b]);
      }
      hide Links, Valid;
      DistinctConcat(first, later, Itself);
    }
  }

  lemma NeighboursDiffer(ignored: Ignore, dir: Node, i: nat, prefix: string, p: string, q: string)
    requires dir.Dir? && Valid(dir) && i < |dir.entries|
    requires p in Links(ignored, dir.entries[i], prefix) && q in LinksFrom(ignored, dir, i + 1, prefix)
    ensures p != q
  {
    var names := OneLinkIsMet(ignored, dir, i, prefix, p);
    var other := LinkIsMet(ignored, dir, i + 1, prefix, q);
    MetIsNamed(ignored, dir, prefix, names);
    MetIsNamed(ignored, dir, prefix, other);
    FoundNamesAreProper(dir, names);
    FoundNamesAreProper(dir, other);
    hide Links, LinksFrom, Find, RelOf, Met;
    var j :| i + 1 <= j < |dir.entries| && dir.entries[j].name == other[0];
    assert NameOf(dir.entries[i]) != NameOf(dir.entries[j]);
    if p == q {
      RelOfIsInjective(prefix, names, other);
    }
  }

  /** Exact: what a walk skips, sorted by path and each once, is the symbolic links that are not ignored and lie in the
      root or in a listed directory. */
  lemma WalkSkipsExactlyTheLinks(ignored: Ignore, root: Node, skipped: seq<string>)
    requires root.Dir? && Valid(root)
    requires Ordered(skipped, Itself) && multiset(skipped) == multiset(LinksFrom(ignored, root, 0, ""))
    ensures StrictlyOrdered(skipped, Itself)
    ensures forall p :: p in skipped <==> exists names :: Met(ignored, root, "", names) && p == RelOf("", names)
  {
    var links := LinksFrom(ignored, root, 0, "");
    LinksDiffer(ignored, root, 0, "");
    hide Met, LinksFrom, Valid, RelOf;
    DistinctOfMultiset(links, skipped, Itself);
    forall i, j | 0 <= i < j < |skipped|
      ensures Less(Itself(skipped[i]), Itself(skipped[j]))
    {
      LessTrichotomy(skipped[i], skipped[j]);
    }
    forall p
      ensures p in skipped <==> exists names :: Met(ignored, root, "", names) && p == RelOf("", names)
    {
      InMultiset(links, skipped, p);
      if p in links {
        var names := LinkIsMet(ignored, root, 0, "", p);
      }
      if names :| Met(ignored, root, "", names) && p == RelOf("", names) {
        MetStarts(ignored, root, "", names);
        MetIsReported(ignored, root, 0, "", names);
      }
    }
  }
}
