/** Peer-supplied relative paths: which are accepted, and where an accepted one lands. */
module RelPaths {
  import opened FrameProtocol
  import opened Wrappers

  datatype Platform = Posix | Windows

  predicate IsSeparator(platform: Platform, c: char) {
    c == '/' || (platform == Windows && c == '\\')
  }

  // ---- splitting ---------------------------------------------------------------------------------------

  function Components(platform: Platform, s: string): (parts: seq<string>)
    ensures |parts| >= 1
  {
    if s == [] then [""]
    else
      var rest := Components(platform, s[1..]);
      if IsSeparator(platform, s[0]) then [""] + rest else [[s[0]] + rest[0]] + rest[1..]
  }

  /** The components of a wire path, which is separated by forward slashes on every platform. */
  function Split(s: string): (parts: seq<string>)
    ensures |parts| >= 1
  {
    Components(Posix, s)
  }

  function Join(parts: seq<string>): string
    requires |parts| >= 1
  {
    if |parts| == 1 then parts[0] else parts[0] + "/" + Join(parts[1..])
  }

  lemma {:induction false} JoinUndoesSplit(s: string)
    ensures Join(Split(s)) == s
  {
    if s == [] {
    } else {
      JoinUndoesSplit(s[1..]);
      var rest := Split(s[1..]);
      assert s == [s[0]] + s[1..];
      if IsSeparator(Posix, s[0]) {
        assert ([""] + rest)[1..] == rest;
      } else {
        var parts := [[s[0]] + rest[0]] + rest[1..];
        assert parts[1..] == rest[1..];
        if |rest| > 1 {
          assert Join(parts) == ([s[0]] + rest[0]) + "/" + Join(rest[1..]);
          assert Join(rest) == rest[0] + "/" + Join(rest[1..]);
        }
      }
    }
  }

  lemma {:induction false} SplitOfJoined(name: string, rest: string)
    requires '/' !in name
    ensures Split(name + "/" + rest) == [name] + Split(rest)
  {
    if name == "" {
      assert name + "/" + rest == "/" + rest && ("/" + rest)[1..] == rest;
    } else {
      SplitOfJoined(name[1..], rest);
      assert (name + "/" + rest)[1..] == name[1..] + "/" + rest;
      assert [name[0]] + name[1..] == name;
    }
  }

  /** Components without a slash are found again. */
  lemma {:induction false} SplitUndoesJoin(parts: seq<string>)
    requires |parts| >= 1 && forall k :: 0 <= k < |parts| ==> '/' !in parts[k]
    ensures Split(Join(parts)) == parts
  {
    if |parts| == 1 {
      OneComponentIff(parts[0]);
    } else {
      SplitUndoesJoin(parts[1..]);
      SplitOfJoined(parts[0], Join(parts[1..]));
      assert parts == [parts[0]] + parts[1..];
    }
  }

  lemma {:induction false} ComponentsHaveNoSeparator(platform: Platform, s: string)
    ensures forall k, c :: 0 <= k < |Components(platform, s)| && c in Components(platform, s)[k]
              ==> !IsSeparator(platform, c)
  {
    if s == [] {
    } else {
      ComponentsHaveNoSeparator(platform, s[1..]);
    }
  }

  ghost predicate InSome(parts: seq<string>, c: char) {
    exists k :: 0 <= k < |parts| && c in parts[k]
  }

  lemma InSomeOf(first: string, rest: seq<string>, c: char)
    ensures InSome([first] + rest, c) <==> c in first || InSome(rest, c)
  {
    var parts := [first] + rest;
    assert parts[0] == first && forall k :: 1 <= k < |parts| ==> parts[k] == rest[k - 1];
    if c in first {
      assert c in parts[0];
    }
    if k :| 0 <= k < |rest| && c in rest[k] {
      assert c in parts[k + 1];
    }
  }

  lemma {:induction false} CharsAreKept(platform: Platform, s: string, c: char)
    requires !IsSeparator(platform, c)
    ensures c in s <==> InSome(Components(platform, s), c)
  {
    if s == [] {
    } else {
      CharsAreKept(platform, s[1..], c);
      var rest := Components(platform, s[1..]);
      assert c in s <==> c == s[0] || c in s[1..];
      if IsSeparator(platform, s[0]) {
        InSomeOf("", rest, c);
      } else {
        InSomeOf([s[0]] + rest[0], rest[1..], c);
        InSomeOf(rest[0], rest[1..], c);
        assert [rest[0]] + rest[1..] == rest;
      }
    }
  }

  lemma {:induction false} SameWithoutBackslash(s: string)
    requires '\\' !in s
    ensures Components(Windows, s) == Components(Posix, s)
  {
    if s == [] {
    } else {
      SameWithoutBackslash(s[1..]);
    }
  }

  lemma {:induction false} OneComponentIff(s: string)
    ensures '/' !in s <==> Split(s) == [s]
  {
    if s == [] {
    } else {
      OneComponentIff(s[1..]);
      assert s == [s[0]] + s[1..];
      JoinUndoesSplit(s[1..]);
      if Split(s) == [s] && s[0] != '/' {
        assert [s[0]] + Split(s[1..])[0] == s;
        assert Split(s[1..])[0] == s[1..];
      }
    }
  }

  // ---- the check -----------------------------------------------------------------------------------------

  predicate AsciiLetter(c: char) {
    'a' <= c <= 'z' || 'A' <= c <= 'Z'
  }

  predicate DrivePrefix(path: string) {
    |path| >= 2 && path[1] == ':' && AsciiLetter(path[0])
  }

  function ComponentFault(component: string): Option<string> {
    if component == "" then Some("empty path component")
    else if component == "." then Some("\".\" component")
    else if component == ".." then Some("\"..\" traversal")
    else None
  }

  /** The reason the first bad component gives. */
  function FirstFault(parts: seq<string>): Option<string> {
    if parts == [] then None
    else if ComponentFault(parts[0]).Some? then ComponentFault(parts[0])
    else FirstFault(parts[1..])
  }

  function PathFault(path: string): Option<string> {
    if path == "" then Some("empty path")
    else if '\0' in path then Some("nul byte")
    else if '\\' in path then Some("backslash")
    else if path[0] == '/' then Some("absolute path")
    else if DrivePrefix(path) then Some("windows drive prefix")
    else FirstFault(Split(path))
  }

  predicate Accepted(path: string) {
    PathFault(path).None?
  }

  function Verdict(path: string): Result<(), TransferError> {
    match PathFault(path)
    case None => Ok(())
    case Some(reason) => Err(UnsafePath(path, reason))
  }

  method ValidateRelPath(path: string) returns (r: Result<(), TransferError>)
    ensures r == Verdict(path)
  {
    if path == "" {
      return Err(UnsafePath(path, "empty path"));
    }
    if '\0' in path {
      return Err(UnsafePath(path, "nul byte"));
    }
    if '\\' in path {
      return Err(UnsafePath(path, "backslash"));
    }
    if path[0] == '/' {
      return Err(UnsafePath(path, "absolute path"));
    }
    if |path| >= 2 && path[1] == ':' && AsciiLetter(path[0]) {
      return Err(UnsafePath(path, "windows drive prefix"));
    }
    var parts := Split(path);
    var k := 0;
    while k < |parts|
      invariant 0 <= k <= |parts|
      invariant FirstFault(parts[k..]) == FirstFault(parts)
    {
      if parts[k] == "" {
        return Err(UnsafePath(path, "empty path component"));
      } else if parts[k] == "." {
        return Err(UnsafePath(path, "\".\" component"));
      } else if parts[k] == ".." {
        return Err(UnsafePath(path, "\"..\" traversal"));
      }
      k := k + 1;
    }
    r := Ok(());
  }

  method ValidatePathComponent(name: string) returns (r: Result<(), TransferError>)
    ensures r.Ok? <==> Accepted(name) && Split(name) == [name]
    ensures r.Err? ==> r.error == UnsafePath(name, match PathFault(name)
                                                   case Some(reason) => reason
                                                   case None => "path separator")
  {
    OneComponentIff(name);
    r := ValidateRelPath(name);
    if r.Err? {
      return;
    }
    if '/' in name {
      return Err(UnsafePath(name, "path separator"));
    }
  }

  /** A refusal names a defect the path has. */
  lemma FaultIsThere(path: string)
    ensures match PathFault(path)
            case None => true
            case Some(why) =>
              || (why == "empty path" && path == "")
              || (why == "nul byte" && '\0' in path)
              || (why == "backslash" && '\\' in path)
              || (why == "absolute path" && path != "" && path[0] == '/')
              || (why == "windows drive prefix" && |path| >= 2 && path[1] == ':')
              || (why == "empty path component" && "" in Split(path))
              || (why == "\".\" component" && "." in Split(path))
              || (why == "\"..\" traversal" && ".." in Split(path))
  {
    FirstFaultIsThere(Split(path));
    hide Split;
  }

  /** A drive is one letter of ASCII, upper or lower case, and a colon. */
  lemma DrivePrefixIff(path: string)
    ensures DrivePrefix(path)
            <==> |path| >= 2 && path[1] == ':' && (65 <= path[0] as int <= 90 || 97 <= path[0] as int <= 122)
  {
  }

  lemma {:induction false} FirstFaultIsThere(parts: seq<string>)
    ensures match FirstFault(parts)
            case None => true
            case Some(why) =>
              || (why == "empty path component" && "" in parts)
              || (why == "\".\" component" && "." in parts)
              || (why == "\"..\" traversal" && ".." in parts)
  {
    if parts == [] {
    } else {
      FirstFaultIsThere(parts[1..]);
      assert parts == [parts[0]] + parts[1..];
    }
  }

  // ---- where a path lands ----------------------------------------------------------------------------------

  /** Entering one component of a path, lexically. */
  function Enter(at: seq<string>, component: string): seq<string> {
    if component == "" || component == "." then at
    else if component == ".." then (if at == [] then [] else at[..|at| - 1])
    else at + [component]
  }

  function Walk(at: seq<string>, parts: seq<string>): seq<string>
    decreases |parts|
  {
    if parts == [] then at else Walk(Enter(at, parts[0]), parts[1..])
  }

  /** Joining this path to a directory discards the directory. */
  predicate Redirects(platform: Platform, path: string) {
    (path != "" && IsSeparator(platform, path[0])) || (platform == Windows && DrivePrefix(path))
  }

  /** The directory names from the top down to what `root` joined with `path` denotes. */
  function Resolve(platform: Platform, root: seq<string>, path: string): Option<seq<string>> {
    if Redirects(platform, path) then None else Some(Walk(root, Components(platform, path)))
  }

  lemma {:induction false} WalkLength(at: seq<string>, parts: seq<string>)
    ensures |Walk(at, parts)| <= |at| + |parts|
    ensures |Walk(at, parts)| == |at| + |parts| <==> FirstFault(parts).None?
    ensures FirstFault(parts).None? ==> Walk(at, parts) == at + parts
    decreases |parts|
  {
    if parts == [] {
    } else {
      WalkLength(Enter(at, parts[0]), parts[1..]);
      assert parts == [parts[0]] + parts[1..];
    }
  }

  /** Everything a walk leaves beyond depth `m` came from the path. */
  lemma {:induction false} WalkKeepsClean(at: seq<string>, parts: seq<string>, m: nat)
    requires forall k :: m <= k < |at| ==> '\\' !in at[k]
    requires forall k :: 0 <= k < |parts| ==> '\\' !in parts[k]
    ensures forall k :: m <= k < |Walk(at, parts)| ==> '\\' !in Walk(at, parts)[k]
    decreases |parts|
  {
    if parts == [] {
    } else {
      WalkKeepsClean(Enter(at, parts[0]), parts[1..], m);
    }
  }

  lemma AcceptedIsProper(path: string)
    ensures Accepted(path) <==> '\0' !in path && '\\' !in path && !DrivePrefix(path) && FirstFault(Split(path)).None?
  {
    if path == "" {
      assert Split(path) == [""];
    } else if path[0] == '/' {
      assert Split(path)[0] == "";
    }
  }

  /** Exact: a path is accepted when it has no nul and, on either platform and under every root, it denotes the
      root followed by the path's own components; so it stays strictly below the root. */
  lemma AcceptedIff(path: string, root: seq<string>)
    ensures Accepted(path)
            <==> '\0' !in path && forall p: Platform :: Resolve(p, root, path) == Some(root + Split(path))
  {
    AcceptedIsProper(path);
    WalkLength(root, Split(path));
    if '\\' in path {
      CharsAreKept(Posix, path, '\\');
      ComponentsHaveNoSeparator(Windows, path);
      forall k | 0 <= k < |Components(Windows, path)|
        ensures '\\' !in Components(Windows, path)[k]
      {
        assert IsSeparator(Windows, '\\');
      }
      WalkKeepsClean(root, Components(Windows, path), |root|);
      var k :| 0 <= k < |Split(path)| && '\\' in Split(path)[k];
      assert (root + Split(path))[|root| + k] == Split(path)[k];
      var there := Walk(root, Components(Windows, path));
      assert |root| + k < |there| ==> '\\' !in there[|root| + k];
      assert Resolve(Windows, root, path) != Some(root + Split(path));
    } else {
      SameWithoutBackslash(path);
      if Accepted(path) {
        assert !Redirects(Posix, path) by { assert path != "" && path[0] != '/'; }
        assert !Redirects(Windows, path);
        forall p: Platform
          ensures Resolve(p, root, path) == Some(root + Split(path))
        {
          assert Components(p, path) == Split(path) by { if p == Windows { } }
        }
      } else if forall p: Platform :: Resolve(p, root, path) == Some(root + Split(path)) {
        assert Resolve(Posix, root, path) == Some(root + Split(path));
        assert Resolve(Windows, root, path) == Some(root + Split(path));
      }
    }
  }

  /** The sync root is exactly one level below the output directory, everything received lies strictly below
      the sync root, and distinct paths resolve to distinct names. */
  lemma SyncIsConfined(platform: Platform, output: seq<string>, folder: string, path: string, other: string)
    requires Accepted(folder) && Split(folder) == [folder]
    requires Accepted(path) && Accepted(other)
    ensures var root := Resolve(platform, output, folder);
            && root == Some(output + [folder])
            && var file := Resolve(platform, root.value, path);
            && file.Some? && root.value < file.value
            && (file == Resolve(platform, root.value, other) <==> path == other)
  {
    var root := output + [folder];
    AcceptedIff(folder, output);
    AcceptedIff(path, root);
    AcceptedIff(other, root);
    JoinUndoesSplit(path);
    JoinUndoesSplit(other);
    if root + Split(path) == root + Split(other) {
      assert Split(path) == (root + Split(path))[|root|..] == (root + Split(other))[|root|..] == Split(other);
    }
  }
}
