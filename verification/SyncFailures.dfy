/** Folder syncs that fail, or never settle, although nothing goes wrong: the failing side of each exact condition in
    `SyncRuns`, at configurations that can be met. */
module SyncFailures {
  import opened Bytes
  import opened FrameProtocol
  import opened RelPaths
  import opened SyncProtocol
  import opened SyncReceivers
  import opened SyncRuns
  import opened SyncSenders
  import opened TransferEngine
  import opened Wrappers

  // ---- names --------------------------------------------------------------------------------------------------------

  /** A name either side holds and the receiver refuses fails every run, whatever the weather. */
  lemma UnsafeNameFails(cfg: Config, moves: seq<Move>)
    requires Scanned(cfg) && !SafeNames(cfg) && Legal(cfg, Start(cfg), moves) && Ended(RunOf(cfg, Start(cfg), moves))
    ensures !RunOf(cfg, Start(cfg), moves).r.phase.Finished?
  {
    hide *;
    if RunOf(cfg, Start(cfg), moves).r.phase.Finished? {
      var stuck := SuccessMirrors(cfg, moves);
    }
  }

  /** An empty source into a folder that holds these files, with no deletion asked for. */
  function IntoFolder(json: Json, h: Hash, dest: Files): Config {
    Config(json, h, [], map[], "inbox", Options(false, false), dest)
  }

  lemma InboxIsAccepted()
    ensures Accepted("inbox") && Split("inbox") == ["inbox"]
  {
    OneComponentIff("inbox");
    assert FirstFault(["inbox"][1..]).None?;
  }

  lemma IntoFolderIs(json: Json, h: Hash, dest: Files)
    ensures var cfg := IntoFolder(json, h, dest);
            && cfg.json == json && Scanned(cfg) && !Prunes(cfg)
            && (forall p :: p in Deletes(cfg) <==> p in dest && !IsPart(p))
            && (SafeNames(cfg) <==> forall p :: p in dest && !IsPart(p) ==> Accepted(p))
  {
    InboxIsAccepted();
    var cfg := IntoFolder(json, h, dest);
    DeletesAreTheStale(Held(cfg), []);
    ListingIs(h, dest);
    assert PathsOf([]) == {} && SafeSource(cfg);
    AllAcceptedMeans(Deletes(cfg));
    hide DeletesOf, Listing, RemoteMap, IsPart, Accepted, Split, AllAccepted, SafeSource;
  }

  lemma AllAcceptedMeans(paths: seq<string>)
    ensures AllAccepted(paths) <==> forall p :: p in paths ==> Accepted(p)
  {
    hide Accepted;
    if forall p :: p in paths ==> Accepted(p) {
      assert forall k :: 0 <= k < |paths| ==> paths[k] in paths;
    }
  }

  /** A destination that holds one file with a backslash in its name can never be synced to, though nothing is to be
      deleted from it. */
  lemma BackslashAtTheDestinationFails(json: Json, h: Hash, moves: seq<Move>)
    requires var cfg := IntoFolder(json, h, map["a\\b" := []]);
             Legal(cfg, Start(cfg), moves) && Ended(RunOf(cfg, Start(cfg), moves))
    ensures var cfg := IntoFolder(json, h, map["a\\b" := []]);
            Scanned(cfg) && !Prunes(cfg) && !RunOf(cfg, Start(cfg), moves).r.phase.Finished?
  {
    hide *;
    BackslashIsStale(json, h);
    UnsafeNameFails(IntoFolder(json, h, map["a\\b" := []]), moves);
  }

  lemma BackslashIsStale(json: Json, h: Hash)
    ensures var cfg := IntoFolder(json, h, map["a\\b" := []]); Scanned(cfg) && !Prunes(cfg) && !SafeNames(cfg)
  {
    BackslashIsRefused();
    var dest: Files := map["a\\b" := []];
    IntoFolderIs(json, h, dest);
    hide *;
    assert "a\\b" in dest;
  }

  lemma BackslashIsRefused()
    ensures !IsPart("a\\b") && !Accepted("a\\b")
  {
  }

  // ---- a source name that looks like a part file --------------------------------------------------------------------

  /** A source of one file with such a name. */
  function OnePart(json: Json, h: Hash, data: seq<Byte>): Config {
    Config(json, h, [FileEntry("x.nullseal-part", |data|, 420, h(data))], map["x.nullseal-part" := [data]], "inbox",
           Options(false, false), map[])
  }

  /** It is sent again by every run that succeeds after a success. */
  lemma PartNameIsSentAgain(json: Json, h: Hash, data: seq<Byte>, moves: seq<Move>, again: seq<Move>)
    requires var cfg := OnePart(json, h, data);
             && Legal(cfg, Start(cfg), moves) && Ended(RunOf(cfg, Start(cfg), moves))
             && RunOf(cfg, Start(cfg), moves).r.phase.Finished?
    requires var c := Again(OnePart(json, h, data), moves);
             && Legal(c, Start(c), again) && Ended(RunOf(c, Start(c), again))
             && RunOf(c, Start(c), again).r.phase.Finished?
    ensures var c := Again(OnePart(json, h, data), moves);
            RunOf(c, Start(c), again).s.summary.filesSent == 1
  {
    var cfg := OnePart(json, h, data);
    var c := Again(cfg, moves);
    hide *;
    OnePartIs(json, h, data);
    SecondRunSendsNothingIff(cfg, moves, again);
    AgainIs(cfg, moves);
    StillScanned(cfg, c.dest);
    var stuck := SuccessMirrors(c, again);
  }

  lemma OnePartIs(json: Json, h: Hash, data: seq<Byte>)
    ensures var cfg := OnePart(json, h, data); Scanned(cfg) && !NoPartNames(cfg) && |cfg.manifest| == 1
  {
    var cfg := OnePart(json, h, data);
    assert Scanned(cfg) by {
      InboxIsAccepted();
      assert [data][..0] == [] && Content([data]) == [] + data == data;
      hide Accepted, Split;
    }
    assert !NoPartNames(cfg) by {
      assert "x.nullseal-part" == PartOf("x");
      hide PartOf, IsPart;
      assert IsPart(cfg.manifest[0].path);
    }
    hide *;
    assert |cfg.manifest| == 1 by { OneFile(json, h, data); }
  }

  lemma OneFile(json: Json, h: Hash, data: seq<Byte>)
    ensures |OnePart(json, h, data).manifest| == 1
  {
  }

  // ---- a delete list that does not fit a frame ----------------------------------------------------------------------

  function TotalLength(paths: seq<string>): nat {
    if paths == [] then 0 else TotalLength(paths[..|paths| - 1]) + |paths[|paths| - 1]|
  }

  /** Printing a delete list prints its paths. */
  ghost predicate PrintsPaths(json: Json) {
    forall paths: seq<string> ::
      json.toText(Delete(paths)).Ok? ==> |json.toText(Delete(paths)).value| >= TotalLength(paths)
  }

  /** The sender names every stale path in one frame, also when none is to be deleted. When those names alone are longer
      than a frame may be, every run fails, whatever the weather. */
  lemma OversizedDeleteFails(cfg: Config, moves: seq<Move>)
    requires Scanned(cfg) && PrintsPaths(cfg.json) && TotalLength(Deletes(cfg)) > MAX_FRAME_BYTES
    requires Legal(cfg, Start(cfg), moves) && Ended(RunOf(cfg, Start(cfg), moves))
    ensures !RunOf(cfg, Start(cfg), moves).r.phase.Finished?
  {
    hide *;
    var stuck := EndOf(cfg, moves);
    DeleteTooLong(cfg);
    if stuck.Some? {
      EndIsBounded(cfg, stuck.value);
      DeleteMustFit(cfg, stuck.value);
    }
  }

  lemma EndIsBounded(cfg: Config, stuck: set<string>)
    ensures Bounded(cfg, Succeeded(stuck))
  {
  }

  lemma DeleteTooLong(cfg: Config)
    requires PrintsPaths(cfg.json) && TotalLength(Deletes(cfg)) > MAX_FRAME_BYTES
    ensures !Encodable(cfg.json, Control(Delete(Deletes(cfg)))) && Deletes(cfg) != []
  {
    hide Deletes;
  }

  lemma DeleteMustFit(cfg: Config, stuck: set<string>)
    requires Bounded(cfg, Succeeded(stuck)) && Fit(cfg, Succeeded(stuck)) && Deletes(cfg) != []
    ensures Encodable(cfg.json, Control(Delete(Deletes(cfg))))
  {
    ClosingIs(cfg);
    hide Deletes, Closing, Encodable, FitUpTo, Plan, Receipt;
    assert Encodable(cfg.json, Closing(cfg)[0]);
  }

  /** 4900 names of 220 characters. */
  function StaleName(m: nat): (s: string)
    ensures |s| == 220
  {
    var i, j := m / 70, m % 70;
    seq(220, k => if k < i then 'a' else if k < 110 then 'b' else if k < 110 + j then 'c' else 'd')
  }

  lemma StaleNamesDiffer(m: nat, n: nat)
    requires m < n < 4900
    ensures StaleName(m) != StaleName(n)
  {
    var i, j, x, y := m / 70, m % 70, n / 70, n % 70;
    assert i < 70 && x < 70 && (i < x || (i == x && j < y));
    if i < x {
      assert StaleName(m)[i] == 'b' && StaleName(n)[i] == 'a';
    } else {
      assert StaleName(m)[110 + j] == 'd' && StaleName(n)[110 + j] == 'c';
    }
  }

  lemma StaleNameIsPlain(m: nat)
    requires m < 4900
    ensures Accepted(StaleName(m)) && !IsPart(StaleName(m))
  {
    var s := StaleName(m);
    assert m / 70 < 70;
    assert forall c :: c in s ==> 'a' <= c <= 'd';
    OneComponentIff(s);
    assert FirstFault([s][1..]).None?;
    assert s[220 - |PART_SUFFIX|..][|PART_SUFFIX| - 1] == s[219] == 'd';
  }

  function StaleNames(n: nat): set<string> {
    set m | 0 <= m < n :: StaleName(m)
  }

  lemma {:induction false} StaleNamesCount(n: nat)
    requires n <= 4900
    ensures |StaleNames(n)| == n
  {
    hide StaleName;
    if n == 0 {
    } else {
      StaleNamesCount(n - 1);
      forall m: nat | m < n - 1
        ensures StaleName(m) != StaleName(n - 1)
      {
        StaleNamesDiffer(m, n - 1);
      }
      assert StaleNames(n) == StaleNames(n - 1) + {StaleName(n - 1)};
    }
  }

  lemma {:induction false} ListCovers(list: seq<string>, s: set<string>)
    requires forall p :: p in s ==> p in list
    ensures |list| >= |s|
  {
    if list == [] {
      assert s == {};
    } else {
      var last := list[|list| - 1];
      ListCovers(list[..|list| - 1], s - {last});
    }
  }

  lemma {:induction false} LengthsAdd(paths: seq<string>, n: nat)
    requires forall p :: p in paths ==> |p| == n
    ensures TotalLength(paths) == |paths| * n
  {
    if paths == [] {
    } else {
      var init := paths[..|paths| - 1];
      LengthsAdd(init, n);
      assert paths[|paths| - 1] in paths && |init| == |paths| - 1;
      assert |paths| * n == |init| * n + n;
    }
  }

  /** A destination that holds 4900 files of unremarkable names, none of which is to be deleted, can never be synced to:
      every name is accepted, and the list of them is longer than a frame. */
  lemma CrowdedDestinationFails(json: Json, h: Hash, moves: seq<Move>)
    requires PrintsPaths(json)
    requires var cfg := IntoFolder(json, h, CrowdedFolder());
             Legal(cfg, Start(cfg), moves) && Ended(RunOf(cfg, Start(cfg), moves))
    ensures var cfg := IntoFolder(json, h, CrowdedFolder());
            Scanned(cfg) && SafeNames(cfg) && !Prunes(cfg) && !RunOf(cfg, Start(cfg), moves).r.phase.Finished?
  {
    hide *;
    CrowdedIs(json, h);
    OversizedDeleteFails(IntoFolder(json, h, CrowdedFolder()), moves);
  }

  function CrowdedFolder(): Files {
    map p | p in StaleNames(4900) :: []
  }

  lemma CrowdedIs(json: Json, h: Hash)
    ensures var cfg := IntoFolder(json, h, CrowdedFolder());
            && cfg.json == json && Scanned(cfg) && SafeNames(cfg) && !Prunes(cfg)
            && TotalLength(Deletes(cfg)) > MAX_FRAME_BYTES
  {
    var cfg := IntoFolder(json, h, CrowdedFolder());
    IntoFolderIs(json, h, CrowdedFolder());
    CrowdedNames();
    StaleNamesCount(4900);
    hide *;
    ListCovers(Deletes(cfg), StaleNames(4900));
    LengthsAdd(Deletes(cfg), 220);
    assert |Deletes(cfg)| * 220 >= 4900 * 220;
  }

  lemma CrowdedNames()
    ensures forall p :: p in StaleNames(4900) ==> Accepted(p) && !IsPart(p) && |p| == 220
    ensures forall p :: p in CrowdedFolder() <==> p in StaleNames(4900)
  {
    hide Accepted, IsPart, StaleName;
    forall p | p in StaleNames(4900)
      ensures Accepted(p) && !IsPart(p) && |p| == 220
    {
      var m: nat :| m < 4900 && p == StaleName(m);
      StaleNameIsPlain(m);
    }
  }
}
