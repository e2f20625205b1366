/** Where the entries of an honest listing end up in a plan. A listing is honest if every entry is named below the
    directory that was listed. Many servers let names contain backslashes. The planner turns those into slashes, so
    one name may stand for several parts of a place. */
module Placement {
  import opened Prelude
  import opened Destinations
  import opened Ordering
  import opened Planner
  import Paths
  import Text

  // ---------------------------------------------------------------------------------------------
  // Parts of places

  /** What stands between two slashes. */
  predicate IsPart(s: string) {
    s != "" && '/' !in s && '\\' !in s
  }

  predicate AreParts(parts: seq<string>) {
    forall i :: 0 <= i < |parts| ==> IsPart(parts[i])
  }

  /** The parts that names stand for: each one more than it has backslashes. */
  function AllParts(segments: seq<string>): seq<string> {
    if segments == [] then [] else SegmentsOf(segments[0]) + AllParts(segments[1..])
  }

  lemma {:induction false} AllPartsInTurn(a: seq<string>, b: seq<string>)
    ensures AllParts(a + b) == AllParts(a) + AllParts(b)
  {
    if a == [] {
      assert a + b == b;
    } else {
      assert (a + b)[1..] == a[1..] + b;
      AllPartsInTurn(a[1..], b);
      Associative(SegmentsOf(a[0]), AllParts(a[1..]), AllParts(b));
    }
  }

  lemma AllPartsOfOneMore(segments: seq<string>, name: string)
    ensures AllParts(segments + [name]) == AllParts(segments) + SegmentsOf(name)
  {
    AllPartsInTurn(segments, [name]);
    assert [name][1..] == [] && SegmentsOf(name) + [] == SegmentsOf(name);
  }

  /** A name without backslashes is its only part. */
  lemma OnePart(name: string)
    requires '/' !in name && '\\' !in name
    ensures SegmentsOf(name) == [name]
  {
    ReplaceNothing(name);
    Text.SplitOfPlain('/', name);
  }

  lemma {:induction false} ReplacedJoin(segments: seq<string>)
    ensures ReplaceBackslashes(Text.Join('/', segments)) == Text.Join('/', AllParts(segments))
  {
    if segments == [] {
    } else {
      var parts := SegmentsOf(segments[0]);
      Text.JoinOfSplit('/', ReplaceBackslashes(segments[0]));
      ReplacedJoin(segments[1..]);
      if |segments| == 1 {
        assert AllParts(segments[1..]) == [] && parts + [] == parts;
      } else {
        assert AllParts(segments[1..]) == SegmentsOf(segments[1]) + AllParts(segments[1..][1..]);
        Text.JoinOfConcat('/', parts, AllParts(segments[1..]));
        ReplaceInTurn(segments[0] + "/", Text.Join('/', segments[1..]));
        ReplaceInTurn(segments[0], "/");
        assert ReplaceBackslashes("/") == "/";
      }
    }
  }

  lemma {:induction false} JoinHasNoBackslash(parts: seq<string>)
    requires AreParts(parts)
    ensures '\\' !in Text.Join('/', parts)
  {
    if |parts| <= 1 {
    } else {
      JoinHasNoBackslash(parts[1..]);
    }
  }

  lemma {:induction false} JoinOneMore(parts: seq<string>, last: string)
    ensures Text.Join('/', parts + [last]) == if parts == [] then last else Text.Join('/', parts) + "/" + last
  {
    if parts == [] {
      assert parts + [last] == [last];
    } else {
      Text.JoinOfConcat('/', parts, [last]);
    }
  }

  lemma {:induction false} JoinStartsPlain(parts: seq<string>)
    requires parts != [] && AreParts(parts)
    ensures Text.Join('/', parts) != "" && !IsSeparator(Text.Join('/', parts)[0])
    ensures !IsSeparator(Text.Join('/', parts)[|Text.Join('/', parts)| - 1])
  {
    assert IsPart(parts[0]) && parts[0][0] in parts[0];
    if |parts| > 1 {
      JoinStartsPlain(parts[1..]);
    } else {
      assert parts[0][|parts[0]| - 1] in parts[0];
    }
  }

  lemma JoinIsNormal(segments: seq<string>)
    requires segments != [] && AreParts(segments)
    ensures ReplaceBackslashes(TrimSeparators(Text.Join('/', segments))) == Text.Join('/', segments)
  {
    JoinStartsPlain(segments);
    JoinHasNoBackslash(segments);
    ReplaceNothing(Text.Join('/', segments));
  }

  lemma ParentOfName(segments: seq<string>)
    requires |segments| == 1 && AreParts(segments)
    ensures ParentRelative(Text.Join('/', segments)) == None
  {
    assert IsPart(segments[0]);
    JoinIsNormal(segments);
    Paths.NoSlash(segments[0]);
  }

  lemma ParentOfMore(segments: seq<string>, init: seq<string>)
    requires |segments| > 1 && AreParts(segments) && init == segments[..|segments| - 1]
    ensures ParentRelative(Text.Join('/', segments)) == Some(Text.Join('/', init))
  {
    var last := segments[|segments| - 1];
    assert init + [last] == segments;
    JoinIsNormal(segments);
    JoinThenLast(init, last);
    JoinStartsPlain(init);
  }

  lemma JoinThenLast(init: seq<string>, last: string)
    requires init != [] && AreParts(init + [last])
    ensures Paths.BeforeLastSlash(Text.Join('/', init + [last])) == Some(Text.Join('/', init))
  {
    assert IsPart((init + [last])[|init|]);
    JoinOneMore(init, last);
    Paths.LastSlash(Text.Join('/', init), last);
  }

  /** What is above a joined place is what its proper beginnings join to. */
  lemma {:induction false} AncestorsOfJoin(segments: seq<string>, k: nat)
    requires AreParts(segments) && 0 < k < |segments|
    ensures Text.Join('/', segments[..k]) in Ancestors(Text.Join('/', segments))
    decreases |segments|
  {
    var init := segments[..|segments| - 1];
    ParentOfMore(segments, init);
    if k < |init| {
      assert init[..k] == segments[..k];
      AncestorsOfJoin(init, k);
    } else {
      assert init == segments[..k];
    }
  }

  lemma {:induction false} AncestorIsPrefix(segments: seq<string>, place: string) returns (k: nat)
    requires AreParts(segments) && segments != [] && place in Ancestors(Text.Join('/', segments))
    ensures 0 < k < |segments| && place == Text.Join('/', segments[..k])
    decreases |segments|
  {
    if |segments| == 1 {
      ParentOfName(segments);
    }
    var init := segments[..|segments| - 1];
    ParentOfMore(segments, init);
    if place == Text.Join('/', init) {
      k := |init|;
    } else {
      k := AncestorIsPrefix(init, place);
      assert init[..k] == segments[..k];
    }
  }

  // ---------------------------------------------------------------------------------------------
  // Honest listings

  function Below(source: string, segments: seq<string>): string {
    if segments == [] then source else source + "/" + Text.Join('/', segments)
  }

  predicate IsEntryOf(ctx: Context, segments: seq<string>, entry: FileEntry) {
    Paths.IsPlain(entry.name) && entry.path == Below(ctx.source, segments + [entry.name])
  }

  ghost predicate Honest(ctx: Context) {
    && ctx.source != "" && ctx.source[|ctx.source| - 1] != '/'
    && forall segments :: Paths.ArePlain(segments) && ctx.list(Below(ctx.source, segments)).Ok? ==>
         ListsItsOwn(ctx, segments, ctx.list(Below(ctx.source, segments)).value)
  }

  predicate ListsItsOwn(ctx: Context, segments: seq<string>, entries: seq<FileEntry>) {
    forall i :: 0 <= i < |entries| ==> IsEntryOf(ctx, segments, entries[i])
  }

  /** The parts of the root's own name, if it is part of the plan. */
  function Top(ctx: Context): seq<string> {
    if ctx.prefix == "" then [] else SegmentsOf(ctx.prefix)
  }

  /** Where something is in the plan, part by part. */
  function Full(ctx: Context, segments: seq<string>): seq<string> {
    Top(ctx) + AllParts(segments)
  }

  lemma FullOfOneMore(ctx: Context, segments: seq<string>, name: string)
    ensures Full(ctx, segments + [name]) == Full(ctx, segments) + SegmentsOf(name)
  {
    AllPartsOfOneMore(segments, name);
    Associative(Top(ctx), AllParts(segments), SegmentsOf(name));
  }

  lemma NothingToTrim(s: string)
    requires s == "" || s[|s| - 1] != '/'
    ensures Paths.TrimSlashes(s) == s
  {
  }

  lemma RelativeOf(source: string, front: string, relative: string, path: string)
    requires Paths.TrimSlashes(source) == source && source != "" && source != "/" && front == source + "/"
    requires Paths.TrimSlashes(path) == path && path == front + relative
    requires relative != "" && ".." !in Text.Split('/', relative)
    ensures RemoteRelative(source, path) == Ok(ReplaceBackslashes(relative))
  {
    assert front <= path && path[|front|..] == relative;
    assert |source| < |path|;
  }

  lemma RelativeOfBelow(source: string, segments: seq<string>)
    requires source != "" && source[|source| - 1] != '/' && Paths.ArePlain(segments) && segments != []
    ensures Text.Join('/', segments) != ""
    ensures RemoteRelative(source, Below(source, segments)) == Ok(ReplaceBackslashes(Text.Join('/', segments)))
  {
    Paths.JoinEndsPlain(segments);
    assert forall i :: 0 <= i < |segments| ==> Paths.IsPlain(segments[i]);
    Text.SplitOfJoin('/', segments);
    NothingToTrim(source);
    NothingToTrim(Below(source, segments));
    RelativeOf(source, source + "/", Text.Join('/', segments), Below(source, segments));
  }

  /** An entry's place in the plan says how it lies below the source, part by part. */
  lemma PlaceOfBelow(ctx: Context, segments: seq<string>)
    requires Honest(ctx) && Paths.ArePlain(segments) && segments != []
    ensures Place(ctx, Below(ctx.source, segments)).Ok? && Place(ctx, Below(ctx.source, segments)).value != ""
    ensures SegmentsOf(Place(ctx, Below(ctx.source, segments)).value) == Full(ctx, segments)
  {
    var relative := ReplaceBackslashes(Text.Join('/', segments));
    RelativeOfBelow(ctx.source, segments);
    SegmentsOfRelative(segments, relative);
    if ctx.prefix != "" {
      SegmentsOfPair(ctx.prefix, relative);
    }
  }

  lemma SegmentsOfRelative(segments: seq<string>, relative: string)
    requires segments != [] && relative == ReplaceBackslashes(Text.Join('/', segments))
    ensures SegmentsOf(relative) == AllParts(segments)
  {
    ReplaceTwice(Text.Join('/', segments));
    ReplacedJoin(segments);
    NoSlashInParts(segments);
    Text.SplitOfJoin('/', AllParts(segments));
  }

  lemma {:induction false} NoSlashInParts(segments: seq<string>)
    ensures forall i :: 0 <= i < |AllParts(segments)| ==> '/' !in AllParts(segments)[i]
    ensures segments != [] ==> AllParts(segments) != []
  {
    if segments == [] {
    } else {
      Text.SplitHasNone('/', ReplaceBackslashes(segments[0]));
      NoSlashInParts(segments[1..]);
    }
  }

  lemma SegmentsOfPair(a: string, b: string)
    ensures SegmentsOf(a + "/" + b) == SegmentsOf(a) + SegmentsOf(b)
  {
    ReplaceInTurn(a + "/", b);
    ReplaceInTurn(a, "/");
    assert ReplaceBackslashes("/") == "/";
    Text.SplitOfConcat('/', ReplaceBackslashes(a), ReplaceBackslashes(b));
  }

  // ---------------------------------------------------------------------------------------------
  // Where the entries of a tree lie

  lemma {:induction false} InForest(ctx: Context, paths: seq<string>, levels: nat, entry: FileEntry)
    returns (path: string)
    requires entry in ForestEntries(ctx, paths, levels)
    ensures path in paths && entry in TreeEntries(ctx, path, levels)
  {
    var init, last := paths[..|paths| - 1], paths[|paths| - 1];
    if entry in TreeEntries(ctx, last, levels) {
      path := last;
    } else {
      path := InForest(ctx, init, levels, entry);
    }
  }

  lemma {:induction false} ForestHas(ctx: Context, paths: seq<string>, levels: nat, path: string, entry: FileEntry)
    requires path in paths && entry in TreeEntries(ctx, path, levels)
    ensures entry in ForestEntries(ctx, paths, levels)
  {
    var init, last := paths[..|paths| - 1], paths[|paths| - 1];
    if entry !in TreeEntries(ctx, last, levels) {
      ForestHas(ctx, init, levels, path, entry);
    }
  }

  lemma {:induction false} ChildIsEntry(entries: seq<FileEntry>, path: string) returns (entry: FileEntry)
    requires path in Children(entries)
    ensures entry in entries && entry.kind == Directory && entry.path == path
  {
    if entries[0].kind == Directory && entries[0].path == path {
      entry := entries[0];
    } else {
      entry := ChildIsEntry(entries[1..], path);
    }
  }

  lemma InTree(ctx: Context, path: string, levels: nat, entry: FileEntry)
    requires entry in TreeEntries(ctx, path, levels)
    ensures levels > 0 && ctx.list(path).Ok?
    ensures entry in ctx.list(path).value || entry in ForestEntries(ctx, Children(ctx.list(path).value), levels - 1)
  {
  }

  ghost predicate HasDirectory(entries: seq<FileEntry>, path: string) {
    exists d :: d in entries && d.kind == Directory && d.path == path
  }

  /** An entry lies some names below a directory, the last of which is its own, and the directory that it is in is
      among the entries of the tree too, unless it is the first one. */
  ghost predicate LiesBelow(ctx: Context, segments: seq<string>, tree: seq<FileEntry>, entry: FileEntry,
                            tail: seq<string>) {
    && tail != [] && Paths.ArePlain(segments + tail) && entry.path == Below(ctx.source, segments + tail)
    && tail[|tail| - 1] == entry.name
    && (|tail| > 1 ==> HasDirectory(tree, Below(ctx.source, segments + tail[..|tail| - 1])))
  }

  function EntriesBelow(ctx: Context, segments: seq<string>, levels: nat): seq<FileEntry> {
    TreeEntries(ctx, Below(ctx.source, segments), levels)
  }

  lemma TreeUnfolds(ctx: Context, segments: seq<string>, levels: nat, entries: seq<FileEntry>)
    requires levels > 0 && ctx.list(Below(ctx.source, segments)) == Ok(entries)
    ensures EntriesBelow(ctx, segments, levels) == entries + ForestEntries(ctx, Children(entries), levels - 1)
  {
  }

  lemma ListedIsBelow(ctx: Context, segments: seq<string>, entries: seq<FileEntry>, entry: FileEntry)
    requires Honest(ctx) && Paths.ArePlain(segments)
    requires ctx.list(Below(ctx.source, segments)) == Ok(entries) && entry in entries
    ensures IsEntryOf(ctx, segments, entry) && Paths.ArePlain(segments + [entry.name])
  {
    assert ListsItsOwn(ctx, segments, ctx.list(Below(ctx.source, segments)).value);
    var i :| 0 <= i < |entries| && entries[i] == entry;
    assert IsEntryOf(ctx, segments, entries[i]);
  }

  /** A subdirectory among the entries of a directory. */
  predicate IsChild(ctx: Context, segments: seq<string>, entries: seq<FileEntry>, child: FileEntry) {
    && child in entries && child.kind == Directory && child.path in Children(entries)
    && child.path == Below(ctx.source, segments + [child.name]) && Paths.ArePlain(segments + [child.name])
  }

  lemma ChildWith(ctx: Context, segments: seq<string>, levels: nat, entries: seq<FileEntry>, entry: FileEntry)
    returns (child: FileEntry)
    requires Honest(ctx) && Paths.ArePlain(segments) && ctx.list(Below(ctx.source, segments)) == Ok(entries)
    requires entry in ForestEntries(ctx, Children(entries), levels)
    ensures IsChild(ctx, segments, entries, child) && entry in EntriesBelow(ctx, segments + [child.name], levels)
  {
    var path := InForest(ctx, Children(entries), levels, entry);
    child := ChildIsEntry(entries, path);
    ListedIsBelow(ctx, segments, entries, child);
  }

  lemma ChildInTree(ctx: Context, segments: seq<string>, levels: nat, entries: seq<FileEntry>, child: FileEntry)
    requires levels > 0 && ctx.list(Below(ctx.source, segments)) == Ok(entries)
             && IsChild(ctx, segments, entries, child)
    ensures HasDirectory(EntriesBelow(ctx, segments, levels), child.path)
    ensures forall d :: d in EntriesBelow(ctx, segments + [child.name], levels - 1) ==>
              d in EntriesBelow(ctx, segments, levels)
  {
    TreeUnfolds(ctx, segments, levels, entries);
    assert child in EntriesBelow(ctx, segments, levels);
    SubtreeInForest(ctx, EntriesBelow(ctx, segments + [child.name], levels - 1), child.path, Children(entries),
                    levels - 1);
  }

  lemma SubtreeInForest(ctx: Context, tree: seq<FileEntry>, path: string, paths: seq<string>, levels: nat)
    requires tree == TreeEntries(ctx, path, levels) && path in paths
    ensures forall d :: d in tree ==> d in ForestEntries(ctx, paths, levels)
  {
    forall d | d in tree ensures d in ForestEntries(ctx, paths, levels) {
      ForestHas(ctx, paths, levels, path, d);
    }
  }

  lemma LiesBelowChild(ctx: Context, segments: seq<string>, tree: seq<FileEntry>, subtree: seq<FileEntry>, name: string,
                       entry: FileEntry, below: seq<string>)
    requires HasDirectory(tree, Below(ctx.source, segments + [name])) && forall d :: d in subtree ==> d in tree
    requires LiesBelow(ctx, segments + [name], subtree, entry, below)
    ensures LiesBelow(ctx, segments, tree, entry, [name] + below)
  {
    TailOfTail(segments, name, below);
    if |below| == 1 {
      assert segments + [name] + below[..0] == segments + [name];
    } else {
      var directory := Below(ctx.source, segments + [name] + below[..|below| - 1]);
      var d :| d in subtree && d.kind == Directory && d.path == directory;
      assert d in tree;
    }
  }

  lemma TailOfTail(segments: seq<string>, name: string, below: seq<string>)
    requires below != []
    ensures segments + [name] + below == segments + ([name] + below)
    ensures segments + [name] + below[..|below| - 1] == segments + ([name] + below)[..|below|]
  {
    assert ([name] + below)[..|below|] == [name] + below[..|below| - 1];
  }

  /** An entry of a tree is either listed in its root or in the tree of a subdirectory. */
  lemma OwnOrBelow(ctx: Context, segments: seq<string>, levels: nat, entry: FileEntry, tree: seq<FileEntry>)
    returns (child: Option<string>)
    requires Honest(ctx) && Paths.ArePlain(segments) && tree == EntriesBelow(ctx, segments, levels) && entry in tree
    ensures child.None? ==> LiesBelow(ctx, segments, tree, entry, [entry.name])
    ensures child.Some? ==> levels > 0 && LeadsOn(ctx, segments + [child.value], levels - 1, entry, tree)
  {
    InTree(ctx, Below(ctx.source, segments), levels, entry);
    var entries := ctx.list(Below(ctx.source, segments)).value;
    if entry in entries {
      ListedIsBelow(ctx, segments, entries, entry);
      child := None;
    } else {
      var c := ChildWith(ctx, segments, levels - 1, entries, entry);
      ChildInTree(ctx, segments, levels, entries, c);
      child := Some(c.name);
    }
  }

  /** The directory at those names is in the tree, and so is all of its own tree, which has the entry. */
  ghost predicate LeadsOn(ctx: Context, segments: seq<string>, levels: nat, entry: FileEntry, tree: seq<FileEntry>) {
    && Paths.ArePlain(segments) && HasDirectory(tree, Below(ctx.source, segments))
    && entry in EntriesBelow(ctx, segments, levels)
    && forall d :: d in EntriesBelow(ctx, segments, levels) ==> d in tree
  }

  /** Every entry of a tree lies some names below its root. */
  lemma {:induction false} EntryLiesBelow(ctx: Context, segments: seq<string>, levels: nat, entry: FileEntry)
    returns (tail: seq<string>)
    requires Honest(ctx) && Paths.ArePlain(segments) && entry in EntriesBelow(ctx, segments, levels)
    ensures LiesBelow(ctx, segments, EntriesBelow(ctx, segments, levels), entry, tail)
    decreases levels
  {
    var tree := EntriesBelow(ctx, segments, levels);
    var child := OwnOrBelow(ctx, segments, levels, entry, tree);
    if child.None? {
      tail := [entry.name];
    } else {
      var below := EntryLiesBelow(ctx, segments + [child.value], levels - 1, entry);
      LiesBelowChild(ctx, segments, tree, EntriesBelow(ctx, segments + [child.value], levels - 1), child.value, entry,
                     below);
      tail := [child.value] + below;
    }
  }

  // ---------------------------------------------------------------------------------------------
  // What was found

  lemma {:induction false} DirsOfHas(ctx: Context, entries: seq<FileEntry>, entry: FileEntry)
    requires entry in entries && entry.kind == Directory && PlaceOr(ctx, entry.path) != ""
    ensures PlaceOr(ctx, entry.path) in DirsOf(ctx, entries)
  {
    if entry == entries[0] {
    } else {
      DirsOfHas(ctx, entries[1..], entry);
    }
  }

  lemma {:induction false} DirsOfFrom(ctx: Context, entries: seq<FileEntry>, place: string) returns (entry: FileEntry)
    requires place in DirsOf(ctx, entries)
    ensures entry in entries && entry.kind == Directory && place == PlaceOr(ctx, entry.path)
  {
    if place in DirOf(ctx, entries[0]) {
      entry := entries[0];
    } else {
      entry := DirsOfFrom(ctx, entries[1..], place);
    }
  }

  lemma {:induction false} FilesOfHas(ctx: Context, entries: seq<FileEntry>, entry: FileEntry)
    requires entry in entries && entry.kind == File
    ensures RelativeFile(entry.path, PlaceOr(ctx, entry.path)) in FilesOf(ctx, entries)
  {
    if entry == entries[0] {
    } else {
      FilesOfHas(ctx, entries[1..], entry);
    }
  }

  lemma {:induction false} FilesOfFrom(ctx: Context, entries: seq<FileEntry>, file: RelativeFile)
    returns (entry: FileEntry)
    requires file in FilesOf(ctx, entries)
    ensures entry in entries && entry.kind == File && file == RelativeFile(entry.path, PlaceOr(ctx, entry.path))
  {
    if file in FileOf(ctx, entries[0]) {
      entry := entries[0];
    } else {
      entry := FilesOfFrom(ctx, entries[1..], file);
    }
  }

  lemma {:induction false} LinksOfFrom(ctx: Context, entries: seq<FileEntry>, link: RelativeLink)
    returns (entry: FileEntry)
    requires link in LinksOf(ctx, entries)
    ensures entry in entries && entry.kind == Symlink && ctx.policy == CopyLink && entry.symlinkTarget.Some?
            && link == RelativeLink(entry.symlinkTarget.value, PlaceOr(ctx, entry.path))
  {
    if link in LinkOf(ctx, entries[0]) {
      entry := entries[0];
    } else {
      entry := LinksOfFrom(ctx, entries[1..], link);
    }
  }

  lemma {:induction false} LinksOfHas(ctx: Context, entries: seq<FileEntry>, entry: FileEntry)
    requires entry in entries && entry.kind == Symlink && ctx.policy == CopyLink && entry.symlinkTarget.Some?
    ensures RelativeLink(entry.symlinkTarget.value, PlaceOr(ctx, entry.path)) in LinksOf(ctx, entries)
  {
    if entry == entries[0] {
    } else {
      LinksOfHas(ctx, entries[1..], entry);
    }
  }

  lemma FoundDirs(ctx: Context, place: string)
    ensures place in FoundIn(ctx).dirs <==> place in DirsOf(ctx, Tree(ctx))
  {
    InsertAllIsSorted([], DirsOf(ctx, Tree(ctx)));
  }

  // ---------------------------------------------------------------------------------------------
  // What is planned for an entry

  /** Where an entry of the whole tree lies. */
  ghost predicate LiesAt(ctx: Context, entry: FileEntry, tail: seq<string>) {
    && tail != [] && Paths.ArePlain(tail) && entry.path == Below(ctx.source, tail) && tail[|tail| - 1] == entry.name
    && DirectoryIsThere(ctx, tail[..|tail| - 1])
  }

  ghost predicate DirectoryIsThere(ctx: Context, segments: seq<string>) {
    segments != [] ==> HasDirectory(Tree(ctx), Below(ctx.source, segments))
  }

  lemma FromTop(ctx: Context, entry: FileEntry) returns (tail: seq<string>)
    requires Honest(ctx) && entry in Tree(ctx)
    ensures LiesAt(ctx, entry, tail)
  {
    assert EntriesBelow(ctx, [], Levels(0)) == Tree(ctx);
    tail := EntryLiesBelow(ctx, [], Levels(0), entry);
    assert [] + tail == tail;
    assert |tail| > 1 ==> [] + tail[..|tail| - 1] == tail[..|tail| - 1];
  }

  /** All places that the beginnings of a sequence of parts join to. */
  ghost predicate BeginningsArePlanned(plan: TransferPlan, base: Base, full: seq<string>) {
    forall k :: 0 < k < |full| ==> IsPlanned(plan, base, Text.Join('/', full[..k]))
  }

  /** What is above a place, and where it leads to, is told by its parts. */
  lemma ToldByParts(base: Base, place: string, full: seq<string>)
    requires SegmentsOf(place) == full && place != ""
    ensures Ancestors(place) == Ancestors(Text.Join('/', full))
    ensures JoinDestination(base, place) == JoinDestination(base, Text.Join('/', full))
  {
    Text.JoinOfSplit('/', ReplaceBackslashes(place));
    ReplaceTwice(place);
    ParentIgnoresSlashKind(place, Text.Join('/', full));
    DestinationIgnoresSlashKind(base, place, Text.Join('/', full));
  }

  lemma AncestorsByParts(base: Base, place: string, full: seq<string>, k: nat)
    requires SegmentsOf(place) == full && place != "" && AreParts(full) && 0 < k < |full|
    ensures Text.Join('/', full[..k]) in Ancestors(place)
  {
    ToldByParts(base, place, full);
    AncestorsOfJoin(full, k);
  }

  /** Being closed, told part by part. */
  lemma ClosedIsByParts(plan: TransferPlan, base: Base, place: string, full: seq<string>)
    requires SegmentsOf(place) == full && place != "" && AreParts(full)
    ensures IsClosed(plan, base, place) <==> BeginningsArePlanned(plan, base, full)
  {
    ToldByParts(base, place, full);
    if IsClosed(plan, base, place) {
      forall k | 0 < k < |full| ensures IsPlanned(plan, base, Text.Join('/', full[..k])) {
        AncestorsOfJoin(full, k);
      }
    }
    if BeginningsArePlanned(plan, base, full) {
      forall a | a in Ancestors(place) ensures IsPlanned(plan, base, a) {
        var k := AncestorIsPrefix(full, a);
      }
    }
  }

  lemma DirectoryIsFound(ctx: Context, segments: seq<string>) returns (place: string)
    requires Honest(ctx) && segments != [] && Paths.ArePlain(segments)
    requires HasDirectory(Tree(ctx), Below(ctx.source, segments))
    ensures place == PlaceOr(ctx, Below(ctx.source, segments)) && place != ""
            && SegmentsOf(place) == Full(ctx, segments)
    ensures place in FoundIn(ctx).dirs
  {
    var d :| d in Tree(ctx) && d.kind == Directory && d.path == Below(ctx.source, segments);
    place := PlaceOr(ctx, d.path);
    PlaceOfBelow(ctx, segments);
    DirsOfHas(ctx, Tree(ctx), d);
    FoundDirs(ctx, place);
  }

  /** The directories that lead to a file or to a directory are all planned, and so is the directory itself. */
  lemma AncestorsArePlanned(ctx: Context, base: Base, mode: PlanMode, plan: TransferPlan, entry: FileEntry)
    returns (tail: seq<string>)
    requires Honest(ctx) && IsPlanFor(plan, base, FoundIn(ctx), ctx.prefix, mode) && entry in Tree(ctx)
    requires entry.kind == File || entry.kind == Directory
    ensures LiesAt(ctx, entry, tail) && SegmentsOf(PlaceOr(ctx, entry.path)) == Full(ctx, tail)
    ensures IsClosed(plan, base, PlaceOr(ctx, entry.path))
    ensures AreParts(Full(ctx, tail)) ==> BeginningsArePlanned(plan, base, Full(ctx, tail))
    ensures entry.kind == Directory ==> IsPlanned(plan, base, PlaceOr(ctx, entry.path))
  {
    tail := FromTop(ctx, entry);
    var place := PlaceOr(ctx, entry.path);
    PlaceOfBelow(ctx, tail);
    FoundIsClosed(ctx, base, mode, plan, entry, place);
    if AreParts(Full(ctx, tail)) {
      ClosedIsByParts(plan, base, place, Full(ctx, tail));
    }
  }

  lemma FoundIsClosed(ctx: Context, base: Base, mode: PlanMode, plan: TransferPlan, entry: FileEntry, place: string)
    requires IsPlanFor(plan, base, FoundIn(ctx), ctx.prefix, mode) && entry in Tree(ctx)
    requires entry.kind == File || entry.kind == Directory
    requires place == PlaceOr(ctx, entry.path) && place != ""
    ensures IsClosed(plan, base, place) && (entry.kind == Directory ==> IsPlanned(plan, base, place))
  {
    FilesAndDirectoriesAreClosed(plan, base, FoundIn(ctx), ctx.prefix, mode);
    if entry.kind == Directory {
      DirsOfHas(ctx, Tree(ctx), entry);
      FoundDirs(ctx, place);
    } else {
      FilesOfHas(ctx, Tree(ctx), entry);
      assert RelativeFile(entry.path, place) in FoundIn(ctx).files;
    }
  }

  /** A place that is planned because of something else than the link, or has the destination of the link's nearest
      directory. */
  predicate NeedsNoLink(ctx: Context, base: Base, mode: PlanMode, link: RelativeLink, place: string) {
    SharesDirectory(base, link, place) || IsPlannedBesides(base, FoundIn(ctx), ctx.prefix, mode, link, place)
  }

  /** The first k parts lead to such a place. */
  predicate StandsWithout(ctx: Context, base: Base, mode: PlanMode, link: RelativeLink, full: seq<string>, k: nat)
    requires k <= |full|
  {
    NeedsNoLink(ctx, base, mode, link, Text.Join('/', full[..k]))
  }

  /** A directory that was found, with its parts, and everything above it. */
  lemma FoundStandsWithout(base: Base, found: Found, prefix: string, mode: PlanMode, place: string, dir: seq<string>,
                           k: nat)
    requires place in found.dirs && place != "" && SegmentsOf(place) == dir && AreParts(dir) && 0 < k <= |dir|
    ensures JoinDestination(base, Text.Join('/', dir[..k])) in JoinAll(base, Wanted(found, prefix, mode))
  {
    WantedByDirsHas(found.dirs, place);
    if k < |dir| {
      AncestorsByParts(base, place, dir, k);
      WantedParts(found, prefix, mode, Text.Join('/', dir[..k]));
      JoinedHas(base, Wanted(found, prefix, mode), Text.Join('/', dir[..k]));
    } else {
      assert dir[..k] == dir;
      ToldByParts(base, place, dir);
      WantedParts(found, prefix, mode, place);
      JoinedHas(base, Wanted(found, prefix, mode), place);
    }
  }

  lemma RootStandsWithout(base: Base, found: Found, prefix: string, mode: PlanMode)
    requires prefix != "" && mode == IncludeRoot
    ensures JoinDestination(base, Text.Join('/', SegmentsOf(prefix))) in JoinAll(base, Wanted(found, prefix, mode))
  {
    ToldByParts(base, prefix, SegmentsOf(prefix));
    WantedParts(found, prefix, mode, prefix);
    JoinedHas(base, Wanted(found, prefix, mode), prefix);
  }

  /** What is planned for certain above a link: the directory that it is in, and if that is not the root, all above. */
  predicate IsGiven(dir: nat, deep: bool, k: nat) {
    k == dir || (deep && k < dir)
  }

  /** What is not planned for certain stands without the link. Below the link's directory that is nothing when the
      link's name has fewer than two backslashes. */
  predicate RestStandsWithout(ctx: Context, base: Base, mode: PlanMode, link: RelativeLink, full: seq<string>,
                              dir: nat, deep: bool) {
    forall k :: 0 < k < |full| - 1 && !IsGiven(dir, deep, k) ==> StandsWithout(ctx, base, mode, link, full, k)
  }

  lemma AllAncestorsByParts(ctx: Context, base: Base, mode: PlanMode, link: RelativeLink, full: seq<string>)
    requires SegmentsOf(link.relative) == full && link.relative != "" && AreParts(full)
    ensures (forall a :: a in Ancestors(link.relative) ==> NeedsNoLink(ctx, base, mode, link, a))
            <==> forall k :: 0 < k < |full| ==> StandsWithout(ctx, base, mode, link, full, k)
  {
    ToldByParts(base, link.relative, full);
    if forall a :: a in Ancestors(link.relative) ==> NeedsNoLink(ctx, base, mode, link, a) {
      forall k | 0 < k < |full| ensures StandsWithout(ctx, base, mode, link, full, k) {
        AncestorsOfJoin(full, k);
      }
    }
    if forall k :: 0 < k < |full| ==> StandsWithout(ctx, base, mode, link, full, k) {
      forall a | a in Ancestors(link.relative) ensures NeedsNoLink(ctx, base, mode, link, a) {
        var k := AncestorIsPrefix(full, a);
        assert StandsWithout(ctx, base, mode, link, full, k);
      }
    }
  }

  lemma ClosedByRest(ctx: Context, base: Base, mode: PlanMode, plan: TransferPlan, link: RelativeLink,
                     full: seq<string>, dir: nat, deep: bool)
    requires IsPlanFor(plan, base, FoundIn(ctx), ctx.prefix, mode) && link in FoundIn(ctx).links
    requires SegmentsOf(link.relative) == full && link.relative != "" && AreParts(full) && dir < |full|
    requires forall k :: 0 < k <= dir && IsGiven(dir, deep, k) ==> StandsWithout(ctx, base, mode, link, full, k)
    ensures IsClosed(plan, base, link.relative) <==> RestStandsWithout(ctx, base, mode, link, full, dir, deep)
  {
    LinkIsClosedWhen(plan, base, FoundIn(ctx), ctx.prefix, mode, link);
    assert IsClosed(plan, base, link.relative)
        <==> forall a :: a in Ancestors(link.relative) ==> NeedsNoLink(ctx, base, mode, link, a);
    AllAncestorsByParts(ctx, base, mode, link, full);
    if |full| > 1 {
      NearestIsShared(base, link, full);
    }
    if RestStandsWithout(ctx, base, mode, link, full, dir, deep) {
      AllByRest(ctx, base, mode, link, full, dir, deep);
    }
  }

  lemma AllByRest(ctx: Context, base: Base, mode: PlanMode, link: RelativeLink, full: seq<string>, dir: nat, deep: bool)
    requires dir < |full| && (|full| > 1 ==> StandsWithout(ctx, base, mode, link, full, |full| - 1))
    requires forall k :: 0 < k <= dir && IsGiven(dir, deep, k) ==> StandsWithout(ctx, base, mode, link, full, k)
    requires RestStandsWithout(ctx, base, mode, link, full, dir, deep)
    ensures forall k :: 0 < k < |full| ==> StandsWithout(ctx, base, mode, link, full, k)
  {
  }

  lemma NearestIsShared(base: Base, link: RelativeLink, full: seq<string>)
    requires SegmentsOf(link.relative) == full && link.relative != "" && AreParts(full) && |full| > 1
    ensures SharesDirectory(base, link, Text.Join('/', full[..|full| - 1]))
  {
    ToldByParts(base, link.relative, full);
    ParentOfMore(full, full[..|full| - 1]);
    assert Ancestors(link.relative)[0] == Text.Join('/', full[..|full| - 1]);
  }

  /** How many parts the directory has that a link is in. */
  function DirLength(full: seq<string>, name: string): nat {
    if |SegmentsOf(name)| <= |full| then |full| - |SegmentsOf(name)| else 0
  }

  lemma PartsOfBeginning(full: seq<string>, beginning: seq<string>)
    requires AreParts(full) && beginning <= full
    ensures AreParts(beginning)
  {
    assert forall i :: 0 <= i < |beginning| ==> beginning[i] == full[i];
  }

  /** The directory that a link is in is the source, or was found, and so it stands without the link. */
  lemma DirStandsWithout(ctx: Context, base: Base, mode: PlanMode, link: RelativeLink, init: seq<string>,
                         full: seq<string>, k: nat)
    requires Honest(ctx) && Paths.ArePlain(init) && DirectoryIsThere(ctx, init)
    requires AreParts(full) && Full(ctx, init) <= full && 0 < k <= |Full(ctx, init)|
    requires (ctx.prefix == "" || mode == IncludeRoot) && IsGiven(|Full(ctx, init)|, init != [], k)
    ensures StandsWithout(ctx, base, mode, link, full, k)
  {
    var dir := Full(ctx, init);
    PartsOfBeginning(full, dir);
    assert full[..k] == dir[..k];
    if init == [] {
      assert dir == Top(ctx) && dir[..k] == dir;
      RootStandsWithout(base, Besides(FoundIn(ctx), link), ctx.prefix, mode);
    } else {
      var place := DirectoryIsFound(ctx, init);
      FoundStandsWithout(base, Besides(FoundIn(ctx), link), ctx.prefix, mode, place, dir, k);
    }
  }

  /** For a link only the nearest place above it is inserted. Everything above it is planned exactly when something else
      brings about what is not there for certain: what lies between the nearest place and the directory that the link is
      in, which is nothing for a name with fewer than two backslashes, and for a link in the root what is above the
      root, which is nothing if the root's name has no backslash. */
  lemma LinkIsPlannedWhen(ctx: Context, base: Base, mode: PlanMode, plan: TransferPlan, entry: FileEntry,
                          link: RelativeLink)
    returns (tail: seq<string>)
    requires Honest(ctx) && IsPlanFor(plan, base, FoundIn(ctx), ctx.prefix, mode) && entry in Tree(ctx)
    requires entry.kind == Symlink && ctx.policy == CopyLink && entry.symlinkTarget.Some?
    requires link == RelativeLink(entry.symlinkTarget.value, PlaceOr(ctx, entry.path))
    requires ctx.prefix == "" || mode == IncludeRoot
    ensures LiesAt(ctx, entry, tail) && SegmentsOf(link.relative) == Full(ctx, tail)
    ensures |SegmentsOf(entry.name)| <= |Full(ctx, tail)|
    ensures AreParts(Full(ctx, tail)) ==>
              (BeginningsArePlanned(plan, base, Full(ctx, tail)) <==>
               RestStandsWithout(ctx, base, mode, link, Full(ctx, tail), DirLength(Full(ctx, tail), entry.name),
                                 |tail| > 1))
  {
    tail := LinkIsFound(ctx, entry, link);
    LinkAtTail(ctx, base, mode, plan, link, tail, entry.name, Full(ctx, tail));
  }

  lemma PlainInit(tail: seq<string>, init: seq<string>)
    requires Paths.ArePlain(tail) && init <= tail
    ensures Paths.ArePlain(init)
  {
  }

  lemma LinkAtTail(ctx: Context, base: Base, mode: PlanMode, plan: TransferPlan, link: RelativeLink, tail: seq<string>,
                   name: string, full: seq<string>)
    requires Honest(ctx) && IsPlanFor(plan, base, FoundIn(ctx), ctx.prefix, mode) && link in FoundIn(ctx).links
    requires tail != [] && Paths.ArePlain(tail) && name == tail[|tail| - 1] && DirectoryIsThere(ctx, tail[..|tail| - 1])
    requires full == Full(ctx, tail) && SegmentsOf(link.relative) == full && link.relative != ""
    requires ctx.prefix == "" || mode == IncludeRoot
    ensures |SegmentsOf(name)| <= |full|
    ensures AreParts(full) ==>
              (BeginningsArePlanned(plan, base, full) <==>
               RestStandsWithout(ctx, base, mode, link, full, DirLength(full, name), |tail| > 1))
  {
    var init := tail[..|tail| - 1];
    DirOfLink(ctx, tail, init, name, full);
    PlainInit(tail, init);
    if AreParts(full) {
      LinkAt(ctx, base, mode, plan, link, init, full);
    }
  }

  lemma LinkIsFound(ctx: Context, entry: FileEntry, link: RelativeLink) returns (tail: seq<string>)
    requires Honest(ctx) && entry in Tree(ctx)
    requires entry.kind == Symlink && ctx.policy == CopyLink && entry.symlinkTarget.Some?
    requires link == RelativeLink(entry.symlinkTarget.value, PlaceOr(ctx, entry.path))
    ensures LiesAt(ctx, entry, tail) && link in FoundIn(ctx).links
    ensures SegmentsOf(link.relative) == Full(ctx, tail) && link.relative != ""
  {
    tail := FromTop(ctx, entry);
    PlaceOfBelow(ctx, tail);
    LinksOfHas(ctx, Tree(ctx), entry);
  }

  lemma DirOfLink(ctx: Context, tail: seq<string>, init: seq<string>, name: string, full: seq<string>)
    requires tail != [] && init == tail[..|tail| - 1] && name == tail[|tail| - 1] && full == Full(ctx, tail)
    ensures Full(ctx, init) < full && (init != [] <==> |tail| > 1)
    ensures |SegmentsOf(name)| <= |full| && |Full(ctx, init)| == DirLength(full, name)
  {
    assert tail == init + [name];
    FullOfOneMore(ctx, init, name);
  }

  lemma LinkAt(ctx: Context, base: Base, mode: PlanMode, plan: TransferPlan, link: RelativeLink, init: seq<string>,
               full: seq<string>)
    requires Honest(ctx) && IsPlanFor(plan, base, FoundIn(ctx), ctx.prefix, mode) && link in FoundIn(ctx).links
    requires Paths.ArePlain(init) && DirectoryIsThere(ctx, init) && (ctx.prefix == "" || mode == IncludeRoot)
    requires AreParts(full) && Full(ctx, init) < full && SegmentsOf(link.relative) == full && link.relative != ""
    ensures BeginningsArePlanned(plan, base, full)
            <==> RestStandsWithout(ctx, base, mode, link, full, |Full(ctx, init)|, init != [])
  {
    var dir := |Full(ctx, init)|;
    forall k | 0 < k <= dir && IsGiven(dir, init != [], k) ensures StandsWithout(ctx, base, mode, link, full, k) {
      DirStandsWithout(ctx, base, mode, link, init, full, k);
    }
    ClosedByRest(ctx, base, mode, plan, link, full, dir, init != []);
    ClosedIsByParts(plan, base, link.relative, full);
  }

  /** A link whose place consists of proper parts, and which is named with fewer than two backslashes. */
  predicate IsSimpleLink(ctx: Context, entry: FileEntry) {
    AreParts(SegmentsOf(PlaceOr(ctx, entry.path))) && |SegmentsOf(entry.name)| < 3
  }

  /** Nothing lies above the root, or something else than links was found in it, at a place of proper parts. */
  predicate HasSimpleRoot(ctx: Context) {
    || |Top(ctx)| <= 1
    || (exists d :: d in FoundIn(ctx).dirs && AreParts(SegmentsOf(d)))
    || (exists f :: f in FoundIn(ctx).files && AreParts(SegmentsOf(f.relative)))
  }

  /** What was found lies below the root. */
  lemma FoundLiesBelowTop(ctx: Context, entry: FileEntry) returns (rest: seq<string>)
    requires Honest(ctx) && entry in Tree(ctx)
    ensures rest != [] && SegmentsOf(PlaceOr(ctx, entry.path)) == Top(ctx) + rest && PlaceOr(ctx, entry.path) != ""
  {
    var tail := FromTop(ctx, entry);
    PlaceOfBelow(ctx, tail);
    NoSlashInParts(tail);
    rest := AllParts(tail);
  }

  /** With such a root all beginnings of its name are wanted, whatever the links are. */
  lemma TopIsWanted(ctx: Context, mode: PlanMode, links: seq<RelativeLink>, k: nat)
    requires Honest(ctx) && HasSimpleRoot(ctx) && 0 < k < |Top(ctx)|
    ensures Text.Join('/', Top(ctx)[..k]) in Wanted(FoundIn(ctx).(links := links), ctx.prefix, mode)
  {
    var found := FoundIn(ctx).(links := links);
    var place := Text.Join('/', Top(ctx)[..k]);
    WantedParts(found, ctx.prefix, mode, place);
    if d :| d in found.dirs && AreParts(SegmentsOf(d)) {
      FoundDirs(ctx, d);
      var entry := DirsOfFrom(ctx, Tree(ctx), d);
      var rest := FoundLiesBelowTop(ctx, entry);
      TopIsAbove(d, Top(ctx), rest, k);
      WantedByDirsHas(found.dirs, d);
    } else {
      var f :| f in found.files && AreParts(SegmentsOf(f.relative));
      var entry := FilesOfFrom(ctx, Tree(ctx), f);
      var rest := FoundLiesBelowTop(ctx, entry);
      TopIsAbove(f.relative, Top(ctx), rest, k);
      WantedByFilesHas(found.files, f);
    }
  }

  lemma TopIsAbove(place: string, top: seq<string>, rest: seq<string>, k: nat)
    requires SegmentsOf(place) == top + rest && AreParts(top + rest) && rest != [] && place != "" && 0 < k <= |top|
    ensures Text.Join('/', top[..k]) in Ancestors(place)
  {
    assert (top + rest)[..k] == top[..k];
    AncestorsByParts(Local(""), place, top + rest, k);
  }

  lemma TopStandsWithout(ctx: Context, base: Base, mode: PlanMode, link: RelativeLink, full: seq<string>, k: nat)
    requires Honest(ctx) && HasSimpleRoot(ctx) && 0 < k < |Top(ctx)| && Top(ctx) <= full
    ensures StandsWithout(ctx, base, mode, link, full, k)
  {
    var found := Besides(FoundIn(ctx), link);
    assert full[..k] == Top(ctx)[..k];
    TopIsWanted(ctx, mode, found.links, k);
    JoinedHas(base, Wanted(found, ctx.prefix, mode), Text.Join('/', full[..k]));
  }

  lemma SimpleLinkIsClosed(ctx: Context, base: Base, mode: PlanMode, plan: TransferPlan, entry: FileEntry,
                           link: RelativeLink)
    requires Honest(ctx) && IsPlanFor(plan, base, FoundIn(ctx), ctx.prefix, mode) && entry in Tree(ctx)
    requires entry.kind == Symlink && ctx.policy == CopyLink && entry.symlinkTarget.Some? && IsSimpleLink(ctx, entry)
    requires link == RelativeLink(entry.symlinkTarget.value, PlaceOr(ctx, entry.path))
    requires (ctx.prefix == "" || mode == IncludeRoot) && HasSimpleRoot(ctx)
    ensures IsClosed(plan, base, link.relative)
  {
    var tail := LinkIsPlannedWhen(ctx, base, mode, plan, entry, link);
    var full := Full(ctx, tail);
    PlaceOfBelow(ctx, tail);
    DirOfLink(ctx, tail, tail[..|tail| - 1], entry.name, full);
    RestOfSimple(ctx, base, mode, link, tail, full, DirLength(full, entry.name));
    ClosedIsByParts(plan, base, link.relative, full);
  }

  lemma RestOfSimple(ctx: Context, base: Base, mode: PlanMode, link: RelativeLink, tail: seq<string>, full: seq<string>,
                     dir: nat)
    requires Honest(ctx) && HasSimpleRoot(ctx) && tail != [] && full == Full(ctx, tail)
    requires dir == |Full(ctx, tail[..|tail| - 1])| && |full| < dir + 3
    ensures RestStandsWithout(ctx, base, mode, link, full, dir, |tail| > 1)
  {
    if |tail| == 1 {
      assert Full(ctx, tail[..0]) == Top(ctx);
      forall k | 0 < k < |Top(ctx)| ensures StandsWithout(ctx, base, mode, link, full, k) {
        TopStandsWithout(ctx, base, mode, link, full, k);
      }
    }
  }

  lemma TopIsReachedWhen(ctx: Context, base: Base, mode: PlanMode, plan: TransferPlan)
    requires Honest(ctx) && IsPlanFor(plan, base, FoundIn(ctx), ctx.prefix, mode) && HasSimpleRoot(ctx)
    requires AreParts(Top(ctx))
    ensures TopIsReached(plan, base, ctx.prefix, mode)
  {
    if ctx.prefix != "" {
      var top := Top(ctx);
      ToldByParts(base, ctx.prefix, top);
      forall a | a in Ancestors(ctx.prefix) ensures IsPlanned(plan, base, a) {
        var k := AncestorIsPrefix(top, a);
        TopIsWanted(ctx, mode, FoundIn(ctx).links, k);
        InDirectories(plan, base, FoundIn(ctx), ctx.prefix, mode, a);
      }
    }
  }

  /** In the list of directories every one comes after the one that it is in, if the links that were found are simple,
      and so is the root. */
  lemma ParentsComeFirst(ctx: Context, base: Base, mode: PlanMode, plan: TransferPlan)
    requires Honest(ctx) && IsPlanFor(plan, base, FoundIn(ctx), ctx.prefix, mode)
    requires (ctx.prefix == "" || mode == IncludeRoot) && AreParts(Top(ctx)) && HasSimpleRoot(ctx)
    requires forall e :: e in Tree(ctx) && e.kind == Symlink ==> IsSimpleLink(ctx, e)
    ensures AllParentsFirst(plan, base, Wanted(FoundIn(ctx), ctx.prefix, mode))
  {
    TopIsReachedWhen(ctx, base, mode, plan);
    forall l | l in FoundIn(ctx).links ensures IsReached(plan, base, l.relative) {
      var entry := LinksOfFrom(ctx, Tree(ctx), l);
      SimpleLinkIsClosed(ctx, base, mode, plan, entry, l);
    }
    ParentsComeFirstWhen(plan, base, FoundIn(ctx), ctx.prefix, mode);
  }

  // ---------------------------------------------------------------------------------------------
  // A link that lacks a directory

  /** Nothing is listed but one link whose name stands for three parts. */
  ghost predicate ListsOneLink(ctx: Context, entry: FileEntry, parts: seq<string>) {
    && Honest(ctx) && ctx.prefix == "" && ctx.policy == CopyLink && ctx.list(ctx.source) == Ok([entry])
    && entry.kind == Symlink && entry.symlinkTarget.Some?
    && SegmentsOf(entry.name) == parts && |parts| == 3 && AreParts(parts) && "." !in parts
  }

  lemma OneLinkIsFound(ctx: Context, entry: FileEntry, parts: seq<string>) returns (link: RelativeLink)
    requires ListsOneLink(ctx, entry, parts)
    ensures link.target == entry.symlinkTarget.value && SegmentsOf(link.relative) == parts && link.relative != ""
    ensures FoundIn(ctx) == Found([], [], [link])
    ensures Visit(ctx, ctx.source, Levels(0), Found([], [], [])) == Ok(FoundIn(ctx))
  {
    OnlyEntry(ctx, entry);
    ListedIsBelow(ctx, [], [entry], entry);
    PlaceOfBelow(ctx, [entry.name]);
    AllPartsOfOneMore([], entry.name);
    assert [] + [entry.name] == [entry.name] && [] + parts == parts;
    OfOneEntry(ctx, entry);
    WalkFindsTheTree(ctx);
    link := RelativeLink(entry.symlinkTarget.value, PlaceOr(ctx, entry.path));
  }

  lemma OnlyEntry(ctx: Context, entry: FileEntry)
    requires ctx.list(ctx.source) == Ok([entry]) && entry.kind != Directory
    ensures Tree(ctx) == [entry]
    ensures IsSound(ctx, entry) ==> TreeIsSound(ctx, ctx.source, Levels(0))
  {
    var entries := [entry];
    assert Children(entries) == Child(entry) + Children(entries[1..]);
    assert Children(entries) == [];
    assert entries + [] == entries;
  }

  lemma ParentByParts(place: string, parts: seq<string>)
    requires SegmentsOf(place) == parts && place != "" && |parts| > 1 && AreParts(parts)
    ensures ParentRelative(place) == Some(Text.Join('/', parts[..|parts| - 1]))
  {
    ToldByParts(Local(""), place, parts);
    ParentOfMore(parts, parts[..|parts| - 1]);
    assert Ancestors(place)[0] == Text.Join('/', parts[..|parts| - 1]);
  }

  lemma OneIsWanted(link: RelativeLink, place: string)
    requires ParentRelative(link.relative) == Some(place)
    ensures Wanted(Found([], [], [link]), "", ContentsOnly) == [place]
  {
    var links := [link];
    assert links[..|links| - 1] == [];
    assert WantedByLinks(links) == WantedByLinks([]) + [place];
  }

  /** The directory that two parts lead to is in the one that the first part leads to. */
  lemma TwoPlaces(base: Base, place: string, parts: seq<string>)
    requires SegmentsOf(place) == parts && place != "" && |parts| == 2 && AreParts(parts) && "." !in parts
    ensures JoinDestination(base, place) != JoinDestination(base, parts[0])
    ensures DirectoryOf(base, place) == Some(parts[0]) && !IsBase(base, parts[0])
  {
    assert IsPart(parts[0]) && IsPart(parts[1]);
    ParentByParts(place, parts);
    assert parts[..1] == [parts[0]];
    OnePart(parts[0]);
    KeptTwo(parts);
    DestinationsDiffer(base, place, parts[0]);
  }

  lemma KeptTwo(parts: seq<string>)
    requires |parts| == 2 && AreParts(parts) && "." !in parts
    ensures Kept(parts) == parts && Kept([parts[0]]) == [parts[0]]
  {
    assert parts[0] in parts && parts[1] in parts && IsPart(parts[0]) && IsPart(parts[1]);
    assert [parts[0]][1..] == [] && parts[1..] == [parts[1]] && [parts[1]][1..] == [];
    assert Kept([parts[1]]) == [parts[1]] && parts == [parts[0]] + [parts[1]];
  }

  /** If that is all there is to be planned, its own directory is missing. */
  lemma OnlyPlace(plan: TransferPlan, base: Base, wanted: seq<string>, place: string, parts: seq<string>)
    requires wanted == [place] && forall d :: d in plan.directories <==> d in JoinAll(base, wanted)
    requires SegmentsOf(place) == parts && place != "" && |parts| == 2 && AreParts(parts) && "." !in parts
    ensures IsPlanned(plan, base, place) && !IsPlanned(plan, base, parts[0])
    ensures !AllParentsFirst(plan, base, wanted)
  {
    TwoPlaces(base, place, parts);
    JoinedHas(base, wanted, place);
    assert JoinAll(base, wanted) == [JoinDestination(base, place)];
    ParentIsMissing(plan, base, place, parts[0]);
    assert place in wanted;
  }

  lemma ParentIsMissing(plan: TransferPlan, base: Base, place: string, directory: string)
    requires DirectoryOf(base, place) == Some(directory) && !IsBase(base, directory)
             && !IsPlanned(plan, base, directory)
    ensures !ParentComesFirst(plan, base, place)
  {
  }

  /** With nothing but such a link, its directory is planned and the one above that is not. */
  lemma ALinkMayLackADirectory(ctx: Context, base: Base, plan: TransferPlan, entry: FileEntry, parts: seq<string>)
    requires ListsOneLink(ctx, entry, parts) && IsPlanFor(plan, base, FoundIn(ctx), "", ContentsOnly)
    ensures Visit(ctx, ctx.source, Levels(0), Found([], [], [])) == Ok(FoundIn(ctx))
    ensures |FoundIn(ctx).links| == 1 && SegmentsOf(FoundIn(ctx).links[0].relative) == parts
    ensures IsPlanned(plan, base, Text.Join('/', parts[..2])) && !IsPlanned(plan, base, parts[0])
    ensures !AllParentsFirst(plan, base, Wanted(FoundIn(ctx), "", ContentsOnly))
  {
    var link := OneLinkIsFound(ctx, entry, parts);
    var two := parts[..2];
    ParentByParts(link.relative, parts);
    OneIsWanted(link, Text.Join('/', two));
    JoinOfTwo(parts, two);
    OnlyPlace(plan, base, Wanted(FoundIn(ctx), "", ContentsOnly), Text.Join('/', two), two);
  }

  lemma JoinOfTwo(parts: seq<string>, two: seq<string>)
    requires AreParts(parts) && two <= parts && |two| == 2
    ensures SegmentsOf(Text.Join('/', two)) == two && Text.Join('/', two) != "" && AreParts(two)
  {
    PartsOfBeginning(parts, two);
    JoinStartsPlain(two);
    JoinHasNoBackslash(two);
    ReplaceNothing(Text.Join('/', two));
    assert forall i :: 0 <= i < |two| ==> IsPart(two[i]);
    Text.SplitOfJoin('/', two);
  }

  /** Nothing is listed below a root whose name stands for two parts. */
  ghost predicate ListsNothing(ctx: Context, parts: seq<string>) {
    && ctx.list(ctx.source) == Ok([])
    && ctx.prefix != "" && SegmentsOf(ctx.prefix) == parts && |parts| == 2 && AreParts(parts) && "." !in parts
  }

  /** Such an empty root is planned, and the directory above it is not. */
  lemma ARootMayLackADirectory(ctx: Context, base: Base, plan: TransferPlan, parts: seq<string>)
    requires ListsNothing(ctx, parts) && IsPlanFor(plan, base, FoundIn(ctx), ctx.prefix, IncludeRoot)
    ensures Visit(ctx, ctx.source, Levels(0), Found([], [], [])) == Ok(FoundIn(ctx))
    ensures IsPlanned(plan, base, ctx.prefix) && !IsPlanned(plan, base, parts[0])
    ensures !AllParentsFirst(plan, base, Wanted(FoundIn(ctx), ctx.prefix, IncludeRoot))
  {
    WalkFindsTheTree(ctx);
    NothingIsFound(ctx);
    var wanted := Wanted(FoundIn(ctx), ctx.prefix, IncludeRoot);
    assert wanted == [ctx.prefix];
    OnlyPlace(plan, base, wanted, ctx.prefix, parts);
  }

  lemma NothingIsFound(ctx: Context)
    requires ctx.list(ctx.source) == Ok([])
    ensures FoundIn(ctx) == Found([], [], []) && TreeIsSound(ctx, ctx.source, Levels(0))
  {
    var entries: seq<FileEntry> := [];
    assert Children(entries) == [];
    assert Tree(ctx) == entries + [];
  }

  function OneLink(path: string): Result<seq<FileEntry>> {
    if path == "/s" then Ok([FileEntry("/s/a\\b\\c", "a\\b\\c", Symlink, Some("t"))]) else Err(Failure(NotFound))
  }

  /** There is such a listing: that of "/s", with a link named "a\b\c". */
  lemma OneLinkIsListed(ctx: Context, entry: FileEntry)
    requires ctx == Context(OneLink, "/s", "", CopyLink) && OneLink("/s") == Ok([entry])
    ensures ListsOneLink(ctx, entry, ["a", "b", "c"])
  {
    OneLinkIsHonest(ctx, entry);
    SlashedParts(entry.name, ["a", "b", "c"]);
  }

  lemma SlashedParts(name: string, parts: seq<string>)
    requires name == "a\\b\\c" && parts == ["a", "b", "c"]
    ensures SegmentsOf(name) == parts
  {
    assert parts[1..] == ["b", "c"] && parts[1..][1..] == ["c"];
    assert Text.Join('/', parts[1..]) == "b/c";
    assert ReplaceBackslashes(name) == "a/b/c" == Text.Join('/', parts);
    Text.SplitOfJoin('/', parts);
  }

  lemma OneLinkIsHonest(ctx: Context, entry: FileEntry)
    requires ctx == Context(OneLink, "/s", "", CopyLink) && OneLink("/s") == Ok([entry])
    ensures Honest(ctx)
  {
    forall segments | Paths.ArePlain(segments) && ctx.list(Below(ctx.source, segments)).Ok?
      ensures ListsItsOwn(ctx, segments, ctx.list(Below(ctx.source, segments)).value)
    {
      assert |Below(ctx.source, segments)| == 2;
      assert segments == [] && [] + [entry.name] == [entry.name];
      assert IsEntryOf(ctx, segments, entry);
    }
  }

  // ---------------------------------------------------------------------------------------------
  // Nothing is planned twice

  predicate PathsDiffer(entries: seq<FileEntry>) {
    forall i, j :: 0 <= i < j < |entries| ==> entries[i].path != entries[j].path
  }

  predicate NamesDiffer(entries: seq<FileEntry>) {
    forall i, j :: 0 <= i < j < |entries| ==> entries[i].name != entries[j].name
  }

  /** No listing has two entries of the same name. */
  ghost predicate ListsOnce(ctx: Context) {
    forall segments :: Paths.ArePlain(segments) && ctx.list(Below(ctx.source, segments)).Ok? ==>
      NamesDiffer(ctx.list(Below(ctx.source, segments)).value)
  }

  ghost predicate Apart(a: seq<FileEntry>, b: seq<FileEntry>) {
    forall x, y :: x in a && y in b ==> x.path != y.path
  }

  lemma DifferInTurn(a: seq<FileEntry>, b: seq<FileEntry>)
    requires PathsDiffer(a) && PathsDiffer(b) && Apart(a, b)
    ensures PathsDiffer(a + b)
  {
    forall i, j | 0 <= i < j < |a + b| ensures (a + b)[i].path != (a + b)[j].path {
      if i < |a| && j >= |a| {
        assert a[i] in a && b[j - |a|] in b;
      }
    }
  }

  lemma BelowIsInjective(source: string, a: seq<string>, b: seq<string>)
    requires Paths.ArePlain(a) && Paths.ArePlain(b) && a != [] && b != [] && Below(source, a) == Below(source, b)
    ensures a == b
  {
    var front := source + "/";
    assert (front + Text.Join('/', a))[|front|..] == Text.Join('/', a);
    assert (front + Text.Join('/', b))[|front|..] == Text.Join('/', b);
    assert forall i :: 0 <= i < |a| ==> Paths.IsPlain(a[i]);
    assert forall i :: 0 <= i < |b| ==> Paths.IsPlain(b[i]);
    JoinIsInjective(a, b);
  }

  lemma ListedDiffer(ctx: Context, segments: seq<string>, entries: seq<FileEntry>)
    requires Paths.ArePlain(segments) && ListsItsOwn(ctx, segments, entries) && NamesDiffer(entries)
    ensures PathsDiffer(entries)
  {
    forall i, j | 0 <= i < j < |entries| ensures entries[i].path != entries[j].path {
      assert IsEntryOf(ctx, segments, entries[i]) && IsEntryOf(ctx, segments, entries[j]);
      assert (segments + [entries[i].name])[|segments|] != (segments + [entries[j].name])[|segments|];
      if entries[i].path == entries[j].path {
        BelowIsInjective(ctx.source, segments + [entries[i].name], segments + [entries[j].name]);
      }
    }
  }

  /** Entries of the trees of two names differ, and so do an entry of such a tree and an entry beside it. */
  lemma BranchesDiffer(ctx: Context, segments: seq<string>, a: string, b: string, levels: nat, x: FileEntry,
                       y: FileEntry)
    requires Honest(ctx) && Paths.ArePlain(segments + [a]) && Paths.ArePlain(segments + [b]) && a != b
    requires x in EntriesBelow(ctx, segments + [a], levels)
    requires y in EntriesBelow(ctx, segments + [b], levels)
    ensures x.path != y.path
  {
    var s := EntryLiesBelow(ctx, segments + [a], levels, x);
    var t := EntryLiesBelow(ctx, segments + [b], levels, y);
    assert (segments + [a] + s)[|segments|] == a && (segments + [b] + t)[|segments|] == b;
    if x.path == y.path {
      BelowIsInjective(ctx.source, segments + [a] + s, segments + [b] + t);
    }
  }

  lemma DeeperDiffers(ctx: Context, segments: seq<string>, a: string, levels: nat, x: FileEntry, y: FileEntry)
    requires Honest(ctx) && Paths.ArePlain(segments + [a]) && IsEntryOf(ctx, segments, y)
    requires x in EntriesBelow(ctx, segments + [a], levels)
    ensures x.path != y.path
  {
    var s := EntryLiesBelow(ctx, segments + [a], levels, x);
    PlainSibling(segments, a, y.name);
    assert |segments + [a] + s| != |segments + [y.name]|;
    if x.path == y.path {
      BelowIsInjective(ctx.source, segments + [a] + s, segments + [y.name]);
    }
  }

  /** The subdirectories among some entries, each below the same directory. */
  predicate AreBelow(ctx: Context, segments: seq<string>, names: seq<string>, paths: seq<string>) {
    && |names| == |paths| && Distinct(names)
    && forall i :: 0 <= i < |names| ==> Paths.IsPlain(names[i]) && paths[i] == Below(ctx.source, segments + [names[i]])
  }

  function ChildNames(entries: seq<FileEntry>): seq<string> {
    if entries == [] then []
    else (if entries[0].kind == Directory then [entries[0].name] else []) + ChildNames(entries[1..])
  }

  lemma {:induction false} ChildNamesFrom(entries: seq<FileEntry>, name: string) returns (i: nat)
    requires name in ChildNames(entries)
    ensures i < |entries| && entries[i].name == name
  {
    if entries[0].kind == Directory && entries[0].name == name {
      i := 0;
    } else {
      i := ChildNamesFrom(entries[1..], name);
      i := i + 1;
    }
  }

  lemma {:induction false} ChildrenAreBelow(ctx: Context, segments: seq<string>, entries: seq<FileEntry>)
    requires ListsItsOwn(ctx, segments, entries) && NamesDiffer(entries)
    ensures AreBelow(ctx, segments, ChildNames(entries), Children(entries))
    decreases entries
  {
    if entries == [] {
    } else {
      ChildrenAreBelow(ctx, segments, entries[1..]);
      assert IsEntryOf(ctx, segments, entries[0]);
      FirstNameDiffers(entries);
    }
  }

  lemma FirstNameDiffers(entries: seq<FileEntry>)
    requires entries != [] && NamesDiffer(entries)
    ensures entries[0].name !in ChildNames(entries[1..])
  {
    if entries[0].name in ChildNames(entries[1..]) {
      var i := ChildNamesFrom(entries[1..], entries[0].name);
    }
  }

  lemma {:induction false} ForestPathsDiffer(ctx: Context, segments: seq<string>, names: seq<string>,
                                             paths: seq<string>,
                                             levels: nat)
    requires Honest(ctx) && ListsOnce(ctx) && Paths.ArePlain(segments) && AreBelow(ctx, segments, names, paths)
    ensures PathsDiffer(ForestEntries(ctx, paths, levels))
    decreases levels, |paths| + 1
  {
    if paths == [] {
    } else {
      var n := |paths| - 1;
      AllButLast(ctx, segments, names, paths, n);
      TreePathsDiffer(ctx, segments + [names[n]], levels);
      ForestPathsDiffer(ctx, segments, names[..n], paths[..n], levels);
      TreeBesideForest(ctx, segments, names[n], names[..n], paths[..n], levels);
      DifferInTurn(TreeEntries(ctx, paths[n], levels), ForestEntries(ctx, paths[..n], levels));
    }
  }

  lemma AllButLast(ctx: Context, segments: seq<string>, names: seq<string>, paths: seq<string>, n: nat)
    requires Paths.ArePlain(segments) && AreBelow(ctx, segments, names, paths) && |paths| == n + 1
    ensures AreBelow(ctx, segments, names[..n], paths[..n]) && names[n] !in names[..n]
    ensures Paths.ArePlain(segments + [names[n]]) && paths[n] == Below(ctx.source, segments + [names[n]])
  {
  }

  lemma NameInForest(ctx: Context, segments: seq<string>, names: seq<string>, paths: seq<string>, levels: nat,
                     entry: FileEntry)
    returns (name: string)
    requires AreBelow(ctx, segments, names, paths) && entry in ForestEntries(ctx, paths, levels)
    ensures name in names && Paths.IsPlain(name) && entry in EntriesBelow(ctx, segments + [name], levels)
  {
    var path := InForest(ctx, paths, levels, entry);
    var i :| 0 <= i < |paths| && paths[i] == path;
    name := names[i];
  }

  lemma TreeBesideForest(ctx: Context, segments: seq<string>, last: string, names: seq<string>, paths: seq<string>,
                         levels: nat)
    requires Honest(ctx) && Paths.ArePlain(segments + [last]) && last !in names && AreBelow(ctx, segments, names, paths)
    ensures Apart(EntriesBelow(ctx, segments + [last], levels), ForestEntries(ctx, paths, levels))
  {
    forall x, y | x in EntriesBelow(ctx, segments + [last], levels) && y in ForestEntries(ctx, paths, levels)
      ensures x.path != y.path
    {
      var name := NameInForest(ctx, segments, names, paths, levels, y);
      PlainSibling(segments, last, name);
      BranchesDiffer(ctx, segments, last, name, levels, x, y);
    }
  }

  lemma PlainSibling(segments: seq<string>, a: string, b: string)
    requires Paths.ArePlain(segments + [a]) && Paths.IsPlain(b)
    ensures Paths.ArePlain(segments + [b])
  {
    assert forall i :: 0 <= i < |segments| ==> segments[i] == (segments + [a])[i];
  }

  lemma OwnEntries(ctx: Context, segments: seq<string>, entries: seq<FileEntry>)
    requires Honest(ctx) && ListsOnce(ctx) && Paths.ArePlain(segments)
    requires ctx.list(Below(ctx.source, segments)) == Ok(entries)
    ensures ListsItsOwn(ctx, segments, entries) && PathsDiffer(entries)
    ensures AreBelow(ctx, segments, ChildNames(entries), Children(entries))
  {
    assert ListsItsOwn(ctx, segments, ctx.list(Below(ctx.source, segments)).value);
    assert NamesDiffer(ctx.list(Below(ctx.source, segments)).value);
    ListedDiffer(ctx, segments, entries);
    ChildrenAreBelow(ctx, segments, entries);
  }

  lemma NoTree(ctx: Context, segments: seq<string>, levels: nat)
    requires levels == 0 || ctx.list(Below(ctx.source, segments)).Err?
    ensures EntriesBelow(ctx, segments, levels) == []
  {
  }

  lemma {:induction false} TreePathsDiffer(ctx: Context, segments: seq<string>, levels: nat)
    requires Honest(ctx) && ListsOnce(ctx) && Paths.ArePlain(segments)
    ensures PathsDiffer(EntriesBelow(ctx, segments, levels))
    decreases levels, 0
  {
    var listed := ctx.list(Below(ctx.source, segments));
    if levels == 0 || listed.Err? {
      NoTree(ctx, segments, levels);
    } else {
      TreeUnfolds(ctx, segments, levels, listed.value);
      ListedPathsDiffer(ctx, segments, listed.value, levels - 1);
    }
  }

  lemma {:induction false} ListedPathsDiffer(ctx: Context, segments: seq<string>, entries: seq<FileEntry>, levels: nat)
    requires Honest(ctx) && ListsOnce(ctx) && Paths.ArePlain(segments)
    requires ctx.list(Below(ctx.source, segments)) == Ok(entries)
    ensures PathsDiffer(entries + ForestEntries(ctx, Children(entries), levels))
    decreases levels, |Children(entries)| + 2
  {
    OwnEntries(ctx, segments, entries);
    ForestPathsDiffer(ctx, segments, ChildNames(entries), Children(entries), levels);
    OwnAndForestDiffer(ctx, segments, entries, levels);
  }

  lemma OwnAndForestDiffer(ctx: Context, segments: seq<string>, entries: seq<FileEntry>, levels: nat)
    requires Honest(ctx) && Paths.ArePlain(segments) && ListsItsOwn(ctx, segments, entries) && PathsDiffer(entries)
    requires AreBelow(ctx, segments, ChildNames(entries), Children(entries))
    requires PathsDiffer(ForestEntries(ctx, Children(entries), levels))
    ensures PathsDiffer(entries + ForestEntries(ctx, Children(entries), levels))
  {
    BesideForest(ctx, segments, entries, levels);
    DifferInTurn(entries, ForestEntries(ctx, Children(entries), levels));
  }

  lemma BesideForest(ctx: Context, segments: seq<string>, entries: seq<FileEntry>, levels: nat)
    requires Honest(ctx) && Paths.ArePlain(segments) && ListsItsOwn(ctx, segments, entries)
    requires AreBelow(ctx, segments, ChildNames(entries), Children(entries))
    ensures Apart(entries, ForestEntries(ctx, Children(entries), levels))
  {
    forall x, y | x in entries && y in ForestEntries(ctx, Children(entries), levels) ensures x.path != y.path {
      ListedDiffers(ctx, segments, entries, levels, x, y);
    }
  }

  lemma ListedDiffers(ctx: Context, segments: seq<string>, entries: seq<FileEntry>, levels: nat, x: FileEntry,
                      y: FileEntry)
    requires Honest(ctx) && Paths.ArePlain(segments) && ListsItsOwn(ctx, segments, entries) && x in entries
    requires AreBelow(ctx, segments, ChildNames(entries), Children(entries))
    requires y in ForestEntries(ctx, Children(entries), levels)
    ensures x.path != y.path
  {
    var k :| 0 <= k < |entries| && entries[k] == x;
    assert IsEntryOf(ctx, segments, entries[k]);
    var name := NameInForest(ctx, segments, ChildNames(entries), Children(entries), levels, y);
    DeeperDiffers(ctx, segments, name, levels, y, x);
  }

  lemma {:induction false} FilesDiffer(ctx: Context, entries: seq<FileEntry>)
    requires PathsDiffer(entries)
    ensures forall i, j :: 0 <= i < j < |FilesOf(ctx, entries)| ==>
              FilesOf(ctx, entries)[i].sourcePath != FilesOf(ctx, entries)[j].sourcePath
  {
    if entries == [] {
    } else {
      var rest := FilesOf(ctx, entries[1..]);
      FilesDiffer(ctx, entries[1..]);
      forall f | f in rest ensures f.sourcePath != entries[0].path {
        var e := FilesOfFrom(ctx, entries[1..], f);
        var i :| 0 <= i < |entries[1..]| && entries[1..][i] == e;
        assert entries[i + 1] == e;
      }
    }
  }

  /** What stands behind the source in a path. */
  function Inner(ctx: Context, path: string): string {
    if |ctx.source| <= |path| then path[|ctx.source|..] else ""
  }

  /** Nothing tells two places below the source apart that makes a difference to the base: on a server the kind of their
      slashes, on this computer also empty parts and "." among their parts. */
  predicate HaveSameParts(ctx: Context, base: Base, a: string, b: string) {
    PartsIn(base, Inner(ctx, a)) == PartsIn(base, Inner(ctx, b))
  }

  /** Parts as they count for a base. */
  function Counted(base: Base, parts: seq<string>): seq<string> {
    if base.Remote? then parts else Kept(parts)
  }

  lemma CountedInTurn(base: Base, a: seq<string>, b: seq<string>)
    ensures Counted(base, a + b) == Counted(base, a) + Counted(base, b)
  {
    KeptInTurn(a, b);
  }

  lemma PartsOfEntry(ctx: Context, base: Base, entry: FileEntry) returns (tail: seq<string>)
    requires Honest(ctx) && entry in Tree(ctx)
    ensures LiesAt(ctx, entry, tail) && PlaceOr(ctx, entry.path) != ""
    ensures PartsIn(base, PlaceOr(ctx, entry.path)) == Counted(base, Top(ctx)) + Counted(base, AllParts(tail))
    ensures PartsIn(base, Inner(ctx, entry.path)) == Counted(base, [""]) + Counted(base, AllParts(tail))
    ensures Inner(ctx, entry.path) == "/" + Text.Join('/', tail)
  {
    tail := FromTop(ctx, entry);
    PlaceOfBelow(ctx, tail);
    CountedInTurn(base, Top(ctx), AllParts(tail));
    InnerOf(ctx, Text.Join('/', tail), Below(ctx.source, tail));
    PartsOfInner(base, tail);
  }

  lemma InnerOf(ctx: Context, relative: string, path: string)
    requires path == ctx.source + "/" + relative
    ensures path == ctx.source + ("/" + relative) && Inner(ctx, path) == "/" + relative
  {
    Associative(ctx.source, "/", relative);
  }

  lemma PartsOfInner(base: Base, tail: seq<string>)
    requires tail != []
    ensures PartsIn(base, "/" + Text.Join('/', tail)) == Counted(base, [""]) + Counted(base, AllParts(tail))
  {
    var relative := Text.Join('/', tail);
    SegmentsOfPair("", relative);
    assert "" + "/" + relative == "/" + relative && SegmentsOf("") == [""];
    ReplacedJoin(tail);
    NoSlashInParts(tail);
    Text.SplitOfJoin('/', AllParts(tail));
    CountedInTurn(base, [""], AllParts(tail));
  }

  lemma SameBehind(front: seq<string>, a: seq<string>, b: seq<string>)
    ensures front + a == front + b <==> a == b
  {
    assert (front + a)[|front|..] == a && (front + b)[|front|..] == b;
  }

  lemma {:induction false} KeptOfPlain(names: seq<string>)
    requires Paths.ArePlain(names)
    ensures Kept(names) == names
  {
    if names == [] {
    } else {
      assert Paths.IsPlain(names[0]);
      KeptOfPlain(names[1..]);
    }
  }

  /** Names without backslashes are the parts that count. */
  lemma CountedOfPlain(base: Base, tail: seq<string>)
    requires tail != [] && Paths.ArePlain(tail) && '\\' !in Text.Join('/', tail)
    ensures Counted(base, AllParts(tail)) == tail
  {
    assert forall i :: 0 <= i < |tail| ==> Paths.IsPlain(tail[i]);
    ReplaceNothing(Text.Join('/', tail));
    ReplacedJoin(tail);
    NoSlashInParts(tail);
    Text.SplitOfJoin('/', AllParts(tail));
    Text.SplitOfJoin('/', tail);
    KeptOfPlain(tail);
  }

  /** Two entries of the source get the same destination exactly when they have the same parts: never two different
      ones, if their names have no backslash. */
  lemma EntriesDiffer(ctx: Context, base: Base, a: FileEntry, b: FileEntry)
    requires Honest(ctx) && a in Tree(ctx) && b in Tree(ctx)
    ensures JoinDestination(base, PlaceOr(ctx, a.path)) == JoinDestination(base, PlaceOr(ctx, b.path))
            <==> HaveSameParts(ctx, base, a.path, b.path)
    ensures '\\' !in Inner(ctx, a.path) && '\\' !in Inner(ctx, b.path) ==>
              (HaveSameParts(ctx, base, a.path, b.path) <==> a.path == b.path)
  {
    var x := PartsOfEntry(ctx, base, a);
    var y := PartsOfEntry(ctx, base, b);
    DestinationsDiffer(base, PlaceOr(ctx, a.path), PlaceOr(ctx, b.path));
    SameBehind(Counted(base, Top(ctx)), Counted(base, AllParts(x)), Counted(base, AllParts(y)));
    SameBehind(Counted(base, [""]), Counted(base, AllParts(x)), Counted(base, AllParts(y)));
    if '\\' !in Inner(ctx, a.path) && '\\' !in Inner(ctx, b.path) {
      CountedOfPlain(base, x);
      CountedOfPlain(base, y);
    }
  }

  /** For a server's base, having the same parts is differing in the kind of slashes alone. */
  lemma SamePartsOnAServer(ctx: Context, base: Base, a: string, b: string)
    requires base.Remote?
    ensures HaveSameParts(ctx, base, a, b) <==> ReplaceBackslashes(Inner(ctx, a)) == ReplaceBackslashes(Inner(ctx, b))
  {
    RemotePartsDiffer(Inner(ctx, a), Inner(ctx, b));
  }

  /** When no listing repeats a name, every file is planned once. Two files get the same destination exactly when they
      have the same parts. */
  lemma FilesAreDistinct(ctx: Context, base: Base, mode: PlanMode, plan: TransferPlan, i: nat, j: nat)
    requires Honest(ctx) && ListsOnce(ctx) && IsPlanFor(plan, base, FoundIn(ctx), ctx.prefix, mode)
    requires i < j < |plan.files|
    ensures plan.files[i].sourcePath != plan.files[j].sourcePath
    ensures plan.files[i].destinationPath == plan.files[j].destinationPath
            <==> HaveSameParts(ctx, base, plan.files[i].sourcePath, plan.files[j].sourcePath)
    ensures '\\' !in Inner(ctx, plan.files[i].sourcePath) && '\\' !in Inner(ctx, plan.files[j].sourcePath) ==>
              plan.files[i].destinationPath != plan.files[j].destinationPath
  {
    var files := FoundIn(ctx).files;
    TreePathsDiffer(ctx, [], Levels(0));
    FilesDiffer(ctx, Tree(ctx));
    assert plan.files[i] == FileTo(base, files[i]) && plan.files[j] == FileTo(base, files[j]);
    var a := FilesOfFrom(ctx, Tree(ctx), files[i]);
    var b := FilesOfFrom(ctx, Tree(ctx), files[j]);
    EntriesDiffer(ctx, base, a, b);
  }

  lemma PlainAfterDot(x: string, name: string, dotted: string)
    requires Paths.IsPlain(x) && '\\' !in x && name == ".\\" + x && dotted == "./" + x
    ensures Paths.IsPlain(name) && ReplaceBackslashes(name) == dotted && ReplaceBackslashes(x) == x
  {
    assert name[1] == '\\';
    ReplaceNothing(x);
  }

  lemma RelativeOfName(source: string, name: string)
    requires source != "" && source[|source| - 1] != '/' && Paths.IsPlain(name)
    ensures RemoteRelative(source, source + "/" + name) == Ok(ReplaceBackslashes(name))
  {
    assert Paths.ArePlain([name]) && Text.Join('/', [name]) == name;
    RelativeOfBelow(source, [name]);
  }

  /** The files ".\x" and "x" of one directory collide on this computer, and not on a server. */
  lemma DottedFilesCollide(source: string, base: string, x: string, name: string, dotted: string)
    requires source != "" && source[|source| - 1] != '/'
    requires Paths.IsPlain(x) && '\\' !in x && name == ".\\" + x && dotted == "./" + x
    ensures RemoteRelative(source, source + "/" + name) == Ok(dotted)
            && RemoteRelative(source, source + "/" + x) == Ok(x)
    ensures JoinDestination(Local(base), dotted) == JoinDestination(Local(base), x)
    ensures JoinDestination(Remote(base), dotted) != JoinDestination(Remote(base), x)
  {
    PlainAfterDot(x, name, dotted);
    RelativeOfName(source, name);
    RelativeOfName(source, x);
    ReplaceTwice(name);
    DotsCollide(base, x, name);
    DestinationIgnoresSlashKind(Local(base), name, dotted);
    DestinationIgnoresSlashKind(Remote(base), name, dotted);
  }
}
