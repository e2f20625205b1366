/** Planning the transfer of a remote directory: a walk with an explicit stack, capped in depth and in files, that
    collects what is to be created below the destination. Its reference is the walk defined by recursion. */
module Planner {
  import opened Prelude
  import opened Destinations
  import opened Ordering
  import Paths
  import Text

  const MAX_TRANSFER_FILES: nat := 5000
  const MAX_TRANSFER_DEPTH: nat := 64

  datatype SymlinkPolicy = Skip | CopyLink | Dereference

  datatype PlanMode = IncludeRoot | ContentsOnly

  /** A file to transfer and a link to make, with the place relative to the destination. */
  datatype RelativeFile = RelativeFile(sourcePath: string, relative: string)

  datatype RelativeLink = RelativeLink(target: string, relative: string)

  datatype PlannedFile = PlannedFile(sourcePath: string, destinationPath: string)

  datatype PlannedSymlink = PlannedSymlink(target: string, destinationPath: string)

  datatype TransferPlan = TransferPlan(directories: seq<string>, files: seq<PlannedFile>, symlinks: seq<PlannedSymlink>)

  /** What a walk runs on. The listings may lead in circles. */
  datatype Context = Context(list: string -> Result<seq<FileEntry>>, source: string, prefix: string,
                             policy: SymlinkPolicy)

  /** What a walk has found: directories in order without repetition, files and links as they came. */
  datatype Found = Found(dirs: seq<string>, files: seq<RelativeFile>, links: seq<RelativeLink>)

  // ---------------------------------------------------------------------------------------------
  // Names and places

  function RemoteRelative(root: string, path: string): Result<string> {
    var base, inner := Paths.TrimSlashes(root), Paths.TrimSlashes(path);
    if inner == base || (base == "" && inner == "/") then Ok("")
    else
      var prefix := if base == "" || base == "/" then "/" else base + "/";
      if !(prefix <= inner) then Err(Failure(Internal))
      else
        var relative := inner[|prefix|..];
        if relative == "" || ".." in Text.Split('/', relative) then Err(Failure(InvalidInput))
        else Ok(ReplaceBackslashes(relative))
  }

  function RemoteDirectoryName(path: string): Result<string> {
    var parts := Text.Split('/', Paths.TrimSlashes(path));
    if parts[|parts| - 1] == "" then Err(Failure(InvalidInput)) else Ok(parts[|parts| - 1])
  }

  function WithPrefix(prefix: string, relative: string): string {
    if prefix == "" then relative else if relative == "" then prefix else prefix + "/" + relative
  }

  // ---------------------------------------------------------------------------------------------
  // The walk, by recursion

  /** What the entries of one directory add, and the directories to go on with. */
  datatype Scanned = Scanned(found: Found, children: seq<string>)

  function Place(ctx: Context, path: string): Result<string> {
    var relative := RemoteRelative(ctx.source, path);
    if relative.Err? then relative else Ok(WithPrefix(ctx.prefix, relative.value))
  }

  function ScanOne(ctx: Context, entry: FileEntry, s: Scanned): Result<Scanned> {
    match entry.kind
    case Other => Ok(s)
    case Symlink =>
      if ctx.policy == Skip then Ok(s)
      else if ctx.policy == Dereference then Err(Failure(InvalidInput))
      else
        var place := Place(ctx, entry.path);
        if place.Err? then Err(place.error)
        else if entry.symlinkTarget.None? then Err(Failure(Unsupported))
        else
          Ok(s.(found := s.found.(links := s.found.links + [RelativeLink(entry.symlinkTarget.value, place.value)])))
    case Directory =>
      var place := Place(ctx, entry.path);
      if place.Err? then Err(place.error)
      else
        Ok(Scanned(if place.value == "" then s.found else s.found.(dirs := Insert(s.found.dirs, place.value)),
                   s.children + [entry.path]))
    case File =>
      if |s.found.files| >= MAX_TRANSFER_FILES then Err(Failure(InvalidInput))
      else
        var place := Place(ctx, entry.path);
        if place.Err? then Err(place.error)
        else Ok(s.(found := s.found.(files := s.found.files + [RelativeFile(entry.path, place.value)])))
  }

  function ScanAll(ctx: Context, entries: seq<FileEntry>, s: Scanned): Result<Scanned>
    decreases entries
  {
    if entries == [] then Ok(s)
    else
      var next := ScanOne(ctx, entries[0], s);
      if next.Err? then next else ScanAll(ctx, entries[1..], next.value)
  }

  /** A directory and everything below it, as far as levels go: first its own entries, then its subdirectories
      from the last to the first. */
  function Visit(ctx: Context, path: string, levels: nat, found: Found): Result<Found>
    decreases levels, 0
  {
    if levels == 0 then Err(Failure(InvalidInput))
    else if ctx.list(path).Err? then Err(ctx.list(path).error)
    else
      var scanned := ScanAll(ctx, ctx.list(path).value, Scanned(found, []));
      if scanned.Err? then Err(scanned.error)
      else VisitAll(ctx, scanned.value.children, levels - 1, scanned.value.found)
  }

  function VisitAll(ctx: Context, paths: seq<string>, levels: nat, found: Found): Result<Found>
    decreases levels, |paths| + 1
  {
    if paths == [] then Ok(found)
    else
      var last := Visit(ctx, paths[|paths| - 1], levels, found);
      if last.Err? then last else VisitAll(ctx, paths[..|paths| - 1], levels, last.value)
  }

  function Levels(depth: nat): nat {
    if depth <= MAX_TRANSFER_DEPTH then MAX_TRANSFER_DEPTH + 1 - depth else 0
  }

  // ---------------------------------------------------------------------------------------------
  // The walk, with a stack

  function VisitStack(ctx: Context, stack: seq<Stop>, found: Found): Result<Found> {
    if stack == [] then Ok(found)
    else
      var top := stack[|stack| - 1];
      var r := Visit(ctx, top.path, Levels(top.depth), found);
      if r.Err? then r else VisitStack(ctx, stack[..|stack| - 1], r.value)
  }

  lemma {:induction false} StackOfChildren(ctx: Context, stack: seq<Stop>, paths: seq<string>, depth: nat, found: Found)
    ensures VisitStack(ctx, stack + Stops(paths, depth), found)
         == var r := VisitAll(ctx, paths, Levels(depth), found);
            if r.Err? then r else VisitStack(ctx, stack, r.value)
    decreases paths
  {
    var whole := stack + Stops(paths, depth);
    if paths == [] {
      assert whole == stack;
    } else {
      var init, last := paths[..|paths| - 1], paths[|paths| - 1];
      assert whole[..|whole| - 1] == stack + Stops(init, depth);
      assert whole[|whole| - 1] == Stop(last, depth);
      var r := Visit(ctx, last, Levels(depth), found);
      if r.Ok? {
        StackOfChildren(ctx, stack, init, depth, r.value);
      }
    }
  }

  /** How many directories a walk can still come to. The levels bound it whatever the listings say. */
  function Weight(ctx: Context, path: string, levels: nat): nat
    decreases levels, 0
  {
    if levels == 0 || ctx.list(path).Err? then 1
    else 1 + WeightAll(ctx, Children(ctx.list(path).value), levels - 1)
  }

  function WeightAll(ctx: Context, paths: seq<string>, levels: nat): nat
    decreases levels, |paths| + 1
  {
    if paths == [] then 0
    else WeightAll(ctx, paths[..|paths| - 1], levels) + Weight(ctx, paths[|paths| - 1], levels)
  }

  function StackWeight(ctx: Context, stack: seq<Stop>): nat {
    if stack == [] then 0
    else
      var top := stack[|stack| - 1];
      StackWeight(ctx, stack[..|stack| - 1]) + Weight(ctx, top.path, Levels(top.depth))
  }

  function Children(entries: seq<FileEntry>): seq<string> {
    if entries == [] then []
    else Child(entries[0]) + Children(entries[1..])
  }

  lemma {:induction false} WeightOfChildren(ctx: Context, stack: seq<Stop>, paths: seq<string>, depth: nat)
    ensures StackWeight(ctx, stack + Stops(paths, depth))
            == StackWeight(ctx, stack) + WeightAll(ctx, paths, Levels(depth))
    decreases paths
  {
    var whole := stack + Stops(paths, depth);
    if paths == [] {
      assert whole == stack;
    } else {
      assert whole[..|whole| - 1] == stack + Stops(paths[..|paths| - 1], depth);
      WeightOfChildren(ctx, stack, paths[..|paths| - 1], depth);
    }
  }

  function Child(entry: FileEntry): seq<string> {
    if entry.kind == Directory then [entry.path] else []
  }

  lemma ScannedChild(ctx: Context, entry: FileEntry, s: Scanned)
    requires ScanOne(ctx, entry, s).Ok?
    ensures ScanOne(ctx, entry, s).value.children == s.children + Child(entry)
  {
    assert s.children + [] == s.children;
  }

  lemma {:induction false} ScannedChildren(ctx: Context, entries: seq<FileEntry>, s: Scanned)
    requires ScanAll(ctx, entries, s).Ok?
    ensures ScanAll(ctx, entries, s).value.children == s.children + Children(entries)
    decreases entries
  {
    if entries == [] {
      assert s.children + [] == s.children;
    } else {
      ScannedChild(ctx, entries[0], s);
      ScannedChildren(ctx, entries[1..], ScanOne(ctx, entries[0], s).value);
      Associative(s.children, Child(entries[0]), Children(entries[1..]));
    }
  }

  /** The entries of one directory, in the way of the loop over them. */
  method ScanDirectory(ctx: Context, entries: seq<FileEntry>, found: Found) returns (r: Result<Scanned>)
    ensures r == ScanAll(ctx, entries, Scanned(found, []))
  {
    var dirs, files, links := found.dirs, found.files, found.links;
    var children := [];
    for i := 0 to |entries|
      invariant ScanAll(ctx, entries[i..], Scanned(Found(dirs, files, links), children))
             == ScanAll(ctx, entries, Scanned(found, []))
    {
      var entry := entries[i];
      assert entries[i..][0] == entry && entries[i..][1..] == entries[i + 1..];
      match entry.kind
      case Other =>
      case Symlink =>
        match ctx.policy {
          case Skip =>
          case CopyLink =>
            var relative := RemoteRelative(ctx.source, entry.path);
            if relative.Err? {
              return Err(relative.error);
            }
            if entry.symlinkTarget.None? {
              return Err(Failure(Unsupported));
            }
            links := links + [RelativeLink(entry.symlinkTarget.value, WithPrefix(ctx.prefix, relative.value))];
          case Dereference =>
            return Err(Failure(InvalidInput));
        }
      case Directory =>
        var relative := RemoteRelative(ctx.source, entry.path);
        if relative.Err? {
          return Err(relative.error);
        }
        var planned := WithPrefix(ctx.prefix, relative.value);
        if planned != "" {
          dirs := Insert(dirs, planned);
        }
        children := children + [entry.path];
      case File =>
        if |files| >= MAX_TRANSFER_FILES {
          return Err(Failure(InvalidInput));
        }
        var relative := RemoteRelative(ctx.source, entry.path);
        if relative.Err? {
          return Err(relative.error);
        }
        files := files + [RelativeFile(entry.path, WithPrefix(ctx.prefix, relative.value))];
    }
    r := Ok(Scanned(Found(dirs, files, links), children));
  }

  lemma VisitDirectory(ctx: Context, path: string, depth: nat, found: Found, entries: seq<FileEntry>, scanned: Scanned)
    requires depth <= MAX_TRANSFER_DEPTH && ctx.list(path) == Ok(entries)
    requires ScanAll(ctx, entries, Scanned(found, [])) == Ok(scanned)
    ensures Visit(ctx, path, Levels(depth), found) == VisitAll(ctx, scanned.children, Levels(depth + 1), scanned.found)
  {
    assert Levels(depth) - 1 == Levels(depth + 1);
  }

  /** Replacing the top of the stack by its subdirectories changes nothing about the outcome, and less is left. */
  lemma NextStack(ctx: Context, rest: seq<Stop>, top: Stop, found: Found, entries: seq<FileEntry>, scanned: Scanned)
    requires top.depth <= MAX_TRANSFER_DEPTH && ctx.list(top.path) == Ok(entries)
    requires ScanAll(ctx, entries, Scanned(found, [])) == Ok(scanned)
    ensures VisitStack(ctx, rest + [top], found)
         == VisitStack(ctx, rest + Stops(scanned.children, top.depth + 1), scanned.found)
  {
    StackTop(ctx, rest, top, found);
    VisitDirectory(ctx, top.path, top.depth, found, entries, scanned);
    StackOfChildren(ctx, rest, scanned.children, top.depth + 1, scanned.found);
  }

  lemma StackTop(ctx: Context, rest: seq<Stop>, top: Stop, found: Found)
    ensures VisitStack(ctx, rest + [top], found)
         == var r := Visit(ctx, top.path, Levels(top.depth), found);
            if r.Err? then r else VisitStack(ctx, rest, r.value)
    ensures StackWeight(ctx, rest + [top]) == StackWeight(ctx, rest) + Weight(ctx, top.path, Levels(top.depth))
  {
    var stack := rest + [top];
    assert stack[..|stack| - 1] == rest && stack[|stack| - 1] == top;
  }

  lemma NextWeight(ctx: Context, rest: seq<Stop>, top: Stop, found: Found, entries: seq<FileEntry>, scanned: Scanned)
    requires top.depth <= MAX_TRANSFER_DEPTH && ctx.list(top.path) == Ok(entries)
    requires ScanAll(ctx, entries, Scanned(found, [])) == Ok(scanned)
    ensures StackWeight(ctx, rest + Stops(scanned.children, top.depth + 1)) < StackWeight(ctx, rest + [top])
  {
    AllChildren(ctx, entries, found, scanned);
    StackTop(ctx, rest, top, found);
    WeightOfChildren(ctx, rest, scanned.children, top.depth + 1);
    DirectoryWeight(ctx, top.path, top.depth, entries);
  }

  lemma AllChildren(ctx: Context, entries: seq<FileEntry>, found: Found, scanned: Scanned)
    requires ScanAll(ctx, entries, Scanned(found, [])) == Ok(scanned)
    ensures scanned.children == Children(entries)
  {
    ScannedChildren(ctx, entries, Scanned(found, []));
    assert [] + Children(entries) == Children(entries);
  }

  lemma DirectoryWeight(ctx: Context, path: string, depth: nat, entries: seq<FileEntry>)
    requires depth <= MAX_TRANSFER_DEPTH && ctx.list(path) == Ok(entries)
    ensures Weight(ctx, path, Levels(depth)) == 1 + WeightAll(ctx, Children(entries), Levels(depth + 1))
  {
    assert Levels(depth) - 1 == Levels(depth + 1);
  }

  lemma StackFails(ctx: Context, rest: seq<Stop>, top: Stop, found: Found)
    requires Visit(ctx, top.path, Levels(top.depth), found).Err?
    ensures VisitStack(ctx, rest + [top], found) == Visit(ctx, top.path, Levels(top.depth), found)
  {
    StackTop(ctx, rest, top, found);
  }

  /** The walk ends for all listings, even circular ones, and does what the recursion says, errors included. */
  method WalkDirectory(ctx: Context) returns (r: Result<Found>)
    ensures r == Visit(ctx, ctx.source, Levels(0), Found([], [], []))
  {
    var found := Found([], [], []);
    var stack := [Stop(ctx.source, 0)];
    ghost var goal := Visit(ctx, ctx.source, Levels(0), found);
    assert stack[..0] == [];
    while stack != []
      invariant VisitStack(ctx, stack, found) == goal
      decreases StackWeight(ctx, stack)
    {
      var top, rest := stack[|stack| - 1], stack[..|stack| - 1];
      assert stack == rest + [top];
      if Visit(ctx, top.path, Levels(top.depth), found).Err? {
        StackFails(ctx, rest, top, found);
      }
      if top.depth > MAX_TRANSFER_DEPTH {
        return Err(Failure(InvalidInput));
      }
      var listed := ctx.list(top.path);
      if listed.Err? {
        return Err(listed.error);
      }
      var scanned := ScanDirectory(ctx, listed.value, found);
      if scanned.Err? {
        return Err(scanned.error);
      }
      NextStack(ctx, rest, top, found, listed.value, scanned.value);
      NextWeight(ctx, rest, top, found, listed.value, scanned.value);
      stack := rest + Stops(scanned.value.children, top.depth + 1);
      found := scanned.value.found;
    }
    r := Ok(found);
  }

  // ---------------------------------------------------------------------------------------------
  // What a walk finds, told from the tree of entries

  /** All entries of a tree, in the order of the walk. */
  function TreeEntries(ctx: Context, path: string, levels: nat): seq<FileEntry>
    decreases levels, 0
  {
    if levels == 0 || ctx.list(path).Err? then []
    else ctx.list(path).value + ForestEntries(ctx, Children(ctx.list(path).value), levels - 1)
  }

  function ForestEntries(ctx: Context, paths: seq<string>, levels: nat): seq<FileEntry>
    decreases levels, |paths| + 1
  {
    if paths == [] then []
    else TreeEntries(ctx, paths[|paths| - 1], levels) + ForestEntries(ctx, paths[..|paths| - 1], levels)
  }

  /** Whether an entry can be planned, as far as the number of files is not concerned. */
  predicate IsSound(ctx: Context, entry: FileEntry) {
    match entry.kind
    case Other => true
    case Symlink =>
      ctx.policy == Skip || (ctx.policy == CopyLink && Place(ctx, entry.path).Ok? && entry.symlinkTarget.Some?)
    case _ => Place(ctx, entry.path).Ok?
  }

  predicate AreSound(ctx: Context, entries: seq<FileEntry>) {
    forall i :: 0 <= i < |entries| ==> IsSound(ctx, entries[i])
  }

  predicate TreeIsSound(ctx: Context, path: string, levels: nat)
    decreases levels, 0
  {
    && levels > 0 && ctx.list(path).Ok? && AreSound(ctx, ctx.list(path).value)
    && ForestIsSound(ctx, Children(ctx.list(path).value), levels - 1)
  }

  predicate ForestIsSound(ctx: Context, paths: seq<string>, levels: nat)
    decreases levels, |paths| + 1
  {
    paths == [] || (TreeIsSound(ctx, paths[|paths| - 1], levels) && ForestIsSound(ctx, paths[..|paths| - 1], levels))
  }

  function PlaceOr(ctx: Context, path: string): string {
    if Place(ctx, path).Ok? then Place(ctx, path).value else ""
  }

  function FileOf(ctx: Context, entry: FileEntry): seq<RelativeFile> {
    if entry.kind == File then [RelativeFile(entry.path, PlaceOr(ctx, entry.path))] else []
  }

  function LinkOf(ctx: Context, entry: FileEntry): seq<RelativeLink> {
    if entry.kind == Symlink && ctx.policy == CopyLink && entry.symlinkTarget.Some?
    then [RelativeLink(entry.symlinkTarget.value, PlaceOr(ctx, entry.path))] else []
  }

  function DirOf(ctx: Context, entry: FileEntry): seq<string> {
    if entry.kind == Directory && PlaceOr(ctx, entry.path) != "" then [PlaceOr(ctx, entry.path)] else []
  }

  function FilesOf(ctx: Context, entries: seq<FileEntry>): seq<RelativeFile> {
    if entries == [] then [] else FileOf(ctx, entries[0]) + FilesOf(ctx, entries[1..])
  }

  function LinksOf(ctx: Context, entries: seq<FileEntry>): seq<RelativeLink> {
    if entries == [] then [] else LinkOf(ctx, entries[0]) + LinksOf(ctx, entries[1..])
  }

  function DirsOf(ctx: Context, entries: seq<FileEntry>): seq<string> {
    if entries == [] then [] else DirOf(ctx, entries[0]) + DirsOf(ctx, entries[1..])
  }

  function Collected(ctx: Context, found: Found, entries: seq<FileEntry>): Found {
    Found(InsertAll(found.dirs, DirsOf(ctx, entries)), found.files + FilesOf(ctx, entries),
          found.links + LinksOf(ctx, entries))
  }

  lemma {:induction false} FilesInTurn(ctx: Context, a: seq<FileEntry>, b: seq<FileEntry>)
    ensures FilesOf(ctx, a + b) == FilesOf(ctx, a) + FilesOf(ctx, b)
  {
    if a == [] {
      assert a + b == b;
    } else {
      assert (a + b)[1..] == a[1..] + b;
      FilesInTurn(ctx, a[1..], b);
    }
  }

  lemma {:induction false} LinksInTurn(ctx: Context, a: seq<FileEntry>, b: seq<FileEntry>)
    ensures LinksOf(ctx, a + b) == LinksOf(ctx, a) + LinksOf(ctx, b)
  {
    if a == [] {
      assert a + b == b;
    } else {
      assert (a + b)[1..] == a[1..] + b;
      LinksInTurn(ctx, a[1..], b);
    }
  }

  lemma {:induction false} DirsInTurn(ctx: Context, a: seq<FileEntry>, b: seq<FileEntry>)
    ensures DirsOf(ctx, a + b) == DirsOf(ctx, a) + DirsOf(ctx, b)
  {
    if a == [] {
      assert a + b == b;
    } else {
      assert (a + b)[1..] == a[1..] + b;
      DirsInTurn(ctx, a[1..], b);
    }
  }

  lemma CollectedInTurn(ctx: Context, found: Found, a: seq<FileEntry>, b: seq<FileEntry>)
    ensures Collected(ctx, Collected(ctx, found, a), b) == Collected(ctx, found, a + b)
  {
    FilesInTurn(ctx, a, b);
    LinksInTurn(ctx, a, b);
    DirsInTurn(ctx, a, b);
    InsertAllInTurn(found.dirs, DirsOf(ctx, a), DirsOf(ctx, b));
    Associative(found.files, FilesOf(ctx, a), FilesOf(ctx, b));
    Associative(found.links, LinksOf(ctx, a), LinksOf(ctx, b));
  }

  lemma OneEntry(ctx: Context, found: Found, entry: FileEntry)
    ensures Collected(ctx, found, [entry])
         == Found(if DirOf(ctx, entry) == [] then found.dirs else Insert(found.dirs, DirOf(ctx, entry)[0]),
                  found.files + FileOf(ctx, entry), found.links + LinkOf(ctx, entry))
  {
    OfOneEntry(ctx, entry);
    if DirOf(ctx, entry) == [] {
      InsertAllNone(found.dirs);
    } else {
      InsertAllOne(found.dirs, DirOf(ctx, entry)[0]);
      assert DirOf(ctx, entry) == [DirOf(ctx, entry)[0]];
    }
  }

  lemma OfOneEntry(ctx: Context, entry: FileEntry)
    ensures FilesOf(ctx, [entry]) == FileOf(ctx, entry) && LinksOf(ctx, [entry]) == LinkOf(ctx, entry)
    ensures DirsOf(ctx, [entry]) == DirOf(ctx, entry)
  {
    assert [entry][1..] == [];
    assert FileOf(ctx, entry) + [] == FileOf(ctx, entry);
    assert LinkOf(ctx, entry) + [] == LinkOf(ctx, entry);
    assert DirOf(ctx, entry) + [] == DirOf(ctx, entry);
  }

  lemma CollectedOne(ctx: Context, found: Found, entry: FileEntry, children: seq<string>)
    requires |found.files| <= MAX_TRANSFER_FILES
    ensures ScanOne(ctx, entry, Scanned(found, children)).Ok?
            <==> IsSound(ctx, entry) && |Collected(ctx, found, [entry]).files| <= MAX_TRANSFER_FILES
    ensures ScanOne(ctx, entry, Scanned(found, children)).Ok? ==>
              ScanOne(ctx, entry, Scanned(found, children)).value.found == Collected(ctx, found, [entry])
  {
    OneEntry(ctx, found, entry);
    assert found.files + [] == found.files && found.links + [] == found.links;
  }

  lemma {:induction false} ScanCollects(ctx: Context, entries: seq<FileEntry>, s: Scanned)
    requires |s.found.files| <= MAX_TRANSFER_FILES
    ensures ScanAll(ctx, entries, s).Ok?
            <==> AreSound(ctx, entries) && |Collected(ctx, s.found, entries).files| <= MAX_TRANSFER_FILES
    ensures ScanAll(ctx, entries, s).Ok? ==> ScanAll(ctx, entries, s).value.found == Collected(ctx, s.found, entries)
    decreases entries
  {
    if entries == [] {
      assert s.found.files + [] == s.found.files && s.found.links + [] == s.found.links;
    } else {
      CollectedOne(ctx, s.found, entries[0], s.children);
      CollectedInTurn(ctx, s.found, [entries[0]], entries[1..]);
      assert [entries[0]] + entries[1..] == entries;
      if ScanOne(ctx, entries[0], s).Ok? {
        ScanCollects(ctx, entries[1..], ScanOne(ctx, entries[0], s).value);
      }
    }
  }

  lemma {:induction false} VisitCollects(ctx: Context, path: string, levels: nat, found: Found)
    requires |found.files| <= MAX_TRANSFER_FILES
    ensures var all := Collected(ctx, found, TreeEntries(ctx, path, levels));
            && (Visit(ctx, path, levels, found).Ok?
                <==> TreeIsSound(ctx, path, levels) && |all.files| <= MAX_TRANSFER_FILES)
            && (Visit(ctx, path, levels, found).Ok? ==> Visit(ctx, path, levels, found).value == all)
    decreases levels, 0
  {
    if levels > 0 && ctx.list(path).Ok? {
      var entries := ctx.list(path).value;
      var below := ForestEntries(ctx, Children(entries), levels - 1);
      CollectedInTurn(ctx, found, entries, below);
      ScanCollects(ctx, entries, Scanned(found, []));
      var scanned := ScanAll(ctx, entries, Scanned(found, []));
      if scanned.Ok? {
        AllChildren(ctx, entries, found, scanned.value);
        VisitAllCollects(ctx, Children(entries), levels - 1, scanned.value.found);
      }
    }
  }

  lemma {:induction false} VisitAllCollects(ctx: Context, paths: seq<string>, levels: nat, found: Found)
    requires |found.files| <= MAX_TRANSFER_FILES
    ensures var all := Collected(ctx, found, ForestEntries(ctx, paths, levels));
            && (VisitAll(ctx, paths, levels, found).Ok?
                <==> ForestIsSound(ctx, paths, levels) && |all.files| <= MAX_TRANSFER_FILES)
            && (VisitAll(ctx, paths, levels, found).Ok? ==> VisitAll(ctx, paths, levels, found).value == all)
    decreases levels, |paths| + 1
  {
    if paths == [] {
      CollectedNone(ctx, found);
    } else {
      var init, last := paths[..|paths| - 1], paths[|paths| - 1];
      CollectedInTurn(ctx, found, TreeEntries(ctx, last, levels), ForestEntries(ctx, init, levels));
      VisitCollects(ctx, last, levels, found);
      if Visit(ctx, last, levels, found).Ok? {
        VisitAllCollects(ctx, init, levels, Visit(ctx, last, levels, found).value);
      }
    }
  }

  lemma CollectedNone(ctx: Context, found: Found)
    ensures Collected(ctx, found, []) == found
  {
    assert found.files + [] == found.files && found.links + [] == found.links;
  }

  /** All entries below the source, down to 64 levels. */
  function Tree(ctx: Context): seq<FileEntry> {
    TreeEntries(ctx, ctx.source, Levels(0))
  }

  function FoundIn(ctx: Context): Found {
    Found(InsertAll([], DirsOf(ctx, Tree(ctx))), FilesOf(ctx, Tree(ctx)), LinksOf(ctx, Tree(ctx)))
  }

  /** The walk succeeds exactly when the tree can be planned and has at most 5,000 files, and then it has found
      exactly the tree. */
  lemma WalkFindsTheTree(ctx: Context)
    ensures var r := Visit(ctx, ctx.source, Levels(0), Found([], [], []));
            && (r.Ok? <==> TreeIsSound(ctx, ctx.source, Levels(0)) && |FilesOf(ctx, Tree(ctx))| <= 5_000)
            && (r.Ok? ==> r.value == FoundIn(ctx))
    ensures Levels(0) == 64 + 1
  {
    var tree := Tree(ctx);
    VisitCollects(ctx, ctx.source, Levels(0), Found([], [], []));
    assert [] + FilesOf(ctx, tree) == FilesOf(ctx, tree) && [] + LinksOf(ctx, tree) == LinksOf(ctx, tree);
  }

  // ---------------------------------------------------------------------------------------------
  // The plan

  function WantedByDirs(dirs: seq<string>): seq<string> {
    if dirs == [] then []
    else WantedByDirs(dirs[..|dirs| - 1]) + [dirs[|dirs| - 1]] + Ancestors(dirs[|dirs| - 1])
  }

  function WantedByFiles(files: seq<RelativeFile>): seq<string> {
    if files == [] then []
    else WantedByFiles(files[..|files| - 1]) + Ancestors(files[|files| - 1].relative)
  }

  /** For a link only the directory that it is in. */
  function WantedByLinks(links: seq<RelativeLink>): seq<string> {
    if links == [] then []
    else
      var parent := ParentRelative(links[|links| - 1].relative);
      WantedByLinks(links[..|links| - 1]) + (if parent.Some? then [parent.value] else [])
  }

  /** All relative places that are to be directories. */
  function Wanted(found: Found, prefix: string, mode: PlanMode): seq<string> {
    (if mode == IncludeRoot && prefix != "" then [prefix] else [])
    + WantedByDirs(found.dirs) + WantedByFiles(found.files) + WantedByLinks(found.links)
  }

  function JoinAll(base: Base, places: seq<string>): (r: seq<string>)
    ensures |r| == |places| && forall i :: 0 <= i < |r| ==> r[i] == JoinDestination(base, places[i])
  {
    if places == [] then [] else [JoinDestination(base, places[0])] + JoinAll(base, places[1..])
  }

  function DepthOf(path: string): int {
    Separators(path)
  }

  function FileTo(base: Base, file: RelativeFile): PlannedFile {
    PlannedFile(file.sourcePath, JoinDestination(base, file.relative))
  }

  function LinkTo(base: Base, link: RelativeLink): PlannedSymlink {
    PlannedSymlink(link.target, JoinDestination(base, link.relative))
  }

  /** Shallower places come first; equally deep ones are in order of their names. */
  predicate IsBefore(a: string, b: string) {
    Separators(a) < Separators(b) || (Separators(a) == Separators(b) && Less(a, b))
  }

  predicate AreInOrder(directories: seq<string>) {
    forall i, j :: 0 <= i < j < |directories| ==> IsBefore(directories[i], directories[j])
  }

  ghost predicate IsPlanFor(plan: TransferPlan, base: Base, found: Found, prefix: string, mode: PlanMode) {
    && AreInOrder(plan.directories)
    && (forall d :: d in plan.directories <==> d in JoinAll(base, Wanted(found, prefix, mode)))
    && |plan.files| == |found.files| && |plan.symlinks| == |found.links|
    && (forall i :: 0 <= i < |plan.files| ==> plan.files[i] == FileTo(base, found.files[i]))
    && (forall i :: 0 <= i < |plan.symlinks| ==> plan.symlinks[i] == LinkTo(base, found.links[i]))
  }

  lemma {:induction false} JoinAllInTurn(base: Base, a: seq<string>, b: seq<string>)
    ensures JoinAll(base, a + b) == JoinAll(base, a) + JoinAll(base, b)
  {
  }

  method InsertAncestorDirs(directories: seq<string>, base: Base, relative: string) returns (r: seq<string>)
    ensures r == InsertAll(directories, JoinAll(base, Ancestors(relative)))
  {
    r := directories;
    var current := relative;
    ghost var goal := InsertAll(directories, JoinAll(base, Ancestors(relative)));
    var parent := ParentRelative(current);
    while parent.Some?
      invariant parent == ParentRelative(current)
      invariant InsertAll(r, JoinAll(base, Ancestors(current))) == goal
      decreases |current|
    {
      var above := Ancestors(parent.value);
      assert ([parent.value] + above)[1..] == above;
      assert JoinAll(base, Ancestors(current))[1..] == JoinAll(base, above);
      r := Insert(r, JoinDestination(base, parent.value));
      current := parent.value;
      parent := ParentRelative(current);
    }
  }

  /** The destinations of some places, in order and without repetition. */
  function Places(base: Base, places: seq<string>): seq<string> {
    InsertAll([], JoinAll(base, places))
  }

  lemma AddPlaces(base: Base, sofar: seq<string>, more: seq<string>)
    ensures InsertAll(Places(base, sofar), JoinAll(base, more)) == Places(base, sofar + more)
  {
    JoinAllInTurn(base, sofar, more);
    InsertAllInTurn([], JoinAll(base, sofar), JoinAll(base, more));
  }

  lemma AddPlace(base: Base, sofar: seq<string>, place: string)
    ensures Insert(Places(base, sofar), JoinDestination(base, place)) == Places(base, sofar + [place])
  {
    AddPlaces(base, sofar, [place]);
    InsertAllOne(Places(base, sofar), JoinDestination(base, place));
    assert JoinAll(base, [place]) == [JoinDestination(base, place)];
  }

  /** A place and everything above it. */
  method AddWithAncestors(base: Base, directories: seq<string>, place: string, ghost sofar: seq<string>)
    returns (r: seq<string>)
    requires directories == Places(base, sofar)
    ensures r == Places(base, sofar + ([place] + Ancestors(place)))
  {
    AddPlace(base, sofar, place);
    AddPlaces(base, sofar + [place], Ancestors(place));
    r := InsertAncestorDirs(Insert(directories, JoinDestination(base, place)), base, place);
    Associative(sofar, [place], Ancestors(place));
  }

  lemma MoreDirs(sofar: seq<string>, dirs: seq<string>, i: nat)
    requires i < |dirs|
    ensures sofar + WantedByDirs(dirs[..i + 1])
         == sofar + WantedByDirs(dirs[..i]) + ([dirs[i]] + Ancestors(dirs[i]))
  {
    assert dirs[..i + 1][..i] == dirs[..i];
    Associative(WantedByDirs(dirs[..i]), [dirs[i]], Ancestors(dirs[i]));
    Associative(sofar, WantedByDirs(dirs[..i]), [dirs[i]] + Ancestors(dirs[i]));
  }

  method AddDirs(base: Base, dirs: seq<string>, directories: seq<string>, ghost sofar: seq<string>)
    returns (r: seq<string>)
    requires directories == Places(base, sofar)
    ensures r == Places(base, sofar + WantedByDirs(dirs))
  {
    r := directories;
    assert sofar + [] == sofar;
    for i := 0 to |dirs|
      invariant r == Places(base, sofar + WantedByDirs(dirs[..i]))
    {
      MoreDirs(sofar, dirs, i);
      r := AddWithAncestors(base, r, dirs[i], sofar + WantedByDirs(dirs[..i]));
    }
    assert dirs[..|dirs|] == dirs;
  }

  lemma MoreFiles(sofar: seq<string>, files: seq<RelativeFile>, i: nat)
    requires i < |files|
    ensures sofar + WantedByFiles(files[..i + 1]) == sofar + WantedByFiles(files[..i]) + Ancestors(files[i].relative)
  {
    assert files[..i + 1][..i] == files[..i];
    Associative(sofar, WantedByFiles(files[..i]), Ancestors(files[i].relative));
  }

  method AddFiles(base: Base, files: seq<RelativeFile>, directories: seq<string>, ghost sofar: seq<string>)
    returns (r: seq<string>)
    requires directories == Places(base, sofar)
    ensures r == Places(base, sofar + WantedByFiles(files))
  {
    r := directories;
    assert sofar + [] == sofar;
    for i := 0 to |files|
      invariant r == Places(base, sofar + WantedByFiles(files[..i]))
    {
      MoreFiles(sofar, files, i);
      var parent := ParentRelative(files[i].relative);
      ghost var before := sofar + WantedByFiles(files[..i]);
      assert parent.None? ==> before + [] == before;
      if parent.Some? {
        r := AddWithAncestors(base, r, parent.value, before);
      }
    }
    assert files[..|files|] == files;
  }

  lemma MoreLinks(sofar: seq<string>, links: seq<RelativeLink>, i: nat)
    requires i < |links|
    ensures var parent := ParentRelative(links[i].relative);
            sofar + WantedByLinks(links[..i + 1])
            == if parent.Some? then sofar + WantedByLinks(links[..i]) + [parent.value]
                else sofar + WantedByLinks(links[..i])
  {
    assert links[..i + 1][..i] == links[..i];
    var parent := ParentRelative(links[i].relative);
    if parent.Some? {
      Associative(sofar, WantedByLinks(links[..i]), [parent.value]);
    } else {
      assert WantedByLinks(links[..i]) + [] == WantedByLinks(links[..i]);
    }
  }

  method AddLinks(base: Base, links: seq<RelativeLink>, directories: seq<string>, ghost sofar: seq<string>)
    returns (r: seq<string>)
    requires directories == Places(base, sofar)
    ensures r == Places(base, sofar + WantedByLinks(links))
  {
    r := directories;
    assert sofar + [] == sofar;
    for i := 0 to |links|
      invariant r == Places(base, sofar + WantedByLinks(links[..i]))
    {
      MoreLinks(sofar, links, i);
      var parent := ParentRelative(links[i].relative);
      if parent.Some? {
        AddPlace(base, sofar + WantedByLinks(links[..i]), parent.value);
        r := Insert(r, JoinDestination(base, parent.value));
      }
    }
    assert links[..|links|] == links;
  }

  lemma {:induction false} InsertKeepsOrder(x: string, ys: seq<string>)
    requires AreInOrder(ys) && forall y :: y in ys ==> Less(x, y)
    ensures AreInOrder(InsertByKey(x, ys, DepthOf))
    ensures forall y :: y in InsertByKey(x, ys, DepthOf) <==> y == x || y in ys
  {
    var r := InsertByKey(x, ys, DepthOf);
    if ys == [] || DepthOf(x) <= DepthOf(ys[0]) {
      forall j | 0 <= j < |ys| ensures IsBefore(x, ys[j]) {
        assert ys[j] in ys;
        if j > 0 {
          assert IsBefore(ys[0], ys[j]);
        }
      }
      assert r == [x] + ys;
    } else {
      var rest := InsertByKey(x, ys[1..], DepthOf);
      InsertKeepsOrder(x, ys[1..]);
      assert r == [ys[0]] + rest;
      forall j | 0 <= j < |rest| ensures IsBefore(ys[0], rest[j]) {
        assert rest[j] in rest;
        if rest[j] != x {
          assert rest[j] in ys[1..];
        }
      }
    }
  }

  /** Sorting places that are in order of their names by depth, stably. */
  lemma {:induction false} SortedByDepth(names: seq<string>)
    requires IsSorted(names)
    ensures AreInOrder(StableSort(names, DepthOf))
    ensures forall y :: y in StableSort(names, DepthOf) <==> y in names
  {
    if names == [] {
    } else {
      SortedByDepth(names[1..]);
      forall y | y in names[1..] ensures Less(names[0], y) {
        var i :| 0 <= i < |names[1..]| && names[1..][i] == y;
        assert Less(names[0], names[i + 1]);
      }
      InsertKeepsOrder(names[0], StableSort(names[1..], DepthOf));
    }
  }

  function FilesTo(base: Base, files: seq<RelativeFile>): (r: seq<PlannedFile>)
    ensures |r| == |files| && forall i :: 0 <= i < |r| ==> r[i] == FileTo(base, files[i])
  {
    if files == [] then [] else [FileTo(base, files[0])] + FilesTo(base, files[1..])
  }

  function LinksTo(base: Base, links: seq<RelativeLink>): (r: seq<PlannedSymlink>)
    ensures |r| == |links| && forall i :: 0 <= i < |r| ==> r[i] == LinkTo(base, links[i])
  {
    if links == [] then [] else [LinkTo(base, links[0])] + LinksTo(base, links[1..])
  }

  method CollectDirectories(base: Base, found: Found, prefix: string, mode: PlanMode) returns (r: seq<string>)
    ensures r == Places(base, Wanted(found, prefix, mode))
  {
    r := [];
    ghost var first: seq<string> := [];
    if mode == IncludeRoot && prefix != "" {
      AddPlace(base, [], prefix);
      assert [] + [prefix] == [prefix];
      r, first := Insert(r, JoinDestination(base, prefix)), [prefix];
    }
    r := AddDirs(base, found.dirs, r, first);
    r := AddFiles(base, found.files, r, first + WantedByDirs(found.dirs));
    r := AddLinks(base, found.links, r, first + WantedByDirs(found.dirs) + WantedByFiles(found.files));
  }

  lemma PlacesAreSorted(base: Base, wanted: seq<string>)
    ensures AreInOrder(StableSort(Places(base, wanted), DepthOf))
    ensures forall d :: d in StableSort(Places(base, wanted), DepthOf) <==> d in JoinAll(base, wanted)
    ensures StableSort(Places(base, wanted), DepthOf) == [] <==> wanted == []
  {
    var places := JoinAll(base, wanted);
    var sorted := StableSort(Places(base, wanted), DepthOf);
    InsertAllIsSorted([], places);
    SortedByDepth(Places(base, wanted));
    if wanted != [] {
      assert places[0] in sorted;
    }
  }

  method BuildPlan(base: Base, found: Found, prefix: string, mode: PlanMode) returns (r: Result<TransferPlan>)
    ensures r.Ok? <==> found.files != [] || found.links != [] || Wanted(found, prefix, mode) != []
    ensures r.Ok? ==> IsPlanFor(r.value, base, found, prefix, mode)
    ensures r.Err? ==> r.error == Failure(InvalidInput)
  {
    var directories := CollectDirectories(base, found, prefix, mode);
    PlacesAreSorted(base, Wanted(found, prefix, mode));
    directories := StableSort(directories, DepthOf);
    var plan := TransferPlan(directories, FilesTo(base, found.files), LinksTo(base, found.links));
    if plan.directories == [] && plan.files == [] && plan.symlinks == [] {
      return Err(Failure(InvalidInput));
    }
    r := Ok(plan);
  }

  /** The name of the root is what follows the last slash of its path, and only paths of slashes alone have none. */
  lemma RootIsNamed(path: string)
    ensures Paths.TrimSlashes(path) == "" ==> RemoteDirectoryName(path) == Err(Failure(InvalidInput))
    ensures Paths.TrimSlashes(path) != "" ==>
              && RemoteDirectoryName(path).Ok?
              && (var name := RemoteDirectoryName(path).value;
                  && name != "" && '/' !in name
                  && (Paths.TrimSlashes(path) == name
                      || exists parent :: Paths.TrimSlashes(path) == parent + "/" + name))
  {
    var trimmed := Paths.TrimSlashes(path);
    var parts := Text.Split('/', trimmed);
    Text.SplitHasNone('/', trimmed);
    Text.JoinOfSplit('/', trimmed);
    assert parts[|parts| - 1] in parts;
    if |parts| == 1 {
      assert parts == [trimmed];
    } else {
      var init, last := parts[..|parts| - 1], parts[|parts| - 1];
      assert parts == init + [last];
      Text.JoinOfConcat('/', init, [last]);
      assert trimmed == Text.Join('/', init) + "/" + last;
      TrimmedEndsOtherwise(path);
    }
  }

  lemma {:induction false} TrimmedEndsOtherwise(path: string)
    ensures Paths.TrimSlashes(path) != "" ==> Paths.TrimSlashes(path)[|Paths.TrimSlashes(path)| - 1] != '/'
  {
    if path != "" && path[|path| - 1] == '/' {
      TrimmedEndsOtherwise(path[..|path| - 1]);
    }
  }

  lemma SourceIsNamed(path: string, source: string)
    requires source == if Paths.TrimSlashes(path) == "" then "/" else Paths.TrimSlashes(path)
    ensures RemoteDirectoryName(source).Ok? <==> source != "/"
    ensures source == "/" ==> RemoteDirectoryName(source) == Err(Failure(InvalidInput))
  {
    RootIsNamed(source);
    TrimmedEndsOtherwise(path);
    if source == "/" {
      assert "/"[..0] == "" && Paths.TrimSlashes("/") == Paths.TrimSlashes("");
    }
  }

  /** The walk and the plan, once the source has turned out to be a directory with a name. */
  ghost predicate IsPlanOf(list: string -> Result<seq<FileEntry>>, source: string, prefix: string, base: Base,
                           mode: PlanMode, policy: SymlinkPolicy, r: Result<TransferPlan>) {
    var walked := Visit(Context(list, source, prefix, policy), source, Levels(0), Found([], [], []));
    if walked.Err? then r == Err(walked.error)
    else
      var found := walked.value;
      if found.files == [] && found.links == [] && Wanted(found, prefix, mode) == []
      then r == Err(Failure(InvalidInput))
      else r.Ok? && IsPlanFor(r.value, base, found, prefix, mode)
  }

  method PlanRemoteDirectory(list: string -> Result<seq<FileEntry>>, metadata: string -> Result<Option<EntryKind>>,
                             path: string, base: Base, mode: PlanMode, policy: SymlinkPolicy)
    returns (r: Result<TransferPlan>)
    ensures var source := if Paths.TrimSlashes(path) == "" then "/" else Paths.TrimSlashes(path);
            var kind := metadata(source);
            && (kind.Err? ==> r == Err(kind.error))
            && (kind == Ok(None) ==> r == Err(Failure(NotFound)))
            && (kind.Ok? && kind.value.Some? && (kind.value.value != Directory || source == "/") ==>
                  r == Err(Failure(InvalidInput)))
            && (kind == Ok(Some(Directory)) && source != "/" ==>
                  && RemoteDirectoryName(source).Ok?
                  && IsPlanOf(list, source, if mode == IncludeRoot then RemoteDirectoryName(source).value else "",
                               base, mode, policy, r))
  {
    var source := Paths.TrimSlashes(path);
    source := if source == "" then "/" else source;
    var meta := metadata(source);
    if meta.Err? {
      return Err(meta.error);
    }
    if meta.value.None? {
      return Err(Failure(NotFound));
    }
    if meta.value.value != Directory {
      return Err(Failure(InvalidInput));
    }
    SourceIsNamed(path, source);
    var rootName := RemoteDirectoryName(source);
    if rootName.Err? {
      return Err(rootName.error);
    }
    var prefix := if mode == IncludeRoot then rootName.value else "";
    var walked := WalkDirectory(Context(list, source, prefix, policy));
    if walked.Err? {
      return Err(walked.error);
    }
    r := BuildPlan(base, walked.value, prefix, mode);
  }

  // ---------------------------------------------------------------------------------------------
  // The directories of a plan, for any listing

  lemma {:induction false} WantedByDirsHas(dirs: seq<string>, dir: string)
    requires dir in dirs
    ensures dir in WantedByDirs(dirs) && forall a :: a in Ancestors(dir) ==> a in WantedByDirs(dirs)
  {
    if dir == dirs[|dirs| - 1] {
    } else {
      WantedByDirsHas(dirs[..|dirs| - 1], dir);
    }
  }

  lemma {:induction false} WantedByDirsFrom(dirs: seq<string>, place: string) returns (dir: string)
    requires place in WantedByDirs(dirs)
    ensures dir in dirs && (place == dir || place in Ancestors(dir))
  {
    if place in WantedByDirs(dirs[..|dirs| - 1]) {
      dir := WantedByDirsFrom(dirs[..|dirs| - 1], place);
    } else {
      dir := dirs[|dirs| - 1];
    }
  }

  lemma {:induction false} WantedByFilesHas(files: seq<RelativeFile>, file: RelativeFile)
    requires file in files
    ensures forall a :: a in Ancestors(file.relative) ==> a in WantedByFiles(files)
  {
    if file == files[|files| - 1] {
    } else {
      WantedByFilesHas(files[..|files| - 1], file);
    }
  }

  lemma {:induction false} WantedByFilesFrom(files: seq<RelativeFile>, place: string) returns (file: RelativeFile)
    requires place in WantedByFiles(files)
    ensures file in files && place in Ancestors(file.relative)
  {
    if place in WantedByFiles(files[..|files| - 1]) {
      file := WantedByFilesFrom(files[..|files| - 1], place);
    } else {
      file := files[|files| - 1];
    }
  }

  lemma {:induction false} WantedByLinksHas(links: seq<RelativeLink>, link: RelativeLink)
    requires link in links && ParentRelative(link.relative).Some?
    ensures ParentRelative(link.relative).value in WantedByLinks(links)
  {
    if link == links[|links| - 1] {
    } else {
      WantedByLinksHas(links[..|links| - 1], link);
    }
  }

  lemma {:induction false} WantedByLinksFrom(links: seq<RelativeLink>, place: string) returns (link: RelativeLink)
    requires place in WantedByLinks(links)
    ensures link in links && ParentRelative(link.relative) == Some(place)
  {
    if place in WantedByLinks(links[..|links| - 1]) {
      link := WantedByLinksFrom(links[..|links| - 1], place);
    } else {
      link := links[|links| - 1];
    }
  }

  lemma InDirectories(plan: TransferPlan, base: Base, found: Found, prefix: string, mode: PlanMode, place: string)
    requires IsPlanFor(plan, base, found, prefix, mode) && place in Wanted(found, prefix, mode)
    ensures JoinDestination(base, place) in plan.directories
  {
    var wanted := Wanted(found, prefix, mode);
    var i :| 0 <= i < |wanted| && wanted[i] == place;
    assert JoinAll(base, wanted)[i] == JoinDestination(base, place);
  }

  lemma FromDirectories(plan: TransferPlan, base: Base, found: Found, prefix: string, mode: PlanMode, j: nat)
    returns (place: string)
    requires IsPlanFor(plan, base, found, prefix, mode) && j < |plan.directories|
    ensures place in Wanted(found, prefix, mode) && plan.directories[j] == JoinDestination(base, place)
  {
    var wanted := Wanted(found, prefix, mode);
    assert plan.directories[j] in plan.directories;
    var i :| 0 <= i < |wanted| && JoinAll(base, wanted)[i] == plan.directories[j];
    place := wanted[i];
  }

  lemma ComesFirst(directories: seq<string>, i: nat, j: nat)
    requires AreInOrder(directories) && i < |directories| && j < |directories|
    requires Separators(directories[i]) < Separators(directories[j])
    ensures i < j
  {
  }

  /** No directory is listed twice. */
  lemma DirectoriesAreDistinct(directories: seq<string>)
    requires AreInOrder(directories)
    ensures Distinct(directories)
  {
    forall i, j | 0 <= i < j < |directories| ensures directories[i] != directories[j] {
      assert IsBefore(directories[i], directories[j]);
      LessIrreflexive(directories[i]);
    }
  }

  predicate IsPlanned(plan: TransferPlan, base: Base, place: string) {
    JoinDestination(base, place) in plan.directories
  }

  /** Everything above a place is planned. */
  ghost predicate IsClosed(plan: TransferPlan, base: Base, place: string) {
    forall a :: a in Ancestors(place) ==> IsPlanned(plan, base, a)
  }

  /** Whatever the listings say and whatever the names are: a plan has every directory that was found, and everything
      above the directories and the files. */
  lemma FilesAndDirectoriesAreClosed(plan: TransferPlan, base: Base, found: Found, prefix: string, mode: PlanMode)
    requires IsPlanFor(plan, base, found, prefix, mode)
    ensures forall d :: d in found.dirs ==> IsPlanned(plan, base, d) && IsClosed(plan, base, d)
    ensures forall f :: f in found.files ==> IsClosed(plan, base, f.relative)
  {
    forall d | d in found.dirs ensures IsPlanned(plan, base, d) && IsClosed(plan, base, d) {
      WantedByDirsHas(found.dirs, d);
      InDirectories(plan, base, found, prefix, mode, d);
      forall a | a in Ancestors(d) ensures IsPlanned(plan, base, a) {
        InDirectories(plan, base, found, prefix, mode, a);
      }
    }
    forall f | f in found.files ensures IsClosed(plan, base, f.relative) {
      WantedByFilesHas(found.files, f);
      forall a | a in Ancestors(f.relative) ensures IsPlanned(plan, base, a) {
        InDirectories(plan, base, found, prefix, mode, a);
      }
    }
  }

  // ---------------------------------------------------------------------------------------------
  // Links, of which only the immediate parent is inserted

  function LinksWithout(links: seq<RelativeLink>, link: RelativeLink): seq<RelativeLink> {
    if links == [] then []
    else if links[0] == link then LinksWithout(links[1..], link)
    else [links[0]] + LinksWithout(links[1..], link)
  }

  lemma {:induction false} LinksWithoutHas(links: seq<RelativeLink>, link: RelativeLink)
    ensures forall l :: l in LinksWithout(links, link) <==> l in links && l != link
  {
    if links == [] {
    } else {
      LinksWithoutHas(links[1..], link);
    }
  }

  /** What was found besides a link. */
  function Besides(found: Found, link: RelativeLink): Found {
    found.(links := LinksWithout(found.links, link))
  }

  /** A place that would be planned without the link. */
  predicate IsPlannedBesides(base: Base, found: Found, prefix: string, mode: PlanMode, link: RelativeLink,
                             place: string) {
    JoinDestination(base, place) in JoinAll(base, Wanted(Besides(found, link), prefix, mode))
  }

  lemma WantedParts(found: Found, prefix: string, mode: PlanMode, place: string)
    ensures place in Wanted(found, prefix, mode) <==>
              || (mode == IncludeRoot && prefix != "" && place == prefix)
              || place in WantedByDirs(found.dirs) || place in WantedByFiles(found.files)
                  || place in WantedByLinks(found.links)
  {
  }

  /** All that a link adds to what is wanted is its own directory. */
  lemma WantedBesides(found: Found, prefix: string, mode: PlanMode, link: RelativeLink, place: string)
    requires link in found.links
    ensures place in Wanted(found, prefix, mode) <==>
              place in Wanted(Besides(found, link), prefix, mode) || ParentRelative(link.relative) == Some(place)
  {
    WantedParts(found, prefix, mode, place);
    WantedParts(Besides(found, link), prefix, mode, place);
    LinksWithoutHas(found.links, link);
    if ParentRelative(link.relative) == Some(place) {
      WantedByLinksHas(found.links, link);
    }
    if place in WantedByLinks(found.links) {
      var l := WantedByLinksFrom(found.links, place);
      if l != link {
        WantedByLinksHas(LinksWithout(found.links, link), l);
      }
    }
    if place in WantedByLinks(LinksWithout(found.links, link)) {
      var l := WantedByLinksFrom(LinksWithout(found.links, link), place);
      WantedByLinksHas(found.links, l);
    }
  }

  lemma JoinedFrom(base: Base, wanted: seq<string>, directory: string) returns (place: string)
    requires directory in JoinAll(base, wanted)
    ensures place in wanted && JoinDestination(base, place) == directory
  {
    var i :| 0 <= i < |wanted| && JoinAll(base, wanted)[i] == directory;
    place := wanted[i];
  }

  lemma JoinedHas(base: Base, wanted: seq<string>, place: string)
    requires place in wanted
    ensures JoinDestination(base, place) in JoinAll(base, wanted)
  {
    var i :| 0 <= i < |wanted| && wanted[i] == place;
    assert JoinAll(base, wanted)[i] == JoinDestination(base, place);
  }

  /** A place that has the destination of the directory that a link is in. */
  predicate SharesDirectory(base: Base, link: RelativeLink, place: string) {
    var parent := ParentRelative(link.relative);
    parent.Some? && JoinDestination(base, place) == JoinDestination(base, parent.value)
  }

  lemma PlannedBesides(base: Base, found: Found, prefix: string, mode: PlanMode, link: RelativeLink, place: string)
    requires link in found.links
    ensures JoinDestination(base, place) in JoinAll(base, Wanted(found, prefix, mode))
            <==> SharesDirectory(base, link, place) || IsPlannedBesides(base, found, prefix, mode, link, place)
  {
    var all, others := Wanted(found, prefix, mode), Wanted(Besides(found, link), prefix, mode);
    if JoinDestination(base, place) in JoinAll(base, all) {
      var w := JoinedFrom(base, all, JoinDestination(base, place));
      WantedBesides(found, prefix, mode, link, w);
      if w in others {
        JoinedHas(base, others, w);
      }
    }
    if JoinDestination(base, place) in JoinAll(base, others) {
      var w := JoinedFrom(base, others, JoinDestination(base, place));
      WantedBesides(found, prefix, mode, link, w);
      JoinedHas(base, all, w);
    }
    if SharesDirectory(base, link, place) {
      WantedBesides(found, prefix, mode, link, ParentRelative(link.relative).value);
      JoinedHas(base, all, ParentRelative(link.relative).value);
    }
  }

  /** Everything above a link is planned exactly when all of it is planned because of something else, but for the
      nearest directory and what has the same destination. Below a server's path that is the nearest one alone. */
  lemma LinkIsClosedWhen(plan: TransferPlan, base: Base, found: Found, prefix: string, mode: PlanMode,
                         link: RelativeLink)
    requires IsPlanFor(plan, base, found, prefix, mode) && link in found.links
    ensures IsClosed(plan, base, link.relative) <==>
              forall a :: a in Ancestors(link.relative) ==>
                SharesDirectory(base, link, a) || IsPlannedBesides(base, found, prefix, mode, link, a)
    ensures base.Remote? ==>
              (IsClosed(plan, base, link.relative) <==>
               forall i :: 1 <= i < |Ancestors(link.relative)| ==>
                 IsPlannedBesides(base, found, prefix, mode, link, Ancestors(link.relative)[i]))
  {
    var above := Ancestors(link.relative);
    forall a | a in above
      ensures IsPlanned(plan, base, a)
              <==> SharesDirectory(base, link, a) || IsPlannedBesides(base, found, prefix, mode, link, a)
    {
      PlannedBesides(base, found, prefix, mode, link, a);
    }
    if base.Remote? {
      forall i | 0 <= i < |above| ensures SharesDirectory(base, link, above[i]) <==> i == 0 {
        OnlyNearestIsShared(base, link, i);
      }
      ByIndex(base, found, prefix, mode, link, above);
    }
  }

  lemma OnlyNearestIsShared(base: Base, link: RelativeLink, i: nat)
    requires base.Remote? && i < |Ancestors(link.relative)|
    ensures SharesDirectory(base, link, Ancestors(link.relative)[i]) <==> i == 0
  {
    var above := Ancestors(link.relative);
    AncestorsShrink(link.relative);
    assert above[0] == ParentRelative(link.relative).value;
    DestinationsDiffer(base, above[i], above[0]);
    RemotePartsDiffer(above[i], above[0]);
  }

  lemma ByIndex(base: Base, found: Found, prefix: string, mode: PlanMode, link: RelativeLink, above: seq<string>)
    requires forall i :: 0 <= i < |above| ==> (SharesDirectory(base, link, above[i]) <==> i == 0)
    ensures (forall a :: a in above ==>
             SharesDirectory(base, link, a) || IsPlannedBesides(base, found, prefix, mode, link, a))
            <==> forall i :: 1 <= i < |above| ==> IsPlannedBesides(base, found, prefix, mode, link, above[i])
  {
    if forall i :: 1 <= i < |above| ==> IsPlannedBesides(base, found, prefix, mode, link, above[i]) {
      forall a | a in above
          ensures SharesDirectory(base, link, a) || IsPlannedBesides(base, found, prefix, mode, link, a) {
        var i :| 0 <= i < |above| && above[i] == a;
        assert i > 0 ==> IsPlannedBesides(base, found, prefix, mode, link, above[i]);
      }
    }
    assert forall i :: 0 <= i < |above| ==> above[i] in above;
  }

  // ---------------------------------------------------------------------------------------------
  // Parents come first

  /** A directory never comes before the one that it is in. */
  lemma ParentPrecedes(directories: seq<string>, base: Base, place: string, i: nat, j: nat)
    requires AreInOrder(directories) && i < |directories| && j < |directories|
    requires DirectoryOf(base, place).Some? && !IsBase(base, DirectoryOf(base, place).value)
    requires directories[j] == JoinDestination(base, place)
    requires directories[i] == JoinDestination(base, DirectoryOf(base, place).value)
    ensures i < j
  {
    DirectoryHasFewer(base, place);
    ComesFirst(directories, i, j);
  }

  lemma {:induction false} AncestorsInTurn(relative: string, a: string, b: string)
    requires a in Ancestors(relative) && b in Ancestors(a)
    ensures b in Ancestors(relative)
    decreases |relative|
  {
    var parent := ParentRelative(relative).value;
    if a == parent {
    } else {
      AncestorsInTurn(parent, a, b);
    }
  }

  /** The directory that a place is in is listed before the place, unless it is the base itself. */
  ghost predicate ParentComesFirst(plan: TransferPlan, base: Base, place: string) {
    var directory := DirectoryOf(base, place);
    directory.Some? && !IsBase(base, directory.value) ==>
      exists i, j :: 0 <= i < j < |plan.directories|
        && plan.directories[i] == JoinDestination(base, directory.value)
        && plan.directories[j] == JoinDestination(base, place)
  }

  lemma PlannedParentComesFirst(plan: TransferPlan, base: Base, place: string)
    requires AreInOrder(plan.directories) && IsPlanned(plan, base, place)
    requires var directory := DirectoryOf(base, place);
             directory.Some? && !IsBase(base, directory.value) ==> IsPlanned(plan, base, directory.value)
    ensures ParentComesFirst(plan, base, place)
  {
    var directory := DirectoryOf(base, place);
    if directory.Some? && !IsBase(base, directory.value) {
      var i :| 0 <= i < |plan.directories| && plan.directories[i] == JoinDestination(base, directory.value);
      var j :| 0 <= j < |plan.directories| && plan.directories[j] == JoinDestination(base, place);
      ParentPrecedes(plan.directories, base, place, i, j);
    }
  }

  /** Everything above a place and below the base is planned. */
  ghost predicate IsReached(plan: TransferPlan, base: Base, place: string) {
    forall a :: a in Ancestors(place) ==> IsBase(base, a) || IsPlanned(plan, base, a)
  }

  /** Below a server's path there is nothing above a place but what is below the base. */
  lemma RemoteIsReached(plan: TransferPlan, base: Base, place: string)
    requires base.Remote?
    ensures IsReached(plan, base, place) <==> IsClosed(plan, base, place)
  {
    forall a | a in Ancestors(place) ensures !IsBase(base, a) {
      RemoteDirectory(base, a);
    }
  }

  /** The root's own name needs nothing above it. */
  ghost predicate TopIsReached(plan: TransferPlan, base: Base, prefix: string, mode: PlanMode) {
    mode == IncludeRoot && prefix != "" ==> IsReached(plan, base, prefix)
  }

  ghost predicate LinksAreReached(plan: TransferPlan, base: Base, links: seq<RelativeLink>) {
    forall l :: l in links ==> IsReached(plan, base, l.relative)
  }

  ghost predicate AllParentsFirst(plan: TransferPlan, base: Base, wanted: seq<string>) {
    forall w :: w in wanted ==> ParentComesFirst(plan, base, w)
  }

  lemma WantedIsReached(plan: TransferPlan, base: Base, found: Found, prefix: string, mode: PlanMode, place: string,
                        a: string)
    requires IsPlanFor(plan, base, found, prefix, mode) && place in Wanted(found, prefix, mode) && a in Ancestors(place)
    requires TopIsReached(plan, base, prefix, mode) && LinksAreReached(plan, base, found.links)
    ensures IsBase(base, a) || IsPlanned(plan, base, a)
  {
    FilesAndDirectoriesAreClosed(plan, base, found, prefix, mode);
    WantedParts(found, prefix, mode, place);
    if place in WantedByDirs(found.dirs) {
      var d := WantedByDirsFrom(found.dirs, place);
      if place != d {
        AncestorsInTurn(d, place, a);
      }
    } else if place in WantedByFiles(found.files) {
      var f := WantedByFilesFrom(found.files, place);
      AncestorsInTurn(f.relative, place, a);
    } else if place in WantedByLinks(found.links) {
      var l := WantedByLinksFrom(found.links, place);
      assert place == Ancestors(l.relative)[0];
      AncestorsInTurn(l.relative, place, a);
    }
  }

  lemma WantedParentFirst(plan: TransferPlan, base: Base, found: Found, prefix: string, mode: PlanMode, place: string)
    requires IsPlanFor(plan, base, found, prefix, mode) && place in Wanted(found, prefix, mode)
    requires TopIsReached(plan, base, prefix, mode) && LinksAreReached(plan, base, found.links)
    ensures ParentComesFirst(plan, base, place)
  {
    InDirectories(plan, base, found, prefix, mode, place);
    var directory := DirectoryOf(base, place);
    if directory.Some? {
      DirectoryIsAbove(base, place);
      WantedIsReached(plan, base, found, prefix, mode, place, directory.value);
    }
    PlannedParentComesFirst(plan, base, place);
  }

  /** What is above a planned place, and has another destination, is planned. */
  lemma ParentByParents(plan: TransferPlan, base: Base, wanted: seq<string>, place: string)
    requires forall d :: d in plan.directories <==> d in JoinAll(base, wanted)
    requires AllParentsFirst(plan, base, wanted) && place != "" && !IsBase(base, place) && IsPlanned(plan, base, place)
    requires DirectoryOf(base, place).Some? && !IsBase(base, DirectoryOf(base, place).value)
    ensures IsPlanned(plan, base, DirectoryOf(base, place).value)
  {
    var w := JoinedFrom(base, wanted, JoinDestination(base, place));
    NotTheBase(base, place);
    DirectoryOfSame(base, place, w);
    assert ParentComesFirst(plan, base, w);
  }

  lemma {:induction false} ReachedByParents(plan: TransferPlan, base: Base, wanted: seq<string>, place: string)
    requires forall d :: d in plan.directories <==> d in JoinAll(base, wanted)
    requires AllParentsFirst(plan, base, wanted) && place != "" && (IsBase(base, place) || IsPlanned(plan, base, place))
    ensures IsReached(plan, base, place)
    decreases |place|
  {
    var parent := ParentRelative(place);
    if parent.Some? {
      ParentHasTheSameOrIsDirectory(base, place);
      if IsBase(base, parent.value) {
      } else if JoinDestination(base, parent.value) != JoinDestination(base, place) {
        ParentByParents(plan, base, wanted, place);
      }
      ReachedByParents(plan, base, wanted, parent.value);
    }
  }

  lemma ParentHasTheSameOrIsDirectory(base: Base, place: string)
    requires ParentRelative(place).Some?
    ensures var parent := ParentRelative(place).value;
            && (IsBase(base, place) ==> IsBase(base, parent))
            && (JoinDestination(base, parent) == JoinDestination(base, place) ==>
                (IsBase(base, place) <==> IsBase(base, parent)))
            && (JoinDestination(base, parent) != JoinDestination(base, place) ==>
                DirectoryOf(base, place) == Some(parent))
  {
    PartsOfParent(base, place);
    DestinationsDiffer(base, ParentRelative(place).value, place);
  }

  /** In the list of directories every one comes after the one that it is in, exactly when everything above the links,
      and above the root's own name, is planned or is the base. */
  lemma ParentsComeFirstWhen(plan: TransferPlan, base: Base, found: Found, prefix: string, mode: PlanMode)
    requires IsPlanFor(plan, base, found, prefix, mode)
    ensures AllParentsFirst(plan, base, Wanted(found, prefix, mode)) <==>
              TopIsReached(plan, base, prefix, mode) && LinksAreReached(plan, base, found.links)
  {
    var wanted := Wanted(found, prefix, mode);
    if TopIsReached(plan, base, prefix, mode) && LinksAreReached(plan, base, found.links) {
      forall w | w in wanted ensures ParentComesFirst(plan, base, w) {
        WantedParentFirst(plan, base, found, prefix, mode, w);
      }
    }
    if AllParentsFirst(plan, base, wanted) {
      if mode == IncludeRoot && prefix != "" {
        WantedParts(found, prefix, mode, prefix);
        InDirectories(plan, base, found, prefix, mode, prefix);
        ReachedByParents(plan, base, wanted, prefix);
      }
      forall l | l in found.links ensures IsReached(plan, base, l.relative) {
        LinkReachedByParents(plan, base, found, prefix, mode, l);
      }
    }
  }

  /** Told by positions in the list. */
  lemma ParentIsListedBefore(plan: TransferPlan, base: Base, found: Found, prefix: string, mode: PlanMode, j: nat)
    returns (place: string, i: nat)
    requires IsPlanFor(plan, base, found, prefix, mode) && j < |plan.directories|
    requires AllParentsFirst(plan, base, Wanted(found, prefix, mode))
    ensures place in Wanted(found, prefix, mode) && plan.directories[j] == JoinDestination(base, place)
    ensures var directory := DirectoryOf(base, place);
            directory.Some? && !IsBase(base, directory.value) ==>
              i < j && plan.directories[i] == JoinDestination(base, directory.value)
  {
    place := FromDirectories(plan, base, found, prefix, mode, j);
    i := j;
    assert ParentComesFirst(plan, base, place);
    var directory := DirectoryOf(base, place);
    if directory.Some? && !IsBase(base, directory.value) {
      DirectoriesAreDistinct(plan.directories);
      var above, own :| 0 <= above < own < |plan.directories|
        && plan.directories[above] == JoinDestination(base, directory.value)
        && plan.directories[own] == JoinDestination(base, place);
      i := above;
    }
  }

  lemma LinkReachedByParents(plan: TransferPlan, base: Base, found: Found, prefix: string, mode: PlanMode,
                             link: RelativeLink)
    requires IsPlanFor(plan, base, found, prefix, mode) && link in found.links
    requires AllParentsFirst(plan, base, Wanted(found, prefix, mode))
    ensures IsReached(plan, base, link.relative)
  {
    var parent := ParentRelative(link.relative);
    if parent.Some? {
      WantedBesides(found, prefix, mode, link, parent.value);
      InDirectories(plan, base, found, prefix, mode, parent.value);
      ReachedByParents(plan, base, Wanted(found, prefix, mode), parent.value);
    }
  }
}
