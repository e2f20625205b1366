/** Searching a remote tree by name: a walk over a queue of directories, capped in depth, in directories and in
    matches, that reports its matches in batches. Its reference is the tree of directories defined by recursion. */
module Search {
  import opened Prelude
  import Paths

  const MAX_SEARCH_DEPTH: nat := 32
  const MAX_SEARCH_MATCHES: nat := 500
  const MAX_SEARCH_VISITED: nat := 1500
  const PROGRESS_BATCH: nat := 40

  const SKIP_DIRECTORIES: set<string> := {
    ".git", ".hg", ".svn", ".jj", "node_modules", "target", "dist", "build", "out", ".next", ".nuxt", ".output",
    ".turbo", ".cache", ".venv", "venv", "__pycache__", ".pytest_cache", ".mypy_cache", ".idea", ".vscode",
    "pods", "carthage", "vendor"
  }

  datatype Match = Match(path: string, name: string, kind: EntryKind, parentPath: string)

  datatype Progress = Progress(matches: seq<Match>, visited: nat, truncated: bool, done: bool, cancelled: bool)

  /** What a search runs on: the listings, which stay as they are, the lower-casing of names, the query in lower case,
      and whether an unreadable directory ends the search, as it does locally. */
  datatype Site = Site(list: string -> Result<seq<FileEntry>>, lower: string -> string, query: string, strict: bool)

  function AsciiLower(name: string): (r: string)
    ensures |r| == |name|
    ensures forall i :: 0 <= i < |name| ==> r[i] == if 'A' <= name[i] <= 'Z' then name[i] - 'A' + 'a' else name[i]
  {
    if name == "" then ""
    else [if 'A' <= name[0] <= 'Z' then name[0] - 'A' + 'a' else name[0]] + AsciiLower(name[1..])
  }

  predicate ShouldSkipDirectory(name: string) {
    AsciiLower(name) in SKIP_DIRECTORIES
  }

  predicate Contains(text: string, part: string) {
    part <= text || (text != "" && Contains(text[1..], part))
  }

  predicate NameMatches(site: Site, name: string) {
    site.query != "" && Contains(site.lower(name), site.query)
  }

  function RemoteParentPath(path: string): string {
    var parent := Paths.BeforeLastSlash(Paths.TrimSlashes(path));
    if parent.None? || parent.value == "" then "/" else parent.value
  }

  function ToMatch(entry: FileEntry): Match {
    Match(entry.path, entry.name, entry.kind, RemoteParentPath(entry.path))
  }

  predicate IsHit(site: Site, entry: FileEntry) {
    (entry.kind == File || entry.kind == Directory) && NameMatches(site, entry.name)
  }

  predicate IsSearched(entry: FileEntry) {
    entry.kind == Directory && !ShouldSkipDirectory(entry.name)
  }

  /** The matches among the entries of one directory, in order. */
  function Hits(site: Site, entries: seq<FileEntry>): seq<Match> {
    if entries == [] then []
    else
      var init, last := entries[..|entries| - 1], entries[|entries| - 1];
      Hits(site, init) + (if IsHit(site, last) then [ToMatch(last)] else [])
  }

  /** The directories to go on with among the entries of one directory, all of them or those of which the names
      match or do not. */
  function Below(site: Site, entries: seq<FileEntry>, matching: Option<bool>): seq<string> {
    if entries == [] then []
    else Below(site, entries[..|entries| - 1], matching) + Onward(site, entries[|entries| - 1], matching)
  }

  function Onward(site: Site, entry: FileEntry, matching: Option<bool>): seq<string> {
    if IsSearched(entry) && (matching.Some? ==> matching.value == NameMatches(site, entry.name)) then [entry.path]
        else []
  }

  // ---------------------------------------------------------------------------------------------
  // The tree

  /** What there is in a tree or in several: its matches, how many directories, and whether none of them is too
      deep or, in a strict search, unreadable. */
  datatype Tally = Tally(hits: multiset<Match>, dirs: nat, fits: bool)

  function Nothing(): Tally {
    Tally(multiset{}, 0, true)
  }

  function Add(a: Tally, b: Tally): Tally {
    Tally(a.hits + b.hits, a.dirs + b.dirs, a.fits && b.fits)
  }

  /** The tree of a directory, as far as levels go. An unreadable directory has no entries. */
  function TreeTally(site: Site, path: string, levels: nat): Tally
    decreases levels, 0
  {
    if levels == 0 then Tally(multiset{}, 0, false)
    else if site.list(path).Err? then Tally(multiset{}, 1, !site.strict)
    else
      var entries := site.list(path).value;
      Add(Tally(multiset(Hits(site, entries)), 1, true), ForestTally(site, Below(site, entries, None), levels - 1))
  }

  function ForestTally(site: Site, paths: seq<string>, levels: nat): Tally
    decreases levels, |paths| + 1
  {
    if paths == [] then Nothing()
    else Add(ForestTally(site, paths[..|paths| - 1], levels), TreeTally(site, paths[|paths| - 1], levels))
  }

  /** The tree that a search goes through: the root and 32 levels below it. */
  function Tree(site: Site, root: string): Tally {
    TreeTally(site, root, Levels(0))
  }

  function Levels(depth: nat): nat {
    if depth <= MAX_SEARCH_DEPTH then MAX_SEARCH_DEPTH + 1 - depth else 0
  }

  function QueueTally(site: Site, queue: seq<Stop>): Tally {
    if queue == [] then Nothing()
    else Add(TreeTally(site, queue[0].path, Levels(queue[0].depth)), QueueTally(site, queue[1..]))
  }

  lemma AddIsAssociative(a: Tally, b: Tally, c: Tally)
    ensures Add(Add(a, b), c) == Add(a, Add(b, c))
  {
  }

  lemma {:induction false} QueueTallyInTurn(site: Site, a: seq<Stop>, b: seq<Stop>)
    ensures QueueTally(site, a + b) == Add(QueueTally(site, a), QueueTally(site, b))
  {
    if a == [] {
      assert a + b == b;
      assert Add(Nothing(), QueueTally(site, b)) == QueueTally(site, b);
    } else {
      assert (a + b)[1..] == a[1..] + b;
      QueueTallyInTurn(site, a[1..], b);
      AddIsAssociative(TreeTally(site, a[0].path, Levels(a[0].depth)), QueueTally(site, a[1..]), QueueTally(site, b));
    }
  }

  lemma {:induction false} StopsTally(site: Site, paths: seq<string>, depth: nat)
    ensures QueueTally(site, Stops(paths, depth)) == ForestTally(site, paths, Levels(depth))
  {
    if paths == [] {
    } else {
      var init, last := paths[..|paths| - 1], paths[|paths| - 1];
      StopsTally(site, init, depth);
      QueueTallyInTurn(site, Stops(init, depth), [Stop(last, depth)]);
      assert [Stop(last, depth)][1..] == [];
      assert Add(TreeTally(site, last, Levels(depth)), Nothing()) == TreeTally(site, last, Levels(depth));
    }
  }

  /** Nothing is lost by taking the directories with matching names apart. */
  lemma {:induction false} BelowIsSplit(site: Site, entries: seq<FileEntry>, levels: nat)
    ensures ForestTally(site, Below(site, entries, None), levels)
         == Add(ForestTally(site, Below(site, entries, Some(true)), levels),
                ForestTally(site, Below(site, entries, Some(false)), levels))
  {
    if entries == [] {
    } else {
      var init, last := entries[..|entries| - 1], entries[|entries| - 1];
      var some, others := Below(site, init, Some(true)), Below(site, init, Some(false));
      var t := TreeTally(site, last.path, levels);
      BelowIsSplit(site, init, levels);
      if !IsSearched(last) {
        assert Below(site, entries, None) == Below(site, init, None);
        assert Below(site, entries, Some(true)) == some && Below(site, entries, Some(false)) == others;
      } else {
        ForestOfOneMore(site, Below(site, init, None), last.path, levels);
        if NameMatches(site, last.name) {
          assert Below(site, entries, Some(true)) == some + [last.path] && Below(site, entries, Some(false)) == others;
          ForestOfOneMore(site, some, last.path, levels);
          AddCanSwap(ForestTally(site, some, levels), ForestTally(site, others, levels), t);
        } else {
          assert Below(site, entries, Some(true)) == some && Below(site, entries, Some(false)) == others + [last.path];
          ForestOfOneMore(site, others, last.path, levels);
          AddIsAssociative(ForestTally(site, some, levels), ForestTally(site, others, levels), t);
        }
      }
    }
  }

  lemma AddCanSwap(a: Tally, b: Tally, c: Tally)
    ensures Add(Add(a, b), c) == Add(Add(a, c), b)
  {
  }

  lemma ForestOfOneMore(site: Site, paths: seq<string>, path: string, levels: nat)
    ensures ForestTally(site, paths + [path], levels)
            == Add(ForestTally(site, paths, levels), TreeTally(site, path, levels))
  {
    assert (paths + [path])[..|paths|] == paths;
  }

  /** What a search is for, told of the entry: a file or a directory, in the name of which the query occurs. */
  ghost predicate IsWanted(site: Site, entry: FileEntry) {
    && (entry.kind == File || entry.kind == Directory)
    && site.query != ""
    && exists before: string, after: string :: site.lower(entry.name) == before + site.query + after
  }

  /** A directory that a search goes on with: its name, in lower case, is none of those listed. */
  predicate IsOpen(entry: FileEntry) {
    entry.kind == Directory && AsciiLower(entry.name) !in SKIP_DIRECTORIES
  }

  ghost predicate GoesOnWith(site: Site, path: string, next: string) {
    site.list(path).Ok? && exists entry :: entry in site.list(path).value && IsOpen(entry) && entry.path == next
  }

  /** A chain of searched directories that leads from one directory to another. */
  ghost predicate Leads(site: Site, path: string, chain: seq<string>, last: string)
    decreases chain
  {
    if chain == [] then last == path else GoesOnWith(site, path, chain[0]) && Leads(site, chain[0], chain[1..], last)
  }

  ghost predicate IsFoundIn(site: Site, path: string, m: Match) {
    && site.list(path).Ok?
    && exists entry :: entry in site.list(path).value && IsWanted(site, entry)
                       && m == Match(entry.path, entry.name, entry.kind, RemoteParentPath(entry.path))
  }

  ghost predicate IsFoundBelow(site: Site, path: string, m: Match) {
    exists chain, last :: Leads(site, path, chain, last) && IsFoundIn(site, last, m)
  }

  lemma {:induction false} ContainsWhen(text: string, part: string)
    ensures Contains(text, part) <==> exists before: string, after: string :: text == before + part + after
  {
    if part <= text {
      assert text == "" + part + text[|part|..];
    } else if text != "" {
      ContainsWhen(text[1..], part);
      if Contains(text[1..], part) {
        var before: string, after: string :| text[1..] == before + part + after;
        assert text == ([text[0]] + before) + part + after;
      }
      if before: string, after: string :| text == before + part + after {
        assert before == "" ==> text == part + after;
        assert text[1..] == before[1..] + part + after;
      }
    }
  }

  lemma HitWhen(site: Site, entry: FileEntry)
    ensures IsHit(site, entry) <==> IsWanted(site, entry)
  {
    ContainsWhen(site.lower(entry.name), site.query);
  }

  lemma {:induction false} HitsWhen(site: Site, entries: seq<FileEntry>, m: Match)
    ensures m in Hits(site, entries) <==>
              exists entry :: entry in entries && IsWanted(site, entry)
                && m == Match(entry.path, entry.name, entry.kind, RemoteParentPath(entry.path))
  {
    if entries == [] {
    } else {
      var init, last := entries[..|entries| - 1], entries[|entries| - 1];
      HitsWhen(site, init, m);
      HitWhen(site, last);
      assert entries == init + [last];
    }
  }

  lemma {:induction false} BelowWhen(site: Site, entries: seq<FileEntry>, next: string)
    ensures next in Below(site, entries, None)
            <==> exists entry :: entry in entries && IsOpen(entry) && entry.path == next
  {
    if entries == [] {
    } else {
      var init, last := entries[..|entries| - 1], entries[|entries| - 1];
      BelowWhen(site, init, next);
      assert entries == init + [last];
    }
  }

  lemma {:induction false} ForestContains(site: Site, paths: seq<string>, levels: nat, path: string, m: Match)
    requires path in paths
    ensures m in TreeTally(site, path, levels).hits ==> m in ForestTally(site, paths, levels).hits
    ensures ForestTally(site, paths, levels).fits ==> TreeTally(site, path, levels).fits
  {
    if path in paths[..|paths| - 1] {
      ForestContains(site, paths[..|paths| - 1], levels, path, m);
    }
  }

  lemma {:induction false} ForestHas(site: Site, paths: seq<string>, levels: nat, m: Match) returns (path: string)
    requires m in ForestTally(site, paths, levels).hits
    ensures path in paths && m in TreeTally(site, path, levels).hits
  {
    var init, last := paths[..|paths| - 1], paths[|paths| - 1];
    if m in TreeTally(site, last, levels).hits {
      path := last;
    } else {
      path := ForestHas(site, init, levels, m);
    }
  }

  predicate IsHitIn(site: Site, path: string, levels: nat, m: Match) {
    m in TreeTally(site, path, levels).hits
  }

  /** A match of a tree is one of its root's own or one of a directory to go on with. */
  lemma OwnOrBelow(site: Site, path: string, levels: nat, m: Match) returns (next: Option<string>)
    requires IsHitIn(site, path, levels, m)
    ensures levels > 0 && (next.None? ==> IsFoundIn(site, path, m))
    ensures next.Some? ==> GoesOnWith(site, path, next.value) && IsHitIn(site, next.value, levels - 1, m)
  {
    var entries := site.list(path).value;
    if m in Hits(site, entries) {
      HitsWhen(site, entries, m);
      next := None;
    } else {
      var n := ForestHas(site, Below(site, entries, None), levels - 1, m);
      BelowWhen(site, entries, n);
      next := Some(n);
    }
  }

  lemma OneStepFurther(site: Site, path: string, next: string, chain: seq<string>, last: string)
    requires GoesOnWith(site, path, next) && Leads(site, next, chain, last)
    ensures Leads(site, path, [next] + chain, last)
  {
    assert ([next] + chain)[1..] == chain;
  }

  lemma {:induction false} HitComesFrom(site: Site, path: string, levels: nat, m: Match)
    returns (chain: seq<string>, last: string)
    requires IsHitIn(site, path, levels, m)
    ensures Leads(site, path, chain, last) && IsFoundIn(site, last, m)
    decreases levels
  {
    var next := OwnOrBelow(site, path, levels, m);
    if next.None? {
      chain, last := [], path;
    } else {
      var rest;
      rest, last := HitComesFrom(site, next.value, levels - 1, m);
      OneStepFurther(site, path, next.value, rest, last);
      chain := [next.value] + rest;
    }
  }

  lemma {:induction false} ReachedIsHit(site: Site, path: string, levels: nat, chain: seq<string>, last: string,
                                        m: Match)
    requires TreeTally(site, path, levels).fits
    requires Leads(site, path, chain, last) && IsFoundIn(site, last, m)
    ensures m in TreeTally(site, path, levels).hits
    decreases levels
  {
    if chain == [] {
      OwnHit(site, path, levels, m);
    } else {
      var below := SubtreeIsInTree(site, path, levels, chain[0], m);
      ReachedIsHit(site, chain[0], below, chain[1..], last, m);
    }
  }

  lemma SubtreeIsInTree(site: Site, path: string, levels: nat, child: string, m: Match) returns (below: nat)
    requires TreeTally(site, path, levels).fits
    requires GoesOnWith(site, path, child)
    ensures levels == below + 1 && TreeTally(site, child, below).fits
    ensures m in TreeTally(site, child, below).hits ==> m in TreeTally(site, path, levels).hits
  {
    below := levels - 1;
    BelowWhen(site, site.list(path).value, child);
    ChildIsInTree(site, path, below, site.list(path).value, child, m);
  }

  lemma ChildIsInTree(site: Site, path: string, below: nat, entries: seq<FileEntry>, child: string, m: Match)
    requires site.list(path) == Ok(entries) && child in Below(site, entries, None)
    ensures m in TreeTally(site, child, below).hits ==> m in TreeTally(site, path, below + 1).hits
    ensures TreeTally(site, path, below + 1).fits ==> TreeTally(site, child, below).fits
  {
    ForestContains(site, Below(site, entries, None), below, child, m);
  }

  lemma OwnHit(site: Site, path: string, levels: nat, m: Match)
    requires TreeTally(site, path, levels).fits && IsFoundIn(site, path, m)
    ensures m in TreeTally(site, path, levels).hits
  {
    HitsWhen(site, site.list(path).value, m);
  }

  /** The matches of a tree that is not too deep are exactly those in the directories that some chain of readable,
      searched directories leads to. */
  lemma TreeHitsAreReachable(site: Site, root: string, levels: nat, m: Match)
    requires TreeTally(site, root, levels).fits
    ensures m in TreeTally(site, root, levels).hits <==> IsFoundBelow(site, root, m)
  {
    if m in TreeTally(site, root, levels).hits {
      var chain, last := HitComesFrom(site, root, levels, m);
    }
    if IsFoundBelow(site, root, m) {
      var chain, last :| Leads(site, root, chain, last) && IsFoundIn(site, last, m);
      ReachedIsHit(site, root, levels, chain, last, m);
    }
  }

  lemma {:induction false} ForestMisfit(site: Site, paths: seq<string>, levels: nat) returns (path: string)
    requires !ForestTally(site, paths, levels).fits
    ensures path in paths && !TreeTally(site, path, levels).fits
  {
    var init, last := paths[..|paths| - 1], paths[|paths| - 1];
    if !TreeTally(site, last, levels).fits {
      path := last;
    } else {
      path := ForestMisfit(site, init, levels);
    }
  }

  /** A chain that is too long, or leads to an unreadable directory in a search that must not skip it. */
  ghost predicate IsTooFar(site: Site, path: string, levels: nat, chain: seq<string>, last: string) {
    Leads(site, path, chain, last) && (|chain| >= levels || (site.strict && site.list(last).Err?))
  }

  lemma MisfitBelow(site: Site, path: string, levels: nat) returns (next: Option<string>)
    requires !Fits(site, path, levels)
    ensures next.None? ==> IsTooFar(site, path, levels, [], path)
    ensures next.Some? ==> levels > 0 && GoesOnWith(site, path, next.value) && !Fits(site, next.value, levels - 1)
  {
    next := None;
    if levels > 0 && site.list(path).Ok? {
      var entries := site.list(path).value;
      var child := ForestMisfit(site, Below(site, entries, None), levels - 1);
      BelowWhen(site, entries, child);
      next := Some(child);
    }
  }

  lemma OneStepTooFar(site: Site, path: string, next: string, levels: nat, chain: seq<string>, last: string)
    requires levels > 0 && GoesOnWith(site, path, next) && IsTooFar(site, next, levels - 1, chain, last)
    ensures IsTooFar(site, path, levels, [next] + chain, last)
  {
    OneStepFurther(site, path, next, chain, last);
  }

  predicate Fits(site: Site, path: string, levels: nat) {
    TreeTally(site, path, levels).fits
  }

  lemma {:induction false} MisfitIsTooFar(site: Site, path: string, levels: nat)
    returns (chain: seq<string>, last: string)
    requires !Fits(site, path, levels)
    ensures IsTooFar(site, path, levels, chain, last)
    decreases levels
  {
    var next := MisfitBelow(site, path, levels);
    if next.None? {
      chain, last := [], path;
    } else {
      var rest;
      rest, last := MisfitIsTooFar(site, next.value, levels - 1);
      OneStepTooFar(site, path, next.value, levels, rest, last);
      chain := [next.value] + rest;
    }
  }

  lemma {:induction false} FitIsNotTooFar(site: Site, path: string, levels: nat, chain: seq<string>, last: string)
    requires TreeTally(site, path, levels).fits && Leads(site, path, chain, last)
    ensures !IsTooFar(site, path, levels, chain, last)
    decreases chain
  {
    if chain == [] {
    } else {
      var below := SubtreeIsInTree(site, path, levels, chain[0], Match("", "", File, ""));
      FitIsNotTooFar(site, chain[0], below, chain[1..], last);
    }
  }

  /** A tree fits exactly when no chain of searched directories in it is as long as there are levels, nor leads to an
      unreadable one in a search that must not skip it. A whole search has levels for 32 directories below its root. */
  lemma TreeFitsWhen(site: Site, path: string, levels: nat)
    ensures Fits(site, path, levels) <==> forall chain, last :: !IsTooFar(site, path, levels, chain, last)
    ensures Levels(0) == 32 + 1
  {
    if Fits(site, path, levels) {
      forall chain, last ensures !IsTooFar(site, path, levels, chain, last) {
        if Leads(site, path, chain, last) {
          FitIsNotTooFar(site, path, levels, chain, last);
        }
      }
    } else {
      var chain, last := MisfitIsTooFar(site, path, levels);
    }
  }

  /** The parent of a path is what stands in front of its last segment. */
  lemma ParentOfChild(directory: string, name: string)
    requires name != "" && '/' !in name
    ensures RemoteParentPath(directory + "/" + name) == if directory == "" then "/" else directory
  {
    var path := directory + "/" + name;
    assert Paths.TrimSlashes(path) == path;
    Paths.LastSlash(directory, name);
  }

  // ---------------------------------------------------------------------------------------------
  // The state of a walk

  function Delivered(events: seq<Progress>): seq<Match> {
    if events == [] then [] else Delivered(events[..|events| - 1]) + events[|events| - 1].matches
  }

  /** An event on the way carries between one match and a full batch. */
  predicate IsBatch(event: Progress) {
    !event.done && !event.cancelled && 0 < |event.matches| <= 40
  }

  predicate AreBatches(events: seq<Progress>) {
    forall i :: 0 <= i < |events| ==> IsBatch(events[i])
  }

  class WalkState {
    var matches: seq<Match>
    var pending: seq<Match>
    var visited: nat
    var truncated: bool
    var events: seq<Progress>

    ghost predicate Valid()
      reads this
    {
      && Delivered(events) + pending == matches
      && |matches| <= MAX_SEARCH_MATCHES && (|matches| == MAX_SEARCH_MATCHES ==> truncated)
      && |pending| < PROGRESS_BATCH
      && AreBatches(events)
    }

    constructor ()
      ensures Valid() && matches == [] && events == [] && pending == [] && visited == 0 && !truncated
    {
      matches, pending, visited, truncated, events := [], [], 0, false, [];
    }

    method PushMatch(item: Match)
      requires Valid()
      modifies this`matches, this`pending, this`truncated, this`events
      ensures Valid()
      ensures matches == if |old(matches)| < MAX_SEARCH_MATCHES then old(matches) + [item] else old(matches)
      ensures truncated == (old(truncated) || |matches| == MAX_SEARCH_MATCHES)
    {
      if |matches| >= MAX_SEARCH_MATCHES {
        truncated := true;
        return;
      }
      matches := matches + [item];
      pending := pending + [item];
      assert Delivered(events) + pending == matches;
      if |pending| >= PROGRESS_BATCH {
        Flush(false, false);
      }
      if |matches| >= MAX_SEARCH_MATCHES {
        truncated := true;
      }
    }

    /** Hands the pending matches over. There is no empty event on the way. */
    method Flush(done: bool, cancelled: bool)
      requires Delivered(events) + pending == matches
      modifies this`pending, this`events
      ensures pending == []
      ensures Delivered(events) == matches && Delivered(events) + pending == matches
      ensures !done && !cancelled && old(AreBatches(events)) && |old(pending)| <= PROGRESS_BATCH ==> AreBatches(events)
      ensures events == if old(pending) == [] && !done && !cancelled then old(events)
                        else old(events) + [Progress(old(pending), visited, truncated, done, cancelled)]
    {
      var batch := pending;
      pending := [];
      if batch == [] && !done && !cancelled {
        return;
      }
      var event := Progress(batch, visited, truncated, done, cancelled);
      assert (events + [event])[..|events|] == events;
      events := events + [event];
    }

    method Finish(cancelled: bool)
      requires Valid()
      modifies this`pending, this`events
      ensures |events| == |old(events)| + 1 && old(events) < events
      ensures Delivered(events) == matches
      ensures events[|events| - 1] == Progress(old(pending), visited, truncated, true, cancelled)
    {
      Flush(true, cancelled);
    }
  }

  // ---------------------------------------------------------------------------------------------
  // The walk

  /** What one more entry adds. */
  lemma OneMoreEntry(site: Site, entries: seq<FileEntry>, i: nat, before: seq<Match>)
    requires i < |entries|
    ensures before + Hits(site, entries[..i + 1])
         == if IsHit(site, entries[i]) then before + Hits(site, entries[..i]) + [ToMatch(entries[i])]
            else before + Hits(site, entries[..i])
  {
    assert entries[..i + 1][..i] == entries[..i];
  }

  lemma OneMoreDirectory(site: Site, entries: seq<FileEntry>, i: nat, matching: Option<bool>)
    requires i < |entries|
    ensures Below(site, entries[..i + 1], matching)
            == Below(site, entries[..i], matching) + Onward(site, entries[i], matching)
  {
    assert entries[..i + 1][..i] == entries[..i];
  }

  /** Entries that lead to the matches so far, with the limit not yet reached or just reached. */
  ghost predicate IsPartOf(matches: seq<Match>, before: seq<Match>, site: Site, entries: seq<FileEntry>) {
    exists n :: 0 <= n <= |entries| && matches == before + Hits(site, entries[..n])
  }

  method Take(state: WalkState, site: Site, entry: FileEntry)
    requires state.Valid() && !state.truncated && (entry.kind == File || entry.kind == Directory)
    modifies state`matches, state`pending, state`truncated, state`events
    ensures state.Valid()
    ensures state.matches == if IsHit(site, entry) then old(state.matches) + [ToMatch(entry)] else old(state.matches)
    ensures state.truncated ==> |state.matches| == MAX_SEARCH_MATCHES
  {
    if NameMatches(site, entry.name) {
      state.PushMatch(ToMatch(entry));
    }
  }

  /** The switch was on at one of the looks from the one on, and before the other. */
  ghost predicate WasCancelled(cancelled: nat -> bool, from: nat, to: nat) {
    exists i :: from <= i < to && cancelled(i)
  }

  lemma OneMoreLook(cancelled: nat -> bool, from: nat, to: nat)
    requires from <= to
    ensures WasCancelled(cancelled, from, to + 1) <==> WasCancelled(cancelled, from, to) || cancelled(to)
  {
  }

  lemma OneMoreOfBoth(site: Site, entries: seq<FileEntry>, i: nat)
    requires i < |entries|
    ensures Below(site, entries[..i + 1], Some(true))
            == Below(site, entries[..i], Some(true)) + Onward(site, entries[i], Some(true))
    ensures Below(site, entries[..i + 1], Some(false))
            == Below(site, entries[..i], Some(false)) + Onward(site, entries[i], Some(false))
  {
    OneMoreDirectory(site, entries, i, Some(true));
    OneMoreDirectory(site, entries, i, Some(false));
  }

  datatype Scanned = Stopped | Full | Through(preferred: seq<string>, others: seq<string>)

  /** Goes through one listing. It may be cancelled before every entry; looks counts how often it checks. */
  method Scan(state: WalkState, site: Site, entries: seq<FileEntry>, cancelled: nat -> bool, from: nat)
    returns (r: Scanned, looks: nat)
    requires state.Valid() && !state.truncated
    modifies state`matches, state`pending, state`truncated, state`events
    ensures state.Valid() && IsPartOf(state.matches, old(state.matches), site, entries)
    ensures looks >= from && (r.Stopped? ==> exists i :: cancelled(i))
    ensures r.Stopped? <==> WasCancelled(cancelled, from, looks)
    ensures r.Through? ==> looks == from + |entries|
    ensures r.Full? <==> state.truncated
    ensures r.Full? ==> |state.matches| == MAX_SEARCH_MATCHES
    ensures r.Through? ==>
              && state.matches == old(state.matches) + Hits(site, entries)
              && r.preferred == Below(site, entries, Some(true)) && r.others == Below(site, entries, Some(false))
  {
    var preferred, others := [], [];
    looks := from;
    ghost var before := state.matches;
    for i := 0 to |entries|
      invariant state.Valid() && !state.truncated
      invariant state.matches == before + Hits(site, entries[..i]) && looks >= from
      invariant preferred == Below(site, entries[..i], Some(true)) && others == Below(site, entries[..i], Some(false))
      invariant looks == from + i && !WasCancelled(cancelled, from, looks)
    {
      OneMoreLook(cancelled, from, looks);
      if cancelled(looks) {
        return Stopped, looks + 1;
      }
      looks := looks + 1;
      var entry := entries[i];
      OneMoreEntry(site, entries, i, before);
      OneMoreOfBoth(site, entries, i);
      if entry.kind == File || entry.kind == Directory {
        Take(state, site, entry);
        if state.truncated {
          assert IsPartOf(state.matches, before, site, entries);
          return Full, looks;
        }
        if entry.kind == Directory && !ShouldSkipDirectory(entry.name) {
          if NameMatches(site, entry.name) {
            preferred := preferred + [entry.path];
          } else {
            others := others + [entry.path];
          }
        }
      }
    }
    assert entries[..|entries|] == entries;
    r := Through(preferred, others);
  }

  predicate IsEnqueued(r: seq<Stop>, queue: seq<Stop>, depth: nat, preferred: seq<string>, others: seq<string>) {
    r == Stops(preferred, depth) + queue + Stops(others, depth)
  }

  /** Directories with matching names go to the front, in order, and the others to the back. */
  method EnqueueChildren(queue: seq<Stop>, depth: nat, preferred: seq<string>, others: seq<string>)
    returns (r: seq<Stop>)
    ensures IsEnqueued(r, queue, depth, preferred, others)
  {
    r := queue;
    for i := 0 to |others|
      invariant r == queue + Stops(others[..i], depth)
    {
      assert others[..i + 1][..i] == others[..i];
      r := r + [Stop(others[i], depth)];
    }
    assert others[..|others|] == others;
    ghost var tail := r;
    for i := |preferred| downto 0
      invariant r == Stops(preferred, depth)[i..] + tail
    {
      r := [Stop(preferred[i], depth)] + r;
    }
  }

  /** What the walk has found and what its queue still holds make up the tree. */
  predicate AddsUp(site: Site, tree: Tally, matches: seq<Match>, visited: nat, queue: seq<Stop>) {
    Add(Tally(multiset(matches), visited, true), Rest(site, queue)) == tree
  }

  function Rest(site: Site, queue: seq<Stop>): Tally {
    QueueTally(site, queue)
  }

  predicate IsComplete(tree: Tally) {
    tree.fits && tree.dirs <= 1_500 && |tree.hits| < 500
  }

  lemma StartAddsUp(site: Site, root: string)
    ensures AddsUp(site, Tree(site, root), [], 0, [Stop(root, 0)])
  {
    var tree := Tree(site, root);
    assert [Stop(root, 0)][1..] == [];
    assert QueueTally(site, [Stop(root, 0)]) == Add(tree, Nothing()) == tree;
    assert Add(Nothing(), tree) == tree;
    assert Tally(multiset([]), 0, true) == Nothing();
  }

  lemma UnreadableAddsUp(site: Site, tree: Tally, matches: seq<Match>, visited: nat, queue: seq<Stop>)
    requires queue != [] && AddsUp(site, tree, matches, visited, queue)
    requires queue[0].depth <= MAX_SEARCH_DEPTH && site.list(queue[0].path).Err? && !site.strict
    ensures AddsUp(site, tree, matches, visited + 1, queue[1..])
  {
  }

  lemma TreeUnfolds(site: Site, path: string, depth: nat)
    requires depth <= MAX_SEARCH_DEPTH && site.list(path).Ok?
    ensures var entries := site.list(path).value;
            TreeTally(site, path, Levels(depth))
            == Add(Tally(multiset(Hits(site, entries)), 1, true),
                   ForestTally(site, Below(site, entries, None), Levels(depth + 1)))
  {
    assert Levels(depth) - 1 == Levels(depth + 1);
  }

  lemma ChildrenTally(site: Site, entries: seq<FileEntry>, rest: seq<Stop>, depth: nat)
    ensures var front, back := Stops(Below(site, entries, Some(true)), depth),
            Stops(Below(site, entries, Some(false)), depth);
            QueueTally(site, front + rest + back)
            == Add(QueueTally(site, rest), ForestTally(site, Below(site, entries, None), Levels(depth)))
  {
    var some, others := Below(site, entries, Some(true)), Below(site, entries, Some(false));
    var front, back := Stops(some, depth), Stops(others, depth);
    BelowIsSplit(site, entries, Levels(depth));
    StopsTally(site, some, depth);
    StopsTally(site, others, depth);
    QueueTallyInTurn(site, front + rest, back);
    QueueTallyInTurn(site, front, rest);
    MoveFront(QueueTally(site, front), QueueTally(site, rest), QueueTally(site, back));
  }

  lemma MoveFront(front: Tally, rest: Tally, back: Tally)
    ensures Add(Add(front, rest), back) == Add(rest, Add(front, back))
  {
  }

  /** The queue after a directory: its subdirectories with matching names in front, the others at the end. */
  predicate IsNext(site: Site, queue: seq<Stop>, entries: seq<FileEntry>, next: seq<Stop>)
    requires queue != []
  {
    IsEnqueued(next, queue[1..], queue[0].depth + 1, Below(site, entries, Some(true)),
               Below(site, entries, Some(false)))
  }

  lemma NextTally(site: Site, queue: seq<Stop>, entries: seq<FileEntry>, next: seq<Stop>)
    requires queue != [] && IsNext(site, queue, entries, next)
    ensures QueueTally(site, next)
         == Add(QueueTally(site, queue[1..]), ForestTally(site, Below(site, entries, None), Levels(queue[0].depth + 1)))
  {
    ChildrenTally(site, entries, queue[1..], queue[0].depth + 1);
  }

  /** The next directory's share of the tree: its own matches and the trees below it. */
  lemma NextStop(site: Site, queue: seq<Stop>, entries: seq<FileEntry>, next: seq<Stop>)
    requires queue != [] && queue[0].depth <= MAX_SEARCH_DEPTH && site.list(queue[0].path) == Ok(entries)
    requires IsNext(site, queue, entries, next)
    ensures QueueTally(site, queue) == Add(Tally(multiset(Hits(site, entries)), 1, true), QueueTally(site, next))
  {
    var depth := queue[0].depth;
    var own, below := Tally(multiset(Hits(site, entries)), 1, true),
        ForestTally(site, Below(site, entries, None), Levels(depth + 1));
    TreeUnfolds(site, queue[0].path, depth);
    NextTally(site, queue, entries, next);
    Combine(TreeTally(site, queue[0].path, Levels(depth)), own, below, QueueTally(site, queue[1..]),
            QueueTally(site, queue),
            QueueTally(site, next));
  }

  lemma Combine(tree: Tally, own: Tally, below: Tally, rest: Tally, queue: Tally, next: Tally)
    requires tree == Add(own, below) && queue == Add(tree, rest) && next == Add(rest, below)
    ensures queue == Add(own, next)
  {
    Regroup(own, below, rest);
  }

  lemma Regroup(own: Tally, below: Tally, rest: Tally)
    ensures Add(Add(own, below), rest) == Add(own, Add(rest, below))
  {
  }

  lemma StopAddsUp(site: Site, tree: Tally, matches: seq<Match>, visited: nat, queue: seq<Stop>,
                   entries: seq<FileEntry>,
                   next: seq<Stop>)
    requires queue != [] && AddsUp(site, tree, matches, visited, queue)
    requires queue[0].depth <= MAX_SEARCH_DEPTH && site.list(queue[0].path) == Ok(entries)
    requires IsNext(site, queue, entries, next)
    ensures AddsUp(site, tree, matches + Hits(site, entries), visited + 1, next)
  {
    var hits := Hits(site, entries);
    NextStop(site, queue, entries, next);
    AddIsAssociative(Tally(multiset(matches), visited, true), Tally(multiset(hits), 1, true), QueueTally(site, next));
    assert multiset(matches + hits) == multiset(matches) + multiset(hits);
  }

  /** Matches found so far, with part of the next directory, are matches of the tree. */
  lemma PartIsInTree(site: Site, tree: Tally, matches: seq<Match>, visited: nat, queue: seq<Stop>,
                     entries: seq<FileEntry>,
                     now: seq<Match>)
    requires queue != [] && AddsUp(site, tree, matches, visited, queue)
    requires queue[0].depth <= MAX_SEARCH_DEPTH && site.list(queue[0].path) == Ok(entries)
    requires IsPartOf(now, matches, site, entries)
    ensures multiset(now) <= tree.hits && |now| <= |tree.hits|
  {
    var n :| 0 <= n <= |entries| && now == matches + Hits(site, entries[..n]);
    TreeUnfolds(site, queue[0].path, queue[0].depth);
    HitsOfPart(site, entries, n);
    assert multiset(now) == multiset(matches) + multiset(Hits(site, entries[..n]));
    SubmultisetIsSmaller(multiset(now), tree.hits);
    assert |multiset(now)| == |now|;
  }

  lemma {:induction false} HitsOfPart(site: Site, entries: seq<FileEntry>, n: nat)
    requires n <= |entries|
    ensures multiset(Hits(site, entries[..n])) <= multiset(Hits(site, entries))
  {
    if n < |entries| {
      assert entries[..|entries| - 1][..n] == entries[..n];
      HitsOfPart(site, entries[..|entries| - 1], n);
    } else {
      assert entries[..n] == entries;
    }
  }

  lemma SubmultisetIsSmaller(a: multiset<Match>, b: multiset<Match>)
    requires a <= b
    ensures |a| <= |b|
  {
    assert b == a + (b - a);
  }

  lemma FoundIsInTree(site: Site, tree: Tally, matches: seq<Match>, visited: nat, queue: seq<Stop>)
    requires AddsUp(site, tree, matches, visited, queue)
    ensures multiset(matches) <= tree.hits
  {
  }

  /** A directory that is too deep, or one too many, shows that the tree is larger than the limits. */
  lemma TooLarge(site: Site, tree: Tally, matches: seq<Match>, visited: nat, queue: seq<Stop>)
    requires queue != [] && AddsUp(site, tree, matches, visited, queue)
    requires queue[0].depth > MAX_SEARCH_DEPTH || visited >= MAX_SEARCH_VISITED
    ensures !IsComplete(tree)
  {
  }

  predicate AreBelowRoot(queue: seq<Stop>) {
    forall i :: 0 <= i < |queue| ==> queue[i].depth > 0
  }

  lemma NextIsBelowRoot(site: Site, queue: seq<Stop>, entries: seq<FileEntry>, next: seq<Stop>)
    requires queue != [] && IsNext(site, queue, entries, next)
    ensures AreBelowRoot(queue[1..]) ==> AreBelowRoot(next)
  {
  }

  /** Goes through one listing and hands over what it found, unless it is cancelled. */
  method Collect(state: WalkState, site: Site, entries: seq<FileEntry>, cancelled: nat -> bool, from: nat)
    returns (r: Scanned, looks: nat)
    requires state.Valid() && !state.truncated
    modifies state`matches, state`pending, state`truncated, state`events
    ensures state.Valid() && IsPartOf(state.matches, old(state.matches), site, entries)
    ensures looks >= from && (r.Stopped? ==> exists i :: cancelled(i))
    ensures r.Stopped? <==> WasCancelled(cancelled, from, looks)
    ensures r.Through? ==> looks == from + |entries|
    ensures r.Full? <==> state.truncated
    ensures r.Full? ==> |state.matches| == MAX_SEARCH_MATCHES
    ensures r.Through? ==>
              && state.matches == old(state.matches) + Hits(site, entries)
              && r.preferred == Below(site, entries, Some(true)) && r.others == Below(site, entries, Some(false))
    // After every directory that was gone through, what was found so far has been handed over.
    ensures !r.Stopped? ==> state.pending == []
  {
    r, looks := Scan(state, site, entries, cancelled, from);
    if !r.Stopped? && state.pending != [] {
      state.Flush(false, false);
    }
  }

  /** What a listing that was gone through, or broken off, means for the tree. */
  lemma Gathered(site: Site, tree: Tally, before: seq<Match>, visited: nat, queue: seq<Stop>, entries: seq<FileEntry>,
                 found: seq<Match>)
    requires queue != [] && AddsUp(site, tree, before, visited, queue)
    requires queue[0].depth <= MAX_SEARCH_DEPTH && site.list(queue[0].path) == Ok(entries)
    requires IsPartOf(found, before, site, entries)
    ensures multiset(found) <= tree.hits
    ensures |found| == MAX_SEARCH_MATCHES ==> !IsComplete(tree)
  {
    PartIsInTree(site, tree, before, visited, queue, entries, found);
  }

  /** A listing that was gone through, and the queue after it. */
  lemma GoneThrough(site: Site, tree: Tally, before: seq<Match>, visited: nat, queue: seq<Stop>,
                    entries: seq<FileEntry>,
                    found: seq<Match>, preferred: seq<string>, others: seq<string>, next: seq<Stop>)
    requires queue != [] && AddsUp(site, tree, before, visited, queue)
    requires queue[0].depth <= MAX_SEARCH_DEPTH && site.list(queue[0].path) == Ok(entries)
    requires found == before + Hits(site, entries)
    requires preferred == Below(site, entries, Some(true)) && others == Below(site, entries, Some(false))
    requires IsEnqueued(next, queue[1..], queue[0].depth + 1, preferred, others)
    ensures AddsUp(site, tree, found, visited + 1, next) && (AreBelowRoot(queue[1..]) ==> AreBelowRoot(next))
  {
    assert IsNext(site, queue, entries, next);
    StopAddsUp(site, tree, before, visited, queue, entries, next);
    NextIsBelowRoot(site, queue, entries, next);
  }

  /** What going through one listing means for the tree, and for the queue if it was not broken off. */
  lemma Listed(site: Site, tree: Tally, before: seq<Match>, visited: nat, queue: seq<Stop>, entries: seq<FileEntry>,
               found: seq<Match>, scanned: Scanned, next: seq<Stop>)
    requires queue != [] && AddsUp(site, tree, before, visited, queue)
    requires queue[0].depth <= MAX_SEARCH_DEPTH && site.list(queue[0].path) == Ok(entries)
    requires IsPartOf(found, before, site, entries) && (scanned.Full? ==> |found| == MAX_SEARCH_MATCHES)
    requires scanned.Through? ==>
               && found == before + Hits(site, entries)
               && scanned.preferred == Below(site, entries, Some(true))
                   && scanned.others == Below(site, entries, Some(false))
               && IsEnqueued(next, queue[1..], queue[0].depth + 1, scanned.preferred, scanned.others)
    ensures multiset(found) <= tree.hits && (scanned.Full? ==> !IsComplete(tree))
    ensures scanned.Through? ==> AddsUp(site, tree, found, visited + 1, next)
    ensures scanned.Through? && AreBelowRoot(queue[1..]) ==> AreBelowRoot(next)
  {
    Gathered(site, tree, before, visited, queue, entries, found);
    if scanned.Through? {
      GoneThrough(site, tree, before, visited, queue, entries, found, scanned.preferred, scanned.others, next);
    }
  }

  /** One directory that can be listed. The queue is the next one, if the listing was gone through. */
  method Visit(state: WalkState, site: Site, ghost tree: Tally, queue: seq<Stop>, entries: seq<FileEntry>,
               cancelled: nat -> bool, from: nat)
    returns (scanned: Scanned, next: seq<Stop>, looks: nat)
    requires state.Valid() && !state.truncated && state.visited < MAX_SEARCH_VISITED
    requires queue != [] && queue[0].depth <= MAX_SEARCH_DEPTH && site.list(queue[0].path) == Ok(entries)
    requires AddsUp(site, tree, state.matches, state.visited, queue)
    modifies state
    ensures state.Valid() && state.visited == old(state.visited) + 1 && looks >= from
    ensures multiset(state.matches) <= tree.hits
    ensures scanned.Full? <==> state.truncated
    ensures scanned.Full? ==> !IsComplete(tree)
    ensures scanned.Stopped? ==> exists i :: cancelled(i)
    ensures scanned.Stopped? <==> WasCancelled(cancelled, from, looks)
    ensures scanned.Through? ==> AddsUp(site, tree, state.matches, state.visited, next)
    ensures scanned.Through? && AreBelowRoot(queue[1..]) ==> AreBelowRoot(next)
  {
    ghost var before, visited := state.matches, state.visited;
    scanned, looks := Collect(state, site, entries, cancelled, from);
    state.visited := state.visited + 1;
    next := [];
    if scanned.Through? {
      next := EnqueueChildren(queue[1..], queue[0].depth + 1, scanned.preferred, scanned.others);
    }
    Listed(site, tree, before, visited, queue, entries, state.matches, scanned, next);
  }

  datatype Turn = GoOn | Ended(cancelled: bool) | Failed(error: AppError)

  /** One turn of the loop: the next directory of the queue is visited, passed over or refused. */
  method Advance(state: WalkState, site: Site, ghost tree: Tally, queue: seq<Stop>, cancelled: nat -> bool, from: nat)
    returns (turn: Turn, next: seq<Stop>, looks: nat)
    requires state.Valid() && !state.truncated && state.visited <= MAX_SEARCH_VISITED
    requires queue != [] && AddsUp(site, tree, state.matches, state.visited, queue)
    modifies state
    ensures state.Valid() && old(state.visited) <= state.visited <= MAX_SEARCH_VISITED && looks >= from
    ensures multiset(state.matches) <= tree.hits
    ensures turn.GoOn? ==> !state.truncated && state.visited > old(state.visited) && looks > from && !cancelled(from)
    ensures turn.GoOn? ==> AddsUp(site, tree, state.matches, state.visited, next)
    ensures turn.GoOn? && AreBelowRoot(queue[1..]) ==> AreBelowRoot(next)
    ensures turn.Failed?
            <==> !cancelled(from) && queue[0].depth <= MAX_SEARCH_DEPTH && old(state.visited) < MAX_SEARCH_VISITED
                              && site.list(queue[0].path).Err? && (queue[0].depth == 0 || site.strict)
    ensures turn.Failed? ==> state.events == old(state.events) && turn.error == site.list(queue[0].path).error
    ensures turn == Ended(true) ==> exists i :: cancelled(i)
    ensures turn == Ended(true) <==> WasCancelled(cancelled, from, looks)
    ensures looks > from && state.visited <= old(state.visited) + 1
    ensures cancelled(from) ==> state.matches == old(state.matches)
    ensures turn == Ended(false) ==> state.truncated && !IsComplete(tree)
  {
    FoundIsInTree(site, tree, state.matches, state.visited, queue);
    var current := queue[0];
    next, looks := [], from + 1;
    if cancelled(from) {
      return Ended(true), next, looks;
    }
    if current.depth > MAX_SEARCH_DEPTH || state.visited >= MAX_SEARCH_VISITED {
      TooLarge(site, tree, state.matches, state.visited, queue);
      state.truncated := true;
      return Ended(false), next, looks;
    }
    var listed := site.list(current.path);
    if listed.Err? {
      if current.depth == 0 || site.strict {
        return Failed(listed.error), next, looks;
      }
      UnreadableAddsUp(site, tree, state.matches, state.visited, queue);
      state.visited := state.visited + 1;
      return GoOn, queue[1..], looks;
    }
    var scanned;
    scanned, next, looks := Visit(state, site, tree, queue, listed.value, cancelled, looks);
    if scanned.Stopped? {
      return Ended(true), next, looks;
    }
    if scanned.Full? {
      return Ended(false), next, looks;
    }
    turn := GoOn;
  }

  /** Some directory answers a listing with this error. */
  ghost predicate IsListingError(site: Site, error: AppError) {
    exists path :: site.list(path) == Err(error)
  }

  /** The loop over the queue. The result says whether the search was cancelled, or why a directory cannot be listed. */
  method Walk(state: WalkState, site: Site, root: string, ghost tree: Tally, cancelled: nat -> bool)
    returns (r: Result<bool>)
    requires state.Valid() && state.matches == [] && state.events == []
    requires state.visited == 0 && !state.truncated && AddsUp(site, tree, [], 0, [Stop(root, 0)])
    modifies state
    ensures !cancelled(0) && site.list(root).Err? ==> r == Err(site.list(root).error) && state.events == []
    ensures r.Err? && !site.strict ==> !cancelled(0) && site.list(root).Err?
    ensures r.Err? ==> !cancelled(0) && IsListingError(site, r.error)
    ensures state.Valid() && state.visited <= MAX_SEARCH_VISITED
    ensures multiset(state.matches) <= tree.hits
    ensures r == Ok(true) ==> exists i :: cancelled(i)
    // The switch is looked at before every directory.
    ensures r == Ok(false) ==> forall i :: 0 <= i < state.visited ==> !cancelled(i)
    ensures cancelled(0) ==> r == Ok(true) && state.matches == []
    ensures r == Ok(false) ==> (state.truncated <==> !IsComplete(tree))
    ensures r == Ok(false) && !state.truncated ==> multiset(state.matches) == tree.hits && state.visited == tree.dirs
  {
    var queue := [Stop(root, 0)];
    var looks := 0;
    while queue != []
      invariant state.Valid() && !state.truncated && state.visited <= MAX_SEARCH_VISITED
      invariant AddsUp(site, tree, state.matches, state.visited, queue)
      invariant looks == 0 ==> queue == [Stop(root, 0)] && state.events == [] && state.visited == 0
      invariant looks > 0 ==> !cancelled(0) && site.list(root).Ok? && AreBelowRoot(queue)
      invariant state.visited <= looks && !WasCancelled(cancelled, 0, looks) && (looks == 0 ==> state.matches == [])
      decreases MAX_SEARCH_VISITED - state.visited
    {
      var turn, next;
      ghost var before := looks;
      turn, next, looks := Advance(state, site, tree, queue, cancelled, looks);
      match turn
      case Failed(error) => return Err(error);
      case Ended(stopped) => return Ok(stopped);
      case GoOn =>
        queue := next;
    }
    r := Ok(false);
    EndOfQueue(site, tree, state.matches, state.visited);
  }

  lemma EndOfQueue(site: Site, tree: Tally, matches: seq<Match>, visited: nat)
    requires AddsUp(site, tree, matches, visited, [])
    ensures tree == Tally(multiset(matches), visited, true)
    ensures |matches| == |tree.hits|
  {
    assert |multiset(matches)| == |matches|;
  }

  function LastEvent(events: seq<Progress>): Progress
    requires events != []
  {
    events[|events| - 1]
  }

  /** What a search that ends without an error has reported: one done event, the last one, after batches that carry
      something; nothing that is not in the tree; and the limits kept. */
  ghost predicate IsReport(events: seq<Progress>, tree: Tally) {
    && events != [] && LastEvent(events).done && AreBatches(events[..|events| - 1])
    && |Delivered(events)| <= 500 && LastEvent(events).visited <= 1_500
    && multiset(Delivered(events)) <= tree.hits
  }

  /** It calls itself truncated exactly when the tree exceeds the limits; otherwise it has reported all of it. */
  ghost predicate IsFullReport(events: seq<Progress>, tree: Tally)
    requires events != []
  {
    && (LastEvent(events).truncated <==> !IsComplete(tree))
    && (!LastEvent(events).truncated ==>
        multiset(Delivered(events)) == tree.hits && LastEvent(events).visited == tree.dirs)
  }

  /** What is reported is found, and without truncation all that is found is reported. */
  ghost predicate ReportsWhatIsFound(site: Site, root: string, events: seq<Progress>)
    requires events != []
  {
    && (forall m :: m in Delivered(events) ==> IsFoundBelow(site, root, m))
    && (!LastEvent(events).truncated && !LastEvent(events).cancelled ==>
        forall m :: IsFoundBelow(site, root, m) ==> m in Delivered(events))
  }

  lemma ReportIsFound(site: Site, root: string, events: seq<Progress>)
    requires IsReport(events, Tree(site, root))
    requires !LastEvent(events).cancelled ==> IsFullReport(events, Tree(site, root))
    ensures ReportsWhatIsFound(site, root, events)
  {
    forall m | m in Delivered(events) ensures IsFoundBelow(site, root, m) {
      assert m in multiset(Delivered(events));
      var chain, last := HitComesFrom(site, root, Levels(0), m);
    }
    if !LastEvent(events).truncated && !LastEvent(events).cancelled {
      forall m | IsFoundBelow(site, root, m) ensures m in Delivered(events) {
        TreeHitsAreReachable(site, root, Levels(0), m);
        assert m in multiset(Delivered(events));
      }
    }
  }

  /** A search that was not cancelled found the switch off before every directory that it visited. One that is cancelled
      from the beginning reports nothing. */
  ghost predicate StopsInTime(events: seq<Progress>, cancelled: nat -> bool)
    requires events != []
  {
    && (!LastEvent(events).cancelled ==> forall i :: 0 <= i < LastEvent(events).visited ==> !cancelled(i))
    && (cancelled(0) ==> LastEvent(events).cancelled && Delivered(events) == [])
  }

  /** The walk with its report. */
  method WalkAndReport(site: Site, root: string, cancelled: nat -> bool) returns (r: Result<()>, events: seq<Progress>)
    ensures !cancelled(0) && site.list(root).Err? ==> r == Err(site.list(root).error) && events == []
    ensures r.Err? && !site.strict ==> !cancelled(0) && site.list(root).Err?
    ensures r.Err? ==> AreBatches(events) && IsListingError(site, r.error)
    ensures r.Ok? ==> IsReport(events, Tree(site, root))
    ensures r.Ok? && !LastEvent(events).cancelled ==> IsFullReport(events, Tree(site, root))
    ensures r.Ok? && LastEvent(events).cancelled ==> exists i :: cancelled(i)
    ensures r.Ok? ==> StopsInTime(events, cancelled)
  {
    var state := new WalkState();
    StartAddsUp(site, root);
    var walked := Walk(state, site, root, Tree(site, root), cancelled);
    if walked.Err? {
      return Err(walked.error), state.events;
    }
    ghost var before := state.events;
    state.Finish(walked.value);
    assert state.events[..|state.events| - 1] == before;
    r, events := Ok(()), state.events;
  }

  /** The part that both searches share. */
  method SearchTree(site: Site, root: string, cancelled: nat -> bool) returns (r: Result<()>, events: seq<Progress>)
    ensures !cancelled(0) && site.list(root).Err? ==> r == Err(site.list(root).error) && events == []
    ensures r.Err? && !site.strict ==> !cancelled(0) && site.list(root).Err?
    ensures r.Err? ==> AreBatches(events) && IsListingError(site, r.error)
    ensures r.Ok? ==> IsReport(events, Tree(site, root))
    ensures r.Ok? && !LastEvent(events).cancelled ==> IsFullReport(events, Tree(site, root))
    ensures r.Ok? ==> ReportsWhatIsFound(site, root, events)
    ensures r.Ok? && LastEvent(events).cancelled ==> exists i :: cancelled(i)
    ensures r.Ok? ==> StopsInTime(events, cancelled)
  {
    r, events := WalkAndReport(site, root, cancelled);
    if r.Ok? {
      ReportIsFound(site, root, events);
    }
  }

  method SearchNothing() returns (events: seq<Progress>)
    ensures events == [Progress([], 0, false, true, false)]
  {
    var state := new WalkState();
    state.Finish(false);
    events := state.events;
  }

  /** A remote search fails only if its root cannot be listed, and then it has reported nothing. */
  method SearchRemote(site: Site, root: string, cancelled: nat -> bool) returns (r: Result<()>, events: seq<Progress>)
    requires !site.strict
    ensures site.query == "" ==> r == Ok(()) && events == [Progress([], 0, false, true, false)]
    ensures r.Err? <==> site.query != "" && !cancelled(0) && site.list(root).Err?
    ensures r.Err? ==> events == [] && r.error == site.list(root).error
    ensures r.Ok? ==> IsReport(events, Tree(site, root))
    ensures r.Ok? && site.query != "" && !LastEvent(events).cancelled ==> IsFullReport(events, Tree(site, root))
    ensures r.Ok? && site.query != "" ==> ReportsWhatIsFound(site, root, events)
    ensures r.Ok? && LastEvent(events).cancelled ==> exists i :: cancelled(i)
    ensures r.Ok? && site.query != "" ==> StopsInTime(events, cancelled)
  {
    if site.query == "" {
      events := SearchNothing();
      return Ok(()), events;
    }
    r, events := SearchTree(site, root, cancelled);
  }

  /** A local search may fail later, after some batches, but then without a done event. */
  method SearchLocal(site: Site, root: string, isDirectory: bool, cancelled: nat -> bool)
    returns (r: Result<()>, events: seq<Progress>)
    requires site.strict
    ensures site.query == "" ==> r == Ok(()) && events == [Progress([], 0, false, true, false)]
    ensures site.query != "" && !isDirectory ==> r == Err(Failure(NotFound)) && events == []
    ensures r.Err? ==> AreBatches(events) && (isDirectory ==> IsListingError(site, r.error))
    ensures r.Ok? ==> IsReport(events, Tree(site, root))
    ensures r.Ok? && site.query != "" && !LastEvent(events).cancelled ==> IsFullReport(events, Tree(site, root))
    ensures r.Ok? && site.query != "" ==> ReportsWhatIsFound(site, root, events)
    ensures r.Ok? && LastEvent(events).cancelled ==> exists i :: cancelled(i)
    ensures r.Ok? && site.query != "" ==> StopsInTime(events, cancelled)
  {
    if site.query == "" {
      events := SearchNothing();
      return Ok(()), events;
    }
    if !isDirectory {
      return Err(Failure(NotFound)), [];
    }
    r, events := SearchTree(site, root, cancelled);
  }
}
