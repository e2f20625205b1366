/** Whether a plan stays inside its destination. The planner refuses ".." among the names of a path, and then replaces
    backslashes; the name of the root itself is not looked at. */
module Containment {
  import opened Prelude
  import opened Destinations
  import opened Placement
  import opened Planner
  import Paths
  import Text

  /** Going along the parts never leads above where they start, from that many levels below it. */
  predicate NeverClimbsOut(depth: nat, parts: seq<string>)
    decreases parts
  {
    if parts == [] then true
    else if parts[0] == "" || parts[0] == "." then NeverClimbsOut(depth, parts[1..])
    else if parts[0] == ".." then depth > 0 && NeverClimbsOut(depth - 1, parts[1..])
    else NeverClimbsOut(depth + 1, parts[1..])
  }

  lemma {:induction false} StaysInside(base: seq<string>, below: seq<string>, parts: seq<string>)
    requires NeverClimbsOut(|below|, parts)
    ensures base <= Paths.Resolve(base + below, parts)
    decreases parts
  {
    if parts == [] {
    } else if parts[0] == "" || parts[0] == "." {
      StaysInside(base, below, parts[1..]);
    } else if parts[0] == ".." {
      assert (base + below)[..|base + below| - 1] == base + below[..|below| - 1];
      StaysInside(base, below[..|below| - 1], parts[1..]);
    } else {
      Associative(base, below, [parts[0]]);
      StaysInside(base, below + [parts[0]], parts[1..]);
    }
  }

  /** A base with a name that does not come up among the parts is left for good. */
  lemma {:induction false} LeavesOuter(outer: string, below: seq<string>, parts: seq<string>)
    requires outer !in below && outer !in parts && !NeverClimbsOut(|below|, parts)
    ensures outer !in Paths.Resolve([outer] + below, parts)
    decreases parts
  {
    if parts == [] {
    } else {
      assert parts[0] in parts && forall p :: p in parts[1..] ==> p in parts;
      var stack := [outer] + below;
      if parts[0] == "" || parts[0] == "." {
        LeavesOuter(outer, below, parts[1..]);
      } else if parts[0] != ".." {
        assert stack + [parts[0]] == [outer] + (below + [parts[0]]);
        LeavesOuter(outer, below + [parts[0]], parts[1..]);
      } else if below != [] {
        assert stack[..|stack| - 1] == [outer] + below[..|below| - 1];
        LeavesOuter(outer, below[..|below| - 1], parts[1..]);
      } else {
        assert stack[..|stack| - 1] == [];
        Paths.ResolveKeeps([], parts[1..]);
      }
    }
  }

  function Longest(parts: seq<string>): (r: string)
    ensures forall p :: p in parts ==> |p| <= |r|
    ensures r == "" || r in parts
  {
    if parts == [] then ""
    else
      var rest := Longest(parts[1..]);
      if |parts[0]| > |rest| then parts[0] else rest
  }

  lemma {:induction false} WithoutDots(depth: nat, parts: seq<string>)
    requires ".." !in parts
    ensures NeverClimbsOut(depth, parts)
    decreases parts
  {
    if parts == [] {
    } else {
      assert parts[0] in parts;
      WithoutDots(if parts[0] == "" || parts[0] == "." then depth else depth + 1, parts[1..]);
    }
  }

  lemma {:induction false} PlainPartsHaveNoDots(segments: seq<string>)
    requires Paths.ArePlain(segments) && forall i :: 0 <= i < |segments| ==> '\\' !in segments[i]
    ensures AllParts(segments) == segments && ".." !in AllParts(segments)
  {
    if segments == [] {
    } else {
      assert Paths.IsPlain(segments[0]);
      OnePart(segments[0]);
      PlainPartsHaveNoDots(segments[1..]);
    }
  }

  // ---------------------------------------------------------------------------------------------
  // Where destinations resolve to

  lemma {:induction false} ResolveKept(stack: seq<string>, segments: seq<string>)
    ensures Paths.Resolve(stack, Kept(segments)) == Paths.Resolve(stack, segments)
    decreases segments
  {
    if segments == [] {
    } else {
      ResolveKept(Paths.Push(stack, segments[0]), segments[1..]);
      if segments[0] == "" || segments[0] == "." {
        assert Kept(segments) == Kept(segments[1..]);
      } else {
        assert Kept(segments)[0] == segments[0] && Kept(segments)[1..] == Kept(segments[1..]);
      }
    }
  }

  lemma TrailingSlash(path: string, whole: string)
    requires whole == path + "/"
    ensures Paths.Resolve([], Text.Split('/', whole)) == Paths.Resolve([], Text.Split('/', path))
  {
    assert whole == path + "/" + "";
    Text.SplitOfConcat('/', path, "");
    Paths.ResolveInTurn([], Text.Split('/', path), [""]);
    OneEmpty(Paths.Resolve([], Text.Split('/', path)));
  }

  lemma OneEmpty(stack: seq<string>)
    ensures Text.Split('/', "") == [""] && Paths.Resolve(stack, [""]) == stack
  {
    assert [""][1..] == [];
  }

  lemma {:induction false} TrimResolves(path: string)
    ensures Paths.Resolve([], Text.Split('/', Paths.TrimSlashes(path))) == Paths.Resolve([], Text.Split('/', path))
  {
    if path != "" && path[|path| - 1] == '/' {
      TrailingSlash(path[..|path| - 1], path);
      TrimResolves(path[..|path| - 1]);
    } else {
    }
  }

  lemma ResolveBehind(path: string, parts: seq<string>)
    requires parts != [] && AreClean(parts)
    ensures Paths.Resolve([], Text.Split('/', path + "/" + Text.Join('/', parts)))
         == Paths.Resolve(Paths.Resolve([], Text.Split('/', path)), parts)
  {
    Text.SplitOfConcat('/', path, Text.Join('/', parts));
    Text.SplitOfJoin('/', parts);
    Paths.ResolveInTurn([], Text.Split('/', path), parts);
  }

  lemma LocalResolves(path: string, parts: seq<string>)
    requires parts != [] && AreClean(parts)
    ensures Paths.Resolve([], Text.Split('/', Front(Local(path)) + Text.Join('/', parts)))
         == Paths.Resolve(Paths.Resolve([], Text.Split('/', path)), parts)
  {
    if path == "" {
      OneEmpty([]);
      Text.SplitOfJoin('/', parts);
      assert "" + Text.Join('/', parts) == Text.Join('/', parts);
    } else if path[|path| - 1] == '/' {
      var trimmed := path[..|path| - 1];
      assert path == trimmed + "/";
      TrailingSlash(trimmed, path);
      ResolveBehind(trimmed, parts);
    } else {
      ResolveBehind(path, parts);
    }
  }

  /** Where a destination resolves to: what the base resolves to, and from there along the segments of the place. */
  lemma DestinationResolves(base: Base, place: string)
    requires place != ""
    ensures Paths.Resolve([], Text.Split('/', JoinDestination(base, place)))
         == Paths.Resolve(Paths.Resolve([], Text.Split('/', base.path)), SegmentsOf(place))
  {
    DestinationOf(base, place);
    PartsAreClean(base, place);
    if base.Remote? {
      ResolveBehind(Paths.TrimSlashes(base.path), SegmentsOf(place));
      TrimResolves(base.path);
    } else {
      var stack := Paths.Resolve([], Text.Split('/', base.path));
      ResolveKept(stack, SegmentsOf(place));
      if !IsBase(base, place) {
        LocalResolves(base.path, PartsIn(base, place));
      }
    }
  }

  // ---------------------------------------------------------------------------------------------
  // Staying inside

  /** Whether a path, once resolved, is inside a base. */
  predicate IsInside(base: string, path: string) {
    Paths.Resolve([], Text.Split('/', base)) <= Paths.Resolve([], Text.Split('/', path))
  }

  /** Whatever path of a server, or of this computer, is the base: the destination lies inside of it. */
  ghost predicate StaysOnServer(place: string) {
    forall path :: IsInside(path, JoinDestination(Remote(path), place))
  }

  ghost predicate StaysLocally(place: string) {
    forall path :: IsInside(path, JoinDestination(Local(path), place))
  }

  lemma ResolvedName(name: string)
    requires Paths.IsPlain(name)
    ensures Paths.Resolve([], Text.Split('/', "/" + name)) == [name]
  {
    assert name[|name| - 1] in name;
    assert Paths.Render([name]) == "/" + name;
    assert Paths.ArePlain([name]);
    Paths.RenderResolves([name]);
  }

  /** A name that is none of the parts. */
  lemma AnotherName(parts: seq<string>) returns (name: string)
    requires forall i :: 0 <= i < |parts| ==> '/' !in parts[i]
    ensures Paths.IsPlain(name) && name !in parts
  {
    name := Longest(parts) + "xxx";
    assert name[|name| - 1] == 'x';
    assert Longest(parts) != "" ==> Longest(parts) in parts;
  }

  lemma InsideByParts(base: Base, place: string)
    requires place != "" && NeverClimbsOut(0, SegmentsOf(place))
    ensures IsInside(base.path, JoinDestination(base, place))
  {
    var stack := Paths.Resolve([], Text.Split('/', base.path));
    DestinationResolves(base, place);
    assert stack + [] == stack;
    StaysInside(stack, [], SegmentsOf(place));
  }

  lemma ClimbsOut(name: string, base: Base, place: string)
    requires place != "" && !NeverClimbsOut(0, SegmentsOf(place))
    requires Paths.IsPlain(name) && name !in SegmentsOf(place) && base.path == "/" + name
    ensures !IsInside(base.path, JoinDestination(base, place))
  {
    var resolved := Paths.Resolve([name], SegmentsOf(place));
    ResolvedName(name);
    DestinationResolves(base, place);
    assert [name] + [] == [name];
    if [name] <= resolved {
      StartsWith(name, resolved);
      LeavesOuter(name, [], SegmentsOf(place));
    }
  }

  lemma StartsWith(name: string, stack: seq<string>)
    requires [name] <= stack
    ensures name in stack
  {
    assert stack[0] == name;
  }

  /** Below every base of either kind a place stays inside exactly when its segments never climb out. */
  lemma StaysInsideWhen(place: string)
    requires place != ""
    ensures StaysOnServer(place) <==> NeverClimbsOut(0, SegmentsOf(place))
    ensures StaysLocally(place) <==> NeverClimbsOut(0, SegmentsOf(place))
  {
    if NeverClimbsOut(0, SegmentsOf(place)) {
      forall path ensures IsInside(path, JoinDestination(Remote(path), place)) {
        InsideByParts(Remote(path), place);
      }
      forall path ensures IsInside(path, JoinDestination(Local(path), place)) {
        InsideByParts(Local(path), place);
      }
    } else {
      Text.SplitHasNone('/', ReplaceBackslashes(place));
      var name := AnotherName(SegmentsOf(place));
      ClimbsOut(name, Remote("/" + name), place);
      ClimbsOut(name, Local("/" + name), place);
    }
  }

  /** An entry's destination stays inside exactly when the parts of its names, and of the root's, never climb out, as
      they never do without a part "..". A name brings such a part only along with a backslash. */
  lemma EntryStaysInsideWhen(ctx: Context, entry: FileEntry) returns (tail: seq<string>)
    requires Honest(ctx) && entry in Tree(ctx)
    ensures LiesAt(ctx, entry, tail) && SegmentsOf(PlaceOr(ctx, entry.path)) == Full(ctx, tail)
    ensures StaysOnServer(PlaceOr(ctx, entry.path)) <==> NeverClimbsOut(0, Full(ctx, tail))
    ensures StaysLocally(PlaceOr(ctx, entry.path)) <==> NeverClimbsOut(0, Full(ctx, tail))
    ensures ".." !in Full(ctx, tail) ==> NeverClimbsOut(0, Full(ctx, tail))
    ensures (forall i :: 0 <= i < |tail| ==> '\\' !in tail[i]) ==> ".." !in AllParts(tail)
  {
    tail := FromTop(ctx, entry);
    PlaceOfBelow(ctx, tail);
    StaysInsideWhen(PlaceOr(ctx, entry.path));
    if ".." !in Full(ctx, tail) {
      WithoutDots(0, Full(ctx, tail));
    }
    if forall i :: 0 <= i < |tail| ==> '\\' !in tail[i] {
      PlainPartsHaveNoDots(tail);
    }
  }

  // ---------------------------------------------------------------------------------------------
  // A plan as a whole

  lemma {:induction false} ClimbingKept(depth: nat, segments: seq<string>)
    ensures NeverClimbsOut(depth, Kept(segments)) <==> NeverClimbsOut(depth, segments)
    decreases segments
  {
    if segments == [] {
    } else if segments[0] == "" || segments[0] == "." {
      assert Kept(segments) == Kept(segments[1..]);
      ClimbingKept(depth, segments[1..]);
    } else {
      assert Kept(segments)[0] == segments[0] && Kept(segments)[1..] == Kept(segments[1..]);
      if segments[0] != ".." {
        ClimbingKept(depth + 1, segments[1..]);
      } else if depth > 0 {
        ClimbingKept(depth - 1, segments[1..]);
      }
    }
  }

  lemma {:induction false} BeginningNeverClimbs(depth: nat, a: seq<string>, b: seq<string>)
    requires NeverClimbsOut(depth, a + b)
    ensures NeverClimbsOut(depth, a)
    decreases a
  {
    if a == [] {
    } else {
      assert (a + b)[0] == a[0] && (a + b)[1..] == a[1..] + b;
      if a[0] == "" || a[0] == "." {
        BeginningNeverClimbs(depth, a[1..], b);
      } else if a[0] == ".." {
        BeginningNeverClimbs(depth - 1, a[1..], b);
      } else {
        BeginningNeverClimbs(depth + 1, a[1..], b);
      }
    }
  }

  predicate NeverClimbs(place: string) {
    NeverClimbsOut(0, SegmentsOf(place))
  }

  lemma NeverClimbsByParts(base: Base, place: string)
    requires base.Local?
    ensures NeverClimbs(place) <==> NeverClimbsOut(0, PartsIn(base, place))
  {
    ClimbingKept(0, SegmentsOf(place));
  }

  lemma ParentNeverClimbs(base: Base, place: string)
    requires base.Local? && NeverClimbs(place) && ParentRelative(place).Some?
    ensures NeverClimbs(ParentRelative(place).value)
  {
    var parts, above := PartsIn(base, place), PartsIn(base, ParentRelative(place).value);
    PartsOfParent(base, place);
    NeverClimbsByParts(base, place);
    NeverClimbsByParts(base, ParentRelative(place).value);
    if above != parts {
      assert parts == above + parts[|parts| - 1..];
      BeginningNeverClimbs(0, above, parts[|parts| - 1..]);
    }
  }

  lemma {:induction false} AncestorsNeverClimb(place: string, a: string)
    requires NeverClimbs(place) && a in Ancestors(place)
    ensures NeverClimbs(a) && a != ""
    decreases |place|
  {
    var parent := ParentRelative(place).value;
    ParentNeverClimbs(Local(""), place);
    ParentIsNotEmpty(place);
    if a == parent {
    } else {
      AncestorsNeverClimb(parent, a);
    }
  }

  ghost predicate Stays(place: string) {
    StaysOnServer(place) && StaysLocally(place)
  }

  /** Everything that is planned stays inside, below every base: directories, files and links. */
  ghost predicate AllStay(found: Found, wanted: seq<string>) {
    && (forall w :: w in wanted ==> Stays(w))
    && (forall f :: f in found.files ==> Stays(f.relative))
    && (forall l :: l in found.links ==> Stays(l.relative))
  }

  ghost predicate NoneClimbs(found: Found, prefix: string, mode: PlanMode) {
    && (mode == IncludeRoot && prefix != "" ==> NeverClimbs(prefix))
    && (forall d :: d in found.dirs ==> NeverClimbs(d))
    && (forall f :: f in found.files ==> NeverClimbs(f.relative))
    && (forall l :: l in found.links ==> NeverClimbs(l.relative))
  }

  /** Nothing was found at the destination itself. */
  ghost predicate AreBelow(found: Found) {
    && "" !in found.dirs
    && (forall f :: f in found.files ==> f.relative != "") && (forall l :: l in found.links ==> l.relative != "")
  }

  lemma WantedNeverClimbs(found: Found, prefix: string, mode: PlanMode, place: string)
    requires AreBelow(found) && NoneClimbs(found, prefix, mode) && place in Wanted(found, prefix, mode)
    ensures NeverClimbs(place) && place != ""
  {
    WantedParts(found, prefix, mode, place);
    if place in WantedByDirs(found.dirs) {
      var d := WantedByDirsFrom(found.dirs, place);
      if place != d {
        AncestorsNeverClimb(d, place);
      }
    } else if place in WantedByFiles(found.files) {
      var f := WantedByFilesFrom(found.files, place);
      AncestorsNeverClimb(f.relative, place);
    } else if place in WantedByLinks(found.links) {
      var l := WantedByLinksFrom(found.links, place);
      ParentNeverClimbs(Local(""), l.relative);
    }
  }

  /** A whole plan stays inside exactly when nothing that was found climbs out, nor the root's own name. */
  lemma PlanStaysInsideWhen(found: Found, prefix: string, mode: PlanMode)
    requires AreBelow(found)
    ensures AllStay(found, Wanted(found, prefix, mode)) <==> NoneClimbs(found, prefix, mode)
  {
    if NoneClimbs(found, prefix, mode) {
      NothingLeaves(found, prefix, mode);
    }
    if AllStay(found, Wanted(found, prefix, mode)) {
      NothingClimbs(found, prefix, mode);
    }
  }

  lemma NothingLeaves(found: Found, prefix: string, mode: PlanMode)
    requires AreBelow(found) && NoneClimbs(found, prefix, mode)
    ensures AllStay(found, Wanted(found, prefix, mode))
  {
    forall w | w in Wanted(found, prefix, mode) ensures Stays(w) {
      WantedNeverClimbs(found, prefix, mode, w);
      StaysInsideWhen(w);
    }
    forall f | f in found.files ensures Stays(f.relative) {
      StaysInsideWhen(f.relative);
    }
    forall l | l in found.links ensures Stays(l.relative) {
      StaysInsideWhen(l.relative);
    }
  }

  lemma NothingClimbs(found: Found, prefix: string, mode: PlanMode)
    requires AreBelow(found) && AllStay(found, Wanted(found, prefix, mode))
    ensures NoneClimbs(found, prefix, mode)
  {
    if mode == IncludeRoot && prefix != "" {
      WantedParts(found, prefix, mode, prefix);
      StaysInsideWhen(prefix);
    }
    forall d | d in found.dirs ensures NeverClimbs(d) {
      WantedByDirsHas(found.dirs, d);
      WantedParts(found, prefix, mode, d);
      StaysInsideWhen(d);
    }
    forall f | f in found.files ensures NeverClimbs(f.relative) {
      StaysInsideWhen(f.relative);
    }
    forall l | l in found.links ensures NeverClimbs(l.relative) {
      StaysInsideWhen(l.relative);
    }
  }

  /** What an honest listing leads to lies below the destination. */
  lemma HonestIsBelow(ctx: Context)
    requires Honest(ctx)
    ensures AreBelow(FoundIn(ctx))
  {
    if "" in FoundIn(ctx).dirs {
      FoundDirs(ctx, "");
      var entry := DirsOfFrom(ctx, Tree(ctx), "");
      var rest := FoundLiesBelowTop(ctx, entry);
    }
    forall f | f in FoundIn(ctx).files ensures f.relative != "" {
      var entry := FilesOfFrom(ctx, Tree(ctx), f);
      var rest := FoundLiesBelowTop(ctx, entry);
    }
    forall l | l in FoundIn(ctx).links ensures l.relative != "" {
      var entry := LinksOfFrom(ctx, Tree(ctx), l);
      var rest := FoundLiesBelowTop(ctx, entry);
    }
  }

  // ---------------------------------------------------------------------------------------------
  // Names that lead out

  lemma DotsLeadOut(place: string, rest: seq<string>)
    requires SegmentsOf(place) == [".."] + rest && place != ""
    ensures !StaysOnServer(place) && !StaysLocally(place)
  {
    StaysInsideWhen(place);
  }

  lemma DottedSegments(x: string, name: string)
    requires '/' !in x && '\\' !in x && name == "..\\" + x
    ensures SegmentsOf(name) == ["..", x] && ReplaceBackslashes(name) == "../" + x
  {
    ReplaceNothing(x);
    assert ReplaceBackslashes(name) == ".." + "/" + x;
    Text.SplitOfConcat('/', "..", x);
    Text.SplitOfPlain('/', "..");
    Text.SplitOfPlain('/', x);
  }

  /** The check for ".." comes before the backslashes are replaced: a name "..\x" leads out of the destination. */
  lemma ABackslashMayClimbOut(source: string, x: string)
    requires source != "" && source[|source| - 1] != '/' && Paths.IsPlain(x) && '\\' !in x
    ensures RemoteRelative(source, source + "/" + ("..\\" + x)) == Ok("../" + x)
    ensures !StaysOnServer("../" + x) && !StaysLocally("../" + x)
  {
    var name := "..\\" + x;
    assert name[2] == '\\' && Paths.IsPlain(name);
    RelativeOfBelow(source, [name]);
    DottedSegments(x, name);
    ReplaceTwice(name);
    DotsLeadOut("../" + x, [x]);
  }

  /** The root's own name is not checked at all: below a root "..\x" everything leads out of the destination. */
  lemma ARootNameMayClimbOut(parent: string, name: string, x: string, relative: string)
    requires Paths.IsPlain(x) && '\\' !in x && name == "..\\" + x && relative != ""
    ensures RemoteDirectoryName(parent + "/" + name) == Ok(name)
    ensures !StaysOnServer(WithPrefix(name, relative)) && !StaysLocally(WithPrefix(name, relative))
  {
    DottedSegments(x, name);
    NameOfRoot(parent, name);
    SegmentsOfPair(name, relative);
    Associative([".."], [x], SegmentsOf(relative));
    assert [".."] + [x] == ["..", x];
    DotsLeadOut(name + "/" + relative, [x] + SegmentsOf(relative));
  }

  lemma NameOfRoot(parent: string, name: string)
    requires name != "" && '/' !in name
    ensures RemoteDirectoryName(parent + "/" + name) == Ok(name)
  {
    assert name[|name| - 1] in name;
    NothingToTrim(parent + "/" + name);
    Text.SplitOfConcat('/', parent, name);
    Text.SplitOfPlain('/', name);
  }
}
