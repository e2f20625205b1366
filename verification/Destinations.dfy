/** Where the places of a plan lead to. A place is told relative to the destination, with slashes or backslashes. Below
    a server's path its text is appended; below a path of this computer its segments are pushed one by one. */
module Destinations {
  import opened Prelude
  import Paths
  import Text

  datatype Base = Remote(path: string) | Local(path: string)

  function ReplaceBackslashes(s: string): (r: string)
    ensures |r| == |s| && forall i :: 0 <= i < |s| ==> r[i] == if s[i] == '\\' then '/' else s[i]
  {
    if s == "" then "" else [if s[0] == '\\' then '/' else s[0]] + ReplaceBackslashes(s[1..])
  }

  function TrimSeparators(s: string): (r: string)
    ensures |r| <= |s|
    decreases |s|
  {
    if s != "" && IsSeparator(s[0]) then TrimSeparators(s[1..])
    else if s != "" && IsSeparator(s[|s| - 1]) then TrimSeparators(s[..|s| - 1])
    else s
  }

  function ParentRelative(relative: string): (r: Option<string>)
    ensures r.Some? ==> |r.value| < |relative|
  {
    var parent := Paths.BeforeLastSlash(ReplaceBackslashes(TrimSeparators(relative)));
    if parent.None? || parent.value == "" then None else parent
  }

  /** One more segment behind a local path. */
  function PushSegment(path: string, segment: string): string {
    if segment == "" || segment == "." then path
    else if path == "" || path[|path| - 1] == '/' then path + segment
    else path + "/" + segment
  }

  function PushAll(path: string, segments: seq<string>): string
    decreases segments
  {
    if segments == [] then path else PushAll(PushSegment(path, segments[0]), segments[1..])
  }

  /** The segments that a place has, however they are separated. */
  function SegmentsOf(relative: string): seq<string> {
    Text.Split('/', ReplaceBackslashes(relative))
  }

  function JoinDestination(base: Base, relative: string): string {
    match base
    case Remote(path) =>
      var trimmed := Paths.TrimSlashes(path);
      if relative == "" then (if trimmed == "" then "/" else trimmed)
      else trimmed + "/" + ReplaceBackslashes(relative)
    case Local(path) =>
      if relative == "" then path else PushAll(path, SegmentsOf(relative))
  }

  /** The local branch, in the way of its loop. */
  method JoinLocal(base: string, relative: string) returns (path: string)
    ensures path == JoinDestination(Local(base), relative)
  {
    path := base;
    if relative == "" {
      return;
    }
    var segments := SegmentsOf(relative);
    for i := 0 to |segments|
      invariant PushAll(path, segments[i..]) == PushAll(base, segments)
    {
      assert segments[i..][0] == segments[i] && segments[i..][1..] == segments[i + 1..];
      if segments[i] == "" || segments[i] == "." {
        continue;
      }
      path := PushSegment(path, segments[i]);
    }
  }

  /** The places above a relative one, from the nearest. */
  function Ancestors(relative: string): seq<string>
    decreases |relative|
  {
    var parent := ParentRelative(relative);
    if parent.None? then [] else [parent.value] + Ancestors(parent.value)
  }

  lemma {:induction false} AncestorsShrink(relative: string)
    ensures forall i :: 0 <= i < |Ancestors(relative)| ==> 0 < |Ancestors(relative)[i]| < |relative|
    ensures forall i, j :: 0 <= i < j < |Ancestors(relative)| ==> |Ancestors(relative)[j]| < |Ancestors(relative)[i]|
    decreases |relative|
  {
    var parent := ParentRelative(relative);
    if parent.Some? {
      AncestorsShrink(parent.value);
    }
  }

  lemma {:induction false} ParentOfAncestor(relative: string, a: string)
    requires a in Ancestors(relative) && ParentRelative(a).Some?
    ensures ParentRelative(a).value in Ancestors(relative)
    decreases |relative|
  {
    var parent := ParentRelative(relative).value;
    if a == parent {
      assert ParentRelative(a).value == Ancestors(parent)[0];
    } else {
      ParentOfAncestor(parent, a);
    }
  }

  lemma ReplaceInTurn(a: string, b: string)
    ensures ReplaceBackslashes(a + b) == ReplaceBackslashes(a) + ReplaceBackslashes(b)
  {
  }

  lemma ReplaceNothing(s: string)
    requires '\\' !in s
    ensures ReplaceBackslashes(s) == s
  {
    assert forall i :: 0 <= i < |s| ==> s[i] in s;
  }

  lemma ReplaceTwice(s: string)
    ensures ReplaceBackslashes(ReplaceBackslashes(s)) == ReplaceBackslashes(s)
  {
    ReplaceNothing(ReplaceBackslashes(s));
  }

  lemma {:induction false} TrimReplaced(s: string)
    ensures TrimSeparators(ReplaceBackslashes(s)) == ReplaceBackslashes(TrimSeparators(s))
    decreases |s|
  {
    var r := ReplaceBackslashes(s);
    if s != "" && IsSeparator(s[0]) {
      assert r[1..] == ReplaceBackslashes(s[1..]);
      TrimReplaced(s[1..]);
    } else if s != "" && IsSeparator(s[|s| - 1]) {
      assert r[..|r| - 1] == ReplaceBackslashes(s[..|s| - 1]);
      TrimReplaced(s[..|s| - 1]);
    } else {
    }
  }

  /** The parent does not depend on the kind of the slashes. */
  lemma ParentIgnoresSlashKind(a: string, b: string)
    requires ReplaceBackslashes(a) == ReplaceBackslashes(b)
    ensures ParentRelative(a) == ParentRelative(b)
  {
    TrimReplaced(a);
    TrimReplaced(b);
  }

  // ---------------------------------------------------------------------------------------------
  // What a destination is made of

  function Kept(segments: seq<string>): seq<string> {
    if segments == [] then []
    else (if segments[0] == "" || segments[0] == "." then [] else [segments[0]]) + Kept(segments[1..])
  }

  lemma {:induction false} KeptInTurn(a: seq<string>, b: seq<string>)
    ensures Kept(a + b) == Kept(a) + Kept(b)
  {
    if a == [] {
      assert a + b == b;
    } else {
      assert (a + b)[1..] == a[1..] + b;
      KeptInTurn(a[1..], b);
    }
  }

  lemma {:induction false} KeptFrom(segments: seq<string>)
    ensures forall p :: p in Kept(segments) ==> p in segments && p != "" && p != "."
    ensures |Kept(segments)| <= |segments|
  {
    if segments == [] {
    } else {
      KeptFrom(segments[1..]);
    }
  }

  /** The parts that tell one destination from another: a local one has no empty parts and no ".". */
  function PartsIn(base: Base, place: string): seq<string> {
    if base.Remote? then SegmentsOf(place) else Kept(SegmentsOf(place))
  }

  /** The base itself: a server's path without the slashes at its end, or the root; a local path as it is. */
  lemma BaseItself(path: string, slashes: string)
    requires (path != "" ==> path[|path| - 1] != '/') && forall i :: 0 <= i < |slashes| ==> slashes[i] == '/'
    ensures JoinDestination(Remote(path + slashes), "") == if path == "" then "/" else path
    ensures JoinDestination(Local(path + slashes), "") == path + slashes
  {
    SlashesAreTrimmed(path, slashes);
  }

  lemma {:induction false} SlashesAreTrimmed(path: string, slashes: string)
    requires (path != "" ==> path[|path| - 1] != '/') && forall i :: 0 <= i < |slashes| ==> slashes[i] == '/'
    ensures Paths.TrimSlashes(path + slashes) == path
  {
    if slashes == "" {
      assert path + slashes == path;
    } else {
      assert (path + slashes)[..|path + slashes| - 1] == path + slashes[..|slashes| - 1];
      SlashesAreTrimmed(path, slashes[..|slashes| - 1]);
    }
  }

  /** What stands in front of all destinations below a base. */
  function Front(base: Base): string {
    if base.Remote? then Paths.TrimSlashes(base.path) + "/"
    else if base.path == "" || base.path[|base.path| - 1] == '/' then base.path
    else base.path + "/"
  }

  /** The place leads nowhere but to the base itself. */
  predicate IsBase(base: Base, place: string) {
    PartsIn(base, place) == []
  }

  lemma SegmentsHaveNoSeparator(place: string)
    ensures forall p, c :: p in SegmentsOf(place) && c in p ==> !IsSeparator(c)
  {
    Text.SplitHasNone('/', ReplaceBackslashes(place));
    Text.SplitKeepsChars('/', ReplaceBackslashes(place));
  }

  predicate AreClean(parts: seq<string>) {
    forall i :: 0 <= i < |parts| ==> '/' !in parts[i] && '\\' !in parts[i]
  }

  lemma PartsAreClean(base: Base, place: string)
    ensures AreClean(SegmentsOf(place)) && AreClean(PartsIn(base, place))
  {
    SegmentsHaveNoSeparator(place);
    KeptFrom(SegmentsOf(place));
    assert forall i :: 0 <= i < |PartsIn(base, place)| ==> PartsIn(base, place)[i] in SegmentsOf(place);
  }

  lemma PushThenFront(path: string, segment: string, rest: seq<string>)
    requires segment != "" && segment != "." && '/' !in segment
    ensures var next := PushSegment(path, segment);
            next == Front(Local(path)) + segment && Front(Local(next)) == Front(Local(path)) + segment + "/"
  {
    assert segment[|segment| - 1] in segment;
  }

  lemma {:induction false} PushAllKept(path: string, segments: seq<string>)
    requires AreClean(segments)
    ensures PushAll(path, segments) == if Kept(segments) == [] then path
            else Front(Local(path)) + Text.Join('/', Kept(segments))
    decreases segments
  {
    if segments == [] {
    } else {
      var next := PushSegment(path, segments[0]);
      var rest := Kept(segments[1..]);
      PushAllKept(next, segments[1..]);
      if segments[0] == "" || segments[0] == "." {
        assert Kept(segments) == rest;
      } else {
        assert Kept(segments) == [segments[0]] + rest;
        PushThenFront(path, segments[0], rest);
        JoinAfterFirst(Front(Local(path)), segments[0], rest);
      }
    }
  }

  lemma JoinAfterFirst(front: string, first: string, rest: seq<string>)
    ensures front + Text.Join('/', [first] + rest)
         == if rest == [] then front + first else front + first + "/" + Text.Join('/', rest)
  {
    assert ([first] + rest)[1..] == rest;
    if rest != [] {
      assert front + (first + "/" + Text.Join('/', rest)) == front + first + "/" + Text.Join('/', rest);
    }
  }

  /** A destination is the base itself, or its parts behind the front. */
  lemma DestinationOf(base: Base, place: string)
    requires place != ""
    ensures JoinDestination(base, place)
         == if IsBase(base, place) then base.path else Front(base) + Text.Join('/', PartsIn(base, place))
  {
    if base.Remote? {
      Text.JoinOfSplit('/', ReplaceBackslashes(place));
    } else {
      PartsAreClean(base, place);
      PushAllKept(base.path, SegmentsOf(place));
    }
  }

  lemma JoinIsInjective(a: seq<string>, b: seq<string>)
    requires a != [] && b != [] && Text.Join('/', a) == Text.Join('/', b)
    requires forall i :: 0 <= i < |a| ==> '/' !in a[i]
    requires forall i :: 0 <= i < |b| ==> '/' !in b[i]
    ensures a == b
  {
    Text.SplitOfJoin('/', a);
    Text.SplitOfJoin('/', b);
  }

  lemma BehindFront(front: string, a: seq<string>, b: seq<string>)
    requires a != [] && b != [] && AreClean(a) && AreClean(b)
    ensures front + Text.Join('/', a) == front + Text.Join('/', b) <==> a == b
  {
    if front + Text.Join('/', a) == front + Text.Join('/', b) {
      assert (front + Text.Join('/', a))[|front|..] == Text.Join('/', a);
      assert (front + Text.Join('/', b))[|front|..] == Text.Join('/', b);
      JoinIsInjective(a, b);
    }
  }

  /** Nothing is planned at the base itself but what has no parts. */
  lemma BehindFrontIsNotBase(path: string, place: string)
    requires !IsBase(Local(path), place)
    ensures Front(Local(path)) + Text.Join('/', PartsIn(Local(path), place)) != path
  {
    var parts := PartsIn(Local(path), place);
    KeptFrom(SegmentsOf(place));
    assert parts[0] in Kept(SegmentsOf(place));
    assert Text.Join('/', parts) != "";
  }

  /** Two places have the same destination exactly when their parts are the same. */
  lemma DestinationsDiffer(base: Base, a: string, b: string)
    requires a != "" && b != ""
    ensures JoinDestination(base, a) == JoinDestination(base, b) <==> PartsIn(base, a) == PartsIn(base, b)
  {
    DestinationOf(base, a);
    DestinationOf(base, b);
    PartsAreClean(base, a);
    PartsAreClean(base, b);
    if !IsBase(base, a) && !IsBase(base, b) {
      BehindFront(Front(base), PartsIn(base, a), PartsIn(base, b));
    } else if !IsBase(base, a) {
      BehindFrontIsNotBase(base.path, a);
    } else if !IsBase(base, b) {
      BehindFrontIsNotBase(base.path, b);
    }
  }

  /** Whatever has parts leads away from the base. */
  lemma NotTheBase(base: Base, place: string)
    requires place != "" && !IsBase(base, place)
    ensures JoinDestination(base, place) != JoinDestination(base, "")
  {
    DestinationOf(base, place);
    if base.Local? {
      BehindFrontIsNotBase(base.path, place);
    }
  }

  /** Below a server's path, nothing but the kind of their slashes may tell such places apart. */
  lemma RemotePartsDiffer(a: string, b: string)
    ensures SegmentsOf(a) == SegmentsOf(b) <==> ReplaceBackslashes(a) == ReplaceBackslashes(b)
  {
    Text.JoinOfSplit('/', ReplaceBackslashes(a));
    Text.JoinOfSplit('/', ReplaceBackslashes(b));
  }

  lemma DestinationIgnoresSlashKind(base: Base, a: string, b: string)
    requires ReplaceBackslashes(a) == ReplaceBackslashes(b)
    ensures JoinDestination(base, a) == JoinDestination(base, b)
  {
    assert a == "" <==> b == "";
  }

  // ---------------------------------------------------------------------------------------------
  // Separators of destinations

  function Separators(path: string): nat {
    if path == "" then 0 else (if IsSeparator(path[0]) then 1 else 0) + Separators(path[1..])
  }

  lemma {:induction false} SeparatorsInTurn(a: string, b: string)
    ensures Separators(a + b) == Separators(a) + Separators(b)
  {
    if a == "" {
      assert a + b == b;
    } else {
      assert (a + b)[1..] == a[1..] + b;
      SeparatorsInTurn(a[1..], b);
    }
  }

  lemma {:induction false} SeparatorsOfClean(s: string)
    requires '/' !in s && '\\' !in s
    ensures Separators(s) == 0
  {
    if s == "" {
    } else {
      assert s[0] in s;
      SeparatorsOfClean(s[1..]);
    }
  }

  lemma {:induction false} SeparatorsOfJoin(parts: seq<string>)
    requires parts != [] && AreClean(parts)
    ensures Separators(Text.Join('/', parts)) == |parts| - 1
  {
    SeparatorsOfClean(parts[0]);
    if |parts| == 1 {
    } else {
      SeparatorsOfJoin(parts[1..]);
      SeparatorsInTurn(parts[0] + "/", Text.Join('/', parts[1..]));
      SeparatorsInTurn(parts[0], "/");
      assert "/"[1..] == "";
    }
  }

  lemma SeparatorsOfDestination(base: Base, place: string)
    requires place != "" && !IsBase(base, place)
    ensures Separators(JoinDestination(base, place)) == Separators(Front(base)) + |PartsIn(base, place)| - 1
  {
    DestinationOf(base, place);
    PartsAreClean(base, place);
    SeparatorsOfJoin(PartsIn(base, place));
    SeparatorsInTurn(Front(base), Text.Join('/', PartsIn(base, place)));
  }

  // ---------------------------------------------------------------------------------------------
  // The directory that a destination is in

  lemma {:induction false} LastAfterSlash(s: string) returns (last: string)
    requires Paths.BeforeLastSlash(s).Some?
    ensures '/' !in last && s == Paths.BeforeLastSlash(s).value + "/" + last
  {
    if s[|s| - 1] == '/' {
      last := "";
      assert s == s[..|s| - 1] + "/";
    } else {
      var rest := LastAfterSlash(s[..|s| - 1]);
      last := rest + [s[|s| - 1]];
      assert s == s[..|s| - 1] + [s[|s| - 1]];
    }
  }

  lemma {:induction false} NoLastSlash(s: string)
    requires Paths.BeforeLastSlash(s).None?
    ensures '/' !in s
  {
    if s == "" {
    } else {
      NoLastSlash(s[..|s| - 1]);
      assert s == s[..|s| - 1] + [s[|s| - 1]];
    }
  }

  lemma KeptOfEdge(inner: string, whole: string)
    requires whole == "/" + inner || whole == inner + "/"
    ensures Kept(Text.Split('/', whole)) == Kept(Text.Split('/', inner))
            && |Text.Split('/', inner)| <= |Text.Split('/', whole)|
  {
    assert "/" + inner == "" + "/" + inner && inner + "/" == inner + "/" + "";
    assert Text.Split('/', "") == [""] && Kept([""]) == [];
    if whole == "/" + inner {
      Text.SplitOfConcat('/', "", inner);
      KeptInTurn([""], Text.Split('/', inner));
    } else {
      Text.SplitOfConcat('/', inner, "");
      KeptInTurn(Text.Split('/', inner), [""]);
    }
  }

  lemma {:induction false} PartsOfTrimmed(s: string)
    ensures Kept(SegmentsOf(TrimSeparators(s))) == Kept(SegmentsOf(s))
    ensures |SegmentsOf(TrimSeparators(s))| <= |SegmentsOf(s)|
    decreases |s|
  {
    if s != "" && IsSeparator(s[0]) {
      assert ReplaceBackslashes(s) == "/" + ReplaceBackslashes(s[1..]);
      KeptOfEdge(ReplaceBackslashes(s[1..]), ReplaceBackslashes(s));
      PartsOfTrimmed(s[1..]);
    } else if s != "" && IsSeparator(s[|s| - 1]) {
      var init := s[..|s| - 1];
      assert ReplaceBackslashes(s) == ReplaceBackslashes(init) + "/";
      KeptOfEdge(ReplaceBackslashes(init), ReplaceBackslashes(s));
      PartsOfTrimmed(init);
    } else {
    }
  }

  /** The parts of the place above are the first ones of the place itself. Locally it may have them all, as "a" has all
      the parts of "a/.". */
  lemma PartsOfParent(base: Base, place: string)
    ensures ParentRelative(place).Some? ==>
              var parts, above := PartsIn(base, place), PartsIn(base, ParentRelative(place).value);
              if base.Remote? then |above| < |parts|
                  else above == parts || (parts != [] && above == parts[..|parts| - 1])
    ensures ParentRelative(place).None? && base.Local? ==> |PartsIn(base, place)| <= 1
  {
    var normal := ReplaceBackslashes(TrimSeparators(place));
    PartsOfTrimmed(place);
    if Paths.BeforeLastSlash(normal).Some? {
      var front := Paths.BeforeLastSlash(normal).value;
      var last := LastAfterSlash(normal);
      SplitAtLast(normal, front, last);
      FrontOfNormal(TrimSeparators(place), front, last);
    } else {
      NoLastSlash(normal);
      Text.SplitOfPlain('/', normal);
      assert |Kept([normal])| <= 1;
    }
  }

  lemma FrontOfNormal(s: string, front: string, last: string)
    requires ReplaceBackslashes(s) == front + "/" + last
    ensures ReplaceBackslashes(front) == front
    ensures front == "" ==> Kept(Text.Split('/', front)) == []
  {
    forall c | c in front ensures c != '\\' {
      var i :| 0 <= i < |front| && front[i] == c;
      assert ReplaceBackslashes(s)[i] == c;
    }
    ReplaceNothing(front);
    assert Text.Split('/', "") == [""] && Kept([""]) == [];
  }

  lemma SplitAtLast(normal: string, front: string, last: string)
    requires normal == front + "/" + last && '/' !in last
    ensures Text.Split('/', normal) == Text.Split('/', front) + [last]
    ensures Kept(Text.Split('/', normal))
            == Kept(Text.Split('/', front)) + (if last == "" || last == "." then [] else [last])
  {
    Text.SplitOfConcat('/', front, last);
    Text.SplitOfPlain('/', last);
    KeptInTurn(Text.Split('/', front), [last]);
    assert [last][1..] == [];
  }

  /** The nearest place above that has another destination. */
  function DirectoryOf(base: Base, place: string): (r: Option<string>)
    decreases |place|
  {
    var parent := ParentRelative(place);
    if parent.None? || JoinDestination(base, parent.value) != JoinDestination(base, place) then parent
    else DirectoryOf(base, parent.value)
  }

  lemma ParentIsNotEmpty(place: string)
    requires ParentRelative(place).Some?
    ensures place != "" && ParentRelative(place).value != ""
  {
  }

  lemma {:induction false} DirectoryIsAbove(base: Base, place: string)
    requires DirectoryOf(base, place).Some?
    ensures DirectoryOf(base, place).value in Ancestors(place) && DirectoryOf(base, place).value != ""
    ensures JoinDestination(base, DirectoryOf(base, place).value) != JoinDestination(base, place)
    decreases |place|
  {
    var parent := ParentRelative(place).value;
    if JoinDestination(base, parent) == JoinDestination(base, place) {
      DirectoryIsAbove(base, parent);
    } else {
    }
  }

  /** Below a server's path the directory is the place above, and never the base. */
  lemma RemoteDirectory(base: Base, place: string)
    requires base.Remote?
    ensures DirectoryOf(base, place) == ParentRelative(place) && !IsBase(base, place)
  {
    if ParentRelative(place).Some? {
      PartsOfParent(base, place);
      DestinationsDiffer(base, ParentRelative(place).value, place);
    }
  }

  /** Below a local path the directory has all parts but the last. */
  lemma {:induction false} LocalDirectory(base: Base, place: string)
    requires base.Local? && place != ""
    ensures var parts, directory := PartsIn(base, place), DirectoryOf(base, place);
            && (|parts| >= 2 ==> directory.Some? && PartsIn(base, directory.value) == parts[..|parts| - 1])
            && (|parts| <= 1 && directory.Some? ==> IsBase(base, directory.value))
    decreases |place|
  {
    var parent := ParentRelative(place);
    PartsOfParent(base, place);
    if parent.Some? {
      DestinationsDiffer(base, parent.value, place);
      if JoinDestination(base, parent.value) == JoinDestination(base, place) {
        LocalDirectory(base, parent.value);
      }
    }
  }

  /** Its destination is told by the destination of the place. */
  lemma DirectoryOfSame(base: Base, a: string, b: string)
    requires a != "" && b != "" && JoinDestination(base, a) == JoinDestination(base, b)
    requires DirectoryOf(base, a).Some? && !IsBase(base, DirectoryOf(base, a).value)
    ensures DirectoryOf(base, b).Some? && !IsBase(base, DirectoryOf(base, b).value)
    ensures JoinDestination(base, DirectoryOf(base, a).value) == JoinDestination(base, DirectoryOf(base, b).value)
  {
    DestinationsDiffer(base, a, b);
    if base.Remote? {
      RemoteDirectory(base, a);
      RemoteDirectory(base, b);
      RemotePartsDiffer(a, b);
      ParentIgnoresSlashKind(a, b);
      RemoteDirectory(base, DirectoryOf(base, b).value);
    } else {
      LocalDirectory(base, a);
      LocalDirectory(base, b);
      DirectoryIsAbove(base, a);
      DirectoryIsAbove(base, b);
      DestinationsDiffer(base, DirectoryOf(base, a).value, DirectoryOf(base, b).value);
    }
  }

  /** A directory has fewer separators than what is in it. */
  lemma DirectoryHasFewer(base: Base, place: string)
    requires DirectoryOf(base, place).Some? && !IsBase(base, DirectoryOf(base, place).value)
    ensures Separators(JoinDestination(base, DirectoryOf(base, place).value)) < Separators(JoinDestination(base, place))
  {
    var directory := DirectoryOf(base, place).value;
    DirectoryIsAbove(base, place);
    assert place != "";
    if base.Remote? {
      RemoteDirectory(base, place);
      PartsOfParent(base, place);
    } else {
      LocalDirectory(base, place);
    }
    SeparatorsOfDestination(base, directory);
    SeparatorsOfDestination(base, place);
  }

  // ---------------------------------------------------------------------------------------------
  // Places that collide

  lemma DottedParts(x: string, name: string, after: string)
    requires x != "" && x != "." && '/' !in x && '\\' !in x && name == ".\\" + x && after == x + "/."
    ensures SegmentsOf(name) == [".", x] && SegmentsOf(after) == [x, "."] && SegmentsOf(x) == [x]
    ensures Kept([".", x]) == [x] && Kept([x, "."]) == [x] && Kept([x]) == [x]
  {
    ReplaceNothing(x);
    Text.SplitOfPlain('/', x);
    Text.SplitOfPlain('/', ".");
    assert ReplaceBackslashes(name) == "." + "/" + x && ReplaceBackslashes(after) == x + "/" + ".";
    SplitAtLast(ReplaceBackslashes(name), ".", x);
    SplitAtLast(ReplaceBackslashes(after), x, ".");
    assert [x, "."][1..] == ["."] && [".", x][1..] == [x] && [x][1..] == [];
  }

  /** On this computer ".\x" and "x" have one destination, and so have "a" and "a/.", which is above "a/./b". On a
      server they have different ones. */
  lemma DotsCollide(path: string, x: string, name: string)
    requires x != "" && x != "." && '/' !in x && '\\' !in x && name == ".\\" + x
    ensures JoinDestination(Local(path), name) == JoinDestination(Local(path), x)
            == JoinDestination(Local(path), x + "/.")
    ensures JoinDestination(Remote(path), name) != JoinDestination(Remote(path), x)
    ensures JoinDestination(Remote(path), x + "/.") != JoinDestination(Remote(path), x)
  {
    var after := x + "/.";
    DottedParts(x, name, after);
    DestinationsDiffer(Local(path), name, x);
    DestinationsDiffer(Local(path), after, x);
    DestinationsDiffer(Remote(path), name, x);
    DestinationsDiffer(Remote(path), after, x);
  }
}
