/** Resolving remote paths: surrounding whitespace is dropped, and the segments are folded onto a stack. */
module Paths {
  import opened Prelude
  import Text

  /** White space in the sense of Unicode, which is what trimming removes. */
  predicate IsSpace(c: char) {
    || '\U{0009}' <= c <= '\U{000D}' || c == ' ' || c == '\U{0085}' || c == '\U{00A0}' || c == '\U{1680}'
    || '\U{2000}' <= c <= '\U{200A}' || c == '\U{2028}' || c == '\U{2029}' || c == '\U{202F}'
    || c == '\U{205F}' || c == '\U{3000}'
  }

  function TrimStart(s: string): string {
    if s != "" && IsSpace(s[0]) then TrimStart(s[1..]) else s
  }

  function TrimEnd(s: string): (r: string)
    ensures r <= s
    ensures r != "" ==> !IsSpace(r[|r| - 1])
  {
    if s != "" && IsSpace(s[|s| - 1]) then TrimEnd(s[..|s| - 1]) else s
  }

  function Trim(s: string): string {
    TrimEnd(TrimStart(s))
  }

  /** No whitespace at either end. */
  predicate IsTrimmed(s: string) {
    s == "" || (!IsSpace(s[0]) && !IsSpace(s[|s| - 1]))
  }

  function TrimSlashes(path: string): string {
    if path != "" && path[|path| - 1] == '/' then TrimSlashes(path[..|path| - 1]) else path
  }

  /** The text before the last slash, if there is a slash. */
  function BeforeLastSlash(s: string): (r: Option<string>)
    ensures r.Some? ==> |r.value| < |s|
  {
    if s == "" then None
    else if s[|s| - 1] == '/' then Some(s[..|s| - 1])
    else BeforeLastSlash(s[..|s| - 1])
  }

  /** One segment applied to the stack of segments before it. */
  function Push(stack: seq<string>, segment: string): seq<string> {
    if segment == "" || segment == "." then stack
    else if segment == ".." then (if stack == [] then [] else stack[..|stack| - 1])
    else stack + [segment]
  }

  function Resolve(stack: seq<string>, segments: seq<string>): seq<string>
    decreases segments
  {
    if segments == [] then stack else Resolve(Push(stack, segments[0]), segments[1..])
  }

  function Absolute(path: string): string {
    if Trim(path) == "" then "/" else Trim(path)
  }

  function Render(segments: seq<string>): string {
    "/" + Text.Join('/', segments)
  }

  /** The segments a path resolves to. */
  function Segments(path: string): seq<string> {
    Resolve([], Text.Split('/', Absolute(path)))
  }

  function Normalized(path: string): Result<string> {
    if '\0' in path then Err(Failure(InvalidInput)) else Ok(Render(Segments(path)))
  }

  method NormalizeRemotePath(path: string) returns (r: Result<string>)
    ensures r == Normalized(path)
  {
    if '\0' in path {
      return Err(Failure(InvalidInput));
    }
    var absolute := if Trim(path) == "" then "/" else Trim(path);
    var parts := Text.Split('/', absolute);
    var segments := [];
    for i := 0 to |parts|
      invariant Resolve(segments, parts[i..]) == Resolve([], parts)
    {
      assert parts[i..][0] == parts[i] && parts[i..][1..] == parts[i + 1..];
      match parts[i] {
        case "" =>
        case "." =>
        case ".." =>
          if segments != [] {
            segments := segments[..|segments| - 1];
          }
        case value =>
          segments := segments + [value];
      }
    }
    r := Ok("/" + Text.Join('/', segments));
  }

  // ---------------------------------------------------------------------------------------------
  // Facts about splitting and resolving

  predicate IsPlain(segment: string) {
    segment != "" && segment != "." && segment != ".." && '/' !in segment
  }

  predicate ArePlain(segments: seq<string>) {
    forall i :: 0 <= i < |segments| ==> IsPlain(segments[i])
  }

  lemma {:induction false} LastSlash(front: string, last: string)
    requires '/' !in last
    ensures BeforeLastSlash(front + "/" + last) == Some(front)
  {
    var s := front + "/" + last;
    if last == "" {
      assert s[..|s| - 1] == front;
    } else {
      var init := last[..|last| - 1];
      assert s[..|s| - 1] == front + "/" + init && s[|s| - 1] == last[|last| - 1];
      assert last[|last| - 1] in last;
      LastSlash(front, init);
    }
  }

  lemma {:induction false} NoSlash(s: string)
    requires '/' !in s
    ensures BeforeLastSlash(s) == None
  {
    if s == "" {
    } else {
      assert s[|s| - 1] in s;
      NoSlash(s[..|s| - 1]);
    }
  }

  lemma {:induction false} ResolveInTurn(stack: seq<string>, a: seq<string>, b: seq<string>)
    ensures Resolve(stack, a + b) == Resolve(Resolve(stack, a), b)
    decreases a
  {
    if a == [] {
      assert a + b == b;
    } else {
      assert (a + b)[1..] == a[1..] + b;
      ResolveInTurn(Push(stack, a[0]), a[1..], b);
    }
  }

  lemma {:induction false} ResolveOfPlain(stack: seq<string>, segments: seq<string>)
    requires ArePlain(segments)
    ensures Resolve(stack, segments) == stack + segments
    decreases segments
  {
    if segments == [] {
    } else {
      ResolveOfPlain(Push(stack, segments[0]), segments[1..]);
      assert IsPlain(segments[0]);
    }
  }

  lemma {:induction false} ResolveIsPlain(stack: seq<string>, segments: seq<string>)
    requires ArePlain(stack) && forall i :: 0 <= i < |segments| ==> '/' !in segments[i]
    ensures ArePlain(Resolve(stack, segments))
    decreases segments
  {
    if segments == [] {
    } else {
      ResolveIsPlain(Push(stack, segments[0]), segments[1..]);
    }
  }

  lemma SegmentsArePlain(path: string)
    ensures ArePlain(Segments(path))
  {
    Text.SplitHasNone('/', Absolute(path));
    ResolveIsPlain([], Text.Split('/', Absolute(path)));
  }

  lemma LeadingSlash(path: string, rest: string)
    requires path == "/" + rest
    ensures Resolve([], Text.Split('/', path)) == Resolve([], Text.Split('/', rest))
  {
    assert path[1..] == rest;
    assert ([""] + Text.Split('/', rest))[1..] == Text.Split('/', rest);
  }

  /** A rendered path splits into an empty segment and its own segments. */
  lemma RenderResolves(segments: seq<string>)
    requires ArePlain(segments)
    ensures Resolve([], Text.Split('/', Render(segments))) == segments
  {
    LeadingSlash(Render(segments), Text.Join('/', segments));
    if segments == [] {
      assert Text.Split('/', "") == [""] && Resolve([], [""]) == [];
    } else {
      Text.SplitOfJoin('/', segments);
      ResolveOfPlain([], segments);
    }
  }

  lemma RenderIsInjective(a: seq<string>, b: seq<string>)
    requires ArePlain(a) && ArePlain(b) && Render(a) == Render(b)
    ensures a == b
  {
    RenderResolves(a);
    RenderResolves(b);
  }

  lemma TrimmedStays(s: string)
    requires IsTrimmed(s)
    ensures Trim(s) == s
  {
  }

  lemma {:induction false} TrimEndIsMaximal(s: string, n: nat)
    requires n <= |s| && (n > 0 ==> !IsSpace(s[n - 1])) && forall i :: n <= i < |s| ==> IsSpace(s[i])
    ensures TrimEnd(s) == s[..n]
  {
    if n < |s| {
      assert s[..|s| - 1][..n] == s[..n];
      TrimEndIsMaximal(s[..|s| - 1], n);
    } else {
      assert s[..n] == s;
    }
  }

  lemma {:induction false} TrimEndDropsSpaces(s: string)
    ensures forall i :: |TrimEnd(s)| <= i < |s| ==> IsSpace(s[i])
  {
    if s != "" && IsSpace(s[|s| - 1]) {
      TrimEndDropsSpaces(s[..|s| - 1]);
    }
  }

  /** Trimming a path whose last part is s only trims that part, if anything of it is left. */
  lemma TrimEndOfTail(head: string, s: string)
    requires TrimEnd(s) != ""
    ensures TrimEnd(head + s) == head + TrimEnd(s)
  {
    TrimEndDropsSpaces(s);
    var n := |head| + |TrimEnd(s)|;
    assert (head + s)[..n] == head + TrimEnd(s);
    forall i | n <= i < |head + s| ensures IsSpace((head + s)[i]) {
      assert (head + s)[i] == s[i - |head|];
    }
    TrimEndIsMaximal(head + s, n);
  }

  predicate EndsInSpace(s: string) {
    s != "" && IsSpace(s[|s| - 1])
  }

  // ---------------------------------------------------------------------------------------------
  // Main results

  /** A normalized path is absolute, its segments are never empty, "." or "..", and they say it all. */
  lemma NormalizedIsCanonical(path: string)
    requires Normalized(path).Ok?
    ensures var r := Normalized(path).value;
            && r[0] == '/'
            && (r == "/" || ArePlain(Text.Split('/', r[1..])))
            && Resolve([], Text.Split('/', r)) == Segments(path)
  {
    SegmentsArePlain(path);
    var segments := Segments(path);
    RenderResolves(segments);
    assert Render(segments)[1..] == Text.Join('/', segments);
    if segments != [] {
      Text.SplitOfJoin('/', segments);
    } else {
      assert Render(segments) == "/";
    }
  }

  lemma NormalizeKeepsNullFree(path: string)
    requires '\0' !in path
    ensures '\0' !in Render(Segments(path))
  {
    var a := Absolute(path);
    AbsoluteIsPart(path);
    Text.SplitKeepsChars('/', a);
    ResolveKeeps([], Text.Split('/', a));
    var segments := Segments(path);
    assert forall s :: s in segments ==> '\0' !in s;
    JoinKeeps(segments);
  }

  lemma {:induction false} TrimStartIsPart(s: string)
    ensures forall c :: c in TrimStart(s) ==> c in s
  {
    if s != "" && IsSpace(s[0]) {
      TrimStartIsPart(s[1..]);
    }
  }

  lemma AbsoluteIsPart(path: string)
    ensures forall c :: c in Absolute(path) ==> c in path || c == '/'
  {
    TrimStartIsPart(path);
  }

  lemma {:induction false} ResolveKeeps(stack: seq<string>, segments: seq<string>)
    ensures forall s :: s in Resolve(stack, segments) ==> s in stack || s in segments
    decreases segments
  {
    if segments == [] {
    } else {
      ResolveKeeps(Push(stack, segments[0]), segments[1..]);
    }
  }

  lemma {:induction false} JoinKeeps(segments: seq<string>)
    requires forall s :: s in segments ==> '\0' !in s
    ensures '\0' !in Text.Join('/', segments)
  {
    if |segments| <= 1 {
    } else {
      JoinKeeps(segments[1..]);
    }
  }

  lemma ResolveBelow(a: string, n: string, b: string)
    requires Resolve([], Text.Split('/', a)) == Resolve([], Text.Split('/', n))
    ensures Resolve([], Text.Split('/', a + "/" + b)) == Resolve([], Text.Split('/', n + "/" + b))
  {
    Text.SplitOfConcat('/', a, b);
    Text.SplitOfConcat('/', n, b);
    ResolveInTurn([], Text.Split('/', a), Text.Split('/', b));
    ResolveInTurn([], Text.Split('/', n), Text.Split('/', b));
  }

  lemma SegmentsOfTrimmed(a: string)
    requires IsTrimmed(a)
    ensures Resolve([], Text.Split('/', a)) == Segments(a)
  {
    TrimmedStays(a);
    if a == "" {
      LeadingSlash("/", "");
    }
  }

  /** Resolving is compositional: a path below another one can be resolved against the resolved one. */
  lemma NormalizeIsCompositional(a: string, b: string)
    requires IsTrimmed(a) && IsTrimmed(b) && '\0' !in a
    ensures Normalized(a).Ok?
    ensures Normalized(a + "/" + b) == Normalized(Normalized(a).value + "/" + b)
  {
    var n := Normalized(a).value;
    NormalizeKeepsNullFree(a);
    SegmentsArePlain(a);
    SegmentsOfTrimmed(a);
    RenderResolves(Segments(a));
    ResolveBelow(a, n, b);
    TrimmedStays(a + "/" + b);
    TrimmedStays(n + "/" + b);
  }

  /** Normalizing twice is normalizing once exactly when the result does not end in whitespace: the last
      segment may, because only the input as a whole is trimmed. */
  lemma NormalizeTwice(path: string)
    requires '\0' !in path
    ensures var n := Normalized(path).value;
            Normalized(n) == Ok(n) <==> !EndsInSpace(n)
  {
    var segments := Segments(path);
    var n := Render(segments);
    NormalizeKeepsNullFree(path);
    SegmentsArePlain(path);
    RenderResolves(segments);
    assert n[0] == '/';
    if EndsInSpace(n) {
      // Trimming shortens the path, and resolving never lengthens one.
      assert TrimStart(n) == n;
      SlashStays(n);
      var t := Trim(n);
      assert |t| < |n| && Absolute(n) == t;
      ResolvingShortens(t);
      assert |Render(Segments(n))| <= |t|;
    } else {
      TrimmedStays(n);
    }
  }

  lemma SlashStays(n: string)
    requires n != "" && n[0] == '/'
    ensures Trim(n) != "" && Trim(n)[0] == '/'
  {
    TrimEndDropsSpaces(n);
  }

  function Weight(segments: seq<string>): nat {
    if segments == [] then 0 else |segments[0]| + 1 + Weight(segments[1..])
  }

  lemma {:induction false} WeightOfSplit(s: string)
    ensures Weight(Text.Split('/', s)) == |s| + 1
  {
    if s == "" {
    } else {
      WeightOfSplit(s[1..]);
    }
  }

  lemma {:induction false} WeightOfConcat(a: seq<string>, b: seq<string>)
    ensures Weight(a + b) == Weight(a) + Weight(b)
  {
    if a == [] {
      assert a + b == b;
    } else {
      assert (a + b)[1..] == a[1..] + b;
      WeightOfConcat(a[1..], b);
    }
  }

  lemma {:induction false} WeightOfResolve(stack: seq<string>, segments: seq<string>)
    ensures Weight(Resolve(stack, segments)) <= Weight(stack) + Weight(segments)
    decreases segments
  {
    if segments == [] {
    } else {
      var next := Push(stack, segments[0]);
      WeightOfResolve(next, segments[1..]);
      WeightOfConcat(stack, [segments[0]]);
      if stack != [] {
        assert stack == stack[..|stack| - 1] + [stack[|stack| - 1]];
        WeightOfConcat(stack[..|stack| - 1], [stack[|stack| - 1]]);
      }
    }
  }

  lemma {:induction false} WeightOfJoin(segments: seq<string>)
    requires segments != []
    ensures |Text.Join('/', segments)| + 1 == Weight(segments)
  {
    if |segments| <= 1 {
    } else {
      WeightOfJoin(segments[1..]);
    }
  }

  /** An absolute path never gets longer by resolving it. */
  lemma ResolvingShortens(t: string)
    requires t != "" && t[0] == '/'
    ensures |Render(Resolve([], Text.Split('/', t)))| <= |t|
  {
    var rest := Text.Split('/', t[1..]);
    assert Text.Split('/', t) == [""] + rest && ([""] + rest)[1..] == rest;
    assert Resolve([], Text.Split('/', t)) == Resolve([], rest);
    WeightOfSplit(t[1..]);
    WeightOfResolve([], rest);
    if Resolve([], rest) != [] {
      WeightOfJoin(Resolve([], rest));
    }
  }

  // ---------------------------------------------------------------------------------------------
  // Creating an entry

  predicate IsValidName(name: string) {
    Trim(name) != "" && name != "." && name != ".." && '/' !in name && '\\' !in name && '\0' !in name
  }

  /** Where a new entry of this name goes, below the given directory. */
  function EntryPath(parentPath: string, name: string): Result<string> {
    if !IsValidName(name) then Err(Failure(InvalidInput))
    else
      var parent := Normalized(parentPath);
      if parent.Err? then parent else Normalized(TrimSlashes(parent.value) + "/" + name)
  }

  lemma {:induction false} TrimStartKeepsEnd(s: string)
    ensures Trim(s) != "" ==> TrimEnd(s) != ""
  {
    if TrimEnd(s) == "" {
      TrimEndDropsSpaces(s);
      AllSpaces(s);
    }
  }

  lemma {:induction false} AllSpaces(s: string)
    requires forall i :: 0 <= i < |s| ==> IsSpace(s[i])
    ensures TrimStart(s) == ""
  {
    if s == "" {
    } else {
      AllSpaces(s[1..]);
    }
  }

  lemma ParentWithoutSlashes(segments: seq<string>)
    requires ArePlain(segments)
    ensures TrimSlashes(Render(segments)) == if segments == [] then "" else Render(segments)
  {
    if segments == [] {
      assert Render(segments) == "/" && "/"[..0] == "" && TrimSlashes("/") == TrimSlashes("");
    } else {
      JoinEndsPlain(segments);
    }
  }

  lemma {:induction false} JoinEndsPlain(segments: seq<string>)
    requires segments != [] && ArePlain(segments)
    ensures Text.Join('/', segments) != "" && Text.Join('/', segments)[|Text.Join('/', segments)| - 1] != '/'
  {
    assert IsPlain(segments[0]);
    if |segments| > 1 {
      JoinEndsPlain(segments[1..]);
    }
  }

  /** The characters that count as whitespace in Unicode, one by one. */
  lemma SpacesAreListed(c: char)
    ensures IsSpace(c) <==> c in "\t\n\U{B}\U{C}\r \U{85}\U{A0}\U{1680}\U{2000}\U{2001}\U{2002}\U{2003}\U{2004}\U{2005}"
                             || c in "\U{2006}\U{2007}\U{2008}\U{2009}\U{200A}\U{2028}\U{2029}\U{202F}\U{205F}\U{3000}"
  {
  }

  lemma {:induction false} TrimEndIsEmpty(s: string)
    ensures TrimEnd(s) == "" <==> forall i :: 0 <= i < |s| ==> IsSpace(s[i])
  {
    if s != "" && IsSpace(s[|s| - 1]) {
      TrimEndIsEmpty(s[..|s| - 1]);
    }
  }

  lemma {:induction false} TrimStartIsATail(s: string)
    ensures exists n :: 0 <= n <= |s| && TrimStart(s) == s[n..] && forall i :: 0 <= i < n ==> IsSpace(s[i])
  {
    if s != "" && IsSpace(s[0]) {
      TrimStartIsATail(s[1..]);
      var n :| 0 <= n <= |s[1..]| && TrimStart(s[1..]) == s[1..][n..] && forall i :: 0 <= i < n ==> IsSpace(s[1..][i]);
      assert s[1..][n..] == s[n + 1..];
      assert forall i :: 1 <= i <= n ==> s[i] == s[1..][i - 1];
    } else {
      assert s[0..] == s;
    }
  }

  lemma TrimIsEmpty(s: string)
    ensures Trim(s) == "" <==> forall i :: 0 <= i < |s| ==> IsSpace(s[i])
  {
    TrimStartIsATail(s);
    var n :| 0 <= n <= |s| && TrimStart(s) == s[n..] && forall i :: 0 <= i < n ==> IsSpace(s[i]);
    TrimEndIsEmpty(s[n..]);
    assert forall i :: n <= i < |s| ==> s[i] == s[n..][i - n];
  }

  /** Which names a new entry may have: those that are not all whitespace, neither "." nor "..", and free of slashes,
      backslashes and null bytes. */
  lemma NewNamesAreChecked(parentPath: string, name: string)
    requires '\0' !in parentPath
    ensures EntryPath(parentPath, name).Ok? <==>
              && (exists i :: 0 <= i < |name| && !IsSpace(name[i]))
              && name != "." && name != ".."
              && (forall i :: 0 <= i < |name| ==> name[i] != '/' && name[i] != '\\' && name[i] != '\0')
    ensures EntryPath(parentPath, name).Err? ==> EntryPath(parentPath, name).error == Failure(InvalidInput)
  {
    TrimIsEmpty(name);
    if IsValidName(name) {
      EntryPathResolves(parentPath, name);
    }
  }

  /** The path of a new entry is the directory's with the trimmed name resolved below it. */
  lemma EntryPathResolves(parentPath: string, name: string)
    requires '\0' !in parentPath && IsValidName(name)
    ensures EntryPath(parentPath, name) == Ok(Render(Push(Segments(parentPath), TrimEnd(name))))
  {
    var segments := Segments(parentPath);
    NormalizeKeepsNullFree(parentPath);
    SegmentsArePlain(parentPath);
    ParentWithoutSlashes(segments);
    TrimStartKeepsEnd(name);
    var head := TrimSlashes(Render(segments));
    var path := head + "/" + name;
    assert path == (head + "/") + name && TrimStart(path) == path;
    TrimEndOfTail(head + "/", name);
    assert Absolute(path) == head + "/" + TrimEnd(name);
    Text.SplitOfConcat('/', head, TrimEnd(name));
    Text.SplitOfPlain('/', TrimEnd(name));
    ResolveInTurn([], Text.Split('/', head), [TrimEnd(name)]);
    RenderResolves(segments);
    assert Resolve([], Text.Split('/', "")) == [];
    assert Resolve(segments, [TrimEnd(name)]) == Push(segments, TrimEnd(name));
  }

  /** A new entry gets its very name, directly in its directory, exactly when the name does not end in
      whitespace. A name such as ".. " passes the validation and resolves to the directory above. */
  lemma EntryLandsInItsDirectory(parentPath: string, name: string)
    requires '\0' !in parentPath && IsValidName(name)
    ensures EntryPath(parentPath, name) == Ok(Render(Segments(parentPath) + [name])) <==> !EndsInSpace(name)
  {
    var segments, trimmed := Segments(parentPath), TrimEnd(name);
    EntryPathResolves(parentPath, name);
    SegmentsArePlain(parentPath);
    assert IsPlain(name);
    if EndsInSpace(name) {
      TrimStartKeepsEnd(name);
      assert trimmed != name;
      var got := Push(segments, trimmed);
      assert ArePlain(got) && ArePlain(segments + [name]);
      assert |got| == |segments| + 1 ==> got[|segments|] == trimmed;
      assert (segments + [name])[|segments|] == name;
      assert got != segments + [name];
      if Render(got) == Render(segments + [name]) {
        RenderIsInjective(got, segments + [name]);
      }
    }
  }
}
