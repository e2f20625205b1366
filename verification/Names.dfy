/** File names that a transfer derives from its destination: the partial, the backup, and the numbered
    copies that the "keep both" policy tries. */
module Names {
  import opened Prelude

  type Path = string

  function PartialName(destination: Path, id: string): Path {
    destination + ".siftlane-part-" + id
  }

  function BackupName(destination: Path, id: string): Path {
    destination + ".siftlane-backup-" + id
  }

  lemma DerivedNamesDiffer(destination: Path, id: string)
    ensures PartialName(destination, id) != destination
    ensures BackupName(destination, id) != destination
    ensures PartialName(destination, id) != BackupName(destination, id)
  {
    assert |PartialName(destination, id)| == |destination| + 15 + |id|;
    assert |BackupName(destination, id)| == |destination| + 17 + |id|;
  }

  // ---------------------------------------------------------------------------------------------
  // Decimal numbers

  function Digit(n: nat): char
    requires n < 10
  {
    "0123456789"[n]
  }

  function Decimal(n: nat): (s: string)
    ensures |s| == 1 <==> n < 10
    ensures s != "" && forall c :: c in s ==> c in "0123456789"
  {
    if n < 10 then [Digit(n)] else Decimal(n / 10) + [Digit(n % 10)]
  }

  lemma {:induction false} DecimalIsInjective(m: nat, n: nat)
    requires Decimal(m) == Decimal(n)
    ensures m == n
    decreases m + n
  {
    var s, t := Decimal(m), Decimal(n);
    assert s[|s| - 1] == t[|t| - 1];
    if m >= 10 && n >= 10 {
      assert Decimal(m / 10) == s[..|s| - 1] == t[..|t| - 1] == Decimal(n / 10);
      DecimalIsInjective(m / 10, n / 10);
    }
  }

  /** The number that a decimal text stands for, digit by digit. */
  function Reads(text: string): int {
    if text == "" then 0 else 10 * Reads(text[..|text| - 1]) + (text[|text| - 1] as int - '0' as int)
  }

  /** A number written out is read back, and written without leading zeros. */
  lemma {:induction false} DecimalIsRead(n: nat)
    ensures Reads(Decimal(n)) == n && (Decimal(n)[0] == '0' ==> n == 0)
  {
    DigitIsRead(n % 10);
    if n < 10 {
      assert Decimal(n)[..0] == "";
    } else {
      DecimalIsRead(n / 10);
      assert Decimal(n)[..|Decimal(n)| - 1] == Decimal(n / 10);
    }
  }

  lemma DigitIsRead(n: nat)
    requires n < 10
    ensures Digit(n) as int - '0' as int == n
  {
    var digits := "0123456789";
    assert digits[n] as int - '0' as int == n;
  }

  // ---------------------------------------------------------------------------------------------
  // Numbered names

  /** Position just after the last character that satisfies the test, or zero. */
  function AfterLast(s: string, stops: char -> bool): (n: nat)
    ensures n <= |s|
    ensures n > 0 ==> stops(s[n - 1])
    ensures forall k :: n <= k < |s| ==> !stops(s[k])
  {
    if s == "" then 0
    else if stops(s[|s| - 1]) then |s|
    else AfterLast(s[..|s| - 1], stops)
  }

  predicate IsDot(c: char) {
    c == '.'
  }

  function ParentLength(path: Path): (n: nat)
    ensures n <= |path|
  {
    AfterLast(path, IsSeparator)
  }

  /** Directory part, up to and including the last separator. */
  function Parent(path: Path): Path {
    path[..ParentLength(path)]
  }

  function FileName(path: Path): string {
    path[ParentLength(path)..]
  }

  /** Length of the name without its extension; a leading dot starts no extension. */
  function StemLength(name: string): (n: nat)
    ensures n <= |name|
  {
    var dot := AfterLast(name, IsDot);
    if dot > 1 then dot - 1 else |name|
  }

  function Extension(name: string): string {
    name[StemLength(name)..]
  }

  function Mark(index: nat): string {
    " (" + Decimal(index) + ")"
  }

  function NumberedDestination(destination: Path, index: nat): Path {
    var name := FileName(destination);
    var stem := StemLength(name);
    Parent(destination) + name[..stem] + Mark(index) + name[stem..]
  }

  lemma {:induction false} AfterLastIsUnique(s: string, stops: char -> bool, n: nat)
    requires n <= |s| && (n > 0 ==> stops(s[n - 1])) && forall k :: n <= k < |s| ==> !stops(s[k])
    ensures AfterLast(s, stops) == n
  {
    var m := AfterLast(s, stops);
    assert (m > 0 ==> stops(s[m - 1])) && (n > 0 ==> stops(s[n - 1]));
  }

  /** A numbered copy lies in the same directory, keeps the extension, and is never the original. */
  lemma NumberedStaysBeside(destination: Path, index: nat)
    ensures var copy := NumberedDestination(destination, index);
            && Parent(copy) == Parent(destination)
            && Extension(FileName(copy)) == Extension(FileName(destination))
            && |copy| > |destination|
  {
    var parent, name := Parent(destination), FileName(destination);
    var stem := StemLength(name);
    var number := Mark(index);
    var copyName := name[..stem] + number + name[stem..];
    NumberedParts(destination, index);
    NoSeparatorInName(destination);
    NumberIsPlain(index);
    SplicedIsPlain(name, stem, number);
    FileNameOfJoin(parent, copyName);
    ExtensionOfNumbered(name, number);
  }

  lemma NumberIsPlain(index: nat)
    ensures forall c :: c in Mark(index) ==> !IsSeparator(c) && !IsDot(c)
  {
    forall c | c in Mark(index) ensures !IsSeparator(c) && !IsDot(c) {
      assert c in " (" || c in Decimal(index) || c in ")";
    }
  }

  lemma SplicedIsPlain(name: string, at: nat, number: string)
    requires at <= |name| && (forall c :: c in name ==> !IsSeparator(c)) && forall c :: c in number ==> !IsSeparator(c)
    ensures forall c :: c in name[..at] + number + name[at..] ==> !IsSeparator(c)
  {
  }

  lemma NumberedParts(destination: Path, index: nat)
    ensures var name := FileName(destination);
            var number := Mark(index);
            && NumberedDestination(destination, index)
               == Parent(destination) + (name[..StemLength(name)] + number + name[StemLength(name)..])
            && |NumberedDestination(destination, index)| == |destination| + |number|
  {
  }

  lemma NoSeparatorInName(destination: Path)
    ensures forall c :: c in FileName(destination) ==> !IsSeparator(c)
    ensures Parent(destination) == "" || IsSeparator(Parent(destination)[|Parent(destination)| - 1])
  {
    var name := FileName(destination);
    forall j | 0 <= j < |name| ensures !IsSeparator(name[j]) {
      assert name[j] == destination[ParentLength(destination) + j];
    }
  }

  lemma FileNameOfJoin(parent: Path, name: string)
    requires parent == "" || IsSeparator(parent[|parent| - 1])
    requires forall c :: c in name ==> !IsSeparator(c)
    ensures Parent(parent + name) == parent && FileName(parent + name) == name
  {
    var path := parent + name;
    forall k | |parent| <= k < |path| ensures !IsSeparator(path[k]) {
      assert path[k] in name;
    }
    AfterLastIsUnique(path, IsSeparator, |parent|);
  }

  lemma ExtensionOfNumbered(name: string, number: string)
    requires number != "" && forall c :: c in number ==> !IsDot(c)
    ensures var stem := StemLength(name);
            Extension(name[..stem] + number + name[stem..]) == Extension(name)
  {
    var stem, dot := StemLength(name), AfterLast(name, IsDot);
    var copyName := name[..stem] + number + name[stem..];
    if dot > 1 {
      var copyDot := dot + |number|;
      assert copyName[copyDot - 1] == name[dot - 1];
      forall k | copyDot <= k < |copyName| ensures !IsDot(copyName[k]) {
        assert copyName[k] == name[k - |number|];
      }
      AfterLastIsUnique(copyName, IsDot, copyDot);
    } else {
      assert name[..stem] == name && copyName == name + number;
      forall k | dot <= k < |copyName| ensures !IsDot(copyName[k]) {
        if k >= |name| {
          assert copyName[k] == number[k - |name|];
        }
      }
      AfterLastIsUnique(copyName, IsDot, dot);
    }
  }

  lemma BetweenIsInjective(head: string, a: string, b: string, tail: string)
    requires head + a + tail == head + b + tail
    ensures a == b
  {
    assert (head + a + tail)[|head|..|head + a|] == a && (head + b + tail)[|head|..|head + b|] == b;
  }

  lemma NumberIsBetween(destination: Path, n: nat, head: string, tail: string)
    requires var name := FileName(destination);
             head == Parent(destination) + name[..StemLength(name)] + " (" && tail == ")" + name[StemLength(name)..]
    ensures NumberedDestination(destination, n) == head + Decimal(n) + tail
  {
  }

  lemma NumberedIsInjective(destination: Path, m: nat, n: nat)
    requires NumberedDestination(destination, m) == NumberedDestination(destination, n)
    ensures m == n
  {
    var name := FileName(destination);
    var head := Parent(destination) + name[..StemLength(name)] + " (";
    var tail := ")" + name[StemLength(name)..];
    NumberIsBetween(destination, m, head, tail);
    NumberIsBetween(destination, n, head, tail);
    BetweenIsInjective(head, Decimal(m), Decimal(n), tail);
    DecimalIsInjective(m, n);
  }

  /** Where a number goes into a name: in front of the extension. */
  function MarkPosition(path: Path): (n: nat)
    ensures n <= |path|
    ensures n < |path| ==> path[n] == '.'
  {
    var stem := StemLength(FileName(path));
    assert stem < |FileName(path)| ==> FileName(path)[stem] == path[ParentLength(path) + stem];
    ParentLength(path) + stem
  }

  /** A copy of the original, or a copy of a copy: it goes on with a space where the original has its extension. */
  predicate IsBeside(original: Path, copy: Path) {
    var n := MarkPosition(original);
    n < MarkPosition(copy) && copy[..n] == original[..n] && copy[n] == ' '
  }

  lemma MarkFromEnd(path: Path)
    ensures MarkPosition(path) == |path| - |Extension(FileName(path))|
  {
  }

  lemma MarkIsInserted(destination: Path, index: nat)
    ensures var n := MarkPosition(destination);
            NumberedDestination(destination, index) == destination[..n] + Mark(index) + destination[n..]
  {
    var parent, name := Parent(destination), FileName(destination);
    var stem := StemLength(name);
    assert destination == parent + name;
    assert destination[..MarkPosition(destination)] == parent + name[..stem];
    assert destination[MarkPosition(destination)..] == name[stem..];
  }

  predicate HasNoSeparator(s: string) {
    '/' !in s && '\\' !in s
  }

  lemma PathIsTakenApart(directory: string, name: string)
    requires directory == "" || IsSeparator(directory[|directory| - 1])
    requires HasNoSeparator(name)
    ensures Parent(directory + name) == directory && FileName(directory + name) == name
  {
    var path, n := directory + name, |directory|;
    assert n > 0 ==> path[n - 1] == directory[n - 1];
    forall k | n <= k < |path| ensures !IsSeparator(path[k]) {
      assert path[k] == name[k - n] && name[k - n] in name;
    }
    AfterLastIsUnique(path, IsSeparator, n);
  }

  lemma StemIsFound(stem: string, extension: string)
    requires stem != "" && '.' !in extension
    ensures StemLength(stem + "." + extension) == |stem|
  {
    var name, n := stem + "." + extension, |stem| + 1;
    assert name[n - 1] == '.';
    forall k | n <= k < |name| ensures !IsDot(name[k]) {
      assert name[k] == extension[k - n] && extension[k - n] in extension;
    }
    AfterLastIsUnique(name, IsDot, n);
  }

  /** A copy's name in full: the number goes before the last dot of the name, if there is one that does not begin it. */
  lemma NumberedText(directory: string, stem: string, extension: string, index: nat)
    requires directory == "" || IsSeparator(directory[|directory| - 1])
    requires stem != "" && HasNoSeparator(stem) && HasNoSeparator(extension) && '.' !in extension
    ensures NumberedDestination(directory + (stem + "." + extension), index)
         == directory + stem + (" (" + Decimal(index) + ")") + ("." + extension)
  {
    var name := stem + "." + extension;
    assert name == stem + ("." + extension);
    PathIsTakenApart(directory, name);
    StemIsFound(stem, extension);
    StemAndRest(name, stem, "." + extension);
    NumberedByParts(directory + name, directory, name, stem, "." + extension, index);
  }

  lemma StemAndRest(name: string, stem: string, rest: string)
    requires name == stem + rest
    ensures name[..|stem|] == stem && name[|stem|..] == rest
  {
  }

  lemma NumberedByParts(destination: Path, directory: string, name: string, stem: string, rest: string, index: nat)
    requires Parent(destination) == directory && FileName(destination) == name && StemLength(name) == |stem| <= |name|
    requires name[..|stem|] == stem && name[|stem|..] == rest
    ensures NumberedDestination(destination, index) == directory + stem + (" (" + Decimal(index) + ")") + rest
  {
  }

  /** A name without a dot, or with none but at its beginning, is numbered at its end. */
  lemma NumberedAtItsEnd(directory: string, name: string, index: nat)
    requires directory == "" || IsSeparator(directory[|directory| - 1])
    requires HasNoSeparator(name) && forall i :: 0 < i < |name| ==> name[i] != '.'
    ensures NumberedDestination(directory + name, index) == directory + name + (" (" + Decimal(index) + ")")
  {
    PathIsTakenApart(directory, name);
    AfterLastIsUnique(name, IsDot, if name != "" && name[0] == '.' then 1 else 0);
    assert name[..|name|] == name && name[|name|..] == "";
    NothingBehind(directory + name + Mark(index));
  }

  lemma NothingBehind(s: string)
    ensures s + "" == s
  {
  }

  lemma MarkOfNumbered(destination: Path, index: nat)
    ensures var copy, n := NumberedDestination(destination, index), MarkPosition(destination);
            && MarkPosition(copy) == n + |Mark(index)|
            && copy[..n] == destination[..n] && copy[n] == ' '
  {
    var copy := NumberedDestination(destination, index);
    NumberedStaysBeside(destination, index);
    MarkIsInserted(destination, index);
    MarkFromEnd(destination);
    MarkFromEnd(copy);
    assert Mark(index)[0] == ' ';
  }

  lemma NumberedIsBeside(destination: Path, index: nat)
    ensures IsBeside(destination, NumberedDestination(destination, index))
  {
    MarkOfNumbered(destination, index);
  }

  lemma NumberedAgainIsBeside(original: Path, copy: Path, index: nat)
    requires IsBeside(original, copy)
    ensures IsBeside(original, NumberedDestination(copy, index))
  {
    MarkOfNumbered(copy, index);
    var next, n, m := NumberedDestination(copy, index), MarkPosition(original), MarkPosition(copy);
    assert next[..n] == next[..m][..n] == copy[..m][..n] == copy[..n];
    assert next[n] == next[..m][n] == copy[..m][n];
  }

  /** None of a copy's names is one of the original's. */
  lemma BesideIsApart(original: Path, copy: Path, id: string)
    requires IsBeside(original, copy)
    ensures {copy, PartialName(copy, id), BackupName(copy, id)}
            !! {original, PartialName(original, id), BackupName(original, id)}
  {
    var n := MarkPosition(original);
    assert copy[n] == ' ' && PartialName(copy, id)[n] == ' ' && BackupName(copy, id)[n] == ' ';
    assert PartialName(original, id)[n] == '.' && BackupName(original, id)[n] == '.';
    assert n < |original| ==> original[n] == '.';
    assert n == |original| ==> |copy| > |original|;
  }

  /** The copies numbered 2 to last. */
  function CandidatesUpTo(destination: Path, last: nat): set<Path> {
    set index | 2 <= index <= last :: NumberedDestination(destination, index)
  }

  lemma NextIsNew(destination: Path, last: nat)
    requires last > 1
    ensures NumberedDestination(destination, last) !in CandidatesUpTo(destination, last - 1)
    ensures CandidatesUpTo(destination, last)
         == CandidatesUpTo(destination, last - 1) + {NumberedDestination(destination, last)}
  {
    var next := NumberedDestination(destination, last);
    if next in CandidatesUpTo(destination, last - 1) {
      var index :| 2 <= index <= last - 1 && next == NumberedDestination(destination, index);
      NumberedIsInjective(destination, index, last);
    }
  }

  lemma {:induction false} CandidatesAreCounted(destination: Path, last: nat)
    requires last >= 1
    ensures |CandidatesUpTo(destination, last)| == last - 1
  {
    if last == 1 {
      assert CandidatesUpTo(destination, 1) == {};
    } else {
      CandidatesAreCounted(destination, last - 1);
      NextIsNew(destination, last);
    }
  }

  /** The search for a free name cannot fail in a directory of fewer than 9999 files. */
  lemma FewFilesLeaveACandidate(destination: Path, taken: set<Path>)
    requires |taken| < 9_999
    ensures exists index :: 2 <= index <= 10_000 && NumberedDestination(destination, index) !in taken
  {
    if forall index :: 2 <= index <= 10_000 ==> NumberedDestination(destination, index) in taken {
      CandidatesAreCounted(destination, 10_000);
      assert CandidatesUpTo(destination, 10_000) <= taken;
      SubsetIsSmaller(CandidatesUpTo(destination, 10_000), taken);
    }
  }
}
