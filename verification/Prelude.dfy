/** Definitions shared by every other module: optional values, failures, and the stable sort that
    the Rust and TypeScript standard libraries provide. */
module Prelude {

  datatype Option<+T> = None | Some(value: T)

  datatype ErrorCode =
    | InvalidInput | NotFound | AlreadyExists | AuthenticationFailed | ConnectionClosed
    | Conflict | Unsupported | Io | Internal

  datatype AppError = AppError(code: ErrorCode, retryable: bool)

  datatype Result<+T> = Ok(value: T) | Err(error: AppError)

  /** An error that the application raises itself; those are never retryable. */
  function Failure(code: ErrorCode): AppError {
    AppError(code, false)
  }

  /** An error that trying again, or logging in again, does not help against. */
  predicate IsOwn(error: AppError) {
    !error.retryable && error.code != ConnectionClosed && error.code != AuthenticationFailed
  }

  function Min(a: nat, b: nat): nat {
    if a < b then a else b
  }

  predicate Distinct<T(==)>(xs: seq<T>) {
    forall i, j :: 0 <= i < j < |xs| ==> xs[i] != xs[j]
  }

  lemma Associative<T>(a: seq<T>, b: seq<T>, c: seq<T>)
    ensures (a + b) + c == a + (b + c)
  {
  }

  lemma SubsetIsSmaller<T>(a: set<T>, b: set<T>)
    requires a <= b
    ensures |a| <= |b|
  {
    assert b == a + (b - a);
  }

  /** What a listing says about a file. */
  datatype EntryKind = File | Directory | Symlink | Other

  datatype FileEntry = FileEntry(path: string, name: string, kind: EntryKind, symlinkTarget: Option<string>)

  predicate IsSeparator(c: char) {
    c == '/' || c == '\\'
  }

  // ---------------------------------------------------------------------------------------------
  // What a walk through directories still has to visit

  datatype Stop = Stop(path: string, depth: nat)

  function Stops(paths: seq<string>, depth: nat): (r: seq<Stop>)
    ensures |r| == |paths| && forall i :: 0 <= i < |r| ==> r[i] == Stop(paths[i], depth)
  {
    if paths == [] then [] else Stops(paths[..|paths| - 1], depth) + [Stop(paths[|paths| - 1], depth)]
  }

  // ---------------------------------------------------------------------------------------------
  // Stable sorting by an integer key

  predicate SortedBy<T>(xs: seq<T>, key: T -> int) {
    forall i, j :: 0 <= i < j < |xs| ==> key(xs[i]) <= key(xs[j])
  }

  /** The items of one key, in order. */
  function Class<T>(xs: seq<T>, key: T -> int, k: int): seq<T> {
    if xs == [] then []
    else if key(xs[0]) == k then [xs[0]] + Class(xs[1..], key, k)
    else Class(xs[1..], key, k)
  }

  /** ys is xs stably sorted: sorted, and the items of each key keep their order and number. */
  ghost predicate StablySorted<T>(xs: seq<T>, ys: seq<T>, key: T -> int) {
    && SortedBy(ys, key)
    && forall k :: Class(ys, key, k) == Class(xs, key, k)
  }

  function InsertByKey<T>(x: T, ys: seq<T>, key: T -> int): seq<T> {
    if ys == [] || key(x) <= key(ys[0]) then [x] + ys
    else [ys[0]] + InsertByKey(x, ys[1..], key)
  }

  function StableSort<T>(xs: seq<T>, key: T -> int): seq<T> {
    if xs == [] then [] else InsertByKey(xs[0], StableSort(xs[1..], key), key)
  }

  lemma {:induction false} InsertPermutes<T>(x: T, ys: seq<T>, key: T -> int)
    ensures multiset(InsertByKey(x, ys, key)) == multiset{x} + multiset(ys)
  {
    if ys == [] || key(x) <= key(ys[0]) {
    } else {
      InsertPermutes(x, ys[1..], key);
      assert ys == [ys[0]] + ys[1..];
    }
  }

  lemma FirstIsLeast<T>(first: T, x: T, rest: seq<T>, inserted: seq<T>, key: T -> int)
    requires multiset(inserted) == multiset{x} + multiset(rest)
    requires key(first) <= key(x) && forall j :: 0 <= j < |rest| ==> key(first) <= key(rest[j])
    ensures forall j :: 0 <= j < |inserted| ==> key(first) <= key(inserted[j])
  {
    forall j | 0 <= j < |inserted| ensures key(first) <= key(inserted[j]) {
      assert inserted[j] in multiset(inserted);
      assert inserted[j] == x || inserted[j] in rest;
    }
  }

  lemma {:induction false} InsertSorts<T>(x: T, ys: seq<T>, key: T -> int)
    requires SortedBy(ys, key)
    ensures SortedBy(InsertByKey(x, ys, key), key)
  {
    if ys == [] || key(x) <= key(ys[0]) {
    } else {
      var rest := ys[1..];
      InsertSorts(x, rest, key);
      InsertPermutes(x, rest, key);
      FirstIsLeast(ys[0], x, rest, InsertByKey(x, rest, key), key);
    }
  }

  lemma {:induction false} InsertKeepsClass<T>(x: T, ys: seq<T>, key: T -> int, k: int)
    ensures Class(InsertByKey(x, ys, key), key, k) == Class([x] + ys, key, k)
  {
    assert ([x] + ys)[1..] == ys;
    if !(ys == [] || key(x) <= key(ys[0])) {
      var rest := InsertByKey(x, ys[1..], key);
      InsertKeepsClass(x, ys[1..], key, k);
      assert ([ys[0]] + rest)[1..] == rest;
      assert ([x] + ys[1..])[1..] == ys[1..];
    }
  }

  lemma {:induction false} StableSortIsStable<T>(xs: seq<T>, key: T -> int)
    ensures StablySorted(xs, StableSort(xs, key), key)
    ensures multiset(StableSort(xs, key)) == multiset(xs)
  {
    if xs == [] {
    } else {
      var rest := StableSort(xs[1..], key);
      StableSortIsStable(xs[1..], key);
      assert xs == [xs[0]] + xs[1..];
      assert ([xs[0]] + rest)[1..] == rest;
      forall k ensures Class(InsertByKey(xs[0], rest, key), key, k) == Class(xs, key, k) {
        InsertKeepsClass(xs[0], rest, key, k);
      }
      InsertSorts(xs[0], rest, key);
      InsertPermutes(xs[0], rest, key);
    }
  }

  lemma {:induction false} ClassMembers<T>(xs: seq<T>, key: T -> int, k: int)
    ensures forall x :: x in Class(xs, key, k) <==> x in xs && key(x) == k
  {
    if xs == [] {
    } else {
      ClassMembers(xs[1..], key, k);
    }
  }

  ghost predicate ComesBefore<T>(xs: seq<T>, x: T, y: T) {
    exists a, b :: 0 <= a < b < |xs| && xs[a] == x && xs[b] == y
  }

  /** Some of the items, in the order that they have. */
  ghost predicate KeepsOrderOf<T>(some: seq<T>, xs: seq<T>) {
    forall i, j :: 0 <= i < j < |some| ==> ComesBefore(xs, some[i], some[j])
  }

  lemma ComesBeforeInTail<T>(xs: seq<T>, x: T, y: T)
    requires xs != [] && (ComesBefore(xs[1..], x, y) || (xs[0] == x && y in xs[1..]))
    ensures ComesBefore(xs, x, y)
  {
    if ComesBefore(xs[1..], x, y) {
      var a, b :| 0 <= a < b < |xs[1..]| && xs[1..][a] == x && xs[1..][b] == y;
      assert xs[a + 1] == x && xs[b + 1] == y;
    } else {
      var b :| 0 <= b < |xs[1..]| && xs[1..][b] == y;
      assert xs[0] == x && xs[b + 1] == y;
    }
  }

  lemma {:induction false} ClassHasPair<T>(xs: seq<T>, key: T -> int, k: int, i: nat, j: nat)
    requires i < j < |xs| && key(xs[i]) == k == key(xs[j])
    ensures ComesBefore(Class(xs, key, k), xs[i], xs[j])
  {
    var rest := xs[1..];
    var inRest := Class(rest, key, k);
    assert rest[j - 1] == xs[j];
    if i == 0 {
      ClassMembers(rest, key, k);
      assert Class(xs, key, k)[1..] == inRest;
      ComesBeforeInTail(Class(xs, key, k), xs[0], xs[j]);
    } else {
      ClassHasPair(rest, key, k, i - 1, j - 1);
      if key(xs[0]) == k {
        assert Class(xs, key, k)[1..] == inRest;
        ComesBeforeInTail(Class(xs, key, k), xs[i], xs[j]);
      }
    }
  }

  lemma {:induction false} ClassPairComesFrom<T>(xs: seq<T>, key: T -> int, k: int, x: T, y: T)
    requires ComesBefore(Class(xs, key, k), x, y)
    ensures ComesBefore(xs, x, y)
  {
    var class_, rest := Class(xs, key, k), xs[1..];
    ClassMembers(rest, key, k);
    if key(xs[0]) == k {
      var a, b :| 0 <= a < b < |class_| && class_[a] == x && class_[b] == y;
      assert class_[1..] == Class(rest, key, k);
      assert class_[1..][b - 1] == y;
      if a > 0 {
        assert class_[1..][a - 1] == x;
        ClassPairComesFrom(rest, key, k, x, y);
      }
    } else {
      ClassPairComesFrom(rest, key, k, x, y);
    }
    ComesBeforeInTail(xs, x, y);
  }

  /** After a stable sort, items of one key are in the order they were in. */
  lemma StableSortKeepsOrder<T>(xs: seq<T>, ys: seq<T>, key: T -> int, i: nat, j: nat)
    requires StablySorted(xs, ys, key) && i < j < |ys| && key(ys[i]) == key(ys[j])
    ensures ComesBefore(xs, ys[i], ys[j])
  {
    ClassHasPair(ys, key, key(ys[i]), i, j);
    assert Class(ys, key, key(ys[i])) == Class(xs, key, key(ys[i]));
    ClassPairComesFrom(xs, key, key(ys[i]), ys[i], ys[j]);
  }

  /** Sortedness and the order inside each class leave only one possible result. */
  lemma {:induction false} StablySortedIsUnique<T>(xs: seq<T>, ys: seq<T>, zs: seq<T>, key: T -> int)
    requires StablySorted(xs, ys, key) && StablySorted(xs, zs, key)
    ensures ys == zs
    decreases |ys|
  {
    if ys != [] {
      HeadIsInClass(ys, zs, key);
    }
    if zs != [] {
      HeadIsInClass(zs, ys, key);
      var k, m := key(ys[0]), key(zs[0]);
      ClassMembers(ys, key, m);
      ClassMembers(zs, key, k);
      assert zs[0] in ys && ys[0] in zs;
      assert k == m && ys[0] == Class(ys, key, k)[0] == Class(zs, key, k)[0] == zs[0];
      forall j ensures Class(ys[1..], key, j) == Class(zs[1..], key, j) {
        assert Class(ys, key, j) == Class(zs, key, j);
        if j == k {
          assert Class(ys[1..], key, j) == Class(ys, key, j)[1..];
          assert Class(zs[1..], key, j) == Class(zs, key, j)[1..];
        }
      }
      StablySortedIsUnique(ys[1..], ys[1..], zs[1..], key);
    }
  }

  lemma HeadIsInClass<T>(xs: seq<T>, others: seq<T>, key: T -> int)
    requires xs != [] && forall k :: Class(xs, key, k) == Class(others, key, k)
    ensures others != [] && xs[0] in Class(others, key, key(xs[0]))
  {
    assert Class(xs, key, key(xs[0])) == Class(others, key, key(xs[0]));
    assert xs[0] in Class(xs, key, key(xs[0]));
  }
}
