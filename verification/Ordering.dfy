/** Names in lexicographic order without repetition: a BTreeSet of strings, or a sorted Set of them. */
module Ordering {

  predicate Less(a: string, b: string)
    decreases |b|
  {
    b != "" && (a == "" || a[0] < b[0] || (a[0] == b[0] && Less(a[1..], b[1..])))
  }

  lemma {:induction false} LessIsTotal(a: string, b: string)
    ensures Less(a, b) || a == b || Less(b, a)
    ensures !(Less(a, b) && Less(b, a)) && !Less(a, a)
    decreases |b|
  {
    LessIrreflexive(a);
    if a != "" && b != "" {
      LessIsTotal(a[1..], b[1..]);
      assert a == [a[0]] + a[1..] && b == [b[0]] + b[1..];
    }
  }

  lemma {:induction false} LessIrreflexive(a: string)
    ensures !Less(a, a)
  {
    if a == "" {
    } else {
      LessIrreflexive(a[1..]);
    }
  }

  lemma {:induction false} LessIsTransitive(a: string, b: string, c: string)
    requires Less(a, b) && Less(b, c)
    ensures Less(a, c)
    decreases |a|
  {
    if a != "" && a[0] == b[0] && b[0] == c[0] {
      LessIsTransitive(a[1..], b[1..], c[1..]);
    }
  }

  predicate IsSorted(names: seq<string>) {
    forall i, j :: 0 <= i < j < |names| ==> Less(names[i], names[j])
  }

  function Insert(names: seq<string>, x: string): seq<string> {
    if names == [] || Less(x, names[0]) then [x] + names
    else if names[0] == x then names
    else [names[0]] + Insert(names[1..], x)
  }

  /** Inserting keeps the order, adds the name and nothing else. */
  lemma {:induction false} InsertIsSorted(names: seq<string>, x: string)
    requires IsSorted(names)
    ensures IsSorted(Insert(names, x))
    ensures forall n :: n in Insert(names, x) <==> n in names || n == x
  {
    if names == [] {
    } else if Less(x, names[0]) {
      var more := [x] + names;
      forall i, j | 0 <= i < j < |more| ensures Less(more[i], more[j]) {
        if i == 0 && j > 1 {
          LessIsTransitive(x, names[0], names[j - 1]);
        }
      }
    } else if names[0] != x {
      LessIsTotal(names[0], x);
      InsertIsSorted(names[1..], x);
      var rest := Insert(names[1..], x);
      var more := [names[0]] + rest;
      forall i, j | 0 <= i < j < |more| ensures Less(more[i], more[j]) {
        if i == 0 {
          assert rest[j - 1] in rest;
        }
      }
    }
  }

  function InsertAll(names: seq<string>, more: seq<string>): seq<string>
    decreases more
  {
    if more == [] then names else InsertAll(Insert(names, more[0]), more[1..])
  }

  lemma {:induction false} InsertAllIsSorted(names: seq<string>, more: seq<string>)
    requires IsSorted(names)
    ensures IsSorted(InsertAll(names, more))
    ensures forall n :: n in InsertAll(names, more) <==> n in names || n in more
    decreases more
  {
    if more == [] {
    } else {
      InsertIsSorted(names, more[0]);
      InsertAllIsSorted(Insert(names, more[0]), more[1..]);
    }
  }

  lemma {:induction false} InsertAllInTurn(names: seq<string>, a: seq<string>, b: seq<string>)
    ensures InsertAll(InsertAll(names, a), b) == InsertAll(names, a + b)
    decreases a
  {
    if a == [] {
      assert a + b == b;
    } else {
      assert (a + b)[1..] == a[1..] + b;
      InsertAllInTurn(Insert(names, a[0]), a[1..], b);
    }
  }

  lemma InsertAllNone(names: seq<string>)
    ensures InsertAll(names, []) == names
  {
  }

  lemma InsertAllOne(names: seq<string>, x: string)
    ensures InsertAll(names, [x]) == Insert(names, x)
  {
    assert [x][1..] == [];
  }
}
