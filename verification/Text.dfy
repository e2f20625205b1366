/** Texts taken apart at a separator, and put together again. */
module Text {
  import opened Prelude

  function Split(separator: char, s: string): (parts: seq<string>)
    ensures parts != []
  {
    if s == "" then [""]
    else
      var rest := Split(separator, s[1..]);
      if s[0] == separator then [""] + rest else [[s[0]] + rest[0]] + rest[1..]
  }

  function Join(separator: char, parts: seq<string>): string {
    if parts == [] then ""
    else if |parts| == 1 then parts[0]
    else parts[0] + [separator] + Join(separator, parts[1..])
  }

  lemma {:induction false} SplitHasNone(separator: char, s: string)
    ensures forall p :: p in Split(separator, s) ==> separator !in p
  {
    if s == "" {
    } else {
      SplitHasNone(separator, s[1..]);
    }
  }

  lemma {:induction false} SplitKeepsChars(separator: char, s: string)
    ensures forall p, c :: p in Split(separator, s) && c in p ==> c in s
  {
    if s == "" {
    } else {
      SplitKeepsChars(separator, s[1..]);
    }
  }

  lemma {:induction false} SplitOfConcat(separator: char, a: string, b: string)
    ensures Split(separator, a + [separator] + b) == Split(separator, a) + Split(separator, b)
  {
    if a == "" {
      assert (a + [separator] + b)[1..] == b;
    } else {
      assert (a + [separator] + b)[1..] == a[1..] + [separator] + b;
      SplitOfConcat(separator, a[1..], b);
    }
  }

  lemma {:induction false} SplitOfPlain(separator: char, s: string)
    requires separator !in s
    ensures Split(separator, s) == [s]
  {
    if s == "" {
    } else {
      assert s == [s[0]] + s[1..] && s[0] != separator;
      SplitOfPlain(separator, s[1..]);
    }
  }

  lemma {:induction false} SplitOfJoin(separator: char, parts: seq<string>)
    requires parts != [] && forall i :: 0 <= i < |parts| ==> separator !in parts[i]
    ensures Split(separator, Join(separator, parts)) == parts
  {
    SplitOfPlain(separator, parts[0]);
    if |parts| > 1 {
      SplitOfConcat(separator, parts[0], Join(separator, parts[1..]));
      SplitOfJoin(separator, parts[1..]);
    }
  }

  lemma {:induction false} JoinOfSplit(separator: char, s: string)
    ensures Join(separator, Split(separator, s)) == s
  {
    if s == "" {
      assert Join(separator, [""]) == "";
    } else {
      var rest := Split(separator, s[1..]);
      JoinOfSplit(separator, s[1..]);
      assert s == [s[0]] + s[1..];
      if s[0] == separator {
        assert ([""] + rest)[1..] == rest;
      } else {
        JoinLongerFirst(separator, s[0], rest);
      }
    }
  }

  lemma JoinLongerFirst(separator: char, c: char, rest: seq<string>)
    requires rest != []
    ensures Join(separator, [[c] + rest[0]] + rest[1..]) == [c] + Join(separator, rest)
  {
    var parts := [[c] + rest[0]] + rest[1..];
    assert parts[1..] == rest[1..];
    if |rest| > 1 {
      Associative([c], rest[0] + [separator], Join(separator, rest[1..]));
      Associative([c], rest[0], [separator]);
    }
  }

  lemma {:induction false} JoinOfConcat(separator: char, a: seq<string>, b: seq<string>)
    requires a != [] && b != []
    ensures Join(separator, a + b) == Join(separator, a) + [separator] + Join(separator, b)
  {
    if |a| == 1 {
      assert (a + b)[1..] == b;
    } else {
      assert (a + b)[1..] == a[1..] + b;
      JoinOfConcat(separator, a[1..], b);
      Associative(a[0] + [separator], Join(separator, a[1..]) + [separator], Join(separator, b));
      Associative(a[0] + [separator], Join(separator, a[1..]), [separator]);
    }
  }
}
