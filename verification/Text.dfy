/** The string operations the models share: Go's strings, strconv and sort functions on sequences of code points. */
module Text {

  // ---------------------------------------------------------------- order and sorting

  /** Go's byte order on strings, which for UTF-8 is the code point order. */
  predicate LessEq(a: string, b: string) {
    if a == "" then true
    else if b == "" then false
    else if a[0] != b[0] then a[0] < b[0]
    else LessEq(a[1..], b[1..])
  }

  lemma {:induction false} LessEqTotal(a: string, b: string)
    ensures LessEq(a, b) || LessEq(b, a)
    ensures LessEq(a, b) && LessEq(b, a) ==> a == b
  {
    if a != "" && b != "" && a[0] == b[0] {
      LessEqTotal(a[1..], b[1..]);
      assert a == [a[0]] + a[1..] && b == [b[0]] + b[1..];
    }
  }

  lemma {:induction false} LessEqTransitive(a: string, b: string, c: string)
    requires LessEq(a, b) && LessEq(b, c)
    ensures LessEq(a, c)
  {
    if a != "" && b != "" && c != "" && a[0] == b[0] && b[0] == c[0] {
      LessEqTransitive(a[1..], b[1..], c[1..]);
    }
  }

  /** At place i the strings part, the first having the smaller character. */
  predicate PartsAt(a: string, b: string, i: nat) {
    i < |a| && i < |b| && a[..i] == b[..i] && a[i] < b[i]
  }

  /** The order of a dictionary: a prefix comes first, and otherwise the first difference decides. */
  lemma {:induction false} LessEqIsLexicographic(a: string, b: string)
    ensures LessEq(a, b) <==> a <= b || exists i: nat :: PartsAt(a, b, i)
  {
    if a != "" && b != "" {
      LessEqIsLexicographic(a[1..], b[1..]);
      if a[0] == b[0] {
        PartingShifts(a, b);
      } else {
        assert PartsAt(a, b, 0) <==> a[0] < b[0];
      }
    }
  }

  lemma PartingShifts(a: string, b: string)
    requires a != "" && b != "" && a[0] == b[0]
    ensures a <= b <==> a[1..] <= b[1..]
    ensures (exists i: nat :: PartsAt(a, b, i)) <==> exists i: nat :: PartsAt(a[1..], b[1..], i)
  {
    assert a == [a[0]] + a[1..] && b == [b[0]] + b[1..];
    if i: nat :| PartsAt(a, b, i) {
      assert i > 0 && a[1..][..i - 1] == a[..i][1..] && b[1..][..i - 1] == b[..i][1..];
      assert PartsAt(a[1..], b[1..], i - 1);
    }
    if i: nat :| PartsAt(a[1..], b[1..], i) {
      assert a[..i + 1] == [a[0]] + a[1..][..i] && b[..i + 1] == [b[0]] + b[1..][..i];
      assert PartsAt(a, b, i + 1);
    }
  }

  predicate Sorted(xs: seq<string>) {
    forall i, j | 0 <= i < j < |xs| :: LessEq(xs[i], xs[j])
  }

  function Insert(x: string, xs: seq<string>): (r: seq<string>)
    ensures multiset(r) == multiset(xs) + multiset{x}
  {
    if xs == [] then [x]
    else if LessEq(x, xs[0]) then [x] + xs
    else
      assert xs == [xs[0]] + xs[1..];
      [xs[0]] + Insert(x, xs[1..])
  }

  lemma {:induction false} InsertSorted(x: string, xs: seq<string>)
    requires Sorted(xs)
    ensures Sorted(Insert(x, xs))
  {
    if xs != [] {
      LessEqTotal(x, xs[0]);
      if LessEq(x, xs[0]) {
        forall j | 0 <= j < |xs|
          ensures LessEq(x, xs[j])
        {
          if j > 0 { LessEqTransitive(x, xs[0], xs[j]); }
        }
      } else {
        InsertSorted(x, xs[1..]);
        var tail := Insert(x, xs[1..]);
        forall j | 0 <= j < |tail|
          ensures LessEq(xs[0], tail[j])
        {
          assert tail[j] in multiset(tail);
          assert tail[j] == x || tail[j] in xs[1..];
        }
      }
    }
  }

  function Sort(xs: seq<string>): (r: seq<string>)
    ensures multiset(r) == multiset(xs)
  {
    if xs == [] then []
    else
      assert xs == [xs[0]] + xs[1..];
      Insert(xs[0], Sort(xs[1..]))
  }

  lemma {:induction false} SortSorts(xs: seq<string>)
    ensures Sorted(Sort(xs))
  {
    if xs != [] {
      SortSorts(xs[1..]);
      InsertSorted(xs[0], Sort(xs[1..]));
    }
  }

  lemma SameHead(xs: seq<string>, ys: seq<string>)
    requires Sorted(xs) && Sorted(ys) && multiset(xs) == multiset(ys) && xs != [] && ys != []
    ensures xs[0] == ys[0]
  {
    assert xs[0] in multiset(ys) && ys[0] in multiset(xs);
    var i :| 0 <= i < |ys| && ys[i] == xs[0];
    var j :| 0 <= j < |xs| && xs[j] == ys[0];
    LessEqTotal(xs[0], ys[0]);
  }

  /** There is only one sorted arrangement, so iteration order cannot show in sorted output. */
  lemma {:induction false} SortedUnique(xs: seq<string>, ys: seq<string>)
    requires Sorted(xs) && Sorted(ys) && multiset(xs) == multiset(ys)
    ensures xs == ys
  {
    assert |multiset(xs)| == |multiset(ys)|;
    if xs != [] && ys != [] {
      SameHead(xs, ys);
      assert xs == [xs[0]] + xs[1..] && ys == [ys[0]] + ys[1..];
      assert multiset(xs[1..]) == multiset(xs) - multiset{xs[0]};
      assert multiset(ys[1..]) == multiset(ys) - multiset{ys[0]};
      SortedUnique(xs[1..], ys[1..]);
    }
  }

  /** The members of a set in some order, without repetition. */
  ghost predicate Enumerates(xs: seq<string>, s: set<string>) {
    multiset(xs) == multiset(s)
  }

  lemma RepeatedTwice(xs: seq<string>, i: nat, j: nat)
    requires i < j < |xs| && xs[i] == xs[j]
    ensures multiset(xs)[xs[i]] >= 2
  {
    assert xs == xs[..i] + [xs[i]] + xs[i + 1..j] + [xs[j]] + xs[j + 1..];
  }

  lemma EnumerationMembers(xs: seq<string>, s: set<string>)
    requires Enumerates(xs, s)
    ensures forall x :: x in xs <==> x in s
    ensures forall i, j | 0 <= i < j < |xs| :: xs[i] != xs[j]
  {
    forall x
      ensures x in xs <==> x in s
    {
      assert x in xs <==> x in multiset(xs);
    }
    forall i, j | 0 <= i < j < |xs|
      ensures xs[i] != xs[j]
    {
      if xs[i] == xs[j] { RepeatedTwice(xs, i, j); }
    }
  }

  ghost function Listing(s: set<string>): (xs: seq<string>)
    ensures Enumerates(xs, s)
  {
    if s == {} then []
    else
      var x :| x in s;
      assert multiset(s) == multiset(s - {x}) + multiset{x};
      [x] + Listing(s - {x})
  }

  /** The members of a set in increasing order. */
  ghost function InOrder(s: set<string>): (xs: seq<string>)
    ensures Enumerates(xs, s)
  {
    Sort(Listing(s))
  }

  lemma SortIsInOrder(xs: seq<string>, s: set<string>)
    requires Enumerates(xs, s)
    ensures Sort(xs) == InOrder(s)
  {
    SortSorts(xs);
    SortSorts(Listing(s));
    SortedUnique(Sort(xs), InOrder(s));
  }

  /** Collecting a map's keys in whatever order it yields them and sorting them always gives the same sequence. */
  method SortedKeys(s: set<string>) returns (keys: seq<string>)
    ensures keys == InOrder(s)
  {
    keys := [];
    var rest := s;
    while rest != {}
      invariant multiset(keys) + multiset(rest) == multiset(s)
      decreases |rest|
    {
      var key :| key in rest;
      assert multiset(rest) == multiset(rest - {key}) + multiset{key};
      keys := keys + [key];
      rest := rest - {key};
    }
    SortIsInOrder(keys, s);
    keys := Sort(keys);
  }

  // ---------------------------------------------------------------- joining and splitting

  function Join(parts: seq<string>, sep: string): string {
    if parts == [] then ""
    else if |parts| == 1 then parts[0]
    else parts[0] + sep + Join(parts[1..], sep)
  }

  /** strings.Split for a one-character separator. */
  function Split(s: string, sep: char): (parts: seq<string>)
    ensures |parts| >= 1
  {
    if s == "" then [""] else Prepend(s[0], sep, Split(s[1..], sep))
  }

  lemma {:induction false} SplitParts(s: string, sep: char)
    ensures forall p | p in Split(s, sep) :: sep !in p
    ensures Join(Split(s, sep), [sep]) == s
  {
    if s != "" {
      SplitParts(s[1..], sep);
      var rest := Split(s[1..], sep);
      assert rest == [rest[0]] + rest[1..];
      assert s == [s[0]] + s[1..];
      if s[0] == sep {
        assert Split(s, sep)[1..] == rest;
      } else {
        var parts := Split(s, sep);
        assert parts[1..] == rest[1..];
        if |rest| > 1 {
          assert Join(parts, [sep]) == [s[0]] + (rest[0] + [sep] + Join(rest[1..], [sep]));
        }
      }
    }
  }

  /** One more character in front: a separator starts a new part, anything else lengthens the first. */
  function Prepend(c: char, sep: char, parts: seq<string>): seq<string>
    requires parts != []
  {
    if c == sep then [""] + parts else [[c] + parts[0]] + parts[1..]
  }

  lemma PrependAppend(c: char, sep: char, a: seq<string>, b: seq<string>)
    requires a != []
    ensures Prepend(c, sep, a + b) == Prepend(c, sep, a) + b
  {
  }

  lemma {:induction false} SplitConcat(a: string, sep: char, b: string)
    ensures Split(a + [sep] + b, sep) == Split(a, sep) + Split(b, sep)
  {
    var s := a + [sep] + b;
    if a == "" {
      assert s[1..] == b;
    } else {
      SplitConcat(a[1..], sep, b);
      assert s[1..] == a[1..] + [sep] + b;
      PrependAppend(a[0], sep, Split(a[1..], sep), Split(b, sep));
    }
  }

  lemma {:induction false} SplitNone(s: string, sep: char)
    requires sep !in s
    ensures Split(s, sep) == [s]
  {
    if s != "" {
      SplitNone(s[1..], sep);
      assert s == [s[0]] + s[1..];
    }
  }

  /** Splitting undoes joining, for parts without the separator. */
  lemma {:induction false} SplitOfJoin(parts: seq<string>, sep: char)
    requires parts != [] && forall p | p in parts :: sep !in p
    ensures Split(Join(parts, [sep]), sep) == parts
  {
    SplitNone(parts[0], sep);
    if |parts| > 1 {
      SplitOfJoin(parts[1..], sep);
      SplitConcat(parts[0], sep, Join(parts[1..], [sep]));
      assert parts == [parts[0]] + parts[1..];
    } else {
      assert parts == [parts[0]];
    }
  }

  /** Text free of the separator before a string only lengthens the first part. */
  lemma {:induction false} SplitPrefix(p: string, s: string, sep: char)
    requires sep !in p
    ensures Split(p + s, sep) == [p + Split(s, sep)[0]] + Split(s, sep)[1..]
  {
    if p == "" {
      assert p + s == s;
      assert p + Split(s, sep)[0] == Split(s, sep)[0];
    } else {
      SplitPrefix(p[1..], s, sep);
      assert (p + s)[1..] == p[1..] + s;
      var rest := Split(p[1..] + s, sep);
      assert [p[0]] + rest[0] == p + Split(s, sep)[0];
    }
  }

  // ---------------------------------------------------------------- whitespace-separated fields

  /** unicode.IsSpace */
  predicate IsSpace(c: char) {
    || c in {'\t', '\n', '\U{0B}', '\U{0C}', '\r', ' ', '\U{85}', '\U{A0}', '\U{1680}', '\U{2028}', '\U{2029}',
             '\U{202F}', '\U{205F}', '\U{3000}'}
    || '\U{2000}' <= c <= '\U{200A}'
  }

  predicate SpaceFree(s: string) {
    forall c | c in s :: !IsSpace(c)
  }

  /** The length of the leading run of non-space characters. */
  function WordLength(s: string): (n: nat)
    ensures n <= |s|
    ensures SpaceFree(s[..n])
    ensures n < |s| ==> IsSpace(s[n])
  {
    if s == "" || IsSpace(s[0]) then 0
    else
      var n := WordLength(s[1..]);
      assert s[..n + 1] == [s[0]] + s[1..][..n];
      n + 1
  }

  /** strings.Fields */
  function Fields(s: string): (words: seq<string>)
    decreases |s|
  {
    if s == "" then []
    else if IsSpace(s[0]) then Fields(s[1..])
    else
      var n := WordLength(s);
      [s[..n]] + Fields(s[n..])
  }

  lemma {:induction false} FieldsAreWords(s: string)
    ensures AllWords(Fields(s))
    decreases |s|
  {
    if s != "" {
      if IsSpace(s[0]) {
        FieldsAreWords(s[1..]);
      } else {
        FieldsAreWords(s[WordLength(s)..]);
      }
    }
  }

  lemma {:induction false} WordLengthConcat(a: string, b: string)
    requires a == "" ==> b == "" || IsSpace(b[0])
    requires b != "" ==> IsSpace(b[0])
    ensures WordLength(a + b) == WordLength(a)
  {
    if a == "" {
      assert a + b == b;
    } else {
      assert (a + b)[1..] == a[1..] + b;
      WordLengthConcat(a[1..], b);
    }
  }

  /** A space separates: the fields of a string around a space are the fields of its two sides. */
  lemma {:induction false} FieldsConcat(a: string, b: string)
    ensures Fields(a + " " + b) == Fields(a) + Fields(b)
    decreases |a|
  {
    var s := a + " " + b;
    if a == "" {
      assert s[1..] == b;
    } else if IsSpace(a[0]) {
      assert s[1..] == a[1..] + " " + b;
      FieldsConcat(a[1..], b);
    } else {
      var n := WordLength(a);
      assert s == a + (" " + b);
      WordLengthConcat(a, " " + b);
      assert s[..n] == a[..n];
      assert s[n..] == a[n..] + " " + b;
      FieldsConcat(a[n..], b);
      assert Fields(s) == [s[..n]] + Fields(s[n..]);
      assert Fields(a) == [a[..n]] + Fields(a[n..]);
    }
  }

  lemma {:induction false} SpaceFreeWordLength(s: string)
    requires SpaceFree(s)
    ensures WordLength(s) == |s|
  {
    if s != "" { SpaceFreeWordLength(s[1..]); }
  }

  lemma FieldsOfWord(w: string)
    requires w != "" && SpaceFree(w)
    ensures Fields(w) == [w]
  {
    SpaceFreeWordLength(w);
    assert w[..|w|] == w;
  }

  ghost predicate AllWords(words: seq<string>) {
    forall i | 0 <= i < |words| :: words[i] != "" && SpaceFree(words[i])
  }

  lemma {:induction false} FieldsOfJoin(words: seq<string>)
    requires AllWords(words)
    ensures Fields(Join(words, " ")) == words
  {
    if words == [] {
    } else if |words| == 1 {
      FieldsOfWord(words[0]);
    } else {
      FieldsOfJoin(words[1..]);
      FieldsConcat(words[0], Join(words[1..], " "));
      FieldsOfWord(words[0]);
    }
  }

  // ---------------------------------------------------------------- decimal numbers

  function Digit(d: int): char
    requires 0 <= d < 10
  {
    '0' + d as char
  }

  function Digits(n: nat): (s: string)
    ensures s != ""
  {
    if n < 10 then [Digit(n)] else Digits(n / 10) + [Digit(n % 10)]
  }

  /** strconv.Itoa */
  function Itoa(n: int): string {
    if n < 0 then "-" + Digits(-n) else Digits(n)
  }

  function DigitsValue(s: string): int {
    if s == "" then 0 else 10 * DigitsValue(s[..|s| - 1]) + (s[|s| - 1] as int - '0' as int)
  }

  /** Printing a number loses nothing. */
  lemma {:induction false} DigitsRoundTrip(n: nat)
    ensures DigitsValue(Digits(n)) == n
    ensures forall c | c in Digits(n) :: '0' <= c <= '9'
  {
    if n >= 10 {
      DigitsRoundTrip(n / 10);
      var s := Digits(n);
      assert s[..|s| - 1] == Digits(n / 10);
    } else {
      assert DigitsValue("") == 0;
      assert [Digit(n)][..0] == "";
    }
  }

  lemma ItoaInjective(m: nat, n: nat)
    requires Itoa(m) == Itoa(n)
    ensures m == n
  {
    DigitsRoundTrip(m);
    DigitsRoundTrip(n);
  }

  lemma ItoaSpaceFree(n: int)
    ensures Itoa(n) != "" && SpaceFree(Itoa(n))
  {
    DigitsRoundTrip(if n < 0 then -n else n);
  }
}
