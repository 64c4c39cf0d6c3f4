/** The form GCE label keys are given (pkg/utils/utils.go). */
module Labels {
  import opened Text


  predicate Alphanumeric(c: char) {
    'a' <= c <= 'z' || 'A' <= c <= 'Z' || '0' <= c <= '9'
  }

  function SkipOthers(s: string): (r: string)
    ensures |r| <= |s|
  {
    if s != "" && !Alphanumeric(s[0]) then SkipOthers(s[1..]) else s
  }

  /** Every run of other characters becomes one dash. */
  function Dashed(s: string): string
    decreases |s|
  {
    if s == "" then ""
    else if Alphanumeric(s[0]) then [s[0]] + Dashed(s[1..])
    else "-" + Dashed(SkipOthers(s[1..]))
  }

  function TrimDashes(s: string): string {
    if s != "" && s[0] == '-' then TrimDashes(s[1..])
    else if s != "" && s[|s| - 1] == '-' then TrimDashes(s[..|s| - 1])
    else s
  }

  function LowerChar(c: char): char {
    if 'A' <= c <= 'Z' then c + 32 as char else c
  }

  function Lower(s: string): (r: string)
    ensures |r| == |s|
  {
    if s == "" then "" else [LowerChar(s[0])] + Lower(s[1..])
  }

  function Sanitize(s: string): string {
    Lower(TrimDashes(Dashed(s)))
  }

  /** Lower-case letters and digits, with single dashes between them. */
  predicate Clean(s: string) {
    && (forall i | 0 <= i < |s| :: 'a' <= s[i] <= 'z' || '0' <= s[i] <= '9' || s[i] == '-')
    && (forall i | 0 <= i < |s| - 1 :: !(s[i] == '-' && s[i + 1] == '-'))
    && (s != "" ==> s[0] != '-' && s[|s| - 1] != '-')
  }

  /** Letters and digits of either case, with single dashes between or at the ends. */
  predicate DashedForm(s: string) {
    && (forall i | 0 <= i < |s| :: Alphanumeric(s[i]) || s[i] == '-')
    && (forall i | 0 <= i < |s| - 1 :: !(s[i] == '-' && s[i + 1] == '-'))
  }

  lemma {:induction false} DashedHasForm(s: string)
    ensures DashedForm(Dashed(s))
    ensures s == "" || Alphanumeric(s[0]) ==> Dashed(s) == "" || Dashed(s)[0] != '-'
    decreases |s|
  {
    if s != "" {
      if Alphanumeric(s[0]) {
        DashedHasForm(s[1..]);
      } else {
        SkipsToNext(s[1..]);
        DashedHasForm(SkipOthers(s[1..]));
      }
    }
  }

  lemma {:induction false} SkipsToNext(s: string)
    ensures SkipOthers(s) == "" || Alphanumeric(SkipOthers(s)[0])
  {
    if s != "" && !Alphanumeric(s[0]) { SkipsToNext(s[1..]); }
  }

  lemma {:induction false} DashedKeepsForm(s: string)
    requires DashedForm(s)
    ensures Dashed(s) == s
    decreases |s|
  {
    if s != "" {
      assert s == [s[0]] + s[1..];
      assert DashedForm(s[1..]) by {
        assert forall i | 0 <= i < |s| - 1 :: s[1..][i] == s[i + 1];
      }
      DashedKeepsForm(s[1..]);
      if s[0] == '-' && |s| > 1 { assert Alphanumeric(s[1]); }
    }
  }

  lemma {:induction false} TrimmedForm(s: string)
    requires DashedForm(s)
    ensures var t := TrimDashes(s); DashedForm(t) && (t != "" ==> t[0] != '-' && t[|t| - 1] != '-')
  {
    if s != "" && s[0] == '-' {
      assert forall i | 0 <= i < |s| - 1 :: s[1..][i] == s[i + 1];
      TrimmedForm(s[1..]);
    } else if s != "" && s[|s| - 1] == '-' {
      TrimmedForm(s[..|s| - 1]);
    }
  }

  lemma {:induction false} LowerAt(s: string)
    ensures forall i | 0 <= i < |s| :: Lower(s)[i] == LowerChar(s[i])
  {
    if s != "" { LowerAt(s[1..]); }
  }

  /** Whatever is sanitized comes out clean. */
  lemma SanitizedIsClean(s: string)
    ensures Clean(Sanitize(s))
  {
    DashedHasForm(s);
    TrimmedForm(Dashed(s));
    LowerAt(TrimDashes(Dashed(s)));
  }

  /** Sanitizing changes nothing exactly on clean strings; so sanitizing twice is sanitizing once. */
  lemma SanitizeFixesClean(s: string)
    ensures Sanitize(s) == s <==> Clean(s)
  {
    if Clean(s) {
      DashedKeepsForm(s);
      LowerAt(s);
      assert Lower(s) == s;
    } else {
      SanitizedIsClean(s);
    }
  }

  // ---------------------------------------------------------------- word by word

  /** How many letters and digits the string starts with. */
  function RunLength(s: string): (n: nat)
    ensures n <= |s| && (n < |s| ==> !Alphanumeric(s[n])) && forall i | 0 <= i < n :: Alphanumeric(s[i])
  {
    if s == "" || !('a' <= s[0] <= 'z' || 'A' <= s[0] <= 'Z' || '0' <= s[0] <= '9') then 0 else RunLength(s[1..]) + 1
  }

  /** The longest runs of letters and digits, in order. */
  function Words(s: string): seq<string>
    decreases |s|
  {
    if s == "" then []
    else
      var n := RunLength(s);
      if n == 0 then Words(s[1..]) else [s[..n]] + Words(s[n..])
  }

  /** The word with each capital letter replaced by the small one at its place in the alphabet. */
  function Small(word: string): string {
    seq(|word|, i requires 0 <= i < |word| =>
      if 'A' <= word[i] <= 'Z' then 'a' + (word[i] - 'A') else word[i])
  }

  function AllSmall(words: seq<string>): seq<string> {
    if words == [] then [] else [Small(words[0])] + AllSmall(words[1..])
  }

  function Trail(s: string): string {
    if s != "" && !Alphanumeric(s[|s| - 1]) then "-" else ""
  }

  lemma {:induction false} DashedRun(s: string, n: nat)
    requires n <= RunLength(s)
    ensures Dashed(s) == s[..n] + Dashed(s[n..])
  {
    if n > 0 {
      DashedRun(s[1..], n - 1);
      assert s[..n] == [s[0]] + s[1..][..n - 1] && s[n..] == s[1..][n - 1..];
    }
  }

  lemma {:induction false} WordsSkip(s: string)
    ensures Words(s) == Words(SkipOthers(s))
    ensures SkipOthers(s) == "" ==> Trail(s) == if s == "" then "" else "-"
    ensures SkipOthers(s) != "" ==> Trail(SkipOthers(s)) == Trail(s)
    decreases |s|
  {
    if s != "" && !Alphanumeric(s[0]) { WordsSkip(s[1..]); }
  }

  lemma RunEndsText(s: string)
    requires s != "" && RunLength(s) == |s|
    ensures Dashed(s) == s && Words(s) == [s] && Trail(s) == ""
  {
    DashedRun(s, |s|);
    assert s[..|s|] == s && s[|s|..] == "";
  }

  lemma OtherStarts(s: string, next: string)
    requires s != "" && !Alphanumeric(s[0]) && next == SkipOthers(s[1..])
    ensures Dashed(s) == "-" + Dashed(next) && Words(s) == Words(next)
    ensures Trail(s) == if next == "" then "-" else Trail(next)
  {
    WordsSkip(s[1..]);
  }

  lemma RunStarts(s: string, n: nat)
    requires n == RunLength(s) && 0 < n < |s|
    ensures Dashed(s) == s[..n] + Dashed(s[n..]) && Words(s) == [s[..n]] + Words(s[n..]) && Trail(s) == Trail(s[n..])
  {
    DashedRun(s, n);
  }

  lemma Glue(word: string, words: seq<string>, dashed: string, trail: string)
    requires words != [] && dashed == Join(words, "-") + trail
    ensures word + ("-" + dashed) == Join([word] + words, "-") + trail
  {
    JoinFront(word, words);
  }

  lemma {:induction false} DashedJoinsWords(s: string)
    requires s == "" || Alphanumeric(s[0])
    ensures Dashed(s) == Join(Words(s), "-") + Trail(s)
    decreases |s|
  {
    if s != "" {
      var n := RunLength(s);
      if n == |s| {
        RunEndsText(s);
      } else {
        RunStarts(s, n);
        DashedAfterRun(s, n);
      }
    }
  }

  lemma {:induction false} DashedAfterRun(s: string, n: nat)
    requires n == RunLength(s) && 0 < n < |s|
    ensures s[..n] + Dashed(s[n..]) == Join([s[..n]] + Words(s[n..]), "-") + Trail(s[n..])
    decreases |s|, 0
  {
    var word, rest := s[..n], s[n..];
    var next := SkipOthers(rest[1..]);
    SkipsToNext(rest[1..]);
    OtherStarts(rest, next);
    WordsOfRun(next);
    if next == "" {
      JoinFront(word, []);
    } else {
      DashedJoinsWords(next);
      Glue(word, Words(next), Dashed(next), Trail(next));
    }
  }

  lemma WordsOfRun(s: string)
    requires s == "" || Alphanumeric(s[0])
    ensures Words(s) == [] <==> s == ""
  {
  }

  lemma JoinFront(word: string, words: seq<string>)
    ensures Join([word] + words, "-") == if words == [] then word else word + "-" + Join(words, "-")
  {
    assert ([word] + words)[1..] == words;
  }

  lemma {:induction false} WordsAreRuns(s: string)
    ensures forall w | w in Words(s) :: w != "" && forall i | 0 <= i < |w| :: Alphanumeric(w[i])
    decreases |s|
  {
    if s != "" {
      var n := RunLength(s);
      WordsAreRuns(if n == 0 then s[1..] else s[n..]);
    }
  }

  lemma {:induction false} JoinedEnds(words: seq<string>)
    requires forall w | w in words :: w != "" && forall i | 0 <= i < |w| :: Alphanumeric(w[i])
    ensures var t := Join(words, "-"); t == "" || (t[0] != '-' && t[|t| - 1] != '-')
    ensures words != [] ==> Join(words, "-") != ""
  {
    if words != [] {
      assert words[0] in words;
      if |words| > 1 {
        JoinedEnds(words[1..]);
        var rest := Join(words[1..], "-");
        assert Join(words, "-") == words[0] + "-" + rest;
      }
    }
  }

  lemma TrimEnds(lead: string, t: string, trail: string)
    requires lead in {"", "-"} && trail in {"", "-"} && (t == "" || (t[0] != '-' && t[|t| - 1] != '-'))
    ensures TrimDashes(lead + (t + trail)) == t
  {
    var s := t + trail;
    if trail == "-" { assert s[..|s| - 1] == t; } else { assert s == t; }
    assert TrimDashes(s) == t;
    if lead == "-" { assert (lead + s)[1..] == s; } else { assert lead + s == s; }
  }

  lemma {:induction false} LowerAppend(a: string, b: string)
    ensures Lower(a + b) == Lower(a) + Lower(b)
  {
    if a == "" {
      assert a + b == b;
    } else {
      assert (a + b)[1..] == a[1..] + b;
      LowerAppend(a[1..], b);
    }
  }

  lemma LowerIsSmall(word: string)
    ensures Lower(word) == Small(word)
  {
    LowerAt(word);
  }

  lemma {:induction false} LowerOfJoin(words: seq<string>)
    ensures Lower(Join(words, "-")) == Join(AllSmall(words), "-")
  {
    if words != [] {
      LowerIsSmall(words[0]);
      LowerOfJoin(words[1..]);
      JoinFront(words[0], words[1..]);
      assert words == [words[0]] + words[1..];
      JoinFront(Small(words[0]), AllSmall(words[1..]));
      LowerAppend(words[0] + "-", Join(words[1..], "-"));
      LowerAppend(words[0], "-");
      assert Lower("-") == "-";
    }
  }

  lemma DashedAround(s: string) returns (lead: string, trail: string)
    ensures lead in {"", "-"} && trail in {"", "-"} && Dashed(s) == lead + (Join(Words(s), "-") + trail)
  {
    if s == "" || Alphanumeric(s[0]) {
      DashedJoinsWords(s);
      lead, trail := "", Trail(s);
    } else {
      var next := SkipOthers(s[1..]);
      SkipsToNext(s[1..]);
      OtherStarts(s, next);
      DashedJoinsWords(next);
      lead, trail := "-", Trail(next);
    }
  }

  /** Sanitizing keeps the runs of letters and digits, in small letters, and puts one dash between them. */
  lemma SanitizeJoinsWords(s: string)
    ensures Sanitize(s) == Join(AllSmall(Words(s)), "-")
  {
    var lead, trail := DashedAround(s);
    WordsAreRuns(s);
    JoinedEnds(Words(s));
    TrimEnds(lead, Join(Words(s), "-"), trail);
    LowerOfJoin(Words(s));
  }
}
