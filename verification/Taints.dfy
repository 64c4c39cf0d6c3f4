/** Taints as text (vendor/k8s.io/api/core/v1/taint.go), and reading them back. */
module Taints {
  import opened Basics
  import opened Text

  datatype Taint = Taint(key: string, value: string, effect: string) {
    function ToString(): string {
      if effect == "" then (if value == "" then key else key + "=" + value + ":")
      else if value == "" then key + ":" + effect
      else key + "=" + value + ":" + effect
    }
  }

  // ---------------------------------------------------------------- reading one taint

  /** Where the key ends: at the first equals sign or colon. */
  function KeyEnd(s: string): (n: nat)
    ensures n <= |s|
    ensures n < |s| ==> s[n] in {'=', ':'}
    ensures forall i | 0 <= i < n :: s[i] !in {'=', ':'}
  {
    if s == "" || s[0] in {'=', ':'} then 0 else KeyEnd(s[1..]) + 1
  }

  function LastColon(s: string): (n: Option<nat>)
    ensures n.Some? ==> n.value < |s| && s[n.value] == ':'
  {
    if s == "" then None
    else
      var n := |s| - 1;
      if s[n] == ':' then Some(n) else LastColon(s[..n])
  }

  /** The effect follows the last colon; a value stands between an equals sign and that colon. */
  function Read(s: string): Taint {
    var k := KeyEnd(s);
    match LastColon(s)
    case None => Taint(s, "", "")
    case Some(c) => Taint(s[..k], if s[k] == '=' then s[k + 1..c] else "", s[c + 1..])
  }

  lemma {:induction false} KeyEndsThere(key: string, rest: string)
    requires '=' !in key && ':' !in key && (rest == "" || rest[0] in {'=', ':'})
    ensures KeyEnd(key + rest) == |key|
  {
    if key == "" {
      assert key + rest == rest;
    } else {
      assert (key + rest)[1..] == key[1..] + rest;
      KeyEndsThere(key[1..], rest);
    }
  }

  lemma {:induction false} ColonIsLast(front: string, effect: string)
    requires ':' !in effect
    ensures LastColon(front + ":" + effect) == Some(|front|)
  {
    if effect != "" {
      var n := |effect| - 1;
      assert (front + ":" + effect)[..|front| + 1 + n] == front + ":" + effect[..n];
      ColonIsLast(front, effect[..n]);
    }
  }

  lemma {:induction false} NoColon(s: string)
    requires ':' !in s
    ensures LastColon(s) == None
  {
    if s != "" { NoColon(s[..|s| - 1]); }
  }

  lemma ReadsPair(key: string, effect: string)
    requires '=' !in key && ':' !in key && ':' !in effect
    ensures Read(key + ":" + effect) == Taint(key, "", effect)
  {
    var s := key + ":" + effect;
    assert s == key + (":" + effect);
    KeyEndsThere(key, ":" + effect);
    ColonIsLast(key, effect);
  }

  lemma ReadsTriple(key: string, value: string, effect: string)
    requires '=' !in key && ':' !in key && ':' !in effect
    ensures Read(key + "=" + value + ":" + effect) == Taint(key, value, effect)
  {
    var s, front := key + "=" + value + ":" + effect, key + "=" + value;
    assert s == key + ("=" + value + ":" + effect) && s == front + ":" + effect;
    KeyEndsThere(key, "=" + value + ":" + effect);
    ColonIsLast(front, effect);
    assert s[|key| + 1..|front|] == value && s[..|key|] == key && s[|front| + 1..] == effect;
  }

  /** A taint is recovered from its text, whatever its value, unless its key or effect holds a separator. */
  lemma ReadBack(t: Taint)
    requires '=' !in t.key && ':' !in t.key && ':' !in t.effect
    ensures Read(t.ToString()) == t
  {
    if t.effect == "" && t.value == "" {
      NoColon(t.key);
    } else if t.value == "" {
      ReadsPair(t.key, t.effect);
    } else {
      ReadsTriple(t.key, t.value, t.effect);
      assert t.key + "=" + t.value + ":" + "" == t.key + "=" + t.value + ":";
    }
  }

  // ---------------------------------------------------------------- reading a list

  function TaintStrings(taints: seq<Taint>): seq<string> {
    seq(|taints|, i requires 0 <= i < |taints| => taints[i].ToString())
  }

  function TaintsText(taints: seq<Taint>): string {
    Join(TaintStrings(taints), ",")
  }

  function ReadAll(text: string): seq<Taint> {
    if text == "" then []
    else
      var parts := Split(text, ',');
      seq(|parts|, i requires 0 <= i < |parts| => Read(parts[i]))
  }

  /** A taint that can be told from its text among others. */
  predicate Readable(t: Taint) {
    && t.key != "" && '=' !in t.key && ':' !in t.key && ':' !in t.effect
    && ',' !in t.key && ',' !in t.value && ',' !in t.effect
  }

  ghost predicate AllReadable(taints: seq<Taint>) {
    forall i | 0 <= i < |taints| :: Readable(taints[i])
  }

  /** Split at its commas, the text is the taints in their order, one part each. */
  lemma TaintsReadBack(taints: seq<Taint>)
    requires taints != [] && forall i | 0 <= i < |taints| :: ',' !in taints[i].ToString()
    ensures Split(TaintsText(taints), ',') == TaintStrings(taints)
  {
    SplitOfJoin(TaintStrings(taints), ',');
  }

  /** Reading the text of any readable taints gives them back, in their order. */
  lemma AllReadBack(taints: seq<Taint>)
    requires AllReadable(taints)
    ensures ReadAll(TaintsText(taints)) == taints
  {
    if taints != [] {
      TaintsReadBack(taints);
      assert TaintStrings(taints)[0] == taints[0].ToString() != "";
      SplitNone("", ',');
      forall i | 0 <= i < |taints|
        ensures Read(TaintStrings(taints)[i]) == taints[i]
      {
        ReadBack(taints[i]);
      }
    }
  }
}
