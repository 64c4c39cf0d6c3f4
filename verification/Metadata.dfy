/**
 Instance metadata (pkg/metadata): the kube-env item, its embedded KUBELET_ARGS line, and the settings the provider
 applies to them between reading a source template and rendering a new instance.

 A nil Go map and an empty one are the same value here.
 */
module Metadata {
  import opened Basics
  import opened Text
  import opened Taints

  const KUBELET_ARGS := "KUBELET_ARGS"
  const MAX_PODS := "--max-pods="
  const NODE_LABELS := "--node-labels="
  const TAINTS := "--register-with-taints="

  type Labels = map<string, string>

  datatype KubeletArgs = KubeletArgs(
    nodeLabels: Labels, nodeTaints: seq<Taint>, maxPods: Option<int>, other: seq<string>)

  const NO_ARGS := KubeletArgs(map[], [], None, [])

  datatype KubeEnv = KubeEnv(entries: map<string, string>, kubeletArgs: KubeletArgs)

  // ---------------------------------------------------------------- kubelet arguments

  /** The flags the provider sets itself and therefore drops from a source template. */
  predicate ProviderOwned(word: string) {
    MAX_PODS <= word || NODE_LABELS <= word || TAINTS <= word
  }

  function Unowned(words: seq<string>): seq<string> {
    if words == [] then []
    else if ProviderOwned(words[0]) then Unowned(words[1..])
    else [words[0]] + Unowned(words[1..])
  }

  function ParsedArgs(raw: string): KubeletArgs {
    KubeletArgs(map[], [], None, Unowned(Fields(raw)))
  }

  lemma {:induction false} UnownedAppend(a: seq<string>, b: seq<string>)
    ensures Unowned(a + b) == Unowned(a) + Unowned(b)
  {
    if a == [] {
      assert a + b == b;
    } else {
      assert (a + b)[1..] == a[1..] + b;
      UnownedAppend(a[1..], b);
    }
  }

  method ParseSourceKubeletArgs(raw: string) returns (args: KubeletArgs)
    ensures args == ParsedArgs(raw)
  {
    var fields := Fields(raw);
    var other: seq<string> := [];
    for i := 0 to |fields|
      invariant other == Unowned(fields[..i])
    {
      assert fields[..i + 1] == fields[..i] + [fields[i]];
      UnownedAppend(fields[..i], [fields[i]]);
      if !ProviderOwned(fields[i]) {
        other := other + [fields[i]];
      }
    }
    assert fields[..|fields|] == fields;
    args := KubeletArgs(map[], [], None, other);
  }

  function Pairs(labels: Labels, keys: seq<string>): seq<string>
    requires forall k | k in keys :: k in labels
  {
    seq(|keys|, i requires 0 <= i < |keys| => keys[i] + "=" + labels[keys[i]])
  }

  /** Kubernetes' label set rendering: sorted key=value pairs. */
  ghost function LabelsText(labels: Labels): string {
    var keys := InOrder(labels.Keys);
    EnumerationMembers(keys, labels.Keys);
    Join(Sort(Pairs(labels, keys)), ",")
  }

  function MaxPodsPart(maxPods: Option<int>): seq<string> {
    if maxPods.Some? then [MAX_PODS + Itoa(maxPods.value)] else []
  }

  function FlagPart(flag: string, value: string): seq<string> {
    if value != "" then [flag + value] else []
  }

  ghost function ArgsParts(args: KubeletArgs): seq<string> {
    args.other + MaxPodsPart(args.maxPods)
    + FlagPart(NODE_LABELS, LabelsText(args.nodeLabels)) + FlagPart(TAINTS, TaintsText(args.nodeTaints))
  }

  ghost function ArgsText(args: KubeletArgs): string {
    Join(ArgsParts(args), " ")
  }

  /** Kept source arguments: words, none of them owned by the provider. */
  ghost predicate Kept(other: seq<string>) {
    AllWords(other) && Unowned(other) == other
  }

  lemma {:induction false} UnownedIsStable(words: seq<string>)
    ensures Unowned(Unowned(words)) == Unowned(words)
    ensures AllWords(words) ==> AllWords(Unowned(words))
  {
    if words != [] {
      UnownedIsStable(words[1..]);
      if !ProviderOwned(words[0]) {
        assert Unowned(words)[1..] == Unowned(words[1..]);
      }
    }
  }

  lemma ParsedArgsAreKept(raw: string)
    ensures Kept(ParsedArgs(raw).other)
  {
    FieldsAreWords(raw);
    UnownedIsStable(Fields(raw));
  }

  function FieldsOfAll(parts: seq<string>): seq<string> {
    if parts == [] then [] else Fields(parts[0]) + FieldsOfAll(parts[1..])
  }

  /** The source arguments found when the parts are rendered side by side and parsed. */
  function Reread(parts: seq<string>): seq<string> {
    Unowned(FieldsOfAll(parts))
  }

  lemma {:induction false} FieldsOfAllAppend(a: seq<string>, b: seq<string>)
    ensures FieldsOfAll(a + b) == FieldsOfAll(a) + FieldsOfAll(b)
  {
    if a == [] {
      assert a + b == b;
    } else {
      assert (a + b)[0] == a[0] && (a + b)[1..] == a[1..] + b;
      FieldsOfAllAppend(a[1..], b);
    }
  }

  lemma RereadAppend(a: seq<string>, b: seq<string>)
    ensures Reread(a + b) == Reread(a) + Reread(b)
  {
    FieldsOfAllAppend(a, b);
    UnownedAppend(FieldsOfAll(a), FieldsOfAll(b));
  }

  lemma {:induction false} FieldsOfJoinedParts(parts: seq<string>)
    ensures Fields(Join(parts, " ")) == FieldsOfAll(parts)
  {
    if |parts| == 1 {
      assert FieldsOfAll(parts[1..]) == [];
    } else if |parts| > 1 {
      FieldsOfJoinedParts(parts[1..]);
      FieldsConcat(parts[0], Join(parts[1..], " "));
    }
  }

  lemma {:induction false} FieldsOfAllWords(words: seq<string>)
    requires AllWords(words)
    ensures FieldsOfAll(words) == words
  {
    if words != [] {
      FieldsOfWord(words[0]);
      FieldsOfAllWords(words[1..]);
    }
  }

  /** What a flag value puts back into the source arguments: everything unowned after its first whitespace. */
  function Leak(value: string): seq<string> {
    Unowned(Fields(value[WordLength(value)..]))
  }

  lemma {:induction false} SpaceFreePrefixWord(flag: string, value: string)
    requires SpaceFree(flag)
    ensures WordLength(flag + value) == |flag| + WordLength(value)
  {
    if flag == "" {
      assert flag + value == value;
    } else {
      assert (flag + value)[1..] == flag[1..] + value;
      SpaceFreePrefixWord(flag[1..], value);
    }
  }

  /** A flag the provider sets: whatever its value, the word it starts is dropped on parsing. */
  ghost predicate OwnedFlag(flag: string) {
    flag != "" && SpaceFree(flag) && forall w | flag <= w :: ProviderOwned(w)
  }

  lemma MaxPodsIsOwned(flag: string)
    requires flag == MAX_PODS
    ensures OwnedFlag(flag)
  {
  }

  lemma NodeLabelsIsOwned(flag: string)
    requires flag == NODE_LABELS
    ensures OwnedFlag(flag)
  {
  }

  lemma TaintsIsOwned(flag: string)
    requires flag == TAINTS
    ensures OwnedFlag(flag)
  {
  }

  lemma OwnedFlagLeak(flag: string, value: string)
    requires OwnedFlag(flag)
    ensures Reread([flag + value]) == Leak(value)
  {
    SpaceFreePrefixWord(flag, value);
    var s := flag + value;
    var n := WordLength(s);
    assert s[..n] == flag + value[..WordLength(value)];
    assert s[n..] == value[WordLength(value)..];
    assert Fields(s) == [s[..n]] + Fields(s[n..]);
    assert FieldsOfAll([s]) == Fields(s) + FieldsOfAll([]) == Fields(s);
    assert ProviderOwned(s[..n]);
    assert Fields(s)[1..] == Fields(s[n..]);
  }

  /**
   Rendering and reparsing gives back the kept source arguments in order, followed by exactly what whitespace inside the
   label and taint values lets through; no owned flag survives.
   */
  lemma RenderedArgsReparse(args: KubeletArgs)
    requires Kept(args.other)
    ensures ParsedArgs(ArgsText(args)).other
            == args.other + Leak(LabelsText(args.nodeLabels)) + Leak(TaintsText(args.nodeTaints))
  {
    var labels, taints := LabelsText(args.nodeLabels), TaintsText(args.nodeTaints);
    JoinedFour(args.other, MaxPodsPart(args.maxPods), FlagPart(NODE_LABELS, labels), FlagPart(TAINTS, taints));
    MaxPodsLeakNothing(args.maxPods);
    FlagLeaks(labels, taints);
  }

  /** So the source arguments survive rendering exactly when nothing leaks. */
  lemma ArgsSurviveIffNoLeak(args: KubeletArgs, again: seq<string>)
    requires Kept(args.other) && again == ParsedArgs(ArgsText(args)).other
    ensures again == args.other <==> Leak(LabelsText(args.nodeLabels)) == [] && Leak(TaintsText(args.nodeTaints)) == []
  {
    RenderedArgsReparse(args);
    assert |again| == |args.other| + |Leak(LabelsText(args.nodeLabels))| + |Leak(TaintsText(args.nodeTaints))|;
  }

  lemma JoinedFour(a: seq<string>, b: seq<string>, c: seq<string>, d: seq<string>)
    requires Kept(a)
    ensures Unowned(Fields(Join(a + b + c + d, " "))) == a + Reread(b) + Reread(c) + Reread(d)
  {
    FieldsOfJoinedParts(a + b + c + d);
    RereadAppend(a + b + c, d);
    RereadAppend(a + b, c);
    RereadAppend(a, b);
    FieldsOfAllWords(a);
  }

  lemma FlagLeak(flag: string, value: string)
    requires OwnedFlag(flag)
    ensures Reread(FlagPart(flag, value)) == Leak(value)
  {
    if value != "" { OwnedFlagLeak(flag, value); }
  }

  lemma FlagLeaks(labels: string, taints: string)
    ensures Reread(FlagPart(NODE_LABELS, labels)) == Leak(labels)
    ensures Reread(FlagPart(TAINTS, taints)) == Leak(taints)
  {
    NodeLabelsIsOwned(NODE_LABELS);
    FlagLeak(NODE_LABELS, labels);
    TaintsIsOwned(TAINTS);
    FlagLeak(TAINTS, taints);
  }

  lemma MaxPodsLeakNothing(maxPods: Option<int>)
    ensures Reread(MaxPodsPart(maxPods)) == []
  {
    if maxPods.Some? {
      MaxPodsIsOwned(MAX_PODS);
      OwnedFlagLeak(MAX_PODS, Itoa(maxPods.value));
      ItoaSpaceFree(maxPods.value);
      SpaceFreeWordLength(Itoa(maxPods.value));
    }
  }

  // ---------------------------------------------------------------- kube-env entries

  /** Where ": " first occurs. */
  function FindSeparator(s: string): Option<nat> {
    if |s| < 2 then None
    else if s[0] == ':' && s[1] == ' ' then Some(0)
    else match FindSeparator(s[1..])
      case None => None
      case Some(i) => Some(i + 1)
  }

  lemma {:induction false} SeparatorSound(s: string)
    ensures match FindSeparator(s)
            case None => true
            case Some(i) => i + 2 <= |s| && s[i] == ':' && s[i + 1] == ' ' && FindSeparator(s[..i]).None?
  {
    if |s| >= 2 && !(s[0] == ':' && s[1] == ' ') {
      SeparatorSound(s[1..]);
      match FindSeparator(s[1..])
      case None =>
      case Some(i) =>
        assert s[..i + 1][1..] == s[1..][..i];
    }
  }

  lemma {:induction false} SeparatorAfterKey(key: string, value: string)
    requires FindSeparator(key).None?
    ensures FindSeparator(key + ": " + value) == Some(|key|)
  {
    var s := key + ": " + value;
    if key != "" {
      assert s[1..] == key[1..] + ": " + value;
      assert |key| >= 2 ==> s[1] == key[1];
      SeparatorAfterKey(key[1..], value);
    }
  }

  predicate Indented(line: string) {
    line != "" && (line[0] == ' ' || line[0] == '\t')
  }

  function SplitEntry(line: string): Option<(string, string)> {
    SeparatorSound(line);
    if Indented(line) then None
    else match FindSeparator(line)
      case None => None
      case Some(i) => if i == 0 then None else Some((line[..i], line[i + 2..]))
  }

  predicate KeyOk(key: string) {
    key != "" && !Indented(key) && '\n' !in key && FindSeparator(key).None?
  }

  lemma SplitEntryKey(line: string)
    requires '\n' !in line && SplitEntry(line).Some?
    ensures var (key, value) := SplitEntry(line).value;
            KeyOk(key) && '\n' !in value && line == key + ": " + value
  {
    SeparatorSound(line);
  }

  lemma {:induction false} SeparatorIsFirst(s: string, i: nat)
    requires i + 2 <= |s| && s[i] == ':' && s[i + 1] == ' '
    ensures FindSeparator(s).Some? && FindSeparator(s).value <= i
  {
    if i > 0 && !(s[0] == ':' && s[1] == ' ') { SeparatorIsFirst(s[1..], i - 1); }
  }

  /** A line opens an entry exactly if it holds a colon and a space, though not at its start, and is not indented. */
  lemma OpensEntryIff(line: string)
    ensures SplitEntry(line).Some? <==>
            && line != "" && line[0] !in {' ', '\t'} && !(": " <= line)
            && exists i | 0 <= i < |line| - 1 :: line[i] == ':' && line[i + 1] == ' '
  {
    SeparatorSound(line);
    forall i | 0 <= i < |line| - 1 && line[i] == ':' && line[i + 1] == ' '
      ensures FindSeparator(line).Some?
    {
      SeparatorIsFirst(line, i);
    }
    if ": " <= line { SeparatorIsFirst(line, 0); }
  }

  lemma EntryLineSplits(key: string, value: string)
    requires KeyOk(key)
    ensures SplitEntry(key + ": " + value) == Some((key, value))
  {
    SeparatorAfterKey(key, value);
    var line := key + ": " + value;
    assert line[..|key|] == key && line[|key| + 2..] == value;
  }

  /** The parser's state after some lines: the entries so far and the key continuation lines extend. */
  datatype Progress = Progress(entries: map<string, string>, current: string) {
    predicate Valid() {
      current != "" ==> current in entries
    }
  }

  function AfterLine(p: Progress, line: string): (p': Progress)
    requires p.Valid()
    ensures p'.Valid()
  {
    match SplitEntry(line)
    case Some((key, value)) => Progress(p.entries[key := value], key)
    case None =>
      if p.current == "" then p
      else p.(entries := p.entries[p.current := p.entries[p.current] + "\n" + line])
  }

  function AfterLines(p: Progress, lines: seq<string>): (p': Progress)
    requires p.Valid()
    ensures p'.Valid()
    decreases |lines|
  {
    if lines == [] then p else AfterLines(AfterLine(p, lines[0]), lines[1..])
  }

  lemma {:induction false} AfterLinesAppend(p: Progress, a: seq<string>, b: seq<string>)
    requires p.Valid()
    ensures AfterLines(p, a + b) == AfterLines(AfterLines(p, a), b)
    decreases |a|
  {
    if a == [] {
      assert a + b == b;
    } else {
      assert (a + b)[1..] == a[1..] + b;
      AfterLinesAppend(AfterLine(p, a[0]), a[1..], b);
    }
  }

  const START := Progress(map[], "")

  function Finished(entries: map<string, string>): KubeEnv {
    if KUBELET_ARGS in entries && entries[KUBELET_ARGS] != "" then
      KubeEnv(entries - {KUBELET_ARGS}, ParsedArgs(entries[KUBELET_ARGS]))
    else KubeEnv(entries, NO_ARGS)
  }

  function ParsedEnv(raw: string): KubeEnv {
    Finished(AfterLines(START, Split(raw, '\n')).entries)
  }

  method ParseKubeEnv(raw: string) returns (env: KubeEnv)
    ensures env == ParsedEnv(raw)
  {
    var lines := Split(raw, '\n');
    var entries: map<string, string> := map[];
    var currentKey := "";
    for i := 0 to |lines|
      invariant Progress(entries, currentKey).Valid()
      invariant AfterLines(Progress(entries, currentKey), lines[i..]) == AfterLines(START, lines)
    {
      var line := lines[i];
      assert lines[i..][0] == line && lines[i..][1..] == lines[i + 1..];
      match SplitEntry(line) {
        case Some((key, value)) =>
          currentKey := key;
          entries := entries[key := value];
        case None =>
          if currentKey != "" {
            entries := entries[currentKey := entries[currentKey] + "\n" + line];
          }
      }
    }
    if KUBELET_ARGS in entries && entries[KUBELET_ARGS] != "" {
      var args := ParseSourceKubeletArgs(entries[KUBELET_ARGS]);
      env := KubeEnv(entries - {KUBELET_ARGS}, args);
    } else {
      env := KubeEnv(entries, NO_ARGS);
    }
  }

  // ---------------------------------------------------------------- printing

  function Blocks(entries: map<string, string>, keys: seq<string>): seq<string>
    requires forall k | k in keys :: k in entries
  {
    seq(|keys|, i requires 0 <= i < |keys| => keys[i] + ": " + entries[keys[i]])
  }

  ghost function EntryBlocks(entries: map<string, string>): seq<string> {
    var keys := InOrder(entries.Keys);
    EnumerationMembers(keys, entries.Keys);
    Blocks(entries, keys)
  }

  function ArgsBlock(text: string): seq<string> {
    if text != "" then [KUBELET_ARGS + ": " + text] else []
  }

  ghost function PrintedEnv(env: KubeEnv): string {
    Join(EntryBlocks(env.entries) + ArgsBlock(ArgsText(env.kubeletArgs)), "\n")
  }

  method RenderLabels(labels: Labels) returns (text: string)
    ensures text == LabelsText(labels)
  {
    var keys := SortedKeys(labels.Keys);
    EnumerationMembers(keys, labels.Keys);
    text := Join(Sort(Pairs(labels, keys)), ",");
  }

  method RenderKubeletArgs(args: KubeletArgs) returns (text: string)
    ensures text == ArgsText(args)
  {
    var parts := args.other;
    if args.maxPods.Some? {
      parts := parts + [MAX_PODS + Itoa(args.maxPods.value)];
    }
    assert parts == args.other + MaxPodsPart(args.maxPods);
    var labels := RenderLabels(args.nodeLabels);
    parts := parts + FlagPart(NODE_LABELS, labels) + FlagPart(TAINTS, TaintsText(args.nodeTaints));
    text := Join(parts, " ");
  }

  method EntryLines(entries: map<string, string>, keys: seq<string>) returns (lines: seq<string>)
    requires forall k | k in keys :: k in entries
    ensures lines == Blocks(entries, keys)
  {
    lines := [];
    for i := 0 to |keys|
      invariant lines == Blocks(entries, keys)[..i]
    {
      lines := lines + [keys[i] + ": " + entries[keys[i]]];
    }
  }

  method PrintKubeEnv(env: KubeEnv) returns (text: string)
    ensures text == PrintedEnv(env)
  {
    var keys := SortedKeys(env.entries.Keys);
    EnumerationMembers(keys, env.entries.Keys);
    var lines := EntryLines(env.entries, keys);
    var args := RenderKubeletArgs(env.kubeletArgs);
    text := Join(lines + ArgsBlock(args), "\n");
  }

  // ---------------------------------------------------------------- the round trip

  /** Every line of a value after the first is a continuation line. */
  ghost predicate ValueOk(value: string) {
    var lines := Split(value, '\n');
    forall i | 1 <= i < |lines| :: SplitEntry(lines[i]).None?
  }

  ghost predicate EntriesOk(entries: map<string, string>) {
    forall k | k in entries :: KeyOk(k) && ValueOk(entries[k])
  }

  /** What parsing produces; RoundTrip and ParsedEnvIsWellFormed show it produces nothing else. */
  ghost predicate WellFormed(env: KubeEnv) {
    && EntriesOk(env.entries)
    && env.kubeletArgs == NO_ARGS.(other := env.kubeletArgs.other)
    && Kept(env.kubeletArgs.other)
    && (KUBELET_ARGS in env.entries ==> env.entries[KUBELET_ARGS] == "" && env.kubeletArgs == NO_ARGS)
  }

  lemma ExtendedValueOk(value: string, line: string)
    requires ValueOk(value) && SplitEntry(line).None? && '\n' !in line
    ensures ValueOk(value + "\n" + line)
  {
    SplitConcat(value, '\n', line);
    SplitNone(line, '\n');
  }

  lemma {:induction false} AfterLinesOk(p: Progress, lines: seq<string>)
    requires p.Valid() && EntriesOk(p.entries)
    requires forall i | 0 <= i < |lines| :: '\n' !in lines[i]
    ensures EntriesOk(AfterLines(p, lines).entries)
    decreases |lines|
  {
    if lines != [] {
      var line := lines[0];
      match SplitEntry(line) {
        case Some((key, value)) =>
          SplitEntryKey(line);
          SplitNone(value, '\n');
        case None =>
          if p.current != "" { ExtendedValueOk(p.entries[p.current], line); }
      }
      AfterLinesOk(AfterLine(p, line), lines[1..]);
    }
  }

  lemma ParsedEnvIsWellFormed(raw: string)
    ensures WellFormed(ParsedEnv(raw))
  {
    SplitParts(raw, '\n');
    var lines := Split(raw, '\n');
    forall i | 0 <= i < |lines|
      ensures '\n' !in lines[i]
    {
      assert lines[i] in lines;
    }
    AfterLinesOk(START, lines);
    var entries := AfterLines(START, lines).entries;
    if KUBELET_ARGS in entries { ParsedArgsAreKept(entries[KUBELET_ARGS]); }
  }

  lemma {:induction false} ContinuationLines(p: Progress, lines: seq<string>)
    requires p.Valid() && p.current != ""
    requires forall i | 0 <= i < |lines| :: SplitEntry(lines[i]).None?
    ensures AfterLines(p, lines)
            == p.(entries := p.entries[p.current := Join([p.entries[p.current]] + lines, "\n")])
    decreases |lines|
  {
    var value := p.entries[p.current];
    if lines == [] {
      assert [value] + lines == [value];
      assert p.entries == p.entries[p.current := value];
    } else {
      var p' := AfterLine(p, lines[0]);
      ContinuationLines(p', lines[1..]);
      JoinHead(value, lines);
      assert p'.entries[p.current := Join([value] + lines, "\n")]
             == p.entries[p.current := Join([value] + lines, "\n")];
    }
  }

  lemma JoinTwo(head: string, tail: seq<string>)
    requires tail != []
    ensures Join([head] + tail, "\n") == head + "\n" + Join(tail, "\n")
  {
    assert ([head] + tail)[1..] == tail;
  }

  lemma JoinHead(value: string, lines: seq<string>)
    requires lines != []
    ensures Join([value] + lines, "\n") == Join([value + "\n" + lines[0]] + lines[1..], "\n")
  {
    JoinTwo(value, lines);
    if |lines| == 1 {
      assert [value + "\n" + lines[0]] + lines[1..] == [value + "\n" + lines[0]];
    } else {
      JoinTwo(value + "\n" + lines[0], lines[1..]);
    }
  }

  lemma EntryBlockParses(p: Progress, key: string, value: string)
    requires p.Valid() && KeyOk(key) && ValueOk(value)
    ensures AfterLines(p, Split(key + ": " + value, '\n')) == Progress(p.entries[key := value], key)
  {
    var lines := Split(value, '\n');
    var block := Split(key + ": " + value, '\n');
    SplitPrefix(key + ": ", value, '\n');
    assert key + ": " + value == (key + ": ") + value;
    assert block == [key + ": " + lines[0]] + lines[1..];
    EntryLineSplits(key, lines[0]);
    var p' := Progress(p.entries[key := lines[0]], key);
    assert block[1..] == lines[1..];
    assert AfterLines(p, block) == AfterLines(p', lines[1..]);
    ContinuationLines(p', lines[1..]);
    SplitParts(value, '\n');
    assert [lines[0]] + lines[1..] == lines;
    assert p.entries[key := lines[0]][key := value] == p.entries[key := value];
  }

  function LinesOf(blocks: seq<string>): seq<string> {
    if blocks == [] then [] else Split(blocks[0], '\n') + LinesOf(blocks[1..])
  }

  lemma {:induction false} LinesOfJoined(blocks: seq<string>)
    requires blocks != []
    ensures Split(Join(blocks, "\n"), '\n') == LinesOf(blocks)
  {
    if |blocks| == 1 {
      assert LinesOf(blocks[1..]) == [];
    } else {
      LinesOfJoined(blocks[1..]);
      SplitConcat(blocks[0], '\n', Join(blocks[1..], "\n"));
    }
  }

  lemma {:induction false} LinesOfAppend(a: seq<string>, b: seq<string>)
    ensures LinesOf(a + b) == LinesOf(a) + LinesOf(b)
  {
    if a == [] {
      assert a + b == b;
    } else {
      assert (a + b)[1..] == a[1..] + b;
      LinesOfAppend(a[1..], b);
    }
  }

  lemma {:induction false} EntryBlocksParse(p: Progress, entries: map<string, string>, keys: seq<string>)
    requires p.Valid() && EntriesOk(entries) && forall k | k in keys :: k in entries
    ensures AfterLines(p, LinesOf(Blocks(entries, keys))).entries == p.entries + (map k | k in keys :: entries[k])
    decreases |keys|
  {
    if keys == [] {
      assert LinesOf(Blocks(entries, keys)) == [];
    } else {
      var first, rest := keys[0], keys[1..];
      var blocks := Blocks(entries, keys);
      assert blocks[1..] == Blocks(entries, rest);
      var p' := Progress(p.entries[first := entries[first]], first);
      EntryBlockParses(p, first, entries[first]);
      AfterLinesAppend(p, Split(blocks[0], '\n'), LinesOf(blocks[1..]));
      EntryBlocksParse(p', entries, rest);
      RestrictedCons(p.entries, entries, keys);
    }
  }

  lemma RestrictedCons(m: map<string, string>, entries: map<string, string>, keys: seq<string>)
    requires keys != [] && forall k | k in keys :: k in entries
    ensures m[keys[0] := entries[keys[0]]] + (map k | k in keys[1..] :: entries[k])
            == m + (map k | k in keys :: entries[k])
  {
    assert forall k :: k in keys <==> k == keys[0] || k in keys[1..];
  }

  lemma {:induction false} NoColonNoSeparator(s: string)
    requires ':' !in s
    ensures FindSeparator(s).None?
  {
    if |s| >= 2 { NoColonNoSeparator(s[1..]); }
  }

  lemma KubeletArgsIsPlain(key: string)
    requires key == KUBELET_ARGS
    ensures ':' !in key && '\n' !in key && key != "" && !Indented(key)
  {
  }

  lemma KubeletArgsIsAKey(key: string)
    requires key == KUBELET_ARGS
    ensures KeyOk(key)
  {
    KubeletArgsIsPlain(key);
    NoColonNoSeparator(key);
  }

  lemma ArgsBlockParses(p: Progress, text: string)
    requires p.Valid() && '\n' !in text
    ensures AfterLines(p, LinesOf(ArgsBlock(text))).entries
            == if text == "" then p.entries else p.entries[KUBELET_ARGS := text]
  {
    if text != "" {
      KubeletArgsIsAKey(KUBELET_ARGS);
      SplitNone(text, '\n');
      EntryBlockParses(p, KUBELET_ARGS, text);
      SingleBlock(KUBELET_ARGS + ": " + text);
    }
  }

  lemma SingleBlock(block: string)
    ensures LinesOf([block]) == Split(block, '\n')
  {
    assert LinesOf([block]) == Split(block, '\n') + LinesOf([]);
  }

  /** Blocks joined by newlines are read one after the other; no blocks at all are read as nothing. */
  lemma JoinedBlocksParse(blocks: seq<string>)
    ensures AfterLines(START, Split(Join(blocks, "\n"), '\n')) == AfterLines(START, LinesOf(blocks))
  {
    if blocks == [] {
      assert AfterLines(START, [""]) == AfterLines(START, [""][1..]);
    } else {
      LinesOfJoined(blocks);
    }
  }

  lemma BlocksReadBack(entries: map<string, string>, keys: seq<string>, text: string)
    requires EntriesOk(entries) && (forall k :: k in keys <==> k in entries) && '\n' !in text
    ensures AfterLines(START, Split(Join(Blocks(entries, keys) + ArgsBlock(text), "\n"), '\n')).entries
            == if text == "" then entries else entries[KUBELET_ARGS := text]
  {
    var a, b := Blocks(entries, keys), ArgsBlock(text);
    var p := AfterLines(START, LinesOf(a));
    JoinedBlocksParse(a + b);
    LinesOfAppend(a, b);
    AfterLinesAppend(START, LinesOf(a), LinesOf(b));
    ArgsBlockParses(p, text);
    EntryBlocksParse(START, entries, keys);
    assert p.entries == entries;
  }

  /** Reading back printed text finds every entry again, and the rendered arguments under their own key. */
  lemma PrintedEntriesParse(env: KubeEnv, text: string)
    requires EntriesOk(env.entries) && text == ArgsText(env.kubeletArgs) && '\n' !in text
    ensures AfterLines(START, Split(PrintedEnv(env), '\n')).entries
            == if text == "" then env.entries else env.entries[KUBELET_ARGS := text]
  {
    var keys := InOrder(env.entries.Keys);
    EnumerationMembers(keys, env.entries.Keys);
    BlocksReadBack(env.entries, keys, text);
  }

  // ---------------------------------------------------------------- settings between reading and rendering

  datatype Setting =
    | SetLabels(labels: Labels)
    | SetLabel(key: string, value: string)
    | SetMaxPods(maxPods: int)
    | SetTaints(taints: seq<Taint>)
    | AppendTaint(taint: Taint)

  function Applied(args: KubeletArgs, setting: Setting): KubeletArgs {
    match setting
    case SetLabels(labels) => args.(nodeLabels := labels)
    case SetLabel(key, value) => if key == "" then args else args.(nodeLabels := args.nodeLabels[key := value])
    case SetMaxPods(maxPods) => args.(maxPods := Some(maxPods))
    case SetTaints(taints) => args.(nodeTaints := taints)
    case AppendTaint(taint) => args.(nodeTaints := args.nodeTaints + [taint])
  }

  /** The argument models a sequence of settings passes through. */
  predicate Configures(models: seq<KubeletArgs>, settings: seq<Setting>) {
    && |models| == |settings| + 1
    && forall i | 0 <= i < |settings| :: models[i + 1] == Applied(models[i], settings[i])
  }

  ghost predicate CleanLabels(labels: Labels) {
    forall k | k in labels :: SpaceFree(k) && SpaceFree(labels[k])
  }

  ghost predicate CleanTaint(taint: Taint) {
    SpaceFree(taint.key) && SpaceFree(taint.value) && SpaceFree(taint.effect)
  }

  ghost predicate CleanTaints(taints: seq<Taint>) {
    forall i | 0 <= i < |taints| :: CleanTaint(taints[i])
  }

  /** A setting whose strings hold no whitespace, as Kubernetes requires of labels and taints. */
  ghost predicate Clean(setting: Setting) {
    match setting
    case SetLabels(labels) => CleanLabels(labels)
    case SetLabel(key, value) => SpaceFree(key) && SpaceFree(value)
    case SetMaxPods(_) => true
    case SetTaints(taints) => CleanTaints(taints)
    case AppendTaint(taint) => CleanTaint(taint)
  }

  lemma {:induction false} ConfiguredIsClean(models: seq<KubeletArgs>, settings: seq<Setting>, i: nat)
    requires Configures(models, settings) && i < |models|
    requires CleanLabels(models[0].nodeLabels) && CleanTaints(models[0].nodeTaints)
    requires forall i | 0 <= i < |settings| :: Clean(settings[i])
    ensures CleanLabels(models[i].nodeLabels) && CleanTaints(models[i].nodeTaints) && models[i].other == models[0].other
  {
    if i > 0 {
      ConfiguredIsClean(models, settings, i - 1);
      assert Clean(settings[i - 1]);
    }
  }

  lemma {:induction false} JoinSpaceFree(parts: seq<string>)
    requires forall i | 0 <= i < |parts| :: SpaceFree(parts[i])
    ensures SpaceFree(Join(parts, ","))
  {
    if |parts| > 1 { JoinSpaceFree(parts[1..]); }
  }

  lemma CleanLabelsText(labels: Labels)
    requires CleanLabels(labels)
    ensures SpaceFree(LabelsText(labels))
  {
    var keys := InOrder(labels.Keys);
    EnumerationMembers(keys, labels.Keys);
    var pairs := Pairs(labels, keys);
    forall i | 0 <= i < |pairs|
      ensures SpaceFree(pairs[i])
    {
      assert keys[i] in keys;
    }
    forall i | 0 <= i < |Sort(pairs)|
      ensures SpaceFree(Sort(pairs)[i])
    {
      assert Sort(pairs)[i] in multiset(Sort(pairs));
      assert Sort(pairs)[i] in pairs;
    }
    JoinSpaceFree(Sort(pairs));
  }

  lemma CleanTaintsText(taints: seq<Taint>)
    requires CleanTaints(taints)
    ensures SpaceFree(TaintsText(taints))
  {
    JoinSpaceFree(TaintStrings(taints));
  }

  lemma SpaceFreeNoLeak(value: string)
    requires SpaceFree(value)
    ensures Leak(value) == []
  {
    SpaceFreeWordLength(value);
  }

  /** Whitespace inside a value does let words through: the condition of RenderedArgsReparse can fail. */
  lemma SpaceLeaks(value: string, word: string)
    requires SpaceFree(value) && word != "" && SpaceFree(word) && !ProviderOwned(word)
    ensures Leak(value + " " + word) == [word]
  {
    var s := value + " " + word;
    SpaceFreeWordLength(value);
    assert s == value + (" " + word);
    WordLengthConcat(value, " " + word);
    assert s[|value|..] == " " + word;
    assert (" " + word)[1..] == word;
    FieldsOfWord(word);
    assert Fields(" " + word) == [word];
    assert Unowned([word]) == [word] + Unowned([]);
  }

  lemma {:induction false} JoinNewlineFree(parts: seq<string>)
    requires forall i | 0 <= i < |parts| :: '\n' !in parts[i]
    ensures '\n' !in Join(parts, " ")
  {
    if |parts| > 1 { JoinNewlineFree(parts[1..]); }
  }

  lemma {:induction false} JoinOfWordsEmpty(words: seq<string>)
    requires AllWords(words)
    ensures Join(words, " ") == "" <==> words == []
  {
    if |words| > 1 { JoinOfWordsEmpty(words[1..]); }
  }

  lemma FlagPartIsWords(flag: string, value: string)
    requires OwnedFlag(flag) && SpaceFree(value)
    ensures AllWords(FlagPart(flag, value))
  {
  }

  lemma MaxPodsPartIsWords(maxPods: Option<int>)
    ensures AllWords(MaxPodsPart(maxPods))
  {
    if maxPods.Some? {
      MaxPodsIsOwned(MAX_PODS);
      ItoaSpaceFree(maxPods.value);
    }
  }

  lemma FlagPartsAreWords(labels: string, taints: string)
    requires SpaceFree(labels) && SpaceFree(taints)
    ensures AllWords(FlagPart(NODE_LABELS, labels) + FlagPart(TAINTS, taints))
  {
    NodeLabelsIsOwned(NODE_LABELS);
    FlagPartIsWords(NODE_LABELS, labels);
    TaintsIsOwned(TAINTS);
    FlagPartIsWords(TAINTS, taints);
  }

  lemma ArgsPartsAreWords(args: KubeletArgs)
    requires AllWords(args.other)
    requires SpaceFree(LabelsText(args.nodeLabels)) && SpaceFree(TaintsText(args.nodeTaints))
    ensures AllWords(ArgsParts(args))
  {
    var labels, taints := LabelsText(args.nodeLabels), TaintsText(args.nodeTaints);
    MaxPodsPartIsWords(args.maxPods);
    FlagPartsAreWords(labels, taints);
    assert ArgsParts(args)
        == args.other + MaxPodsPart(args.maxPods) + (FlagPart(NODE_LABELS, labels) + FlagPart(TAINTS, taints));
  }

  lemma CleanArgsText(args: KubeletArgs)
    requires Kept(args.other)
    requires SpaceFree(LabelsText(args.nodeLabels)) && SpaceFree(TaintsText(args.nodeTaints))
    ensures '\n' !in ArgsText(args)
    ensures ArgsText(args) == "" ==> args.other == []
    ensures ParsedArgs(ArgsText(args)) == NO_ARGS.(other := args.other)
  {
    var parts := ArgsParts(args);
    ArgsPartsAreWords(args);
    JoinNewlineFree(parts);
    JoinOfWordsEmpty(parts);
    RenderedArgsReparse(args);
    SpaceFreeNoLeak(LabelsText(args.nodeLabels));
    SpaceFreeNoLeak(TaintsText(args.nodeTaints));
  }

  /** The source model as read back: rendered arguments take the place of a KUBELET_ARGS entry. */
  function Recovered(env: KubeEnv, text: string): KubeEnv {
    if text == "" then env else env.(entries := env.entries - {KUBELET_ARGS})
  }

  /**
   Whatever clean labels, taints and pod limit were set on a model that came from source text, reading the rendered text
   back gives the source model again: same entries, same kept arguments in the same order, nothing the provider set.
   The one exception is an empty KUBELET_ARGS entry, which rendered arguments displace.
   */
  lemma ConfiguredEnvReparse(env: KubeEnv, args: KubeletArgs)
    requires WellFormed(env) && args.other == env.kubeletArgs.other
    requires SpaceFree(LabelsText(args.nodeLabels)) && SpaceFree(TaintsText(args.nodeTaints))
    ensures ParsedEnv(PrintedEnv(KubeEnv(env.entries, args)))
            == Recovered(env, ArgsText(args))
  {
    var text := ArgsText(args);
    CleanArgsText(args);
    PrintedEntriesParse(KubeEnv(env.entries, args), text);
    FinishedWithText(env, text);
  }

  lemma FinishedWithText(env: KubeEnv, text: string)
    requires WellFormed(env) && ParsedArgs(text) == env.kubeletArgs && (text == "" ==> env.kubeletArgs == NO_ARGS)
    ensures Finished(if text == "" then env.entries else env.entries[KUBELET_ARGS := text])
            == Recovered(env, text)
  {
    assert env.entries[KUBELET_ARGS := text] - {KUBELET_ARGS} == env.entries - {KUBELET_ARGS};
  }

  lemma NoArgsTexts()
    ensures LabelsText(map[]) == "" && TaintsText([]) == ""
  {
    var none: Labels := map[];
    assert |multiset(InOrder(none.Keys))| == 0;
    assert InOrder(none.Keys) == [];
    assert Pairs(none, []) == [];
    assert TaintStrings([]) == [];
  }

  /** Parsing, printing and parsing again is parsing once, for every string. */
  lemma RoundTrip(raw: string)
    ensures ParsedEnv(PrintedEnv(ParsedEnv(raw))) == ParsedEnv(raw)
  {
    ParsedEnvIsWellFormed(raw);
    WellFormedRoundTrip(ParsedEnv(raw));
  }

  lemma WellFormedRoundTrip(env: KubeEnv)
    requires WellFormed(env)
    ensures ParsedEnv(PrintedEnv(env)) == env
  {
    NoArgsTexts();
    ConfiguredEnvReparse(env, env.kubeletArgs);
    NoArgsPrintNothing();
    DisplacedEntry(env, ParsedEnv(PrintedEnv(env)), ArgsText(env.kubeletArgs));
  }

  lemma NoArgsPrintNothing()
    ensures ArgsText(NO_ARGS) == ""
  {
    NoArgsTexts();
    assert ArgsParts(NO_ARGS) == [];
  }

  /** The well-formed models are exactly those some text parses to. */
  lemma WellFormedIffParsed(env: KubeEnv)
    ensures WellFormed(env) <==> exists raw :: ParsedEnv(raw) == env
  {
    if WellFormed(env) {
      WellFormedRoundTrip(env);
    }
    forall raw | ParsedEnv(raw) == env
      ensures WellFormed(env)
    {
      ParsedEnvIsWellFormed(raw);
    }
  }

  lemma ConfiguredTexts(models: seq<KubeletArgs>, settings: seq<Setting>, i: nat)
    requires Configures(models, settings) && i < |models|
    requires CleanLabels(models[0].nodeLabels) && CleanTaints(models[0].nodeTaints)
    requires forall i | 0 <= i < |settings| :: Clean(settings[i])
    ensures SpaceFree(LabelsText(models[i].nodeLabels)) && SpaceFree(TaintsText(models[i].nodeTaints))
    ensures models[i].other == models[0].other
  {
    ConfiguredIsClean(models, settings, i);
    CleanLabelsText(models[i].nodeLabels);
    CleanTaintsText(models[i].nodeTaints);
  }

  /**
   At any point of any sequence of clean settings, the source model is recovered iff no empty KUBELET_ARGS entry is
   displaced.
   */
  lemma SettingsDoNotDisturbSource(raw: string, env: KubeEnv, models: seq<KubeletArgs>, settings: seq<Setting>, i: nat)
    requires env == ParsedEnv(raw) && Configures(models, settings) && models[0] == env.kubeletArgs && i < |models|
    requires forall i | 0 <= i < |settings| :: Clean(settings[i])
    ensures var again := ParsedEnv(PrintedEnv(KubeEnv(env.entries, models[i])));
            && again.kubeletArgs == env.kubeletArgs
            && (again == env <==> KUBELET_ARGS !in env.entries || ArgsText(models[i]) == "")
  {
    ParsedEnvIsWellFormed(raw);
    ConfiguredTexts(models, settings, i);
    ConfiguredEnvReparse(env, models[i]);
    DisplacedEntry(env, ParsedEnv(PrintedEnv(KubeEnv(env.entries, models[i]))), ArgsText(models[i]));
  }

  lemma DisplacedEntry(env: KubeEnv, again: KubeEnv, text: string)
    requires again == Recovered(env, text)
    ensures again.kubeletArgs == env.kubeletArgs
    ensures again == env <==> KUBELET_ARGS !in env.entries || text == ""
  {
    assert KUBELET_ARGS !in env.entries ==> env.entries - {KUBELET_ARGS} == env.entries;
  }

  // ---------------------------------------------------------------- what the kubelet reads

  ghost predicate CleanArgs(args: KubeletArgs) {
    CleanLabels(args.nodeLabels) && CleanTaints(args.nodeTaints)
  }

  /** The words the kubelet is started with: source arguments, then one flag for each thing set. */
  lemma CommandLineWords(args: KubeletArgs)
    requires Kept(args.other) && CleanLabels(args.nodeLabels) && CleanTaints(args.nodeTaints)
    ensures Fields(ArgsText(args)) == ArgsParts(args)
  {
    CleanLabelsText(args.nodeLabels);
    CleanTaintsText(args.nodeTaints);
    ArgsPartsAreWords(args);
    FieldsOfJoin(ArgsParts(args));
  }

  function WordsWith(flag: string, words: seq<string>): seq<string> {
    if words == [] then []
    else (if flag <= words[0] then [words[0]] else []) + WordsWith(flag, words[1..])
  }

  lemma {:induction false} WordsWithAppend(flag: string, a: seq<string>, b: seq<string>)
    ensures WordsWith(flag, a + b) == WordsWith(flag, a) + WordsWith(flag, b)
  {
    if a == [] {
      assert a + b == b;
    } else {
      assert (a + b)[1..] == a[1..] + b;
      WordsWithAppend(flag, a[1..], b);
    }
  }

  lemma {:induction false} UnownedShrinks(words: seq<string>)
    ensures |Unowned(words)| <= |words|
  {
    if words != [] { UnownedShrinks(words[1..]); }
  }

  /** Source arguments hold none of the provider's flags. */
  lemma {:induction false} KeptHasNoFlag(flag: string, other: seq<string>)
    requires OwnedFlag(flag) && Unowned(other) == other
    ensures WordsWith(flag, other) == []
  {
    if other != [] {
      UnownedShrinks(other[1..]);
      assert Unowned(other)[1..] == other[1..];
      KeptHasNoFlag(flag, other[1..]);
    }
  }

  /** The things the provider sets, each under its own flag. */
  datatype Flag = MaxPods | NodeLabels | NodeTaints

  function FlagName(f: Flag): string {
    match f
    case MaxPods => MAX_PODS
    case NodeLabels => NODE_LABELS
    case NodeTaints => TAINTS
  }

  lemma FlagIsOwned(f: Flag)
    ensures OwnedFlag(FlagName(f)) && |FlagName(f)| > 2
  {
    match f
    case MaxPods => MaxPodsIsOwned(MAX_PODS);
    case NodeLabels => NodeLabelsIsOwned(NODE_LABELS);
    case NodeTaints => TaintsIsOwned(TAINTS);
  }

  /** No word belongs to two flags: the names differ in their third character. */
  lemma FlagsApart(f: Flag, g: Flag, value: string)
    requires f != g
    ensures !(FlagName(f) <= FlagName(g) + value)
  {
    assert MAX_PODS[2] == 'm' && NODE_LABELS[2] == 'n' && TAINTS[2] == 'r';
    var word := FlagName(g) + value;
    assert word[2] == FlagName(g)[2] != FlagName(f)[2];
  }

  /** What the provider sets a flag to; empty means not at all. */
  ghost function FlagValue(f: Flag, args: KubeletArgs): string {
    match f
    case MaxPods => if args.maxPods.Some? then Itoa(args.maxPods.value) else ""
    case NodeLabels => LabelsText(args.nodeLabels)
    case NodeTaints => TaintsText(args.nodeTaints)
  }

  lemma WordsOfFlag(f: Flag, g: Flag, value: string)
    ensures WordsWith(FlagName(f), FlagPart(FlagName(g), value)) == if f == g then FlagPart(FlagName(g), value) else []
  {
    var words := FlagPart(FlagName(g), value);
    if words != [] {
      if f != g { FlagsApart(f, g, value); }
      assert words[1..] == [];
    }
  }

  /** The words of the kubelet's command line that give it a flag. */
  ghost function Given(f: Flag, args: KubeletArgs): seq<string> {
    WordsWith(FlagName(f), Fields(ArgsText(args)))
  }

  lemma WordsOfFour(flag: string, a: seq<string>, b: seq<string>, c: seq<string>, d: seq<string>)
    ensures WordsWith(flag, a + b + c + d)
            == WordsWith(flag, a) + WordsWith(flag, b) + WordsWith(flag, c) + WordsWith(flag, d)
  {
    WordsWithAppend(flag, a + b + c, d);
    WordsWithAppend(flag, a + b, c);
    WordsWithAppend(flag, a, b);
  }

  lemma PartsByFlag(args: KubeletArgs)
    ensures ArgsParts(args) == args.other + FlagPart(MAX_PODS, FlagValue(MaxPods, args))
                               + FlagPart(NODE_LABELS, FlagValue(NodeLabels, args))
                               + FlagPart(TAINTS, FlagValue(NodeTaints, args))
  {
    if args.maxPods.Some? { ItoaSpaceFree(args.maxPods.value); }
  }

  lemma WordsOfParts(f: Flag, other: seq<string>, pods: string, labels: string, taints: string)
    requires Unowned(other) == other
    ensures WordsWith(FlagName(f),
                      other + FlagPart(MAX_PODS, pods) + FlagPart(NODE_LABELS, labels) + FlagPart(TAINTS, taints))
            == FlagPart(FlagName(f), match f case MaxPods => pods case NodeLabels => labels case NodeTaints => taints)
  {
    FlagIsOwned(f);
    KeptHasNoFlag(FlagName(f), other);
    WordsOfFour(FlagName(f), other, FlagPart(MAX_PODS, pods), FlagPart(NODE_LABELS, labels), FlagPart(TAINTS, taints));
    WordsOfFlag(f, MaxPods, pods);
    WordsOfFlag(f, NodeLabels, labels);
    WordsOfFlag(f, NodeTaints, taints);
  }

  /** The kubelet is given each flag at most once, and as set: no flag of the source competes with it. */
  lemma GivenAsSet(f: Flag, args: KubeletArgs)
    requires Kept(args.other) && CleanArgs(args)
    ensures Given(f, args) == FlagPart(FlagName(f), FlagValue(f, args))
  {
    CommandLineWords(args);
    PartsByFlag(args);
    WordsOfParts(f, args.other, FlagValue(MaxPods, args), FlagValue(NodeLabels, args), FlagValue(NodeTaints, args));
  }

  function Concerned(setting: Setting): Flag {
    match setting
    case SetLabels(_) => NodeLabels
    case SetLabel(_, _) => NodeLabels
    case SetMaxPods(_) => MaxPods
    case SetTaints(_) => NodeTaints
    case AppendTaint(_) => NodeTaints
  }

  lemma SettingKeepsOthers(args: KubeletArgs, setting: Setting, args': KubeletArgs, f: Flag)
    requires args' == Applied(args, setting) && f != Concerned(setting)
    ensures FlagValue(f, args') == FlagValue(f, args)
  {
  }

  /**
   A setting changes what the kubelet is given for its own flag, and leaves the other flags and the source's words.
   */
  lemma SettingConcernsOneFlag(args: KubeletArgs, setting: Setting, args': KubeletArgs, f: Flag)
    requires args' == Applied(args, setting) && Kept(args.other) && CleanArgs(args) && CleanArgs(args')
    ensures args'.other == args.other
    ensures if f == Concerned(setting) then Given(f, args') == FlagPart(FlagName(f), FlagValue(f, args'))
            else Given(f, args') == Given(f, args)
  {
    GivenAsSet(f, args);
    GivenAsSet(f, args');
    if f != Concerned(setting) { SettingKeepsOthers(args, setting, args', f); }
  }

  ghost predicate CommaFree(labels: Labels) {
    forall k | k in labels :: ',' !in k && ',' !in labels[k]
  }

  lemma PairOfKey(labels: Labels, keys: seq<string>, k: string)
    requires k in keys && forall x | x in keys :: x in labels
    ensures k + "=" + labels[k] in Pairs(labels, keys)
  {
    var i :| 0 <= i < |keys| && keys[i] == k;
    assert Pairs(labels, keys)[i] == k + "=" + labels[k];
  }

  lemma PairsAreLabels(labels: Labels, keys: seq<string>, pair: string)
    requires forall x :: x in keys <==> x in labels
    ensures pair in Pairs(labels, keys) <==> exists k | k in labels :: pair == k + "=" + labels[k]
  {
    var pairs := Pairs(labels, keys);
    if pair in pairs {
      var i :| 0 <= i < |pairs| && pairs[i] == pair;
      assert keys[i] in keys && pair == keys[i] + "=" + labels[keys[i]];
    }
    forall k | k in labels && pair == k + "=" + labels[k]
      ensures pair in pairs
    {
      PairOfKey(labels, keys, k);
    }
  }

  lemma SortMembers(xs: seq<string>, x: string)
    ensures x in Sort(xs) <==> x in xs
    ensures |Sort(xs)| == |xs|
  {
    assert multiset(Sort(xs)) == multiset(xs);
    assert x in Sort(xs) <==> x in multiset(Sort(xs));
    assert |Sort(xs)| == |multiset(Sort(xs))|;
  }

  lemma PairsCommaFree(labels: Labels, keys: seq<string>, pair: string)
    requires (forall x :: x in keys <==> x in labels) && CommaFree(labels) && pair in Sort(Pairs(labels, keys))
    ensures ',' !in pair
  {
    SortMembers(Pairs(labels, keys), pair);
    PairsAreLabels(labels, keys, pair);
    var k :| k in labels && pair == k + "=" + labels[k];
  }

  /** Split at its commas, the value of the label flag is the label set: a pair for each key, and no other. */
  lemma LabelsReadBack(labels: Labels, pair: string)
    requires labels != map[] && CommaFree(labels)
    ensures pair in Split(LabelsText(labels), ',') <==> exists k | k in labels :: pair == k + "=" + labels[k]
  {
    var keys := InOrder(labels.Keys);
    EnumerationMembers(keys, labels.Keys);
    PairsReadBack(labels, keys, pair);
  }

  lemma PairsReadBack(labels: Labels, keys: seq<string>, pair: string)
    requires (forall x :: x in keys <==> x in labels) && labels != map[] && CommaFree(labels)
    ensures pair in Split(Join(Sort(Pairs(labels, keys)), ","), ',')
            <==> exists k | k in labels :: pair == k + "=" + labels[k]
  {
    var pairs := Pairs(labels, keys);
    var k :| k in labels;
    assert k in keys;
    SortMembers(pairs, pair);
    forall p | p in Sort(pairs)
      ensures ',' !in p
    {
      PairsCommaFree(labels, keys, p);
    }
    SplitOfJoin(Sort(pairs), ',');
    PairsAreLabels(labels, keys, pair);
  }

  /** The taints that a reader of the kubelet's command line finds in it. */
  ghost function TaintsGiven(args: KubeletArgs): seq<Taint> {
    var words := Given(NodeTaints, args);
    if words == [] || |words[0]| < |TAINTS| then [] else ReadAll(words[0][|TAINTS|..])
  }

  /** They are the taints set, in the order in which they were set. */
  lemma TaintsAsSet(args: KubeletArgs)
    requires CleanArgs(args) && Kept(args.other) && AllReadable(args.nodeTaints)
    ensures TaintsGiven(args) == args.nodeTaints && |Given(NodeTaints, args)| <= 1
  {
    var text := TaintsText(args.nodeTaints);
    GivenAsSet(NodeTaints, args);
    AllReadBack(args.nodeTaints);
    if text != "" { assert (TAINTS + text)[|TAINTS|..] == text; }
  }

  // ---------------------------------------------------------------- the mutable model

  /** The argument model still stems from the source: settings touch neither the entries nor the source arguments. */
  ghost predicate StemsFrom(env: KubeEnv, source: string) {
    env.entries == ParsedEnv(source).entries && env.kubeletArgs.other == ParsedEnv(source).kubeletArgs.other
  }

  /**
   What a clean model that stems from a source renders to: the source can be read back, and the kubelet's words are
   known.
   */
  lemma RendersFaithfully(env: KubeEnv, source: string)
    requires StemsFrom(env, source) && CleanArgs(env.kubeletArgs)
    ensures ParsedEnv(PrintedEnv(env)) == Recovered(ParsedEnv(source), ArgsText(env.kubeletArgs))
    ensures Fields(ArgsText(env.kubeletArgs)) == ArgsParts(env.kubeletArgs)
  {
    ParsedEnvIsWellFormed(source);
    CleanLabelsText(env.kubeletArgs.nodeLabels);
    CleanTaintsText(env.kubeletArgs.nodeTaints);
    ConfiguredEnvReparse(ParsedEnv(source), env.kubeletArgs);
    CommandLineWords(env.kubeletArgs);
  }

  lemma TakesEffect(source: string, args: KubeletArgs, setting: Setting, args': KubeletArgs)
    requires args.other == ParsedEnv(source).kubeletArgs.other && args' == Applied(args, setting)
    requires CleanArgs(args) && CleanArgs(args')
    ensures forall f :: Given(f, args') == if f == Concerned(setting) then FlagPart(FlagName(f), FlagValue(f, args'))
            else Given(f, args)
  {
    ParsedEnvIsWellFormed(source);
    forall f
      ensures Given(f, args') == if f == Concerned(setting) then FlagPart(FlagName(f), FlagValue(f, args'))
              else Given(f, args)
    {
      SettingConcernsOneFlag(args, setting, args', f);
    }
  }

  lemma TaintsAreRead(source: string, args: KubeletArgs)
    requires args.other == ParsedEnv(source).kubeletArgs.other && CleanArgs(args) && AllReadable(args.nodeTaints)
    ensures TaintsGiven(args) == args.nodeTaints
  {
    ParsedEnvIsWellFormed(source);
    TaintsAsSet(args);
  }

  lemma LastTaintIsRead(source: string, args: KubeletArgs, taint: Taint, args': KubeletArgs)
    requires args.other == ParsedEnv(source).kubeletArgs.other && CleanArgs(args) && CleanArgs(args')
    requires args' == args.(nodeTaints := args.nodeTaints + [taint])
    ensures AllReadable(args'.nodeTaints) ==> TaintsGiven(args') == TaintsGiven(args) + [taint]
  {
    if AllReadable(args'.nodeTaints) {
      assert forall i | 0 <= i < |args.nodeTaints| :: args.nodeTaints[i] == args'.nodeTaints[i];
      TaintsAreRead(source, args);
      TaintsAreRead(source, args');
    }
  }

  class InstanceMetadata {
    var kubeEnv: KubeEnv
    ghost var source: string              // the text the model was read from

    ghost predicate Valid()
      reads this
    {
      StemsFrom(kubeEnv, source)
    }

    /** No label or taint holds whitespace. */
    ghost predicate IsClean()
      reads this
    {
      CleanArgs(kubeEnv.kubeletArgs)
    }

    constructor FromSource(kubeEnvText: string)
      ensures Valid() && IsClean() && source == kubeEnvText && kubeEnv == ParsedEnv(source)
    {
      var env := ParseKubeEnv(kubeEnvText);
      kubeEnv := env;
      source := kubeEnvText;
      ParsedEnvIsWellFormed(kubeEnvText);
    }

    /** The kubelet registers with just these labels; the pod limit, the taints and the source's arguments stay. */
    method SetRegistrationNodeLabels(labels: Labels)
      requires Valid()
      modifies `kubeEnv
      ensures Valid() && kubeEnv.kubeletArgs == Applied(old(kubeEnv).kubeletArgs, SetLabels(labels))
      ensures old(IsClean()) && CleanLabels(labels) ==>
                && IsClean()
                && forall f :: Given(f, kubeEnv.kubeletArgs) ==
                               if f == NodeLabels then FlagPart(NODE_LABELS, LabelsText(labels))
                               else Given(f, old(kubeEnv).kubeletArgs)
    {
      kubeEnv := kubeEnv.(kubeletArgs := kubeEnv.kubeletArgs.(nodeLabels := labels));
      if old(IsClean()) && CleanLabels(labels) {
        TakesEffect(source, old(kubeEnv).kubeletArgs, SetLabels(labels), kubeEnv.kubeletArgs);
      }
    }

    /** One label more, or another value for it; without a key nothing changes. */
    method SetRegistrationNodeLabel(key: string, value: string)
      requires Valid()
      modifies `kubeEnv
      ensures Valid() && kubeEnv.kubeletArgs == Applied(old(kubeEnv).kubeletArgs, SetLabel(key, value))
      ensures key == "" ==> kubeEnv == old(kubeEnv)
      ensures forall k :: k in kubeEnv.kubeletArgs.nodeLabels <==>
                          k in old(kubeEnv).kubeletArgs.nodeLabels || (k == key && key != "")
      ensures old(IsClean()) && SpaceFree(key) && SpaceFree(value) ==>
                && IsClean()
                && forall f :: Given(f, kubeEnv.kubeletArgs) ==
                               if f == NodeLabels then FlagPart(NODE_LABELS, LabelsText(kubeEnv.kubeletArgs.nodeLabels))
                               else Given(f, old(kubeEnv).kubeletArgs)
    {
      if key != "" {
        var args := kubeEnv.kubeletArgs;
        kubeEnv := kubeEnv.(kubeletArgs := args.(nodeLabels := args.nodeLabels[key := value]));
      }
      if old(IsClean()) && SpaceFree(key) && SpaceFree(value) {
        TakesEffect(source, old(kubeEnv).kubeletArgs, SetLabel(key, value), kubeEnv.kubeletArgs);
      }
    }

    /** The kubelet gets just this pod limit, whatever limit the source or an earlier call named. */
    method SetKubeletMaxPods(maxPods: int)
      requires Valid()
      modifies `kubeEnv
      ensures Valid() && kubeEnv.kubeletArgs == Applied(old(kubeEnv).kubeletArgs, SetMaxPods(maxPods))
      ensures old(IsClean()) ==>
                && IsClean()
                && forall f :: Given(f, kubeEnv.kubeletArgs) ==
                               if f == MaxPods then FlagPart(MAX_PODS, Itoa(maxPods))
                               else Given(f, old(kubeEnv).kubeletArgs)
    {
      kubeEnv := kubeEnv.(kubeletArgs := kubeEnv.kubeletArgs.(maxPods := Some(maxPods)));
      if old(IsClean()) {
        TakesEffect(source, old(kubeEnv).kubeletArgs, SetMaxPods(maxPods), kubeEnv.kubeletArgs);
      }
    }

    /** The kubelet registers with just these taints, in this order. */
    method SetNodeTaints(taints: seq<Taint>)
      requires Valid()
      modifies `kubeEnv
      ensures Valid() && kubeEnv.kubeletArgs == Applied(old(kubeEnv).kubeletArgs, SetTaints(taints))
      ensures old(IsClean()) && CleanTaints(taints) ==>
                && IsClean()
                && forall f :: Given(f, kubeEnv.kubeletArgs) ==
                               if f == NodeTaints then FlagPart(TAINTS, TaintsText(taints))
                               else Given(f, old(kubeEnv).kubeletArgs)
      ensures old(IsClean()) && CleanTaints(taints) && AllReadable(taints) ==>
                TaintsGiven(kubeEnv.kubeletArgs) == taints
    {
      kubeEnv := kubeEnv.(kubeletArgs := kubeEnv.kubeletArgs.(nodeTaints := taints));
      if old(IsClean()) && CleanTaints(taints) {
        TakesEffect(source, old(kubeEnv).kubeletArgs, SetTaints(taints), kubeEnv.kubeletArgs);
        if AllReadable(taints) { TaintsAreRead(source, kubeEnv.kubeletArgs); }
      }
    }

    /** One taint more, after those already set. */
    method AppendNodeTaint(taint: Taint)
      requires Valid()
      modifies `kubeEnv
      ensures Valid() && kubeEnv.kubeletArgs == Applied(old(kubeEnv).kubeletArgs, AppendTaint(taint))
      ensures old(IsClean()) && CleanTaint(taint) ==>
                && IsClean()
                && forall f :: Given(f, kubeEnv.kubeletArgs) ==
                               if f == NodeTaints
                               then FlagPart(TAINTS, TaintsText(old(kubeEnv).kubeletArgs.nodeTaints + [taint]))
                               else Given(f, old(kubeEnv).kubeletArgs)
      ensures old(IsClean()) && CleanTaint(taint) && AllReadable(kubeEnv.kubeletArgs.nodeTaints) ==>
                TaintsGiven(kubeEnv.kubeletArgs) == TaintsGiven(old(kubeEnv).kubeletArgs) + [taint]
    {
      kubeEnv := kubeEnv.(kubeletArgs := kubeEnv.kubeletArgs.(nodeTaints := kubeEnv.kubeletArgs.nodeTaints + [taint]));
      if old(IsClean()) && CleanTaint(taint) {
        TakesEffect(source, old(kubeEnv).kubeletArgs, AppendTaint(taint), kubeEnv.kubeletArgs);
        LastTaintIsRead(source, old(kubeEnv).kubeletArgs, taint, kubeEnv.kubeletArgs);
      }
    }

    /**
     The rendered text reads back as the source did: same arguments, and same entries unless an empty one is displaced.
     The kubelet is started with the source's arguments and, after them, one flag for each thing set.
     */
    method Render() returns (text: string)
      requires Valid()
      ensures text == PrintedEnv(kubeEnv)
      ensures IsClean() ==>
                && ParsedEnv(text).kubeletArgs == ParsedEnv(source).kubeletArgs
                && (ParsedEnv(text) == ParsedEnv(source) <==>
                    KUBELET_ARGS !in ParsedEnv(source).entries || ArgsText(kubeEnv.kubeletArgs) == "")
                && Fields(ArgsText(kubeEnv.kubeletArgs)) == ArgsParts(kubeEnv.kubeletArgs)
                && kubeEnv.kubeletArgs.other == ParsedEnv(source).kubeletArgs.other
    {
      text := PrintKubeEnv(kubeEnv);
      if IsClean() {
        RendersFaithfully(kubeEnv, source);
        DisplacedEntry(ParsedEnv(source), ParsedEnv(text), ArgsText(kubeEnv.kubeletArgs));
      }
    }
  }
}
