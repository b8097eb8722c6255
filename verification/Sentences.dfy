/**
 * Sentence splitting and sentence repair
 * (backend/app/modules/reading/coverage_policy.py).
 */
module Sentences {
  import opened Text

  // ------------------------------------------------------------------ splitting

  predicate Terminator(c: char) {
    c == '.' || c == '!' || c == '?'
  }

  /** The splitting pattern matches at `i`: white space directly after a terminator. */
  predicate Cut(t: string, i: int) {
    0 < i < |t| && Terminator(t[i - 1]) && IsSpace(t[i])
  }

  function FirstCut(t: string, i: nat): (cut: nat)
    requires i <= |t|
    ensures i <= cut <= |t|
    ensures cut < |t| ==> Cut(t, cut)
    ensures forall j :: i <= j < cut ==> !Cut(t, j)
    decreases |t| - i
  {
    if i == |t| || Cut(t, i) then i else FirstCut(t, i + 1)
  }

  /** The end of the run of white space that starts at `i`. */
  function SkipSpace(t: string, i: nat): (end: nat)
    requires i <= |t|
    ensures i <= end <= |t|
    ensures end < |t| ==> !IsSpace(t[end])
    ensures forall j :: i <= j < end ==> IsSpace(t[j])
    decreases |t| - i
  {
    if i == |t| || !IsSpace(t[i]) then i else SkipSpace(t, i + 1)
  }

  /** `_SENTENCE_SPLIT.split(t)`. */
  function RawSplit(t: string): seq<string>
    decreases |t|
  {
    var cut := FirstCut(t, 0);
    if cut == |t| then [t] else [t[..cut]] + RawSplit(t[SkipSpace(t, cut)..])
  }

  function StripParts(parts: seq<string>): seq<string> {
    if parts == [] then []
    else (if Strip(parts[0]) == "" then [] else [Strip(parts[0])]) + StripParts(parts[1..])
  }

  function SplitSentences(t: string): seq<string> {
    StripParts(RawSplit(t))
  }

  // -------------------------------------------------------- the normal form

  predicate EndsSentence(s: string) {
    s != "" && Terminator(s[|s| - 1])
  }

  /** One sentence: trimmed, not empty, and with no place where the pattern would cut it. */
  ghost predicate Atomic(s: string) {
    s != "" && Trimmed(s) && forall i :: !Cut(s, i)
  }

  ghost predicate NormalList(ss: seq<string>) {
    && (forall i :: 0 <= i < |ss| ==> Atomic(ss[i]))
    && (forall i :: 0 <= i < |ss| - 1 ==> EndsSentence(ss[i]))
  }

  lemma SplitStep(t: string)
    ensures var cut := FirstCut(t, 0);
            SplitSentences(t) ==
            (if Strip(t[..cut]) == "" then [] else [Strip(t[..cut])]) +
            (if cut == |t| then [] else SplitSentences(t[SkipSpace(t, cut)..]))
  {
    var cut := FirstCut(t, 0);
    if cut == |t| {
      assert t[..cut] == t;
      assert StripParts([t]) == (if Strip(t) == "" then [] else [Strip(t)]) + StripParts([t][1..]);
    } else {
      assert RawSplit(t)[1..] == RawSplit(t[SkipSpace(t, cut)..]);
    }
  }

  /** Stripping introduces no cut. */
  lemma StripKeepsUncut(s: string)
    requires forall i :: !Cut(s, i)
    ensures Strip(s) != "" ==> Atomic(Strip(s))
  {
    var left, right := StripCuts(s);
    forall i | Cut(Strip(s), i) ensures false {
      assert s[|left| + i] == Strip(s)[i] && s[|left| + i - 1] == Strip(s)[i - 1];
      assert Cut(s, |left| + i);
    }
  }

  lemma StripKeepsTerminator(s: string)
    requires EndsSentence(s)
    ensures EndsSentence(Strip(s))
  {
    var left, right := StripCuts(s);
    assert !IsSpace(s[|s| - 1]);
    assert right == "";
    assert Strip(s) != "";
    assert s[|s| - 1] == Strip(s)[|Strip(s)| - 1];
  }

  /** What comes before the first cut has none. */
  lemma HeadIsUncut(t: string)
    ensures forall i :: !Cut(t[..FirstCut(t, 0)], i)
  {
    forall i | Cut(t[..FirstCut(t, 0)], i) ensures false {
      assert Cut(t, i);
    }
  }

  lemma NormalMore(s: string, rest: seq<string>)
    requires Atomic(s) && NormalList(rest) && (EndsSentence(s) || rest == [])
    ensures NormalList([s] + rest)
  {
  }

  lemma {:induction false} SplitIsNormal(t: string)
    ensures NormalList(SplitSentences(t))
    decreases |t|
  {
    SplitStep(t);
    var cut := FirstCut(t, 0);
    var head := t[..cut];
    var rest := if cut == |t| then [] else SplitSentences(t[SkipSpace(t, cut)..]);
    HeadIsUncut(t);
    StripKeepsUncut(head);
    if cut < |t| {
      SplitIsNormal(t[SkipSpace(t, cut)..]);
      StripKeepsTerminator(head);
    }
    if Strip(head) == "" {
      assert [] + rest == rest;
    } else {
      NormalMore(Strip(head), rest);
    }
  }

  /** What a text says in this sense adds up over its parts, and white space says nothing. */
  ghost predicate Reads(said: string -> string) {
    && (forall a, b :: said(a + b) == said(a) + said(b))
    && (forall s :: Blank(s) ==> said(s) == "")
  }

  lemma SaidStripped(said: string -> string, s: string)
    requires Reads(said)
    ensures said(Strip(s)) == said(s)
  {
    var left, right := StripCuts(s);
    assert said(left + Strip(s) + right) == said(left) + said(Strip(s)) + said(right);
  }

  lemma SaidAround(said: string -> string, t: string, cut: nat, end: nat)
    requires Reads(said) && cut <= end <= |t| && Blank(t[cut..end])
    ensures said(t) == said(t[..cut]) + said(t[end..])
  {
    assert t == t[..cut] + t[cut..end] + t[end..];
    assert said(t[cut..end]) == "";
  }

  lemma SaidInList(said: string -> string, ss: seq<string>, head: string, rest: seq<string>)
    requires Reads(said) && ss == (if head == "" then [] else [head]) + rest
    ensures said(Join("", ss)) == said(head) + said(Join("", rest))
  {
    if head == "" {
      assert ss == rest;
      assert said("") == "";
    } else {
      JoinFirst(head, rest);
    }
  }

  lemma {:induction false} SplitSaysTheSame(said: string -> string, t: string)
    requires Reads(said)
    ensures said(Join("", SplitSentences(t))) == said(t)
    decreases |t|
  {
    SplitStep(t);
    var cut := FirstCut(t, 0);
    var end := SkipSpace(t, cut);
    var rest := if cut == |t| then [] else SplitSentences(t[end..]);
    SaidStripped(said, t[..cut]);
    SaidAround(said, t, cut, end);
    SaidInList(said, SplitSentences(t), Strip(t[..cut]), rest);
    if cut < |t| {
      SplitSaysTheSame(said, t[end..]);
    }
  }

  /** Everything but white space, in order. */
  ghost function Ink(s: string): string {
    if s == "" then "" else Ink(s[..|s| - 1]) + (if IsSpace(s[|s| - 1]) then "" else [s[|s| - 1]])
  }

  lemma {:induction false} InkAdds(a: string, b: string)
    ensures Ink(a + b) == Ink(a) + Ink(b)
    decreases |b|
  {
    if b == "" {
      assert a + b == a;
    } else {
      assert (a + b)[..|a + b| - 1] == a + b[..|b| - 1];
      InkAdds(a, b[..|b| - 1]);
    }
  }

  lemma {:induction false} NoInkInBlank(s: string)
    requires Blank(s)
    ensures Ink(s) == ""
  {
    if s != "" {
      NoInkInBlank(s[..|s| - 1]);
    }
  }

  /** The sentences have, one after the other, exactly the characters of the text: only white space is lost. */
  lemma SplitLosesNothing(t: string)
    ensures Ink(Join("", SplitSentences(t))) == Ink(t)
  {
    var ink := s => Ink(s);
    forall a, b ensures ink(a + b) == ink(a) + ink(b) {
      InkAdds(a, b);
    }
    forall s | Blank(s) ensures ink(s) == "" {
      NoInkInBlank(s);
    }
    SplitSaysTheSame(ink, t);
  }

  lemma StripAtomic(s: string)
    requires Trimmed(s)
    ensures Strip(s) == s
  {
    assert "" + s + "" == s;
    StripUnique("", s, "");
  }

  lemma SplitOne(s: string)
    requires Atomic(s)
    ensures SplitSentences(s) == [s]
  {
    SplitStep(s);
    assert s[..|s|] == s;
    StripAtomic(s);
  }

  lemma CutAfterFirst(s: string, rest: string)
    requires Atomic(s) && EndsSentence(s) && rest != "" && !IsSpace(rest[0])
    ensures var t := s + " " + rest; FirstCut(t, 0) == |s| && SkipSpace(t, |s|) == |s| + 1
  {
    var t := s + " " + rest;
    assert t[|s| - 1] == s[|s| - 1] && t[|s|] == ' ' && t[|s| + 1] == rest[0];
    forall i | 0 <= i < |s| ensures !Cut(t, i) {
      assert !Cut(s, i);
    }
    assert Cut(t, |s|);
    assert FirstCut(t, 0) >= |s|;
  }

  lemma SplitFirst(s: string, rest: string)
    requires Atomic(s) && EndsSentence(s) && rest != "" && !IsSpace(rest[0])
    ensures SplitSentences(s + " " + rest) == [s] + SplitSentences(rest)
  {
    var t := s + " " + rest;
    SplitStep(t);
    CutAfterFirst(s, rest);
    assert t[..|s|] == s && t[|s| + 1..] == rest;
    StripAtomic(s);
  }

  lemma {:induction false} SplitJoin(ss: seq<string>)
    requires NormalList(ss)
    ensures SplitSentences(Join(" ", ss)) == ss
    decreases |ss|
  {
    if ss == [] {
      SplitStep("");
      StripAtomic("");
    } else if |ss| == 1 {
      SplitOne(ss[0]);
    } else {
      var rest := ss[1..];
      assert NormalList(rest);
      JoinStart(rest);
      SplitFirst(ss[0], Join(" ", rest));
      SplitJoin(rest);
      assert [ss[0]] + rest == ss;
    }
  }

  lemma JoinStart(ss: seq<string>)
    requires ss != [] && Atomic(ss[0])
    ensures Join(" ", ss) != "" && !IsSpace(Join(" ", ss)[0])
  {
  }

  /** Splitting is a normal form: joining the sentences and splitting again changes nothing. */
  lemma SplitNormalForm(t: string)
    ensures SplitSentences(Join(" ", SplitSentences(t))) == SplitSentences(t)
  {
    SplitIsNormal(t);
    SplitJoin(SplitSentences(t));
  }

  /** A list of sentences survives join-and-split exactly when every one but the last is terminated. */
  lemma SurvivesExactlyWhenTerminated(ss: seq<string>)
    requires forall i :: 0 <= i < |ss| ==> Atomic(ss[i])
    ensures SplitSentences(Join(" ", ss)) == ss <==>
            forall i :: 0 <= i < |ss| - 1 ==> ss[i] != "" && ss[i][|ss[i]| - 1] in ".!?"
  {
    if NormalList(ss) {
      SplitJoin(ss);
    }
    SplitIsNormal(Join(" ", ss));
  }

  // ---------------------------------------------------------- failing sentences

  /** What `analyze_coverage` reports about one sentence. */
  datatype Coverage = Coverage(percent: real, unknownWords: nat)

  datatype FailingSentence = FailingSentence(index: nat, text: string, coverage: Coverage)

  predicate Fails(c: Coverage, target: real, requireNoUnknown: bool) {
    c.percent < target || (requireNoUnknown && c.unknownWords > 0)
  }

  /** The failures of a text: every failing sentence once, in text order. */
  ghost predicate FailuresOf(text: string, analyze: string -> Coverage, target: real, requireNoUnknown: bool,
                             failures: seq<FailingSentence>)
  {
    var ss := SplitSentences(text);
    && InOrder(failures, |ss|)
    && (forall k :: 0 <= k < |failures| ==>
          && failures[k].text == ss[failures[k].index]
          && failures[k].coverage == analyze(failures[k].text)
          && (failures[k].coverage.percent < target || (requireNoUnknown && failures[k].coverage.unknownWords > 0)))
    && (forall i :: 0 <= i < |ss| ==>
          || Among(failures, i)
          || (analyze(ss[i]).percent >= target && (requireNoUnknown ==> analyze(ss[i]).unknownWords == 0)))
  }

  ghost predicate Earlier(failures: seq<FailingSentence>, j: nat, k: nat)
    requires j < |failures| && k < |failures|
  {
    failures[j].index < failures[k].index
  }

  ghost predicate InRange(failures: seq<FailingSentence>, count: nat) {
    forall k :: 0 <= k < |failures| ==> failures[k].index < count
  }

  /** Indices are in range and strictly increasing. */
  ghost predicate InOrder(failures: seq<FailingSentence>, count: nat) {
    && InRange(failures, count)
    && (forall j: nat, k: nat :: j < k < |failures| ==> Earlier(failures, j, k))
  }

  lemma InOrderPrefix(failures: seq<FailingSentence>, count: nat, n: nat)
    requires InOrder(failures, count) && n <= |failures|
    ensures InOrder(failures[..n], count)
  {
    forall j: nat, k: nat | j < k < n ensures Earlier(failures[..n], j, k) {
      assert Earlier(failures, j, k);
    }
  }

  lemma InOrderMore(failures: seq<FailingSentence>, f: FailingSentence)
    requires InOrder(failures, f.index)
    ensures InOrder(failures + [f], f.index + 1)
  {
    forall j: nat, k: nat | j < k < |failures + [f]| ensures Earlier(failures + [f], j, k) {
      assert k < |failures| ==> Earlier(failures, j, k);
    }
  }

  method FailingSentences(text: string, analyze: string -> Coverage, target: real, requireNoUnknown: bool)
    returns (failures: seq<FailingSentence>)
    ensures FailuresOf(text, analyze, target, requireNoUnknown, failures)
  {
    failures := [];
    var ss := SplitSentences(text);
    for index := 0 to |ss|
      invariant InOrder(failures, index)
      invariant forall k :: 0 <= k < |failures| ==>
                  && failures[k].text == ss[failures[k].index]
                  && failures[k].coverage == analyze(failures[k].text)
                  && Fails(failures[k].coverage, target, requireNoUnknown)
      invariant forall i :: 0 <= i < index && Fails(analyze(ss[i]), target, requireNoUnknown) ==> Among(failures, i)
    {
      var coverage := analyze(ss[index]);
      if Fails(coverage, target, requireNoUnknown) {
        ghost var before := failures;
        InOrderMore(failures, FailingSentence(index, ss[index], coverage));
        failures := failures + [FailingSentence(index, ss[index], coverage)];
        assert failures[|before|].index == index;
        forall i | 0 <= i < index && Fails(analyze(ss[i]), target, requireNoUnknown) ensures Among(failures, i) {
          assert Among(before, i);
          var k :| 0 <= k < |before| && before[k].index == i;
          assert failures[k].index == i;
        }
      }
    }
  }

  // ------------------------------------------------------------------- repairing

  ghost predicate Elsewhere(failures: seq<FailingSentence>, j: nat, k: nat)
    requires j < |failures| && k < |failures|
  {
    failures[j].index != failures[k].index
  }

  /** No later failure has the index of the k-th. */
  ghost predicate LastOfIndex(failures: seq<FailingSentence>, k: nat)
    requires k < |failures|
  {
    forall j: nat :: k < j < |failures| ==> Elsewhere(failures, j, k)
  }

  /** `merged` is `ss` with the k-th repair at the k-th failing index - the last one that is for that
      index, if there are several - and nothing else changed. */
  ghost predicate Patched(ss: seq<string>, failures: seq<FailingSentence>, repairs: seq<string>, merged: seq<string>)
    requires |repairs| == |failures| && InRange(failures, |ss|)
  {
    && |merged| == |ss|
    && (forall k: nat :: k < |failures| && LastOfIndex(failures, k) ==> merged[failures[k].index] == repairs[k])
    && (forall i :: 0 <= i < |ss| ==> Among(failures, i) || merged[i] == ss[i])
  }

  lemma PatchNext(ss: seq<string>, failures: seq<FailingSentence>, repairs: seq<string>, merged: seq<string>, k: nat)
    requires |repairs| == |failures| && k < |failures| && failures[k].index < |ss|
    requires InRange(failures[..k], |ss|) && Patched(ss, failures[..k], repairs[..k], merged)
    ensures InRange(failures[..k + 1], |ss|)
    ensures Patched(ss, failures[..k + 1], repairs[..k + 1], merged[failures[k].index := repairs[k]])
  {
    var fs, rs, next := failures[..k + 1], repairs[..k + 1], merged[failures[k].index := repairs[k]];
    forall j: nat | j < |fs| && LastOfIndex(fs, j) ensures next[fs[j].index] == rs[j] {
      if j < k {
        assert Elsewhere(fs, k, j);
        forall m: nat | j < m < k ensures Elsewhere(failures[..k], m, j) {
          assert Elsewhere(fs, m, j);
        }
        assert LastOfIndex(failures[..k], j);
      }
    }
    forall i | 0 <= i < |ss| ensures Among(fs, i) || next[i] == ss[i] {
      AmongMore(failures, k, i);
    }
  }

  lemma AmongMore(failures: seq<FailingSentence>, k: nat, i: nat)
    requires k < |failures|
    ensures Among(failures[..k + 1], i) <==> Among(failures[..k], i) || failures[k].index == i
  {
    var fs := failures[..k + 1];
    assert fs[k] == failures[k];
    assert forall j :: 0 <= j < k ==> failures[..k][j] == fs[j];
  }

  /** `IndexError` is the exception for a failure that is not about a sentence of the text. */
  datatype Merge = Merged(text: string) | IndexError

  method MergeSentenceRepairs(original: string, failures: seq<FailingSentence>, repairedText: string)
    returns (result: Merge, ghost merged: seq<string>)
    ensures |SplitSentences(repairedText)| != |failures| ==> result == Merged(original)
    ensures |SplitSentences(repairedText)| == |failures| ==>
              if InRange(failures, |SplitSentences(original)|)
              then
                && result == Merged(Join(" ", merged))
                && Patched(SplitSentences(original), failures, SplitSentences(repairedText), merged)
              else result.IndexError?
  {
    var sentences := SplitSentences(original);
    var repairs := SplitSentences(repairedText);
    merged := sentences;
    if |repairs| != |failures| {
      return Merged(original), merged;
    }
    for k := 0 to |failures|
      invariant |sentences| == |SplitSentences(original)|
      invariant InRange(failures[..k], |sentences|)
      invariant Patched(SplitSentences(original), failures[..k], repairs[..k], sentences)
    {
      if failures[k].index >= |sentences| {
        return IndexError, merged;
      }
      PatchNext(SplitSentences(original), failures, repairs, sentences, k);
      sentences := sentences[failures[k].index := repairs[k]];
    }
    assert failures[..|failures|] == failures && repairs[..|repairs|] == repairs;
    result := Merged(Join(" ", sentences));
    merged := sentences;
  }

  /** The only repair that can glue two sentences together is the last one, when it replaces a
      sentence in the middle of the text and does not end in a terminator. */
  ghost predicate LastRepairFits(sentenceCount: nat, failures: seq<FailingSentence>, repairs: seq<string>)
    requires |repairs| == |failures|
  {
    failures == [] || failures[|failures| - 1].index == sentenceCount - 1 || EndsSentence(repairs[|repairs| - 1])
  }

  /** After a count-matching merge, splitting the merged text gives the merged sentences - the repair
      at each failing index and the original sentence everywhere else - exactly when the last repair
      fits. */
  lemma MergedTextSplitsBack(original: string, failures: seq<FailingSentence>, repairedText: string,
                             merged: seq<string>)
    requires InRange(failures, |SplitSentences(original)|)
    requires |SplitSentences(repairedText)| == |failures|
    requires Patched(SplitSentences(original), failures, SplitSentences(repairedText), merged)
    ensures SplitSentences(Join(" ", merged)) == merged <==>
            LastRepairFits(|merged|, failures, SplitSentences(repairedText))
  {
    SplitIsNormal(original);
    SplitIsNormal(repairedText);
    PatchedSentences(SplitSentences(original), failures, SplitSentences(repairedText), merged);
    SurvivesExactlyWhenTerminated(merged);
  }

  /** Of the failures with an index there is a last one. */
  lemma {:induction false} LastFor(failures: seq<FailingSentence>, k: nat) returns (last: nat)
    requires k < |failures|
    ensures k <= last < |failures| && failures[last].index == failures[k].index && LastOfIndex(failures, last)
    decreases |failures| - k
  {
    last := k;
    if j: nat :| k < j < |failures| && !Elsewhere(failures, j, k) {
      last := LastFor(failures, j);
    }
  }

  lemma PatchedSentences(ss: seq<string>, failures: seq<FailingSentence>, repairs: seq<string>, merged: seq<string>)
    requires |repairs| == |failures| && InRange(failures, |ss|) && Patched(ss, failures, repairs, merged)
    requires NormalList(ss) && NormalList(repairs)
    ensures forall i :: 0 <= i < |merged| ==> Atomic(merged[i])
    ensures (forall i :: 0 <= i < |merged| - 1 ==> EndsSentence(merged[i])) <==>
            LastRepairFits(|merged|, failures, repairs)
  {
    forall i | 0 <= i < |merged|
      ensures Atomic(merged[i])
      ensures i < |merged| - 1 && LastRepairFits(|merged|, failures, repairs) ==> EndsSentence(merged[i])
    {
      if k: nat :| k < |failures| && failures[k].index == i {
        var last := LastFor(failures, k);
        assert merged[i] == repairs[last];
      } else {
        assert !Among(failures, i);
        assert merged[i] == ss[i];
      }
    }
    if failures != [] {
      assert LastOfIndex(failures, |failures| - 1);
      assert merged[failures[|failures| - 1].index] == repairs[|repairs| - 1];
    }
  }

  /** The condition is needed: a sentence without a terminator and the one after it become one. */
  lemma UnterminatedGluesWithNext(a: string, b: string)
    requires Atomic(a) && Atomic(b) && !EndsSentence(a)
    ensures SplitSentences(Join(" ", [a, b])) == [a + " " + b]
  {
    var glued := a + " " + b;
    forall i ensures !Cut(glued, i) {
      if i < |a| {
        assert !Cut(a, i);
      } else if |a| + 1 < i < |glued| {
        assert glued[i - 1] == b[i - |a| - 2] && !Cut(b, i - |a| - 1);
      }
    }
    assert Join(" ", [a, b]) == glued == Join(" ", [glued]);
    SplitJoin([glued]);
  }

  /** Index `i` is one of those being repaired. */
  ghost predicate Among(failures: seq<FailingSentence>, i: nat) {
    exists k :: 0 <= k < |failures| && failures[k].index == i
  }

  lemma PatchedElsewhere(ss: seq<string>, failures: seq<FailingSentence>, repairs: seq<string>, merged: seq<string>,
                         i: nat)
    requires |repairs| == |failures| && InRange(failures, |ss|) && Patched(ss, failures, repairs, merged) && i < |ss|
    ensures Among(failures, i) || merged[i] == ss[i]
  {
  }

  /** A fitting repair round never breaks a sentence that passed: whatever fails afterwards fails at
      an index that was being repaired, and no more sentences fail than before. */
  lemma RepairNeverBreaksAPassingSentence(
      original: string, failures: seq<FailingSentence>, repairedText: string, merged: seq<string>,
      analyze: string -> Coverage, target: real, requireNoUnknown: bool, later: seq<FailingSentence>)
    requires FailuresOf(original, analyze, target, requireNoUnknown, failures)
    requires |SplitSentences(repairedText)| == |failures|
    requires Patched(SplitSentences(original), failures, SplitSentences(repairedText), merged)
    requires LastRepairFits(|merged|, failures, SplitSentences(repairedText))
    requires FailuresOf(Join(" ", merged), analyze, target, requireNoUnknown, later)
    ensures forall j :: 0 <= j < |later| ==> Among(failures, later[j].index)
    ensures |later| <= |failures|
  {
    var ss := SplitSentences(original);
    MergedTextSplitsBack(original, failures, repairedText, merged);
    forall j | 0 <= j < |later| ensures Among(failures, later[j].index) {
      PatchedElsewhere(ss, failures, SplitSentences(repairedText), merged, later[j].index);
    }
    FewerIndices(later, failures, |merged|);
  }

  /** A strictly increasing list whose indices all occur in another is no longer than it. */
  lemma {:induction false} FewerIndices(later: seq<FailingSentence>, failures: seq<FailingSentence>, count: nat)
    requires InOrder(later, count) && InOrder(failures, count)
    requires forall j :: 0 <= j < |later| ==> Among(failures, later[j].index)
    ensures |later| <= |failures|
    decreases |later|
  {
    if later != [] {
      var last := |later| - 1;
      assert Among(failures, later[last].index);
      var k :| 0 <= k < |failures| && failures[k].index == later[last].index;
      forall j | 0 <= j < last ensures Among(failures[..k], later[..last][j].index) {
        assert Among(failures, later[j].index);
        var m :| 0 <= m < |failures| && failures[m].index == later[j].index;
        assert Earlier(later, j, last);
        assert m > k ==> Earlier(failures, k, m);
        assert failures[..k][m].index == later[..last][j].index;
      }
      InOrderPrefix(later, count, last);
      InOrderPrefix(failures, count, k);
      FewerIndices(later[..last], failures[..k], count);
    }
  }
}
