/** Categorical sea state: bulletin vocabulary and the WMO Code table 3700 height bands. */
module SeaState {
  import opened Numbers
  import opened Text
  import opened Wrappers

  /** The term as published, plus the height interval of every code it spans. */
  datatype Band = Band(category: string, normalised: string, codes: seq<Code>,
                       minHeight: real, maxHeight: real, openEnded: bool)

  type Code = c: nat | c <= 9

  type Vocabulary = map<string, Code>

  function LowerBound(c: Code): real {
    match c
    case 0 => 0.0 case 1 => 0.0 case 2 => 0.1 case 3 => 0.5 case 4 => 1.25
    case 5 => 2.5 case 6 => 4.0 case 7 => 6.0 case 8 => 9.0 case _ => 14.0
  }

  /** Code 9 is open upwards; 14 m is a finite stand-in for its upper bound. */
  function UpperBound(c: Code): real {
    match c
    case 0 => 0.0 case 1 => 0.1 case 2 => 0.5 case 3 => 1.25 case 4 => 2.5
    case 5 => 4.0 case 6 => 6.0 case 7 => 9.0 case 8 => 14.0 case _ => 14.0
  }

  /** The bulletin words that are verified, and the code each one names. */
  const TERM_TO_CODE: Vocabulary := map[
    "calm" := 0, "calm glassy" := 0, "glassy" := 0, "calm rippled" := 1, "rippled" := 1,
    "smooth" := 2, "smooth wavelets" := 2, "wavelets" := 2, "slight" := 3, "moderate" := 4,
    "rough" := 5, "very rough" := 6, "high" := 7, "very high" := 8, "phenomenal" := 9]

  const SPAN_SEPARATORS: seq<string> := [" becoming ", " to ", " or ", "/", "-"]

  function Normalise(category: string): string {
    Strip(StripPunctuation(Lower(category)))
  }

  /** Trimmed, nonempty pieces of a split. */
  function Trimmed(parts: seq<string>): seq<string> {
    if parts == [] then []
    else
      var p := Strip(parts[0]);
      if p == [] then Trimmed(parts[1..]) else [p] + Trimmed(parts[1..])
  }

  /** Splits at the first separator of the list that occurs at all. */
  function SplitSpan(normalised: string, separators: seq<string>): seq<string> {
    if separators == [] then [normalised]
    else if separators[0] != [] && Find(normalised, separators[0], 0) < |normalised|
    then Trimmed(Split(normalised, separators[0]))
    else SplitSpan(normalised, separators[1..])
  }

  predicate Verified(parts: seq<string>, words: Vocabulary) {
    parts != [] && forall p :: p in parts ==> p in words
  }

  function CodeSet(parts: seq<string>, words: Vocabulary): set<Code>
    requires forall p :: p in parts ==> p in words
  {
    set p | p in parts :: words[p]
  }

  const CODE_COUNT: nat := 10

  /** The members of `codes` below `n`, ascending. */
  function Ascending(codes: set<Code>, n: nat): (r: seq<Code>)
    requires n <= 10
    ensures forall c :: c in codes && c < n ==> c in r
    ensures forall k :: 0 <= k < |r| ==> r[k] in codes && r[k] < n
    ensures forall i, j :: 0 <= i < j < |r| ==> r[i] < r[j]
  {
    if n == 0 then []
    else if n - 1 in codes then Ascending(codes, n - 1) + [n - 1]
    else Ascending(codes, n - 1)
  }

  lemma BoundsAscend(c: Code, d: Code)
    requires c <= d
    ensures LowerBound(c) <= LowerBound(d) && UpperBound(c) <= UpperBound(d)
    ensures 0.0 <= LowerBound(c) <= UpperBound(c) <= 14.0
  {
  }

  lemma AscendingIsNonempty(codes: set<Code>)
    requires codes != {}
    ensures Ascending(codes, CODE_COUNT) != []
  {
    var c :| c in codes;
    assert c in Ascending(codes, CODE_COUNT);
  }

  /** The hull of a set of codes, from its smallest and its largest member. */
  function HullOf(category: string, normalised: string, codes: set<Code>): (b: Band)
    requires codes != {}
    ensures 0.0 <= b.minHeight <= b.maxHeight <= 14.0
    ensures b.openEnded ==> b.maxHeight == 14.0
    ensures b.category == category && b.normalised == normalised
  {
    AscendingIsNonempty(codes);
    var ordered := Ascending(codes, CODE_COUNT);
    var first, last := ordered[0], ordered[|ordered| - 1];
    BoundsAscend(first, last);
    Band(category, normalised, ordered, LowerBound(first), UpperBound(last), 9 in ordered)
  }

  /** The hull covers every code's own band, reaches no further at either end, and lists the codes in order. */
  lemma HullIsTight(category: string, normalised: string, codes: set<Code>)
    requires codes != {}
    ensures var b := HullOf(category, normalised, codes);
      && (forall c :: c in codes ==> b.minHeight <= LowerBound(c) <= UpperBound(c) <= b.maxHeight)
      && (exists c :: c in codes && LowerBound(c) == b.minHeight)
      && (exists c :: c in codes && UpperBound(c) == b.maxHeight)
      && (forall c :: c in b.codes <==> c in codes)
      && (forall i, j :: 0 <= i < j < |b.codes| ==> b.codes[i] < b.codes[j])
      && (b.openEnded <==> 9 in codes)
  {
    AscendingIsNonempty(codes);
    var ordered := Ascending(codes, CODE_COUNT);
    var first, last := ordered[0], ordered[|ordered| - 1];
    assert first in codes && last in codes;
    forall c | c in codes ensures LowerBound(first) <= LowerBound(c) <= UpperBound(c) <= UpperBound(last) {
      assert c in ordered;
      BoundsAscend(first, c);
      BoundsAscend(c, last);
    }
  }

  /** Reading of a normalised term: recognised exactly when every part is vocabulary; the band is the hull. */
  function ParseParts(category: string, normalised: string, parts: seq<string>, words: Vocabulary): (r: Option<Band>)
    ensures r.Some? <==> normalised != [] && Verified(parts, words)
  {
    if normalised == [] || !Verified(parts, words) then None
    else
      assert words[parts[0]] in CodeSet(parts, words);
      Some(HullOf(category, normalised, CodeSet(parts, words)))
  }

  /** What a published term means: nothing at all unless every word of it is verified. */
  function Parse(term: string): Option<Band> {
    var category := Collapse(term);
    var normalised := Normalise(category);
    ParseParts(category, normalised, SplitSpan(normalised, SPAN_SEPARATORS), TERM_TO_CODE)
  }

  /** The engine's loop: collect codes and give up at the first unknown word; then take the hull. */
  method CollectCodes(category: string, normalised: string, parts: seq<string>, words: Vocabulary)
    returns (r: Option<Band>)
    requires normalised != []
    ensures r == ParseParts(category, normalised, parts, words)
  {
    var codes: seq<Code> := [];
    for i := 0 to |parts|
      invariant |codes| == i
      invariant forall k :: 0 <= k < i ==> parts[k] in words && codes[k] == words[parts[k]]
    {
      if parts[i] !in words {
        return None;
      }
      codes := codes + [words[parts[i]]];
    }
    if codes == [] {
      return None;
    }
    assert Verified(parts, words);
    ghost var all := CodeSet(parts, words);
    var codeSet := set k | 0 <= k < |codes| :: codes[k];
    assert codeSet == all by {
      forall c | c in all ensures c in codeSet {
        var p :| p in parts && words[p] == c;
        var k :| 0 <= k < |parts| && parts[k] == p;
        assert codes[k] == c;
      }
      forall c | c in codeSet ensures c in all {
        var k :| 0 <= k < |codes| && codes[k] == c;
        assert parts[k] in parts;
      }
    }
    var ordered := Ascending(codeSet, CODE_COUNT);
    assert codes[0] in codeSet;
    assert codes[0] in ordered;
    var lower, upper := LowerBound(ordered[0]), UpperBound(ordered[0]);
    for i := 1 to |ordered|
      invariant lower == LowerBound(ordered[0])
      invariant upper == UpperBound(ordered[i - 1])
    {
      BoundsAscend(ordered[0], ordered[i]);
      BoundsAscend(ordered[i - 1], ordered[i]);
      lower := MinReal(lower, LowerBound(ordered[i]));
      upper := MaxReal(upper, UpperBound(ordered[i]));
    }
    r := Some(Band(category, normalised, ordered, lower, upper, 9 in ordered));
  }

  /** Maps an authoritative term to its published band, or to nothing. */
  method ParseSeaStateCategory(term: string) returns (r: Option<Band>)
    ensures r == Parse(term)
  {
    var category := Collapse(term);
    var normalised := Normalise(category);
    if normalised == [] {
      return None;
    }
    r := CollectCodes(category, normalised, SplitSpan(normalised, SPAN_SEPARATORS), TERM_TO_CODE);
  }

  // ---------------------------------------------------------------- the vocabulary is accepted

  /** Single blanks inside, none at the ends. */
  predicate Spaced(s: string) {
    && s != [] && !IsSpace(s[0]) && !IsSpace(s[|s| - 1])
    && (forall i :: 0 <= i < |s| ==> s[i] == ' ' || !IsSpace(s[i]))
    && (forall i :: 0 <= i < |s| - 1 ==> s[i] != ' ' || s[i + 1] != ' ')
  }

  /** Text that normalisation leaves alone. */
  predicate Tidy(s: string) {
    Spaced(s) && forall i :: 0 <= i < |s| ==> LowerChar(s[i]) == s[i] && s[i] !in ".;,:"
  }

  lemma SpacedTail(s: string)
    requires Spaced(s) && |s| > 1
    ensures s[1] != ' ' ==> !IsSpace(s[1]) && Spaced(s[1..])
    ensures s[1] == ' ' ==> |s| > 2 && Spaced(s[2..]) && s[1..][1..] == s[2..]
  {
  }

  lemma LeadingBlankCollapses(s: string)
    requires s != [] && s[0] == ' '
    ensures Collapse(s) == Collapse(s[1..])
  {
    assert StripLeft(s) == StripLeft(s[1..]);
  }

  lemma {:induction false} CollapseKeepsSpaced(s: string)
    requires Spaced(s)
    ensures Collapse(s) == s
    decreases |s|
  {
    if |s| > 1 {
      CollapseStep(s);
      hide Collapse;
      SpacedTail(s);
      if s[1] == ' ' {
        LeadingBlankCollapses(s[1..]);
        CollapseKeepsSpaced(s[2..]);
        assert s == [s[0], ' '] + s[2..];
      } else {
        CollapseKeepsSpaced(s[1..]);
        assert s == [s[0]] + s[1..];
      }
    }
  }

  lemma LoweringKeepsBlanks(s: string)
    requires Spaced(Lower(s))
    ensures Spaced(s)
  {
    var t := Lower(s);
    assert forall i :: 0 <= i < |s| ==>
             t[i] == LowerChar(s[i]) && (s[i] == ' ' <==> t[i] == ' ') && IsSpace(s[i]) == IsSpace(t[i]);
    hide Lower, LowerChar, IsSpace;
  }

  lemma NormaliseLowers(s: string)
    requires Tidy(Lower(s))
    ensures Normalise(Collapse(s)) == Lower(s)
  {
    hide Lower, LowerChar, Collapse;
    LoweringKeepsBlanks(s);
    CollapseKeepsSpaced(s);
    hide Spaced;
    TidyEnds(Lower(s));
  }

  lemma TidyEnds(t: string)
    requires Tidy(t)
    ensures Strip(t) == t && StripPunctuation(t) == t
  {
  }

  // A separator is a single mark, or a word between two blanks that begins like no verified word.

  predicate IsMark(c: char) { c == '/' || c == '-' }

  predicate Opens(c: char) { c == 'b' || c == 't' || c == 'o' }

  predicate Framed(sep: string) {
    || (|sep| == 1 && IsMark(sep[0]))
    || (|sep| > 2 && sep[0] == ' ' && sep[|sep| - 1] == ' ' && Opens(sep[1])
        && forall i :: 0 < i < |sep| - 1 ==> 'a' <= sep[i] <= 'z')
  }

  /** A tidy text without marks, none of whose words begins like a separator. */
  predicate Term(s: string) {
    && Tidy(s) && (forall i :: 0 <= i < |s| ==> !IsMark(s[i]))
    && !Opens(s[0]) && (forall i :: 0 <= i < |s| - 1 && s[i] == ' ' ==> !Opens(s[i + 1]))
  }

  predicate Terms(ts: seq<string>) { ts != [] && forall t :: t in ts ==> Term(t) }

  lemma SeparatorsAreFramed()
    ensures forall sep :: sep in SPAN_SEPARATORS ==> Framed(sep)
  {
  }

  predicate Word(s: string) { s != [] && !Opens(s[0]) && forall i :: 0 <= i < |s| ==> 'a' <= s[i] <= 'z' }

  lemma OneWordIsATerm(a: string)
    requires Word(a)
    ensures Term(a)
  {
  }

  lemma TwoWordsAreATerm(a: string, b: string)
    requires Word(a) && Word(b)
    ensures Term(a + " " + b)
  {
    assert forall i :: 0 <= i < |a + " " + b| && i != |a| ==> 'a' <= (a + " " + b)[i] <= 'z';
  }

  lemma SingleWordsAreSpelled()
    ensures Word("calm") && Word("glassy") && Word("rippled") && Word("smooth") && Word("wavelets")
    ensures Word("slight") && Word("moderate") && Word("rough") && Word("very") && Word("high")
    ensures Word("phenomenal")
  {
  }

  lemma DoubleWordsAreSpelled()
    ensures "calm glassy" == "calm" + " " + "glassy" && "calm rippled" == "calm" + " " + "rippled"
    ensures "smooth wavelets" == "smooth" + " " + "wavelets"
    ensures "very rough" == "very" + " " + "rough" && "very high" == "very" + " " + "high"
  {
  }

  /** The verified terms are single words, or two of them. */
  lemma VocabularyIsSpelled(w: string)
    requires w in TERM_TO_CODE
    ensures Word(w) || exists a, b :: Word(a) && Word(b) && w == a + " " + b
  {
    hide Word;
    SingleWordsAreSpelled();
    DoubleWordsAreSpelled();
  }

  lemma VocabularyIsTerms(w: string)
    requires w in TERM_TO_CODE
    ensures Term(w)
  {
    VocabularyIsSpelled(w);
    if Word(w) {
      OneWordIsATerm(w);
    } else {
      var a, b :| Word(a) && Word(b) && w == a + " " + b;
      TwoWordsAreATerm(a, b);
    }
  }

  /** An occurrence shows the separator letter by letter, in particular at both ends. */
  lemma OccurrenceAt(sep: string, s: string, i: nat)
    requires sep != [] && OccursAt(sep, s, i)
    ensures forall k :: 0 <= k < |sep| ==> s[i + k] == sep[k]
    ensures s[i] == sep[0] && (|sep| > 1 ==> s[i + 1] == sep[1]) && s[i + |sep| - 1] == sep[|sep| - 1]
  {
    forall k | 0 <= k < |sep| ensures s[i + k] == sep[k] {
      assert s[i..i + |sep|][k] == s[i + k];
    }
    assert s[i + 0] == sep[0] && s[i + (|sep| - 1)] == sep[|sep| - 1];
  }

  lemma NoSeparatorInTerm(s: string, sep: string, i: nat)
    requires Term(s) && Framed(sep)
    ensures !OccursAt(sep, s, i)
  {
    if OccursAt(sep, s, i) { OccurrenceAt(sep, s, i); }
  }

  /** Where a separator occurs between a term and a text that begins like a term, it is the one put there. */
  lemma OccurrenceBetween(a: string, sep: string, rest: string, other: string, i: nat)
    requires Term(a) && rest != [] && !Opens(rest[0]) && Framed(sep) && Framed(other)
    requires OccursAt(other, a + sep + rest, i) && i < |a| + |sep|
    ensures i == |a| && other == sep
  {
    var t := a + sep + rest;
    OccurrenceAt(other, t, i);
    assert t[|a| + |sep|] == rest[0];
    assert forall k :: 0 <= k < |a| ==> t[k] == a[k];
    assert forall k :: 0 <= k < |sep| ==> t[|a| + k] == sep[k];
    assert i == |a|;
    SameFrame(sep, other, t, i);
  }

  lemma SameFrame(sep: string, other: string, t: string, i: nat)
    requires Framed(sep) && Framed(other)
    requires i + |sep| <= |t| && i + |other| <= |t|
    requires forall k :: 0 <= k < |sep| ==> t[i + k] == sep[k]
    requires forall k :: 0 <= k < |other| ==> t[i + k] == other[k]
    ensures other == sep
  {
    assert t[i + 0] == sep[0] == other[0];
    var m, n := |sep| - 1, |other| - 1;
    assert m <= n ==> t[i + m] == sep[m] == other[m];
    assert n <= m ==> t[i + n] == sep[n] == other[n];
    assert m == n;
    assert forall k :: 0 <= k < |sep| ==> sep[k] == other[k];
  }

  /** A joined text holds no other separator than its own, and that one only after the first term. */
  lemma {:induction false} OnlyOneSeparator(ts: seq<string>, sep: string, other: string, i: nat)
    requires Terms(ts) && Framed(sep) && Framed(other) && OccursAt(other, Join(ts, sep), i)
    ensures other == sep && |ts| > 1 && i >= |ts[0]|
    decreases |ts|
  {
    hide Term, Framed;
    if |ts| == 1 {
      NoSeparatorInTerm(ts[0], other, i);
    } else {
      var rest := Join(ts[1..], sep);
      JoinBegins(ts[1..], sep);
      var n := |ts[0]| + |sep|;
      if i < n {
        OccurrenceBetween(ts[0], sep, rest, other, i);
      } else {
        assert Join(ts, sep)[i..i + |other|] == rest[i - n..i - n + |other|];
        OnlyOneSeparator(ts[1..], sep, other, i - n);
      }
    }
  }

  lemma JoinBegins(ts: seq<string>, sep: string)
    requires Terms(ts)
    ensures Join(ts, sep) != [] && !Opens(Join(ts, sep)[0])
  {
    assert Term(ts[0]);
  }

  /** Splitting undoes joining, for terms. */
  lemma {:induction false} SplitOfJoin(ts: seq<string>, sep: string)
    requires Terms(ts) && Framed(sep)
    ensures Split(Join(ts, sep), sep) == ts
    decreases |ts|
  {
    assert sep != [];
    hide Term, Framed, Find, OccursAt, Split;
    FindInJoin(ts, sep);
    if |ts| > 1 {
      var rest := Join(ts[1..], sep);
      assert Join(ts, sep) == ts[0] + sep + rest;
      hide Join;
      SplitOfJoin(ts[1..], sep);
      SplitAtFirst(ts[0], sep, rest);
      assert ts == [ts[0]] + ts[1..];
    } else {
      SplitWhole(ts[0], sep);
      assert ts == [ts[0]];
    }
  }

  lemma SplitWhole(s: string, sep: string)
    requires sep != [] && Find(s, sep, 0) == |s|
    ensures Split(s, sep) == [s]
  {
    hide Find;
  }

  lemma SplitAtFirst(a: string, sep: string, rest: string)
    requires sep != [] && Find(a + sep + rest, sep, 0) == |a|
    ensures Split(a + sep + rest, sep) == [a] + Split(rest, sep)
  {
    hide Find;
    var t := a + sep + rest;
    assert t[..|a|] == a && t[|a| + |sep|..] == rest;
  }

  lemma FindInJoin(ts: seq<string>, sep: string)
    requires Terms(ts) && Framed(sep)
    ensures Find(Join(ts, sep), sep, 0) == |ts[0]|
    ensures |ts| > 1 ==> |ts[0]| + |sep| <= |Join(ts, sep)|
  {
    hide Term, Join;
    var t := Join(ts, sep);
    var i := Find(t, sep, 0);
    if i < |t| { OnlyOneSeparator(ts, sep, sep, i); }
    JoinHead(ts, sep);
  }

  lemma JoinHead(ts: seq<string>, sep: string)
    requires Terms(ts)
    ensures |ts| == 1 ==> Join(ts, sep) == ts[0]
    ensures |ts| > 1 ==> OccursAt(sep, Join(ts, sep), |ts[0]|)
  {
    hide Term;
    if |ts| > 1 {
      var rest := Join(ts[1..], sep);
      assert (ts[0] + sep + rest)[|ts[0]|..|ts[0]| + |sep|] == sep;
    }
  }

  lemma {:induction false} TermsAreTrimmed(ts: seq<string>)
    requires forall t :: t in ts ==> Term(t)
    ensures Trimmed(ts) == ts
  {
    if ts != [] {
      assert Term(ts[0]);
      TidyEnds(ts[0]);
      TermsAreTrimmed(ts[1..]);
      assert ts == [ts[0]] + ts[1..];
    }
  }

  /** The splitting looks for each separator in turn, and finds the terms whichever separator joins them. */
  lemma {:induction false} SpanOfJoin(ts: seq<string>, sep: string, separators: seq<string>)
    requires Terms(ts) && sep in separators && forall other :: other in separators ==> Framed(other)
    ensures SplitSpan(Join(ts, sep), separators) == ts
  {
    hide Find, Split, Trimmed, Term, Join, OccursAt;
    var t, other := Join(ts, sep), separators[0];
    assert other in separators && other != [];
    var i := Find(t, other, 0);
    if other == sep && |ts| > 1 {
      FindInJoin(ts, sep);
      SplitOfJoin(ts, sep);
      TermsAreTrimmed(ts);
    } else {
      if i < |t| { OnlyOneSeparator(ts, sep, other, i); }
      if |ts| == 1 {
        JoinHead(ts, sep);
        TermIsOnePart(ts[0], separators);
      } else {
        SpanOfJoin(ts, sep, separators[1..]);
      }
    }
  }

  lemma {:induction false} TermIsOnePart(s: string, separators: seq<string>)
    requires Term(s) && forall sep :: sep in separators ==> Framed(sep)
    ensures SplitSpan(s, separators) == [s]
  {
    if separators != [] {
      assert separators[0] in separators;
      var i := Find(s, separators[0], 0);
      NoSeparatorInTerm(s, separators[0], i);
      TermIsOnePart(s, separators[1..]);
    }
  }

  lemma TidyAround(a: string, sep: string, b: string)
    requires Tidy(a) && Framed(sep) && Tidy(b)
    ensures Tidy(a + sep + b)
  {
    var t := a + sep + b;
    assert forall k :: 0 <= k < |a| ==> t[k] == a[k];
    assert forall k :: |a| <= k < |a| + |sep| ==> t[k] == sep[k - |a|];
    assert forall k :: |a| + |sep| <= k < |t| ==> t[k] == b[k - |a| - |sep|];
  }

  lemma {:induction false} JoinIsTidy(ts: seq<string>, sep: string)
    requires Terms(ts) && Framed(sep)
    ensures Tidy(Join(ts, sep))
    decreases |ts|
  {
    assert Tidy(ts[0]) by { assert Term(ts[0]); }
    hide Term, Framed, Tidy;
    if |ts| > 1 {
      JoinIsTidy(ts[1..], sep);
      TidyAround(ts[0], sep, Join(ts[1..], sep));
    }
  }

  /** The band of the codes of `ts`: reaches over each one's published band, and at either end no further than some. */
  ghost predicate Spans(b: Band, ts: seq<string>)
    requires forall t :: t in ts ==> t in TERM_TO_CODE
  {
    && (forall t :: t in ts ==> b.minHeight <= LowerBound(TERM_TO_CODE[t]) && UpperBound(TERM_TO_CODE[t]) <= b.maxHeight)
    && (exists t :: t in ts && LowerBound(TERM_TO_CODE[t]) == b.minHeight)
    && (exists t :: t in ts && UpperBound(TERM_TO_CODE[t]) == b.maxHeight)
    && (b.openEnded <==> exists t :: t in ts && TERM_TO_CODE[t] == 9)
    && (forall c :: c in b.codes <==> exists t :: t in ts && TERM_TO_CODE[t] == c)
    && (forall i, j :: 0 <= i < j < |b.codes| ==> b.codes[i] < b.codes[j])
  }

  lemma HullSpans(category: string, normalised: string, ts: seq<string>)
    requires ts != [] && forall t :: t in ts ==> t in TERM_TO_CODE
    requires CodeSet(ts, TERM_TO_CODE) != {}
    ensures Spans(HullOf(category, normalised, CodeSet(ts, TERM_TO_CODE)), ts)
  {
    HullIsTight(category, normalised, CodeSet(ts, TERM_TO_CODE));
    hide HullOf, LowerBound, UpperBound;
    assert forall t :: t in ts ==> TERM_TO_CODE[t] in CodeSet(ts, TERM_TO_CODE);
  }

  /**
    * Verified terms, any number of them, with any one separator between them and in capitals or not, are accepted: the
    * parser gets back exactly those terms, and the band spans what they mean.
    */
  lemma EverySpanIsAccepted(term: string, ts: seq<string>, sep: string)
    requires ts != [] && (forall t :: t in ts ==> t in TERM_TO_CODE) && sep in SPAN_SEPARATORS
    requires Lower(term) == Join(ts, sep)
    ensures SplitSpan(Normalise(Collapse(term)), SPAN_SEPARATORS) == ts
    ensures Parse(term).Some? && Spans(Parse(term).value, ts)
    ensures Parse(term).value.category == Collapse(term) && Parse(term).value.normalised == Lower(term)
  {
    hide Tidy, Term, Collapse, Normalise, SplitSpan, HullOf, Spans, Framed, Join;
    SeparatorsAreFramed();
    forall t | t in ts ensures Term(t) { VocabularyIsTerms(t); }
    assert Terms(ts);
    JoinIsTidy(ts, sep);
    JoinBegins(ts, sep);
    NormaliseLowers(term);
    SpanOfJoin(ts, sep, SPAN_SEPARATORS);
    assert TERM_TO_CODE[ts[0]] in CodeSet(ts, TERM_TO_CODE);
    HullSpans(Collapse(term), Lower(term), ts);
  }

  /** In particular a single term, which means exactly the published band of its code. */
  lemma EveryTermIsAccepted(term: string)
    requires Lower(term) in TERM_TO_CODE
    ensures var r, c := Parse(term), TERM_TO_CODE[Lower(term)];
      && r.Some? && r.value.minHeight == LowerBound(c) && r.value.maxHeight == UpperBound(c)
      && (r.value.openEnded <==> c == 9)
  {
    hide Parse, LowerBound, UpperBound, Lower;
    var w := Lower(term);
    assert Join([w], "-") == w;
    EverySpanIsAccepted(term, [w], "-");
  }

  lemma TwoJoined(a: string, sep: string, b: string)
    ensures Join([a, b], sep) == a + sep + b
  {
    assert [a, b][1..] == [b];
  }

  /** And a span of two, from the lower to the higher. */
  lemma EveryPairIsAccepted(term: string, a: string, sep: string, b: string)
    requires a in TERM_TO_CODE && b in TERM_TO_CODE && sep in SPAN_SEPARATORS
    requires Lower(term) == a + sep + b
    ensures var r, c, d := Parse(term), TERM_TO_CODE[a], TERM_TO_CODE[b];
      && r.Some?
      && r.value.minHeight == (if c <= d then LowerBound(c) else LowerBound(d))
      && r.value.maxHeight == (if c <= d then UpperBound(d) else UpperBound(c))
      && (r.value.openEnded <==> c == 9 || d == 9)
  {
    var c, d := TERM_TO_CODE[a], TERM_TO_CODE[b];
    if c <= d { BoundsAscend(c, d); } else { BoundsAscend(d, c); }
    hide Parse, LowerBound, UpperBound, Lower;
    TwoJoined(a, sep, b);
    EverySpanIsAccepted(term, [a, b], sep);
    assert a in [a, b] && b in [a, b];
  }

  lemma ModerateToRough()
    ensures var r := Parse("MODERATE TO ROUGH");
            r.Some? && r.value.minHeight == 1.25 && r.value.maxHeight == 4.0 && !r.value.openEnded
  {
    hide Parse;
    assert Lower("MODERATE TO ROUGH") == "moderate" + " to " + "rough";
    EveryPairIsAccepted("MODERATE TO ROUGH", "moderate", " to ", "rough");
  }

  lemma RoughToVeryRough()
    ensures var r := Parse("rough to very rough");
            r.Some? && r.value.minHeight == 2.5 && r.value.maxHeight == 6.0 && !r.value.openEnded
  {
    hide Parse;
    assert Lower("rough to very rough") == "rough" + " to " + "very rough";
    EveryPairIsAccepted("rough to very rough", "rough", " to ", "very rough");
  }

  // ---------------------------------------------------------------- the published table

  /** The term is accepted and means this band. */
  predicate Means(term: string, low: real, high: real, open: bool) {
    Parse(term).Some? && Parse(term).value.minHeight == low && Parse(term).value.maxHeight == high
    && Parse(term).value.openEnded == open
  }

  lemma TableOfSingleTerms()
    ensures forall w :: w in {"calm", "glassy", "rippled", "smooth", "wavelets"} ==> w in TERM_TO_CODE
    ensures forall w :: w in {"slight", "moderate", "rough", "high", "phenomenal"} ==> w in TERM_TO_CODE
    ensures TERM_TO_CODE["calm"] == 0 && TERM_TO_CODE["glassy"] == 0 && TERM_TO_CODE["rippled"] == 1
    ensures TERM_TO_CODE["smooth"] == 2 && TERM_TO_CODE["wavelets"] == 2 && TERM_TO_CODE["slight"] == 3
    ensures TERM_TO_CODE["moderate"] == 4 && TERM_TO_CODE["rough"] == 5 && TERM_TO_CODE["high"] == 7
    ensures TERM_TO_CODE["phenomenal"] == 9
  {
  }

  lemma TableOfDoubleTerms()
    ensures forall w :: w in {"calm glassy", "calm rippled", "smooth wavelets", "very rough", "very high"} ==>
              w in TERM_TO_CODE
    ensures TERM_TO_CODE["calm glassy"] == 0 && TERM_TO_CODE["calm rippled"] == 1 && TERM_TO_CODE["smooth wavelets"] == 2
    ensures TERM_TO_CODE["very rough"] == 6 && TERM_TO_CODE["very high"] == 8
  {
  }

  /** A lower-case term of the table. */
  lemma TermMeans(w: string, c: Code)
    requires w in TERM_TO_CODE && TERM_TO_CODE[w] == c
    ensures Means(w, LowerBound(c), UpperBound(c), c == 9)
  {
    hide Parse, LowerBound, UpperBound;
    assert Lower(w) == w by { TermIsLower(w); }
    EveryTermIsAccepted(w);
  }

  lemma TermIsLower(w: string)
    requires w in TERM_TO_CODE
    ensures Lower(w) == w
  {
    VocabularyIsTerms(w);
  }

  /** The verified words of one part, in metres. */
  lemma SingleTermsInPlainTerms()
    ensures Means("calm", 0.0, 0.0, false) && Means("glassy", 0.0, 0.0, false)
    ensures Means("rippled", 0.0, 0.1, false)
    ensures Means("smooth", 0.1, 0.5, false) && Means("wavelets", 0.1, 0.5, false)
    ensures Means("slight", 0.5, 1.25, false)
    ensures Means("moderate", 1.25, 2.5, false)
    ensures Means("rough", 2.5, 4.0, false)
    ensures Means("high", 6.0, 9.0, false)
    ensures Means("phenomenal", 14.0, 14.0, true)
  {
    hide Means;
    TableOfSingleTerms();
    TermMeans("calm", 0);
    TermMeans("glassy", 0);
    TermMeans("rippled", 1);
    TermMeans("smooth", 2);
    TermMeans("wavelets", 2);
    TermMeans("slight", 3);
    TermMeans("moderate", 4);
    TermMeans("rough", 5);
    TermMeans("high", 7);
    TermMeans("phenomenal", 9);
  }

  /** And those of two. */
  lemma DoubleTermsInPlainTerms()
    ensures Means("calm glassy", 0.0, 0.0, false)
    ensures Means("calm rippled", 0.0, 0.1, false)
    ensures Means("smooth wavelets", 0.1, 0.5, false)
    ensures Means("very rough", 4.0, 6.0, false)
    ensures Means("very high", 9.0, 14.0, false)
  {
    hide Means;
    TableOfDoubleTerms();
    TermMeans("calm glassy", 0);
    TermMeans("calm rippled", 1);
    TermMeans("smooth wavelets", 2);
    TermMeans("very rough", 6);
    TermMeans("very high", 8);
  }

  /** No other term is accepted. */
  lemma OtherTermsAreRefused(term: string)
    requires Term(Lower(term))
    requires Lower(term) !in {"calm", "glassy", "rippled", "smooth", "wavelets", "slight", "moderate", "rough", "high",
                              "phenomenal", "calm glassy", "calm rippled", "smooth wavelets", "very rough", "very high"}
    ensures Parse(term) == None
  {
    var w := Lower(term);
    assert w !in TERM_TO_CODE by { VocabularyIsListed(w); }
    hide Collapse, Normalise, SplitSpan, HullOf, Framed, Lower;
    SeparatorsAreFramed();
    NormaliseLowers(term);
    TermIsOnePart(w, SPAN_SEPARATORS);
    assert w in [w];
  }

  lemma VocabularyIsListed(w: string)
    ensures w !in {"calm", "glassy", "rippled", "smooth", "wavelets", "slight", "moderate", "rough", "high",
                   "phenomenal", "calm glassy", "calm rippled", "smooth wavelets", "very rough", "very high"}
            ==> w !in TERM_TO_CODE
  {
  }

  // ---------------------------------------------------------------- white space and punctuation

  predicate Punctuation(p: string) { forall i :: 0 <= i < |p| ==> p[i] in ".;,:" }

  lemma {:induction false} PunctuationGoes(s: string, p: string)
    requires Punctuation(p)
    ensures StripPunctuation(s + p) == StripPunctuation(s)
  {
    if p == [] {
      assert s + p == s;
    } else {
      var n := |p| - 1;
      assert (s + p)[..|s + p| - 1] == s + p[..n];
      PunctuationGoes(s, p[..n]);
    }
  }

  lemma PunctuatedIsSpaced(s: string, p: string)
    requires Spaced(s) && Punctuation(p)
    ensures Spaced(s + p) && Lower(s + p) == Lower(s) + p
  {
    assert forall i :: 0 <= i < |p| ==> !IsSpace(p[i]) && LowerChar(p[i]) == p[i];
    assert forall i :: |s| <= i < |s + p| ==> (s + p)[i] == p[i - |s|];
  }

  /** White space around a term, and punctuation behind it, change nothing. */
  lemma NormaliseUndresses(u: string, s: string, p: string, v: string)
    requires Tidy(Lower(s)) && Blank(u) && Punctuation(p) && Blank(v)
    ensures Normalise(Collapse(u + s + p + v)) == Lower(s)
  {
    LoweringKeepsBlanks(s);
    PunctuatedIsSpaced(s, p);
    hide Tidy, Spaced, Lower, Collapse, Strip, StripPunctuation;
    assert u + s + p + v == u + (s + p + v);
    CollapseSkips(u, s + p + v);
    CollapseDropsTheEnd(s + p, v);
    CollapseKeepsSpaced(s + p);
    PunctuationGoes(Lower(s), p);
    TidyEnds(Lower(s));
  }

  /** So a dressed term means what the bare one does. */
  lemma DressedTermMeansTheSame(u: string, s: string, p: string, v: string, ts: seq<string>, sep: string)
    requires ts != [] && (forall t :: t in ts ==> t in TERM_TO_CODE) && sep in SPAN_SEPARATORS
    requires Lower(s) == Join(ts, sep) && Blank(u) && Punctuation(p) && Blank(v)
    ensures Parse(u + s + p + v).Some? && Spans(Parse(u + s + p + v).value, ts)
  {
    hide Tidy, Term, Collapse, Normalise, SplitSpan, HullOf, Spans, Framed, Join, Blank, Punctuation, Lower;
    SeparatorsAreFramed();
    forall t | t in ts ensures Term(t) { VocabularyIsTerms(t); }
    assert Terms(ts);
    JoinIsTidy(ts, sep);
    JoinBegins(ts, sep);
    NormaliseUndresses(u, s, p, v);
    SpanOfJoin(ts, sep, SPAN_SEPARATORS);
    assert TERM_TO_CODE[ts[0]] in CodeSet(ts, TERM_TO_CODE);
    HullSpans(Collapse(u + s + p + v), Lower(s), ts);
  }
}
