/** The scanner that turns the text nodes of a marine bulletin into named area blocks. */
module Bulletin {
  import opened Sequences
  import opened Wrappers
  import Text

  // ---------------------------------------------------------------- classifying nodes

  datatype Field = Wind | Weather | Visibility | SeaCondition | PortSignal | StormSurgeTidalWarning
                 | SynopticSituation | TttWarning | TimeOfIssue | Part4 | Part5 | Part6

  datatype Token = Area(name: string) | Label(field: Field) | Value(text: string)

  const FIELD_LABELS: map<string, Field> := map[
    "wind" := Wind, "weather" := Weather, "visibility" := Visibility, "sea condition" := SeaCondition,
    "port signal" := PortSignal, "storm surge/tidal warning" := StormSurgeTidalWarning,
    "storm surge / tidal warning" := StormSurgeTidalWarning, "synoptic situation" := SynopticSituation,
    "ttt warning" := TttWarning, "time of issue" := TimeOfIssue, "part 4" := Part4, "part 5" := Part5,
    "part 6" := Part6]

  function StripColons(s: string): string {
    if s != [] && s[|s| - 1] == ':' then StripColons(s[..|s| - 1]) else s
  }

  function KeyOf(node: string): string { Text.Strip(StripColons(Text.Lower(Text.Strip(node)))) }

  /** `lookup` leads from the lower-case area names of one issuing centre to the names as published. */
  function Classify(node: string, lookup: map<string, string>): Token {
    var key := KeyOf(node);
    if key in lookup then Area(lookup[key])
    else if key in FIELD_LABELS then Label(FIELD_LABELS[key])
    else Value(Text.Collapse(node))
  }

  function Tokens(nodes: seq<string>, lookup: map<string, string>): (ts: seq<Token>)
    ensures |ts| == |nodes|
    ensures forall i :: 0 <= i < |nodes| ==> ts[i] == Classify(nodes[i], lookup)
  {
    seq(|nodes|, i requires 0 <= i < |nodes| => Classify(nodes[i], lookup))
  }

  predicate Colons(s: string) { forall i :: 0 <= i < |s| ==> s[i] == ':' }

  lemma {:induction false} ColonsGo(s: string, colons: string)
    requires Colons(colons)
    ensures StripColons(s + colons) == StripColons(s)
  {
    if colons == [] {
      assert s + colons == s;
    } else {
      var n := |colons| - 1;
      assert (s + colons)[..|s + colons| - 1] == s + colons[..n];
      ColonsGo(s, colons[..n]);
    }
  }

  lemma LowerOfConcat(s: string, t: string)
    ensures Text.Lower(s + t) == Text.Lower(s) + Text.Lower(t)
  {
  }

  lemma LowerKeepsMarks(s: string)
    ensures Text.Blank(s) ==> Text.Lower(s) == s
    ensures Colons(s) ==> Text.Lower(s) == s
    ensures forall i :: 0 <= i < |s| ==> Text.IsSpace(Text.Lower(s)[i]) == Text.IsSpace(s[i])
    ensures forall i :: 0 <= i < |s| ==> (Text.Lower(s)[i] == ':' <==> s[i] == ':')
  {
  }

  /** Begins and ends with something that is neither white space nor a colon. */
  predicate Solid(s: string) {
    s != [] && !Text.IsSpace(s[0]) && !Text.IsSpace(s[|s| - 1]) && s[|s| - 1] != ':'
  }

  /** Capitals, white space around a name, and colons behind it do not matter to what a node is called. */
  lemma KeyInPlainTerms(u: string, name: string, gap: string, colons: string, v: string)
    requires Text.Blank(u) && Solid(name) && Text.Blank(gap) && Colons(colons) && Text.Blank(v)
    ensures KeyOf(u + name + (if colons == [] then [] else gap) + colons + v) == Text.Lower(name)
  {
    var g := if colons == [] then [] else gap;
    var body := name + g + colons;
    assert u + name + g + colons + v == u + body + v;
    BodyIsStripped(u, name, g, colons, v);
    LowerOfBody(name, g, colons);
    LowerKeepsMarks(name);
    hide Text.Strip, Text.Lower, StripColons;
    BareName(Text.Lower(name), g, colons);
  }

  lemma BodyIsStripped(u: string, name: string, g: string, colons: string, v: string)
    requires Text.Blank(u) && Solid(name) && Colons(colons) && Text.Blank(v) && (colons == [] ==> g == [])
    ensures Text.Strip(u + (name + g + colons) + v) == name + g + colons
  {
    var body := name + g + colons;
    assert body[0] == name[0];
    assert body[|body| - 1] == if colons == [] then name[|name| - 1] else colons[|colons| - 1];
    Text.StripInPlainTerms(u, body, v);
  }

  lemma LowerOfBody(name: string, g: string, colons: string)
    requires Text.Blank(g) && Colons(colons)
    ensures Text.Lower(name + g + colons) == Text.Lower(name) + g + colons
  {
    LowerKeepsMarks(g);
    LowerKeepsMarks(colons);
    hide Text.Lower;
    LowerOfConcat(name + g, colons);
    LowerOfConcat(name, g);
  }

  /** Without its colons, and the white space before them, a lowered node is its name. */
  lemma BareName(name: string, g: string, colons: string)
    requires Solid(name) && Text.Blank(g) && Colons(colons)
    ensures Text.Strip(StripColons(name + g + colons)) == name
  {
    hide Text.Strip;
    ColonsGo(name + g, colons);
    assert (name + g)[|name + g| - 1] == if g == [] then name[|name| - 1] else g[|g| - 1];
    assert StripColons(name + g) == name + g;
    Text.StripInPlainTerms([], name, g);
    assert [] + name + g == name + g;
  }

  /** The labels that are read, and the fields they name; every other text is an area or a value. */
  lemma LabelsInPlainTerms()
    ensures FIELD_LABELS.Keys == {"wind", "weather", "visibility", "sea condition", "port signal",
                                  "storm surge/tidal warning", "storm surge / tidal warning", "synoptic situation",
                                  "ttt warning", "time of issue", "part 4", "part 5", "part 6"}
    ensures FIELD_LABELS["wind"] == Wind && FIELD_LABELS["weather"] == Weather && FIELD_LABELS["visibility"] == Visibility
    ensures FIELD_LABELS["sea condition"] == SeaCondition && FIELD_LABELS["port signal"] == PortSignal
    ensures FIELD_LABELS["storm surge/tidal warning"] == StormSurgeTidalWarning
    ensures FIELD_LABELS["storm surge / tidal warning"] == StormSurgeTidalWarning
    ensures FIELD_LABELS["synoptic situation"] == SynopticSituation && FIELD_LABELS["ttt warning"] == TttWarning
    ensures FIELD_LABELS["time of issue"] == TimeOfIssue
    ensures FIELD_LABELS["part 4"] == Part4 && FIELD_LABELS["part 5"] == Part5 && FIELD_LABELS["part 6"] == Part6
  {
  }

  /** An area name opens a block whatever else it might be; then labels; all other text is a value, in single blanks. */
  lemma NodesInPlainTerms(u: string, name: string, gap: string, colons: string, v: string, lookup: map<string, string>)
    requires Text.Blank(u) && Solid(name) && Text.Blank(gap) && Colons(colons) && Text.Blank(v)
    ensures var node := u + name + (if colons == [] then [] else gap) + colons + v;
      && (Text.Lower(name) in lookup ==> Classify(node, lookup) == Area(lookup[Text.Lower(name)]))
      && (Text.Lower(name) !in lookup && Text.Lower(name) in FIELD_LABELS ==>
            Classify(node, lookup) == Label(FIELD_LABELS[Text.Lower(name)]))
      && (Text.Lower(name) !in lookup && Text.Lower(name) !in FIELD_LABELS ==>
            Classify(node, lookup) == Value(Text.Collapse(node)))
  {
    hide KeyOf, Text.Collapse, Text.Lower;
    KeyInPlainTerms(u, name, gap, colons, v);
  }

  // ---------------------------------------------------------------- the scan as a fold

  datatype Block = Block(name: string, fields: map<Field, string>)

  datatype Scan = Scan(areas: seq<Block>, synoptic: Option<string>, pending: Option<Field>)

  const START := Scan([], None, None)

  /** `synoptic or value`: an empty text gives way like a missing one. */
  function Or(synoptic: Option<string>, value: string): Option<string> {
    if synoptic.None? || synoptic.value == "" then Some(value) else synoptic
  }

  /** The first value of a field stays. */
  function SetDefault(fields: map<Field, string>, field: Field, value: string): map<Field, string> {
    if field in fields then fields else fields[field := value]
  }

  function Feed(areas: seq<Block>, field: Field, value: string): seq<Block> {
    if areas == [] then areas
    else
      var n := |areas| - 1;
      areas[n := areas[n].(fields := SetDefault(areas[n].fields, field, value))]
  }

  function Next(s: Scan, t: Token): Scan {
    match t
    case Area(name) => Scan(s.areas + [Block(name, map[])], s.synoptic, None)
    case Label(field) => s.(pending := Some(field))
    case Value(text) =>
      if s.pending.None? then s
      else if s.pending.value == SynopticSituation then Scan(s.areas, Or(s.synoptic, text), None)
      else Scan(Feed(s.areas, s.pending.value, text), s.synoptic, None)
  }

  /** The state after the first `n` tokens. */
  function After(ts: seq<Token>, n: nat): Scan
    requires n <= |ts|
  {
    if n == 0 then START else Next(After(ts, n - 1), ts[n - 1])
  }

  // ---------------------------------------------------------------- the index specification

  /** The positions of the area tokens among the first `n`. */
  function Starts(ts: seq<Token>, n: nat): (starts: seq<nat>)
    requires n <= |ts|
    ensures forall k :: 0 <= k < |starts| ==> starts[k] < n && ts[starts[k]].Area?
    ensures forall i: nat :: i < n && ts[i].Area? ==> i in starts
    ensures forall j, k :: 0 <= j < k < |starts| ==> starts[j] < starts[k]
  {
    if n == 0 then [] else Starts(ts, n - 1) + if ts[n - 1].Area? then [n - 1] else []
  }

  /** Where the `k`-th block ends: at the next area token, or at the end of what was read. */
  function EndOf(ts: seq<Token>, n: nat, k: nat): (end: nat)
    requires n <= |ts| && k < |Starts(ts, n)|
    ensures Starts(ts, n)[k] < end <= n
  {
    if k + 1 < |Starts(ts, n)| then Starts(ts, n)[k + 1] else n
  }

  /** A text that stands directly behind a label of the field. */
  predicate Answers(ts: seq<Token>, i: nat, field: Field) {
    1 <= i < |ts| && ts[i].Value? && ts[i - 1] == Label(field)
  }

  /** First position from `lo` to below `hi` that answers the field. */
  function FirstAnswer(ts: seq<Token>, lo: nat, hi: nat, field: Field): (r: Option<nat>)
    requires hi <= |ts|
    ensures r.None? <==> forall i: nat :: lo <= i < hi ==> !Answers(ts, i, field)
    ensures r.Some? ==> lo <= r.value < hi && Answers(ts, r.value, field)
                        && forall i: nat :: lo <= i < r.value ==> !Answers(ts, i, field)
  {
    if hi <= lo then None
    else
      var earlier := FirstAnswer(ts, lo, hi - 1, field);
      if earlier.Some? then earlier else if Answers(ts, hi - 1, field) then Some(hi - 1) else None
  }

  /** The fields of a block are the first answers within its stretch; the synoptic text never is one of them. */
  ghost predicate Reads(ts: seq<Token>, lo: nat, hi: nat, fields: map<Field, string>)
    requires hi <= |ts|
  {
    forall field ::
      && (field in fields <==> field != SynopticSituation && FirstAnswer(ts, lo, hi, field).Some?)
      && (field in fields ==> fields[field] == ts[FirstAnswer(ts, lo, hi, field).value].text)
  }

  ghost predicate BlockIs(ts: seq<Token>, n: nat, k: nat, b: Block)
    requires n <= |ts| && k < |Starts(ts, n)|
  {
    b.name == ts[Starts(ts, n)[k]].name && Reads(ts, Starts(ts, n)[k], EndOf(ts, n, k), b.fields)
  }

  lemma ReadsMore(ts: seq<Token>, lo: nat, n: nat, fields: map<Field, string>, more: map<Field, string>)
    requires lo < n < |ts| && Reads(ts, lo, n, fields)
    requires more == match ts[n]
                     case Value(text) =>
                       if ts[n - 1].Label? && ts[n - 1].field != SynopticSituation
                       then SetDefault(fields, ts[n - 1].field, text) else fields
                     case _ => fields
    ensures Reads(ts, lo, n + 1, more)
  {
  }

  ghost predicate BlocksMatch(ts: seq<Token>, n: nat, areas: seq<Block>)
    requires n <= |ts|
  {
    |areas| == |Starts(ts, n)| && forall k :: 0 <= k < |areas| ==> BlockIs(ts, n, k, areas[k])
  }

  lemma AreaOpensBlock(ts: seq<Token>, n: nat, areas: seq<Block>)
    requires n < |ts| && ts[n].Area? && BlocksMatch(ts, n, areas)
    ensures BlocksMatch(ts, n + 1, areas + [Block(ts[n].name, map[])])
  {
    var more := areas + [Block(ts[n].name, map[])];
    var starts := Starts(ts, n);
    assert Starts(ts, n + 1) == starts + [n];
    forall k | 0 <= k < |more| ensures BlockIs(ts, n + 1, k, more[k]) {
      if k < |areas| {
        assert BlockIs(ts, n, k, areas[k]);
        assert EndOf(ts, n + 1, k) == EndOf(ts, n, k);
      } else {
        assert Reads(ts, n, n + 1, map[]);
      }
    }
  }

  /** What the last block becomes when a token that opens no block is read. */
  function Grown(ts: seq<Token>, n: nat, areas: seq<Block>): seq<Block>
    requires 1 <= n < |ts|
  {
    if ts[n].Value? && ts[n - 1].Label? && ts[n - 1].field != SynopticSituation
    then Feed(areas, ts[n - 1].field, ts[n].text) else areas
  }

  lemma LastBlockReadsOn(ts: seq<Token>, n: nat, k: nat, b: Block, more: Block)
    requires 1 <= n < |ts| && !ts[n].Area? && k + 1 == |Starts(ts, n)| && BlockIs(ts, n, k, b)
    requires [more] == Grown(ts, n, [b])
    ensures Starts(ts, n + 1) == Starts(ts, n) && BlockIs(ts, n + 1, k, more)
  {
    assert more == [more][0] == Grown(ts, n, [b])[0];
    ReadsMore(ts, Starts(ts, n)[k], n, b.fields, more.fields);
  }

  lemma GrownGrowsTheLast(ts: seq<Token>, n: nat, areas: seq<Block>)
    requires 1 <= n < |ts|
    ensures |Grown(ts, n, areas)| == |areas|
    ensures forall k :: 0 <= k < |areas| - 1 ==> Grown(ts, n, areas)[k] == areas[k]
    ensures areas != [] ==> [Grown(ts, n, areas)[|areas| - 1]] == Grown(ts, n, [areas[|areas| - 1]])
  {
  }

  lemma EarlierBlockStays(ts: seq<Token>, n: nat, k: nat, b: Block)
    requires n < |ts| && !ts[n].Area? && k + 1 < |Starts(ts, n)| && BlockIs(ts, n, k, b)
    ensures BlockIs(ts, n + 1, k, b)
  {
    hide Reads;
    assert Starts(ts, n + 1) == Starts(ts, n);
    assert EndOf(ts, n + 1, k) == EndOf(ts, n, k);
  }

  lemma BlocksReadOn(ts: seq<Token>, n: nat, areas: seq<Block>)
    requires 1 <= n < |ts| && !ts[n].Area? && BlocksMatch(ts, n, areas)
    ensures BlocksMatch(ts, n + 1, Grown(ts, n, areas))
  {
    var more := Grown(ts, n, areas);
    assert Starts(ts, n + 1) == Starts(ts, n);
    GrownGrowsTheLast(ts, n, areas);
    hide Grown, Starts, BlockIs;
    assert BlocksMatch(ts, n, areas) && |more| == |areas|;
    forall k | 0 <= k < |areas| ensures BlockIs(ts, n + 1, k, more[k]) {
      assert BlockIs(ts, n, k, areas[k]);
      if k == |areas| - 1 {
        LastBlockReadsOn(ts, n, k, areas[k], more[k]);
      } else {
        EarlierBlockStays(ts, n, k, areas[k]);
      }
    }
  }

  /** The texts that answer the synoptic label among the first `n`, in order. */
  function SynopticTexts(ts: seq<Token>, n: nat): seq<string>
    requires n <= |ts|
  {
    if n == 0 then []
    else if Answers(ts, n - 1, SynopticSituation) then SynopticTexts(ts, n - 1) + [ts[n - 1].text]
    else SynopticTexts(ts, n - 1)
  }

  lemma {:induction false} FirstNonEmptyInPlainTerms(texts: seq<string>)
    ensures var r := FirstNonEmpty(texts);
      && (r.None? <==> texts == [])
      && (r.Some? ==> exists i :: 0 <= i < |texts| && texts[i] == r.value && forall j :: 0 <= j < i ==> texts[j] == "")
      && (r == Some("") ==> forall i :: 0 <= i < |texts| ==> texts[i] == "")
  {
    if texts != [] {
      var rest := texts[1..];
      FirstNonEmptyInPlainTerms(rest);
      if texts[0] == "" && FirstNonEmpty(rest).Some? {
        var k :| 0 <= k < |rest| && rest[k] == FirstNonEmpty(rest).value && forall j :: 0 <= j < k ==> rest[j] == "";
        assert forall j :: 0 < j < |texts| ==> texts[j] == rest[j - 1];
        assert texts[k + 1] == rest[k];
      } else {
        assert FirstNonEmpty(texts) == Some(texts[0]);
      }
    }
  }

  /** First of the texts that is not empty; an empty one only when all are. */
  function FirstNonEmpty(texts: seq<string>): Option<string> {
    if texts == [] then None
    else if texts[0] != "" || FirstNonEmpty(texts[1..]).None? then Some(texts[0])
    else FirstNonEmpty(texts[1..])
  }

  lemma {:induction false} FirstNonEmptyOfMore(texts: seq<string>, text: string)
    ensures FirstNonEmpty(texts + [text]) == Or(FirstNonEmpty(texts), text)
  {
    if texts == [] {
      assert [] + [text] == [text];
    } else {
      FirstNonEmptyOfMore(texts[1..], text);
      assert (texts + [text])[1..] == texts[1..] + [text];
    }
  }

  lemma {:induction false} PendingIsTheLastLabel(ts: seq<Token>, n: nat)
    requires n <= |ts|
    ensures After(ts, n).pending == if n > 0 && ts[n - 1].Label? then Some(ts[n - 1].field) else None
  {
    if n > 0 {
      hide Feed, Or;
      PendingIsTheLastLabel(ts, n - 1);
    }
  }

  lemma {:induction false} SynopticIsTheFirst(ts: seq<Token>, n: nat)
    requires n <= |ts|
    ensures After(ts, n).synoptic == FirstNonEmpty(SynopticTexts(ts, n))
  {
    if n > 0 {
      hide FirstNonEmpty, Feed, Or;
      SynopticIsTheFirst(ts, n - 1);
      PendingIsTheLastLabel(ts, n - 1);
      if Answers(ts, n - 1, SynopticSituation) {
        FirstNonEmptyOfMore(SynopticTexts(ts, n - 1), ts[n - 1].text);
      }
    }
  }

  lemma {:induction false} BlocksAreRead(ts: seq<Token>, n: nat)
    requires n <= |ts|
    ensures BlocksMatch(ts, n, After(ts, n).areas)
  {
    if n > 0 {
      var s := After(ts, n - 1);
      BlocksAreRead(ts, n - 1);
      PendingIsTheLastLabel(ts, n - 1);
      if ts[n - 1].Area? {
        AreaOpensBlock(ts, n - 1, s.areas);
      } else if n > 1 {
        BlocksReadOn(ts, n - 1, s.areas);
      }
    }
  }

  /**
    * The mutable scan computes the index specification: one block per area token in order, each holding the first
    * answers of its own stretch; the synoptic text is the first non-empty one anywhere; a label is pending exactly
    * when it was the last token.
    */
  lemma ScanMeetsIndexSpecification(ts: seq<Token>, n: nat)
    requires n <= |ts|
    ensures var s := After(ts, n);
      && BlocksMatch(ts, n, s.areas)
      && s.synoptic == FirstNonEmpty(SynopticTexts(ts, n))
      && s.pending == if n > 0 && ts[n - 1].Label? then Some(ts[n - 1].field) else None
  {
    BlocksAreRead(ts, n);
    SynopticIsTheFirst(ts, n);
    PendingIsTheLastLabel(ts, n);
  }

  /** What a block holds, read straight off the tokens. */
  lemma BlocksHoldFirstAnswers(ts: seq<Token>, k: nat, field: Field)
    requires k < |Starts(ts, |ts|)|
    ensures var areas, starts := After(ts, |ts|).areas, Starts(ts, |ts|);
            var answer := FirstAnswer(ts, starts[k], EndOf(ts, |ts|, k), field);
      && |areas| == |starts|
      && areas[k].name == ts[starts[k]].name
      && (field in areas[k].fields <==> field != SynopticSituation && answer.Some?)
      && (field in areas[k].fields ==> areas[k].fields[field] == ts[answer.value].text)
  {
    ScanMeetsIndexSpecification(ts, |ts|);
    assert BlockIs(ts, |ts|, k, After(ts, |ts|).areas[k]);
  }

  // ---------------------------------------------------------------- locality

  lemma {:induction false} ScanSplits(pre: seq<Token>, rest: seq<Token>, n: nat)
    requires 1 <= n <= |rest| && rest[0].Area?
    ensures After(pre + rest, |pre| + n).areas == After(pre, |pre|).areas + After(rest, n).areas
    ensures After(pre + rest, |pre| + n).pending == After(rest, n).pending
    ensures After(rest, n).areas != []
  {
    var ts := pre + rest;
    assert ts[|pre| + n - 1] == rest[n - 1];
    if n == 1 {
      PrefixScan(pre, rest, |pre|);
      assert After(ts, |pre| + 1) == Next(After(ts, |pre|), rest[0]);
      assert After(rest, 0) == START;
      assert After(rest, 1) == Next(START, rest[0]);
      assert [] + [Block(rest[0].name, map[])] == [Block(rest[0].name, map[])];
    } else {
      ScanSplits(pre, rest, n - 1);
      var before, own := After(pre, |pre|).areas, After(rest, n - 1);
      if rest[n - 1].Area? {
        assert before + own.areas + [Block(rest[n - 1].name, map[])]
            == before + (own.areas + [Block(rest[n - 1].name, map[])]);
      } else if rest[n - 1].Value? && own.pending.Some? && own.pending.value != SynopticSituation {
        FeedsTheLast(before, own.areas, own.pending.value, rest[n - 1].text);
      }
    }
  }

  lemma FeedsTheLast(before: seq<Block>, areas: seq<Block>, field: Field, value: string)
    requires areas != []
    ensures Feed(before + areas, field, value) == before + Feed(areas, field, value)
  {
  }

  lemma {:induction false} PrefixScan(pre: seq<Token>, rest: seq<Token>, n: nat)
    requires n <= |pre|
    ensures After(pre + rest, n) == After(pre, n)
  {
    if n > 0 { PrefixScan(pre, rest, n - 1); }
  }

  /** A block depends on its own stretch only: cutting the document at an area token cuts the blocks there. */
  lemma BlocksAreLocal(pre: seq<Token>, rest: seq<Token>)
    requires rest != [] && rest[0].Area?
    ensures After(pre + rest, |pre + rest|).areas == After(pre, |pre|).areas + After(rest, |rest|).areas
  {
    ScanSplits(pre, rest, |rest|);
  }

  /** Nothing before the first area reaches a block. */
  lemma PreambleReachesNoBlock(pre: seq<Token>, rest: seq<Token>)
    requires rest != [] && rest[0].Area? && forall t :: t in pre ==> !t.Area?
    ensures After(pre + rest, |pre + rest|).areas == After(rest, |rest|).areas
  {
    BlocksAreLocal(pre, rest);
    NoAreaNoBlock(pre, |pre|);
    assert [] + After(rest, |rest|).areas == After(rest, |rest|).areas;
  }

  lemma {:induction false} NoAreaNoBlock(ts: seq<Token>, n: nat)
    requires n <= |ts| && forall t :: t in ts ==> !t.Area?
    ensures After(ts, n).areas == []
  {
    if n > 0 {
      NoAreaNoBlock(ts, n - 1);
      assert ts[n - 1] in ts;
    }
  }

  // ---------------------------------------------------------------- the scanner

  class BulletinArea {
    const name: string
    var fields: map<Field, string>

    constructor (name: string)
      ensures this.name == name && fields == map[]
    {
      this.name := name;
      fields := map[];
    }

    function Value(): Block
      reads this
    {
      Block(name, fields)
    }

    /** Keeps the first value of a field. */
    method SetFirst(field: Field, value: string)
      modifies this
      ensures fields == SetDefault(old(fields), field, value)
    {
      if field !in fields {
        fields := fields[field := value];
      }
    }
  }

  ghost function Values(areas: seq<BulletinArea>): (bs: seq<Block>)
    reads areas
    ensures |bs| == |areas| && forall i :: 0 <= i < |areas| ==> bs[i] == areas[i].Value()
  {
    seq(|areas|, i requires 0 <= i < |areas| reads areas => areas[i].Value())
  }

  datatype Error = NoAreaBlocks

  datatype Parsed = Parsed(areas: seq<BulletinArea>, synoptic: Option<string>)

  method ScanNodes(nodes: seq<string>, lookup: map<string, string>)
    returns (areas: seq<BulletinArea>, synoptic: Option<string>)
    ensures NoDuplicates(areas) && fresh(areas)
    ensures Values(areas) == After(Tokens(nodes, lookup), |nodes|).areas
    ensures synoptic == After(Tokens(nodes, lookup), |nodes|).synoptic
  {
    hide Classify, SetDefault;
    areas, synoptic := [], None;
    var current: BulletinArea? := null;
    var pending: Option<Field> := None;
    ghost var ts := Tokens(nodes, lookup);
    for i := 0 to |nodes|
      invariant NoDuplicates(areas) && fresh(areas)
      invariant Scan(Values(areas), synoptic, pending) == After(ts, i)
      invariant if areas == [] then current == null else current == areas[|areas| - 1]
    {
      ghost var read := Values(areas);
      var token := Classify(nodes[i], lookup);
      match token
      case Area(name) =>
        current := new BulletinArea(name);
        areas := areas + [current];
        assert Values(areas) == read + [Block(name, map[])];
        pending := None;
      case Label(field) =>
        pending := Some(field);
      case Value(text) =>
        if pending.Some? {
          if pending.value == SynopticSituation {
            synoptic := if synoptic.None? || synoptic.value == "" then Some(text) else synoptic;
          } else if current != null {
            current.SetFirst(pending.value, text);
            assert Values(areas) == Feed(read, pending.value, text);
          }
          pending := None;
        }
    }
  }

  lemma AreasAreLookedUp(nodes: seq<string>, lookup: map<string, string>, i: nat)
    requires i < |nodes|
    ensures Tokens(nodes, lookup)[i].Area? <==> KeyOf(nodes[i]) in lookup
  {
  }

  /** The scan of a whole document; a document without area blocks breaks the contract with the source. */
  method ParseBlocks(nodes: seq<string>, lookup: map<string, string>) returns (r: Result<Parsed, Error>)
    ensures r.Err? <==> forall i :: 0 <= i < |nodes| ==> KeyOf(nodes[i]) !in lookup
    ensures r.Ok? ==> Values(r.value.areas) == After(Tokens(nodes, lookup), |nodes|).areas
                      && r.value.synoptic == After(Tokens(nodes, lookup), |nodes|).synoptic
  {
    hide Classify, KeyOf, BlockIs;
    var areas, synoptic := ScanNodes(nodes, lookup);
    ghost var ts := Tokens(nodes, lookup);
    BlocksAreRead(ts, |nodes|);
    forall i | 0 <= i < |nodes| ensures ts[i].Area? <==> KeyOf(nodes[i]) in lookup {
      AreasAreLookedUp(nodes, lookup, i);
    }
    if areas == [] {
      return Err(NoAreaBlocks);
    }
    assert ts[Starts(ts, |nodes|)[0]].Area?;
    return Ok(Parsed(areas, synoptic));
  }
}
