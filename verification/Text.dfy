/** The string operations the engine applies to bulletin vocabulary and zone labels. */
module Text {

  /** White space among the ASCII characters: blank, the controls from tab to carriage return, and the separators. */
  predicate IsSpace(c: char) { c == ' ' || '\t' <= c <= '\r' || '\U{1C}' <= c <= '\U{1F}' }

  function LowerChar(c: char): char {
    if 'A' <= c <= 'Z' then (c - 'A') + 'a' else c
  }

  function Lower(s: string): string {
    seq(|s|, i requires 0 <= i < |s| => LowerChar(s[i]))
  }

  function StripLeft(s: string): (t: string)
    ensures |t| <= |s|
  {
    if s != [] && IsSpace(s[0]) then StripLeft(s[1..]) else s
  }

  function StripRight(s: string): string {
    if s != [] && IsSpace(s[|s| - 1]) then StripRight(s[..|s| - 1]) else s
  }

  function Strip(s: string): string { StripRight(StripLeft(s)) }

  /** Drops trailing sentence punctuation. */
  function StripPunctuation(s: string): string {
    if s != [] && s[|s| - 1] in ".;,:" then StripPunctuation(s[..|s| - 1]) else s
  }

  /** Collapses every run of white space to one blank and trims both ends. */
  function Collapse(s: string): string
    decreases |s|
  {
    var t := StripLeft(s);
    if t == [] then []
    else if |t| == 1 then t
    else
      var rest := Collapse(t[1..]);
      if !IsSpace(t[1]) || rest == [] then [t[0]] + rest
      else [t[0], ' '] + rest
  }

  predicate OccursAt(sep: string, s: string, i: nat) {
    i + |sep| <= |s| && s[i..i + |sep|] == sep
  }

  ghost predicate Occurs(sep: string, s: string) {
    exists i: nat :: OccursAt(sep, s, i)
  }

  /** Leftmost position of `sep` at or after `from`; |s| when there is none. */
  function Find(s: string, sep: string, from: nat): (i: nat)
    requires sep != [] && from <= |s|
    ensures from <= i <= |s|
    ensures i < |s| ==> OccursAt(sep, s, i)
    ensures forall k: nat :: from <= k < i ==> !OccursAt(sep, s, k)
    decreases |s| - from
  {
    if from == |s| || OccursAt(sep, s, from) then from else Find(s, sep, from + 1)
  }

  /** `s.split(sep)`: the pieces between successive leftmost occurrences. */
  function Split(s: string, sep: string): (parts: seq<string>)
    requires sep != []
    ensures parts != []
    decreases |s|
  {
    var i := Find(s, sep, 0);
    if i == |s| then [s] else [s[..i]] + Split(s[i + |sep|..], sep)
  }

  function Join(parts: seq<string>, sep: string): string
    requires parts != []
  {
    if |parts| == 1 then parts[0] else parts[0] + sep + Join(parts[1..], sep)
  }

  /** The text before the leftmost occurrence does not contain the separator. */
  lemma NoneBeforeFirst(s: string, sep: string)
    requires sep != []
    ensures !Occurs(sep, s[..Find(s, sep, 0)])
  {
    var i := Find(s, sep, 0);
    forall k: nat ensures !OccursAt(sep, s[..i], k) {
      if k + |sep| <= i {
        assert s[..i][k..k + |sep|] == s[k..k + |sep|];
        assert !OccursAt(sep, s, k);
      }
    }
  }

  lemma {:induction false} SplitHasNoSeparator(s: string, sep: string)
    requires sep != []
    ensures forall p :: p in Split(s, sep) ==> !Occurs(sep, p)
    decreases |s|
  {
    var i := Find(s, sep, 0);
    NoneBeforeFirst(s, sep);
    if i < |s| {
      SplitHasNoSeparator(s[i + |sep|..], sep);
    } else {
      assert s[..i] == s;
    }
  }

  /** Splitting loses nothing: joining the pieces again gives the text back. */
  lemma {:induction false} SplitIsLossless(s: string, sep: string)
    requires sep != []
    ensures Join(Split(s, sep), sep) == s
    decreases |s|
  {
    hide Find;
    var i := Find(s, sep, 0);
    if i < |s| {
      var rest := s[i + |sep|..];
      SplitIsLossless(rest, sep);
      var parts := Split(rest, sep);
      assert ([s[..i]] + parts)[1..] == parts;
      assert s == s[..i] + sep + rest by { assert s[i..i + |sep|] == sep; }
    }
  }

  // ---------------------------------------------------------------- white space

  predicate Blank(s: string) { forall i :: 0 <= i < |s| ==> IsSpace(s[i]) }

  lemma {:induction false} LeadingBlankGoes(u: string, s: string)
    requires Blank(u)
    ensures StripLeft(u + s) == StripLeft(s)
  {
    if u == [] {
      assert u + s == s;
    } else {
      assert (u + s)[1..] == u[1..] + s;
      LeadingBlankGoes(u[1..], s);
    }
  }

  lemma {:induction false} TrailingBlankGoes(s: string, v: string)
    requires Blank(v)
    ensures StripRight(s + v) == StripRight(s)
  {
    if v == [] {
      assert s + v == s;
    } else {
      var n := |v| - 1;
      assert (s + v)[..|s + v| - 1] == s + v[..n];
      TrailingBlankGoes(s, v[..n]);
    }
  }

  /** Stripping takes the white space off both ends, and nothing else. */
  lemma StripInPlainTerms(u: string, s: string, v: string)
    requires Blank(u) && Blank(v) && (s == [] || (!IsSpace(s[0]) && !IsSpace(s[|s| - 1])))
    ensures Strip(u + s + v) == s
  {
    LeadingBlankGoes(u, s + v);
    assert u + s + v == u + (s + v);
    if s == [] {
      assert s + v == v && v + [] == v;
      LeadingBlankGoes(v, []);
    } else {
      assert StripLeft(s + v) == s + v;
      TrailingBlankGoes(s, v);
    }
  }

  lemma CollapseSkips(u: string, s: string)
    requires Blank(u)
    ensures Collapse(u + s) == Collapse(s)
  {
    LeadingBlankGoes(u, s);
  }

  /** One step of collapsing a text that begins with something visible. */
  lemma CollapseStep(s: string)
    requires |s| > 1 && !IsSpace(s[0])
    ensures var rest := Collapse(s[1..]);
            Collapse(s) == if !IsSpace(s[1]) || rest == [] then [s[0]] + rest else [s[0], ' '] + rest
  {
    assert StripLeft(s) == s;
  }

  /** White space inside a text counts as one blank, however much of it there is. */
  lemma {:induction false} GapsAreOneBlank(s: string, u: string, t: string)
    requires u != [] && Blank(u)
    ensures Collapse(s + u + t) == Collapse(s + " " + t)
    decreases |s|
  {
    if s == [] {
      assert s + u + t == u + t && s + " " + t == " " + t;
      CollapseSkips(u, t);
      CollapseSkips(" ", t);
    } else {
      var x, tail := [s[0]], s[1..];
      var a, b := tail + u + t, tail + " " + t;
      assert s + u + t == x + a && s + " " + t == x + b;
      assert (x + a)[1..] == a && (x + b)[1..] == b;
      GapsAreOneBlank(tail, u, t);
      if IsSpace(s[0]) {
        CollapseSkips(x, a);
        CollapseSkips(x, b);
      } else {
        CollapseStep(x + a);
        CollapseStep(x + b);
        assert a[0] == (tail + u)[0] && b[0] == (tail + " ")[0];
      }
    }
  }

  /** White space at the end of a text goes. */
  lemma {:induction false} CollapseDropsTheEnd(s: string, v: string)
    requires Blank(v)
    ensures Collapse(s + v) == Collapse(s)
    decreases |s|
  {
    if s == [] {
      assert s + v == v + [];
      CollapseSkips(v, []);
    } else {
      var x, tail := [s[0]], s[1..];
      assert s + v == x + (tail + v) && s == x + tail;
      assert (s + v)[1..] == tail + v;
      CollapseDropsTheEnd(tail, v);
      if IsSpace(s[0]) {
        CollapseSkips(x, tail + v);
        CollapseSkips(x, tail);
      } else if tail != [] {
        CollapseStep(s + v);
        CollapseStep(s);
      } else if v != [] {
        CollapseStep(s + v);
        assert Collapse(tail) == [];
      } else {
        assert s + v == s;
      }
    }
  }
}
