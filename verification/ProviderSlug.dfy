/**
 The slug that `normalizeProviderID` of pkg/config/profiles.go makes of a provider's name: its words, in
 lower case, with single dashes between them. The source gets there by rewriting "--" until there is none.
 */
module ProviderSlug {
  import opened Text

  predicate IsSeparator(c: char) {
    c == ' ' || c == '_' || c == '/' || c == '\\' || c == ':' || c == '.' || c == '-'
  }

  /** The replacer: every separator becomes a dash. */
  function Dashed(s: string): (r: string)
    ensures |r| == |s| && forall i :: 0 <= i < |s| ==> r[i] == if IsSeparator(s[i]) then '-' else s[i]
  {
    seq(|s|, i requires 0 <= i < |s| => if IsSeparator(s[i]) then '-' else s[i])
  }

  predicate DoubleAt(s: string, i: nat) {
    i + 1 < |s| && s[i] == '-' && s[i + 1] == '-'
  }

  /** `strings.Contains(s, "--")`. */
  ghost predicate HasDouble(s: string) {
    exists i: nat :: DoubleAt(s, i)
  }

  /** `strings.ReplaceAll(s, "--", "-")`: one sweep over the pairs that do not overlap. */
  function Sweep(s: string): string {
    if |s| >= 2 && s[0] == '-' && s[1] == '-' then "-" + Sweep(s[2..])
    else if s == "" then ""
    else [s[0]] + Sweep(s[1..])
  }

  /** Every run of dashes becomes one. */
  function Collapse(s: string): string {
    if s == "" then ""
    else if |s| >= 2 && s[0] == '-' && s[1] == '-' then Collapse(s[1..])
    else [s[0]] + Collapse(s[1..])
  }

  function TrimDashesLeft(s: string): string {
    if s != "" && s[0] == '-' then TrimDashesLeft(s[1..]) else s
  }

  function TrimDashesRight(s: string): string {
    if s != "" && s[|s| - 1] == '-' then TrimDashesRight(s[..|s| - 1]) else s
  }

  /** `strings.Trim(s, "-")`. */
  function TrimDashes(s: string): string {
    TrimDashesRight(TrimDashesLeft(s))
  }

  // ---------------------------------------------------------------- the rewriting loop

  /** A sweep changes nothing about the collapsed form, nor about what the text starts with. */
  lemma {:induction false} SweepCollapses(s: string)
    ensures Collapse(Sweep(s)) == Collapse(s)
    ensures s == "" <==> Sweep(s) == ""
    ensures s != "" ==> Sweep(s)[0] == s[0]
    decreases |s|
  {
    if |s| >= 2 && s[0] == '-' && s[1] == '-' {
      var t := s[2..];
      SweepCollapses(t);
      assert s[1..][1..] == t;
      assert ("-" + Sweep(t))[1..] == Sweep(t);
      DashBefore(t);
      DashBefore(Sweep(t));
      assert s[1..] == "-" + t;
    } else if s != "" {
      SweepCollapses(s[1..]);
      assert ([s[0]] + Sweep(s[1..]))[1..] == Sweep(s[1..]);
    }
  }

  lemma DashBefore(t: string)
    ensures Collapse("-" + t) == if t != "" && t[0] == '-' then Collapse(t) else "-" + Collapse(t)
  {
    assert ("-" + t)[1..] == t;
  }

  lemma {:induction false} SweepShortens(s: string)
    ensures |Sweep(s)| <= |s|
    ensures HasDouble(s) ==> |Sweep(s)| < |s|
    decreases |s|
  {
    if |s| >= 2 && s[0] == '-' && s[1] == '-' {
      SweepShortens(s[2..]);
    } else if s != "" {
      SweepShortens(s[1..]);
      if HasDouble(s) {
        var i: nat :| DoubleAt(s, i);
        assert DoubleAt(s[1..], i - 1);
      }
    }
  }

  lemma {:induction false} NothingToCollapse(s: string)
    ensures HasDouble(s) || Collapse(s) == s
  {
    if s != "" && !HasDouble(s) {
      assert !DoubleAt(s, 0);
      if HasDouble(s[1..]) {
        var i: nat :| DoubleAt(s[1..], i);
        assert DoubleAt(s, i + 1);
      }
      NothingToCollapse(s[1..]);
      assert [s[0]] + s[1..] == s;
    }
  }

  /** The loop ends, and leaves what one pass over the runs of dashes would. */
  method CollapseDashes(s: string) returns (r: string)
    ensures r == Collapse(s) && !HasDouble(r)
  {
    r := s;
    while HasDashes(r)
      invariant Collapse(r) == Collapse(s)
      decreases |r|
    {
      SweepCollapses(r);
      SweepShortens(r);
      r := Sweep(r);
    }
    NothingToCollapse(r);
  }

  function HasDashes(s: string): (r: bool)
    ensures r <==> HasDouble(s)
  {
    assert |s| >= 1 && DoubleAt(s, 0) ==> HasDouble(s);
    assert s != "" && HasDouble(s[1..]) ==> HasDouble(s) by {
      if s != "" && HasDouble(s[1..]) {
        var i: nat :| DoubleAt(s[1..], i);
        assert DoubleAt(s, i + 1);
      }
    }
    assert s != "" && HasDouble(s) && !DoubleAt(s, 0) ==> HasDouble(s[1..]) by {
      if s != "" && HasDouble(s) && !DoubleAt(s, 0) {
        var i: nat :| DoubleAt(s, i);
        assert DoubleAt(s[1..], i - 1);
      }
    }
    s != "" && (DoubleAt(s, 0) || HasDashes(s[1..]))
  }

  // ---------------------------------------------------------------- the slug

  function Slug(s: string): string {
    TrimDashes(Collapse(Dashed(s)))
  }

  /** The name that the ID is made from. */
  function Source(id: string, fallbackName: string): string {
    var x := Trim(Lower(id));
    if x == "" then Trim(Lower(fallbackName)) else x
  }

  function NormalizeProviderID(id: string, fallbackName: string): string {
    var y := Source(id, fallbackName);
    if y == "" then "" else Slug(y)
  }

  /** `normalizeProviderID`. */
  method NormalizeID(id: string, fallbackName: string) returns (r: string)
    ensures r == NormalizeProviderID(id, fallbackName)
  {
    var x := Trim(Lower(id));
    if x == "" {
      x := Trim(Lower(fallbackName));
    }
    if x == "" {
      return "";
    }
    x := Dashed(x);
    x := CollapseDashes(x);
    r := TrimDashes(x);
  }

  // ---------------------------------------------------------------- what the slug is

  /** How many characters come before the first separator. */
  function WordLength(s: string): (n: nat)
    ensures n <= |s| && forall i :: 0 <= i < n ==> !IsSeparator(s[i])
    ensures n < |s| ==> IsSeparator(s[n])
  {
    if s == "" || IsSeparator(s[0]) then 0 else 1 + WordLength(s[1..])
  }

  /** The words of a text: the longest stretches without a separator. */
  function Words(s: string): seq<string>
    decreases |s|
  {
    if s == "" then []
    else if IsSeparator(s[0]) then Words(s[1..])
    else
      var n := WordLength(s);
      [s[..n]] + Words(s[n..])
  }

  function Hyphenated(words: seq<string>): string {
    Join(words, "-")
  }

  /** The dash that a separator at the end leaves. */
  function Tail(s: string): string {
    if s != "" && IsSeparator(s[|s| - 1]) then "-" else ""
  }

  predicate IsWord(w: string) {
    w != "" && forall i :: 0 <= i < |w| ==> !IsSeparator(w[i])
  }

  predicate AllWords(words: seq<string>) {
    forall k :: 0 <= k < |words| ==> IsWord(words[k])
  }

  lemma {:induction false} CollapseWord(w: string, t: string)
    requires forall i :: 0 <= i < |w| ==> w[i] != '-'
    ensures Collapse(w + t) == w + Collapse(t)
  {
    if w == "" {
      assert w + t == t;
    } else {
      CollapseWord(w[1..], t);
      AddFirst(w, t);
      CollapsePlain(w + t);
      hide Collapse;
      AddBehind(w[0], w[1..], Collapse(t));
      assert [w[0]] + w[1..] == w;
    }
  }

  lemma CollapsePlain(s: string)
    requires s != "" && s[0] != '-'
    ensures Collapse(s) == [s[0]] + Collapse(s[1..])
  {
  }

  lemma {:induction false} WordlessEnd(s: string)
    requires s != "" && Words(s) == []
    ensures IsSeparator(s[0]) && Tail(s) == "-"
  {
    if |s| > 1 && IsSeparator(s[0]) {
      WordlessEnd(s[1..]);
    }
  }

  /** The words with single dashes between them, with one more dash where the text starts or ends with a
      separator. */
  function Collapsed(s: string): string
    requires s != ""
  {
    if Words(s) == [] then "-"
    else if IsSeparator(s[0]) then "-" + (Hyphenated(Words(s)) + Tail(s))
    else Hyphenated(Words(s)) + Tail(s)
  }

  lemma {:induction false} CollapsedWords(s: string)
    requires s != ""
    ensures Collapse(Dashed(s)) == Collapsed(s)
    decreases |s|
  {
    if IsSeparator(s[0]) {
      if |s| > 1 {
        CollapsedWords(s[1..]);
      }
      CollapsedSeparator(s);
    } else {
      var n := WordLength(s);
      if n < |s| {
        CollapsedWords(s[n..]);
      }
      CollapsedWord(s, s[..n], s[n..]);
    }
  }

  lemma CollapsedSeparator(s: string)
    requires s != "" && IsSeparator(s[0])
    requires |s| > 1 ==> Collapse(Dashed(s[1..])) == Collapsed(s[1..])
    ensures Collapse(Dashed(s)) == Collapsed(s)
  {
    var t := s[1..];
    assert Dashed(s) == "-" + Dashed(t);
    DashBefore(Dashed(t));
    assert Words(s) == Words(t);
    if t == "" {
      assert Dashed(t) == "";
    } else {
      assert Tail(t) == Tail(s);
      if Words(t) == [] {
        WordlessEnd(t);
      }
      hide Words, Dashed, Collapse, Hyphenated, Tail;
    }
  }

  lemma CollapsedWord(s: string, w: string, t: string)
    requires s != "" && !IsSeparator(s[0]) && w == s[..WordLength(s)] && t == s[WordLength(s)..]
    requires t != "" ==> Collapse(Dashed(t)) == Collapsed(t)
    ensures Collapse(Dashed(s)) == Collapsed(s)
  {
    WordParts(s, w, t);
    CollapseWord(w, Dashed(t));
    HyphenatedFirst(w, Words(t));
    hide Words, Collapse, Hyphenated, Dashed, Tail, WordLength;
    if t == "" {
      NoWords();
    } else if Words(t) == [] {
      WordlessEnd(t);
    } else {
      HyphenatedThen(w, Hyphenated(Words(t)), Tail(t));
    }
  }

  lemma WordParts(s: string, w: string, t: string)
    requires s != "" && !IsSeparator(s[0]) && w == s[..WordLength(s)] && t == s[WordLength(s)..]
    ensures Dashed(s) == w + Dashed(t) && Words(s) == [w] + Words(t)
    ensures forall i :: 0 <= i < |w| ==> w[i] != '-'
    ensures if t == "" then Tail(s) == "" && Dashed(t) == "" else IsSeparator(t[0]) && Tail(t) == Tail(s)
  {
    assert s == w + t;
    DashedParts(w, t);
    TailOf(s, t);
    hide Hyphenated, Dashed, Tail;
  }

  lemma DashedParts(w: string, t: string)
    requires forall i :: 0 <= i < |w| ==> !IsSeparator(w[i])
    ensures Dashed(w + t) == w + Dashed(t)
  {
  }

  lemma TailOf(s: string, t: string)
    requires s != "" && |t| <= |s| && t == s[|s| - |t|..] && (t == "" ==> !IsSeparator(s[|s| - 1]))
    ensures if t == "" then Tail(s) == "" && Dashed(t) == "" else Tail(t) == Tail(s)
  {
  }

  lemma NoWords()
    ensures Words("") == [] && Collapse("") == ""
  {
  }

  lemma HyphenatedThen(w: string, h: string, tail: string)
    ensures w + ("-" + (h + tail)) == (w + "-" + h) + tail
  {
  }

  lemma HyphenatedFirst(w: string, words: seq<string>)
    ensures Hyphenated([w] + words) == if words == [] then w else w + "-" + Hyphenated(words)
  {
    assert ([w] + words)[1..] == words;
  }

  lemma {:induction false} WordsAreWords(s: string)
    ensures AllWords(Words(s))
    decreases |s|
  {
    if s != "" {
      WordsAreWords(if IsSeparator(s[0]) then s[1..] else s[WordLength(s)..]);
    }
  }

  lemma {:induction false} HyphenatedEnds(words: seq<string>)
    requires words != [] && AllWords(words)
    ensures var h := Hyphenated(words); h != "" && h[0] != '-' && h[|h| - 1] != '-'
  {
    assert IsWord(words[0]);
    if |words| > 1 {
      HyphenatedEnds(words[1..]);
    }
  }

  lemma TrimOneLeft(h: string)
    requires h != "" && h[0] != '-'
    ensures TrimDashesLeft("-" + h) == h && TrimDashesLeft(h) == h
  {
    assert ("-" + h)[1..] == h;
  }

  lemma TrimOneRight(h: string)
    requires h != "" && h[|h| - 1] != '-'
    ensures TrimDashesRight(h + "-") == h && TrimDashesRight(h) == h
  {
    assert (h + "-")[..|h|] == h;
  }

  lemma TrimNoWords()
    ensures TrimDashes("-") == "" && TrimDashes("") == ""
  {
  }

  /** The slug is the words of the text, with single dashes between them. */
  lemma SlugIsWords(s: string)
    ensures Slug(s) == Hyphenated(Words(s))
  {
    TrimNoWords();
    if s != "" {
      CollapsedWords(s);
      WordsAreWords(s);
      if Words(s) != [] {
        var h := Hyphenated(Words(s));
        HyphenatedEnds(Words(s));
        TrimOneLeft(h + Tail(s));
        TrimOneRight(h);
        hide Words, Dashed, Collapse, Hyphenated, TrimDashesLeft, TrimDashesRight;
        assert h + "" == h;
      }
    }
  }

  // ---------------------------------------------------------------- what the slug keeps

  const REPLACED := " _/\\:."

  predicate BecomesDash(c: char) {
    c == '-' || c in REPLACED
  }

  /** A text without dashes and what is replaced by them. */
  function Bare(s: string): string {
    if s == "" then ""
    else if BecomesDash(s[0]) then Bare(s[1..])
    else [s[0]] + Bare(s[1..])
  }

  lemma SeparatorsAre(c: char)
    ensures IsSeparator(c) <==> BecomesDash(c)
  {
    assert REPLACED[0] == ' ' && REPLACED[1] == '_' && REPLACED[2] == '/' && REPLACED[3] == '\\';
    assert REPLACED[4] == ':' && REPLACED[5] == '.';
  }

  lemma {:induction false} BareAdds(a: string, b: string)
    ensures Bare(a + b) == Bare(a) + Bare(b)
  {
    hide BecomesDash;
    if a == "" {
      assert a + b == b;
    } else {
      BareAdds(a[1..], b);
      BareFirst(a);
      BareFirst(a + b);
      hide Bare;
      AddFirst(a, b);
      AddBehind(a[0], Bare(a[1..]), Bare(b));
    }
  }

  lemma AddFirst(a: string, b: string)
    requires a != ""
    ensures (a + b)[0] == a[0] && (a + b)[1..] == a[1..] + b
  {
  }

  lemma AddBehind(c: char, s: string, t: string)
    ensures [c] + (s + t) == [c] + s + t
  {
  }

  lemma BareFirst(s: string)
    requires s != ""
    ensures Bare(s) == if BecomesDash(s[0]) then Bare(s[1..]) else [s[0]] + Bare(s[1..])
  {
  }

  lemma {:induction false} BareWord(w: string)
    requires forall i :: 0 <= i < |w| ==> !IsSeparator(w[i])
    ensures Bare(w) == w
  {
    if w != "" {
      SeparatorsAre(w[0]);
      BareWord(w[1..]);
      assert [w[0]] + w[1..] == w;
    }
  }

  lemma {:induction false} BareWords(s: string)
    ensures Bare(Hyphenated(Words(s))) == Bare(s)
    decreases |s|
  {
    if s != "" {
      hide Bare, IsSeparator;
      if IsSeparator(s[0]) {
        SeparatorsAre(s[0]);
        BareSkips(s);
        BareWords(s[1..]);
      } else {
        var n := WordLength(s);
        var w, t := s[..n], s[n..];
        assert s == w + t;
        BareWords(t);
        BareAdds(w, t);
        assert Words(s) == [w] + Words(t);
        HyphenatedFirst(w, Words(t));
        hide Words, Hyphenated, WordLength;
        if Words(t) == [] {
          BareNothing();
        } else {
          BareAdds(w + "-", Hyphenated(Words(t)));
          BareAdds(w, "-");
          BareNothing();
        }
      }
    }
  }

  lemma BareSkips(s: string)
    requires s != "" && BecomesDash(s[0])
    ensures Bare(s) == Bare(s[1..])
  {
  }

  lemma BareNothing()
    ensures Bare("-") == "" == Bare("") && Hyphenated([]) == ""
  {
    assert "-"[1..] == "";
  }

  lemma {:induction false} NothingReplaced(words: seq<string>)
    requires AllWords(words)
    ensures forall c :: c in Hyphenated(words) ==> c !in REPLACED
  {
    if words != [] {
      NothingReplaced(words[1..]);
      var w := words[0];
      assert IsWord(w);
      forall c | c in w
        ensures c !in REPLACED
      {
        SeparatorsAre(c);
      }
      HyphenatedFirst(w, words[1..]);
      assert words == [w] + words[1..];
    }
  }

  lemma SpaceInLower(s: string)
    ensures Blank(Lower(s)) <==> Blank(s)
  {
    assert forall i :: 0 <= i < |s| ==> (IsSpace(Lower(s)[i]) <==> IsSpace(s[i]));
  }

  /** An ID has every character of the lower-cased ID asked for, or of the name for a blank one, in order,
      except dashes and what is replaced by them, which it has none of. */
  lemma IDKeepsTheRest(id: string, fallbackName: string)
    ensures var r := NormalizeProviderID(id, fallbackName);
            && Bare(r) == Bare(Trim(Lower(if Blank(id) then fallbackName else id)))
            && forall c :: c in r ==> c !in REPLACED
  {
    var y := Source(id, fallbackName);
    BlankIsEmpty(Lower(id));
    SpaceInLower(id);
    hide Trim, Lower, Blank, Slug, Words, Hyphenated, Bare;
    SlugIsWords(y);
    BareWords(y);
    WordsAreWords(y);
    NothingReplaced(Words(y));
  }

  // ---------------------------------------------------------------- slugs of slugs

  lemma {:induction false} WordsOfHyphenated(words: seq<string>)
    requires AllWords(words)
    ensures Words(Hyphenated(words)) == words
  {
    if words != [] {
      var w := words[0];
      assert IsWord(w);
      if |words| == 1 {
        WordOf(w, "");
        assert w + "" == w;
      } else {
        var rest := Hyphenated(words[1..]);
        WordsOfHyphenated(words[1..]);
        WordOf(w, "-" + rest);
        assert w + "-" + rest == w + ("-" + rest);
        assert ("-" + rest)[1..] == rest;
      }
    }
  }

  lemma {:induction false} WordLengthOf(w: string, t: string)
    requires (forall i :: 0 <= i < |w| ==> !IsSeparator(w[i])) && (t != "" ==> IsSeparator(t[0]))
    ensures WordLength(w + t) == |w|
  {
    if w == "" {
      assert w + t == t;
    } else {
      WordLengthOf(w[1..], t);
      assert (w + t)[1..] == w[1..] + t;
    }
  }

  /** A word in front of a separator. */
  lemma WordOf(w: string, t: string)
    requires IsWord(w) && (t != "" ==> IsSeparator(t[0]))
    ensures Words(w + t) == [w] + Words(t)
  {
    WordLengthOf(w, t);
    assert (w + t)[..|w|] == w && (w + t)[|w|..] == t;
  }

  /** A slug is its own slug. */
  lemma SlugTwice(s: string)
    ensures Slug(Slug(s)) == Slug(s)
  {
    hide Slug, Words, Hyphenated;
    SlugIsWords(s);
    WordsAreWords(s);
    SlugIsWords(Slug(s));
    WordsOfHyphenated(Words(s));
  }

  predicate IsLower(s: string) {
    forall i :: 0 <= i < |s| ==> !('A' <= s[i] <= 'Z')
  }

  predicate AllLower(words: seq<string>) {
    forall k :: 0 <= k < |words| ==> IsLower(words[k])
  }

  lemma {:induction false} WordsLower(s: string)
    requires IsLower(s)
    ensures AllLower(Words(s))
    decreases |s|
  {
    if s != "" {
      WordsLower(if IsSeparator(s[0]) then s[1..] else s[WordLength(s)..]);
    }
  }

  lemma {:induction false} HyphenatedLower(words: seq<string>)
    requires AllLower(words)
    ensures IsLower(Hyphenated(words))
  {
    if words != [] {
      assert IsLower(words[0]);
      HyphenatedLower(words[1..]);
    }
  }

  lemma TrimIsLower(s: string)
    ensures IsLower(Trim(Lower(s)))
  {
    var lo, hi := TrimSlice(Lower(s));
    hide Trim;
    var l := Lower(s);
    assert forall i :: 0 <= i < |l[lo..hi]| ==> l[lo..hi][i] == l[lo + i];
  }

  lemma LowerIsLower(s: string)
    requires IsLower(s)
    ensures Lower(s) == s
  {
  }

  /** An ID is the slug of itself and has no capital letters. */
  lemma IDsAreSlugs(id: string, fallbackName: string)
    ensures var r := NormalizeProviderID(id, fallbackName);
            Slug(r) == r && Lower(r) == r
  {
    var x := Trim(Lower(id));
    var y := if x == "" then Trim(Lower(fallbackName)) else x;
    TrimIsLower(id);
    TrimIsLower(fallbackName);
    hide Trim, Slug, Lower, IsLower;
    if y == "" {
      TrimNoWords();
      SlugOfNothing();
    } else {
      SlugTwice(y);
      SlugLower(y);
    }
    LowerIsLower(NormalizeProviderID(id, fallbackName));
  }

  lemma SlugOfNothing()
    ensures Slug("") == "" && IsLower("")
  {
    assert Dashed("") == "";
  }

  lemma SlugLower(s: string)
    requires IsLower(s)
    ensures IsLower(Slug(s))
  {
    SlugIsWords(s);
    WordsLower(s);
    HyphenatedLower(Words(s));
  }

  /** The words of the name have no white space at their outer edges. White space around the whole name does
      no harm, but a separator may come before it. */
  predicate Tidy(id: string, fallbackName: string) {
    TidyEdges(Words(Source(id, fallbackName)))
  }

  /** The ID has white space at its ends exactly if the words of the name have it at their edges. */
  lemma TidyIsTrimmed(id: string, fallbackName: string)
    ensures Trimmed(NormalizeProviderID(id, fallbackName)) <==> Tidy(id, fallbackName)
  {
    var y := Source(id, fallbackName);
    hide Trim, Lower, Slug, TidyEdges, Words;
    if y == "" {
      NoWords();
      NoEdges();
    } else {
      SlugIsWords(y);
      WordsAreWords(y);
      var words := Words(y);
      assert words != [] ==> IsWord(words[0]) && IsWord(words[|words| - 1]);
      JoinTrimmed(words, "-");
    }
  }

  lemma NoEdges()
    ensures TidyEdges([]) && Trimmed("")
  {
  }

  /** Normalising an ID again changes nothing, if and only if the words of the name have no white space at
      their edges: a dash before a tab keeps it from being trimmed. */
  lemma NormalizeTwice(id: string, fallbackName: string)
    ensures var r := NormalizeProviderID(id, fallbackName);
            NormalizeProviderID(r, "") == r <==> Tidy(id, fallbackName)
  {
    var r := NormalizeProviderID(id, fallbackName);
    hide NormalizeProviderID, Trim, Slug, Lower, Trimmed, Tidy;
    IDsAreSlugs(id, fallbackName);
    NormalizeAgain(r);
    TidyIsTrimmed(id, fallbackName);
  }

  /** A name for which it does change something. */
  lemma TabExample()
    ensures NormalizeProviderID("", "-\tx") == "\tx" && NormalizeProviderID("\tx", "") == "x"
  {
    TrimExamples();
    WordExamples();
    SlugIsWords("-\tx");
    SlugIsWords("x");
    hide Slug, Words, Trim, Lower;
  }

  lemma TrimExamples()
    ensures Trim(Lower("")) == "" && Trim(Lower("-\tx")) == "-\tx" && Trim(Lower("\tx")) == "x"
  {
    hide Lower, Trim;
    LowerIsLower("");
    LowerIsLower("-\tx");
    LowerIsLower("\tx");
    TrimTab();
  }

  lemma TrimTab()
    ensures Trim("\tx") == "x"
  {
    hide Trim, TrimLeft, TrimRight;
    TrimSkips("\tx");
    assert "\tx"[1..] == "x";
  }

  lemma WordExamples()
    ensures Hyphenated(Words("-\tx")) == "\tx" && Hyphenated(Words("x")) == "x"
  {
    WordOf("\tx", "");
    WordOf("x", "");
    assert "\tx" + "" == "\tx" && "x" + "" == "x";
    assert "-\tx"[1..] == "\tx";
    assert Words("-\tx") == Words("\tx");
  }

  lemma LetterIsItsID(fallbackName: string)
    ensures NormalizeProviderID("x", fallbackName) == "x"
  {
    assert Trimmed("x") && Trim("x") == "x" && Lower("x") == "x";
    WordExamples();
    SlugIsWords("x");
    hide Slug, Words, Trim, Lower;
  }

  lemma OpenAIName()
    ensures NormalizeProviderID("Open AI", "Gateway") == "open-ai"
  {
    hide Trim, Lower, Slug, Words, Hyphenated;
    assert Lower("Open AI") == "open ai";
    assert Trimmed("open ai");
    SlugIsWords("open ai");
    OpenAIWords();
  }

  lemma OpenAIWords()
    ensures Hyphenated(Words("open ai")) == "open-ai"
  {
    hide Words;
    WordOf("open", " ai");
    assert "open" + " ai" == "open ai";
    SeparatorFirst(" ai");
    assert " ai"[1..] == "ai";
    WordOf("ai", "");
    assert "ai" + "" == "ai";
    NoWords();
    assert ["open", "ai"][1..] == ["ai"];
    assert [] + ["ai"] == ["ai"];
  }

  lemma SeparatorFirst(s: string)
    requires s != "" && IsSeparator(s[0])
    ensures Words(s) == Words(s[1..])
  {
  }

  lemma NormalizeAgain(r: string)
    requires Slug(r) == r && Lower(r) == r
    ensures NormalizeProviderID(r, "") == r <==> Trimmed(r)
  {
    assert Lower("") == "" && Trim("") == "";
    hide Slug, Lower;
    if Trimmed(r) {
      assert Trim(r) == r;
      hide Trim;
    } else {
      SlugNoLonger(Trim(r));
    }
  }

  lemma SlugNoLonger(s: string)
    ensures |Slug(s)| <= |s|
  {
    CollapseNoLonger(Dashed(s));
    TrimLeftNoLonger(Collapse(Dashed(s)));
    TrimRightNoLonger(TrimDashesLeft(Collapse(Dashed(s))));
  }

  lemma CollapseNoLonger(s: string)
    ensures |Collapse(s)| <= |s|
  {
  }

  lemma TrimLeftNoLonger(s: string)
    ensures |TrimDashesLeft(s)| <= |s|
  {
  }

  lemma TrimRightNoLonger(s: string)
    ensures |TrimDashesRight(s)| <= |s|
  {
  }
}
