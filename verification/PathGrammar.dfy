/**
 Which texts `parseConfigPath` of cmd/anyclaw/config_cli.go accepts, and what they mean: a grammar of dots,
 bracket segments and key runs, without a parser. `ConfigPath.Parse` is proved to accept exactly that, and to
 complain exactly where a text goes wrong.
 */
module PathGrammar {
  import opened ConfigPath
  import opened Text
  import opened Wrappers

  datatype Segment = Dot | Bracket(inside: string) | Run(text: string)

  function TextOf(g: Segment): string {
    match g
    case Dot => "."
    case Bracket(inside) => "[" + inside + "]"
    case Run(text) => text
  }

  function Spell(gs: seq<Segment>): string {
    if gs == [] then "" else TextOf(gs[0]) + Spell(gs[1..])
  }

  /** A key run ends here. */
  predicate Stops(s: string) {
    s == "" || Separates(s[0])
  }

  predicate NoSeparator(s: string) {
    forall i :: 0 <= i < |s| ==> !Separates(s[i])
  }

  /** The segments cut up the front of a text of which `rest` is left: a bracket segment ends at the first
      closing bracket, and a key run goes as far as it can. */
  predicate Cut(gs: seq<Segment>, rest: string) {
    gs == [] ||
    (&& Cut(gs[1..], rest)
     && match gs[0]
        case Dot => true
        case Bracket(inside) => ']' !in inside
        case Run(text) => text != "" && NoSeparator(text) && Stops(Spell(gs[1..]) + rest))
  }

  /** White space apart: an optional sign and decimal digits, in range and not negative. */
  ghost predicate IsIndexText(inside: string, n: nat) {
    n < 0x8000_0000_0000_0000 && IsDecimal(Trim(inside), n)
  }

  ghost predicate IsDecimal(text: string, n: nat) {
    exists digits :: Decimals(digits, n) && (text == digits || text == "+" + digits || (n == 0 && text == "-" + digits))
  }

  predicate Decimals(digits: string, n: nat) {
    digits != "" && AllDigits(digits) && Value(digits) == n
  }

  ghost predicate Reads(g: Segment, t: Token) {
    match g
    case Dot => false
    case Bracket(inside) => t.Index? && IsIndexText(inside, t.index)
    case Run(text) => t.Key? && t.key == Trim(text) != ""
  }

  /** A segment that is in order before `rest`, with the token it stands for, if any. */
  ghost predicate Good(g: Segment, ts: seq<Token>, rest: string) {
    match g
    case Dot => ts == []
    case Bracket(inside) => ']' !in inside && |ts| == 1 && Reads(g, ts[0])
    case Run(text) => text != "" && NoSeparator(text) && Stops(rest) && |ts| == 1 && Reads(g, ts[0])
  }

  /** The tokens are those of the bracket segments and key runs, in order. */
  ghost predicate Means(gs: seq<Segment>, ts: seq<Token>) {
    if gs == [] then ts == []
    else if gs[0].Dot? then Means(gs[1..], ts)
    else ts != [] && Reads(gs[0], ts[0]) && Means(gs[1..], ts[1..])
  }

  /** The text, white space around it apart, is made of such segments, with at least one token. */
  ghost predicate Accepts(path: string, ts: seq<Token>) {
    ts != [] && exists gs :: Spell(gs) == Trim(path) && Cut(gs, "") && Means(gs, ts)
  }

  /** What is wrong with a text that cannot go on. */
  ghost predicate GoesWrong(rest: string, e: PathError) {
    match e
    case Required => false
    case Unterminated => rest != "" && rest[0] == '[' && ']' !in rest
    case BadIndex(text) =>
      exists inside, more ::
        rest == "[" + inside + "]" + more && ']' !in inside && text == Trim(inside) && !HasIndex(inside)
    case BadKey => exists run, more :: rest == run + more && IsBlankRun(run, more)
  }

  ghost predicate HasIndex(inside: string) {
    exists n: nat :: IsIndexText(inside, n)
  }

  predicate IsBlankRun(run: string, more: string) {
    run != "" && NoSeparator(run) && Stops(more) && Trim(run) == ""
  }

  /** After good segments something goes wrong, or there was no token at all. */
  ghost predicate Complains(path: string, e: PathError) {
    exists gs, ts, rest ::
      && Spell(gs) + rest == Trim(path) && Cut(gs, rest) && Means(gs, ts)
      && if e.Required? then rest == "" && ts == [] else GoesWrong(rest, e)
  }

  // ---------------------------------------------------------------- one segment

  lemma AtoiReads(text: string, n: nat)
    ensures Atoi(text) == Some(n as int) <==> n < 0x8000_0000_0000_0000 && IsDecimal(text, n)
  {
    if Atoi(text) == Some(n as int) {
      if text[0] == '-' || text[0] == '+' {
        var digits := text[1..];
        assert text == [text[0]] + digits;
        assert Decimals(digits, n) && (text == "+" + digits || (n == 0 && text == "-" + digits));
      } else {
        assert Decimals(text, n);
      }
    }
    if n < 0x8000_0000_0000_0000 && IsDecimal(text, n) {
      var digits :| Decimals(digits, n) && (text == digits || text == "+" + digits || (n == 0 && text == "-" + digits));
      assert IsDigit(digits[0]);
      if text != digits {
        assert text[1..] == digits;
      }
    }
  }

  /** The bracket holds an index exactly if it reads as one. */
  lemma BracketReads(inside: string, n: nat)
    ensures BracketIndex(inside) == Ok(n) <==> IsIndexText(inside, n)
  {
    AtoiReads(Trim(inside), n);
    hide Trim, Atoi;
  }

  lemma BracketFails(inside: string)
    ensures BracketIndex(inside).Err? <==> !HasIndex(inside)
    ensures BracketIndex(inside).Err? ==> BracketIndex(inside) == Err(BadIndex(Trim(inside)))
  {
    if BracketIndex(inside).Ok? {
      BracketReads(inside, BracketIndex(inside).value);
    }
    if HasIndex(inside) {
      var n: nat :| IsIndexText(inside, n);
      BracketReads(inside, n);
    }
    hide Trim, Atoi, IsIndexText;
  }

  lemma {:induction false} CloseIs(inside: string, more: string)
    requires ']' !in inside
    ensures CloseAt(inside + "]" + more) == Some(|inside|)
  {
    var s := inside + "]" + more;
    if inside != "" {
      assert s[0] == inside[0] && s[1..] == inside[1..] + "]" + more;
      CloseIs(inside[1..], more);
    }
  }

  lemma StepOnBracket(inside: string, more: string)
    requires ']' !in inside
    ensures Step("[" + inside + "]" + more) ==
            match BracketIndex(inside)
            case Err(e) => Err(e)
            case Ok(n) => Ok(([Index(n)], |inside| + 2))
  {
    hide BracketIndex;
    var s := "[" + inside + "]" + more;
    var open := "[" + inside;
    assert ']' !in open && s == open + "]" + more;
    CloseIs(open, more);
    assert s[1..|open|] == inside;
  }

  lemma StepOnRun(run: string, more: string)
    requires run != "" && NoSeparator(run) && Stops(more)
    ensures Step(run + more) ==
            if Trim(run) == "" then Err(BadKey) else Ok(([Key(Trim(run))], |run|))
  {
    hide Trim;
    assert '.' !in run && '[' !in run;
    KeyLengthOf(run, more);
    var s := run + more;
    assert s[0] == run[0] && !Separates(run[0]);
    assert s[..|run|] == run;
  }

  // ---------------------------------------------------------------- what is accepted is read so

  /** The parser reads one good segment. */
  lemma ScanSegment(g: Segment, rest: string, ts: seq<Token>)
    requires Good(g, ts, rest)
    ensures Scan(TextOf(g) + rest) == Prepend(ts, Scan(rest))
  {
    hide Trim, Scan, Atoi, IsIndexText, BracketIndex;
    match g
    case Dot =>
      ScanDot(rest);
      assert Scan(rest).Ok? ==> [] + Scan(rest).value == Scan(rest).value;
    case Bracket(inside) =>
      BracketReads(inside, ts[0].index);
      StepOnBracket(inside, rest);
      assert ts == [ts[0]];
      hide Step;
      ScanPrinted(ts[0], TextOf(g), rest);
    case Run(text) =>
      StepOnRun(text, rest);
      assert ts == [ts[0]];
      hide Step;
      ScanPrinted(ts[0], text, rest);
  }

  /** And any number of them. */
  lemma {:induction false} ScanSegments(gs: seq<Segment>, ts: seq<Token>, rest: string)
    requires Cut(gs, rest) && Means(gs, ts)
    ensures Scan(Spell(gs) + rest) == Prepend(ts, Scan(rest))
  {
    if gs == [] {
      assert Spell(gs) + rest == rest;
      assert Scan(rest).Ok? ==> [] + Scan(rest).value == Scan(rest).value;
    } else {
      var head := if gs[0].Dot? then [] else [ts[0]];
      var tail := if gs[0].Dot? then ts else ts[1..];
      assert ts == head + tail;
      ScanSegments(gs[1..], tail, rest);
      assert Spell(gs) + rest == TextOf(gs[0]) + (Spell(gs[1..]) + rest);
      hide Scan, Trim, IsIndexText;
      ScanSegment(gs[0], Spell(gs[1..]) + rest, head);
      PrependTwice(head, tail, Scan(rest));
    }
  }

  /** Where something goes wrong the parser complains. */
  lemma StepGoesWrong(rest: string, e: PathError)
    requires GoesWrong(rest, e)
    ensures rest != "" && Step(rest) == Err(e)
  {
    hide Trim, Atoi, IsIndexText, BracketIndex;
    match e
    case Required =>
    case Unterminated =>
    case BadIndex(text) =>
      var inside, more :|
        rest == "[" + inside + "]" + more && ']' !in inside && text == Trim(inside) && !HasIndex(inside);
      StepOnBracket(inside, more);
      BracketFails(inside);
    case BadKey =>
      var run, more :| rest == run + more && IsBlankRun(run, more);
      StepOnRun(run, more);
  }

  // ---------------------------------------------------------------- and only that

  /** The segment that a step of the parser reads. */
  lemma StepReads(s: string) returns (g: Segment, ts: seq<Token>)
    requires s != "" && Step(s).Ok?
    ensures Step(s).value == (ts, |TextOf(g)|) && |TextOf(g)| <= |s| && s == TextOf(g) + s[|TextOf(g)|..]
    ensures Good(g, ts, s[|TextOf(g)|..])
  {
    hide Trim, Atoi, IsIndexText, BracketIndex;
    ts := Step(s).value.0;
    if s[0] == '.' {
      g := Dot;
    } else if s[0] == '[' {
      var end := CloseAt(s).value;
      assert end > 0;
      var inside := s[1..end];
      assert ']' !in inside by {
        assert forall i :: 0 <= i < |inside| ==> inside[i] == s[..end][i + 1];
      }
      g := Bracket(inside);
      BracketReads(inside, BracketIndex(inside).value);
      assert s == "[" + inside + "]" + s[end + 1..];
    } else {
      g := Run(s[..KeyLength(s)]);
    }
  }

  lemma StepComplains(s: string)
    requires s != "" && Step(s).Err?
    ensures GoesWrong(s, Step(s).error)
  {
    hide Trim, Atoi, IsIndexText, BracketIndex;
    if s[0] == '[' {
      if CloseAt(s).Some? {
        var end := CloseAt(s).value;
        assert end > 0;
        var inside := s[1..end];
        assert ']' !in inside by {
          assert forall i :: 0 <= i < |inside| ==> inside[i] == s[..end][i + 1];
        }
        BracketFails(inside);
        assert s == "[" + inside + "]" + s[end + 1..];
      }
    } else {
      var run, more := s[..KeyLength(s)], s[KeyLength(s)..];
      assert s == run + more && IsBlankRun(run, more);
    }
  }

  lemma OneMoreSegment(g: Segment, head: seq<Token>, more: seq<Segment>, tail: seq<Token>, rest: string)
    requires Cut(more, rest) && Means(more, tail) && Good(g, head, Spell(more) + rest)
    ensures Spell([g] + more) + rest == TextOf(g) + (Spell(more) + rest)
    ensures Cut([g] + more, rest) && Means([g] + more, head + tail)
  {
    hide Trim, IsIndexText;
    var gs, ts := [g] + more, head + tail;
    assert gs[1..] == more;
    if g.Dot? {
      assert ts == tail;
    } else {
      assert ts[0] == head[0] && ts[1..] == tail;
    }
  }

  /** How far the parser gets, in segments: to the end, or to where it complains. */
  lemma {:induction false} ScanReads(s: string) returns (gs: seq<Segment>, ts: seq<Token>, rest: string)
    ensures Spell(gs) + rest == s && Cut(gs, rest) && Means(gs, ts)
    ensures if Scan(s).Ok? then rest == "" && Scan(s).value == ts else GoesWrong(rest, Scan(s).error)
    decreases |s|
  {
    if s == "" {
      return [], [], "";
    }
    if Step(s).Err? {
      StepComplains(s);
      assert Spell([]) + s == s;
      return [], [], s;
    }
    var g, head := StepReads(s);
    var n := |TextOf(g)|;
    var tail;
    assert Scan(s) == Prepend(head, Scan(s[n..]));
    hide Step, Scan, Trim, IsIndexText, GoesWrong, Spell, Cut, Means, Reads;
    var more;
    more, tail, rest := ScanReads(s[n..]);
    OneMoreSegment(g, head, more, tail, rest);
    gs, ts := [g] + more, head + tail;
  }

  // ---------------------------------------------------------------- the two theorems

  lemma ParseIs(path: string)
    ensures var s := Trim(path);
            Parse(path) == match Scan(s) case Err(e) => Err(e) case Ok(ts) => if ts == [] then Err(Required) else Ok(ts)
  {
    hide Trim;
  }

  /** A text is accepted, with these tokens, if and only if it is made of dots, bracket segments with an index
      and key runs with a key, and the tokens are those, in order, and at least one. */
  lemma ParseAccepts(path: string, ts: seq<Token>)
    ensures Parse(path) == Ok(ts) <==> Accepts(path, ts)
  {
    hide Trim, Scan, Parse, GoesWrong, Means, Cut;
    ParseIs(path);
    var s := Trim(path);
    if Parse(path) == Ok(ts) {
      var gs, us, rest := ScanReads(s);
      assert Spell(gs) + "" == Spell(gs);
      assert Spell(gs) == Trim(path) && Cut(gs, "") && Means(gs, ts);
    }
    if Accepts(path, ts) {
      var gs :| Spell(gs) == Trim(path) && Cut(gs, "") && Means(gs, ts);
      ScanSegments(gs, ts, "");
      assert Spell(gs) + "" == s;
      NothingToScan();
      assert ts + [] == ts;
    }
  }

  lemma NothingToScan()
    ensures Scan("") == Ok([])
  {
  }

  /** It is refused, with this error, if and only if that goes wrong there in that way first. */
  lemma ParseComplains(path: string, e: PathError)
    ensures Parse(path) == Err(e) <==> Complains(path, e)
  {
    hide Trim, Scan, Parse, GoesWrong, Means, Cut;
    ParseIs(path);
    var s := Trim(path);
    if Parse(path) == Err(e) {
      var gs, ts, rest := ScanReads(s);
      if Scan(s).Err? {
        NeverRequired(rest, Scan(s).error);
      }
      assert Spell(gs) + rest == Trim(path) && Cut(gs, rest) && Means(gs, ts);
    }
    if Complains(path, e) {
      var gs, ts, rest :| Spell(gs) + rest == Trim(path) && Cut(gs, rest) && Means(gs, ts)
        && if e.Required? then rest == "" && ts == [] else GoesWrong(rest, e);
      ScanSegments(gs, ts, rest);
      if e.Required? {
        NothingToScan();
        assert ts + [] == [];
      } else {
        StepGoesWrong(rest, e);
        ScanStops(rest, e);
      }
    }
  }

  lemma NeverRequired(rest: string, e: PathError)
    requires GoesWrong(rest, e)
    ensures !e.Required?
  {
  }

  lemma ScanStops(rest: string, e: PathError)
    requires rest != "" && Step(rest) == Err(e)
    ensures Scan(rest) == Err(e)
  {
    hide Step;
  }
}
