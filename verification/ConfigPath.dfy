/**
 The configuration path language of cmd/anyclaw/config_cli.go: a path such as `plugins.enabled[0]` is
 parsed into tokens, and tokens read, write and remove places in a JSON tree.
 */
module ConfigPath {
  import opened Wrappers
  import opened Text

  /** A path step. The parser only ever makes non-negative indices. */
  datatype Token = Key(key: string) | Index(index: nat)

  // ---------------------------------------------------------------- the parser

  datatype PathError = Required | Unterminated | BadIndex(text: string) | BadKey

  const MAX_INT: int := 0x7fff_ffff_ffff_ffff

  predicate IsDigit(c: char) {
    '0' <= c <= '9'
  }

  predicate AllDigits(s: string) {
    forall i :: 0 <= i < |s| ==> IsDigit(s[i])
  }

  function Value(digits: string): nat
    requires AllDigits(digits)
  {
    if digits == [] then 0
    else 10 * Value(digits[..|digits| - 1]) + (digits[|digits| - 1] as int - '0' as int)
  }

  /** `strconv.Atoi`: an optional sign and at least one digit, in the range of a 64-bit integer. */
  function Atoi(s: string): Option<int> {
    var signed := s != [] && (s[0] == '-' || s[0] == '+');
    var digits := if signed then s[1..] else s;
    if digits == [] || !AllDigits(digits) then None else
      var v: int := Value(digits);
      var n := if signed && s[0] == '-' then -v else v;
      if -MAX_INT - 1 <= n <= MAX_INT then Some(n) else None
  }

  /** How far the first `]` is, if there is one. */
  function CloseAt(s: string): (r: Option<nat>)
    ensures r.None? <==> ']' !in s
    ensures r.Some? ==> r.value < |s| && s[r.value] == ']' && ']' !in s[..r.value]
  {
    if s == [] then None
    else if s[0] == ']' then Some(0)
    else match CloseAt(s[1..])
         case None => assert s == [s[0]] + s[1..]; None
         case Some(k) => assert s[..k + 1] == [s[0]] + s[1..][..k]; Some(k + 1)
  }

  predicate Separates(c: char) {
    c == '.' || c == '['
  }

  /** The length of the longest key a text starts with. */
  function KeyLength(s: string): (n: nat)
    ensures n <= |s|
    ensures forall i :: 0 <= i < n ==> !Separates(s[i])
    ensures n < |s| ==> Separates(s[n])
  {
    if s == [] || Separates(s[0]) then 0 else 1 + KeyLength(s[1..])
  }

  function Prepend(tokens: seq<Token>, r: Result<seq<Token>, PathError>): Result<seq<Token>, PathError> {
    if r.Ok? then Ok(tokens + r.value) else r
  }

  /** The index between a bracket and its end. */
  function BracketIndex(inside: string): Result<nat, PathError> {
    var text := Trim(inside);
    var index := Atoi(text);
    if index.None? || index.value < 0 then Err(BadIndex(text)) else Ok(index.value)
  }

  /** The key in a run of characters that are not separators. */
  function KeyIn(text: string): Result<string, PathError> {
    var key := Trim(text);
    if key == "" then Err(BadKey) else Ok(key)
  }

  /** What one round of the parser's loop reads: the tokens it yields and how far it moves. */
  function Step(s: string): (r: Result<(seq<Token>, nat), PathError>)
    requires s != []
    ensures r.Ok? ==> 0 < r.value.1 <= |s|
  {
    if s[0] == '.' then Ok(([], 1))
    else if s[0] == '[' then
      match CloseAt(s)
      case None => Err(Unterminated)
      case Some(end) =>
        (match BracketIndex(s[1..end])
         case Err(e) => Err(e)
         case Ok(n) => Ok(([Index(n)], end + 1)))
    else
      match KeyIn(s[..KeyLength(s)])
      case Err(e) => Err(e)
      case Ok(key) => Ok(([Key(key)], KeyLength(s)))
  }

  /** The tokens of a text, read from the left. */
  function Scan(s: string): Result<seq<Token>, PathError>
    decreases |s|
  {
    if s == [] then Ok([]) else
      match Step(s)
      case Err(e) => Err(e)
      case Ok((tokens, n)) => Prepend(tokens, Scan(s[n..]))
  }

  function Parse(path: string): Result<seq<Token>, PathError> {
    var s := Trim(path);
    if s == "" then Err(Required) else
      match Scan(s)
      case Err(e) => Err(e)
      case Ok(tokens) => if tokens == [] then Err(Required) else Ok(tokens)
  }

  /** The parser's inner loop: the end of the key that starts at `start`. */
  method KeyEnd(path: string, start: nat) returns (i: nat)
    requires start <= |path|
    ensures i == start + KeyLength(path[start..])
  {
    i := start;
    while i < |path| && path[i] != '.' && path[i] != '['
      invariant start <= i <= |path|
      invariant KeyLength(path[start..]) == i - start + KeyLength(path[i..])
    {
      assert path[i..][1..] == path[i + 1..];
      i := i + 1;
    }
  }

  /** The body of the parser's outer loop, at position `i`. */
  method ParseStep(path: string, i: nat) returns (r: Result<(seq<Token>, nat), PathError>)
    requires i < |path|
    ensures r == match Step(path[i..]) case Err(e) => Err(e) case Ok((tokens, n)) => Ok((tokens, i + n))
  {
    hide BracketIndex, KeyIn, Trim;
    ghost var rest := path[i..];
    if path[i] == '.' {
      return Ok(([], i + 1));
    }
    if path[i] == '[' {
      var end := CloseAt(path[i..]);
      if end.None? {
        return Err(Unterminated);
      }
      assert rest[1..end.value] == path[i + 1..i + end.value];
      var index := BracketIndex(path[i + 1..i + end.value]);
      if index.Err? {
        return Err(index.error);
      }
      return Ok(([Index(index.value)], i + end.value + 1));
    }
    var end := KeyEnd(path, i);
    assert rest[..end - i] == path[i..end];
    var key := KeyIn(path[i..end]);
    if key.Err? {
      return Err(key.error);
    }
    r := Ok(([Key(key.value)], end));
  }

  /** `parseConfigPath`. */
  method ParseConfigPath(path0: string) returns (r: Result<seq<Token>, PathError>)
    ensures r == Parse(path0)
  {
    var path := Trim(path0);
    if path == "" {
      return Err(Required);
    }
    var tokens: seq<Token> := [];
    var i := 0;
    assert path[i..] == path;
    assert Scan(path).Ok? ==> tokens + Scan(path).value == Scan(path).value;
    while i < |path|
      invariant 0 <= i <= |path|
      invariant Prepend(tokens, Scan(path[i..])) == Scan(path)
    {
      var step := ParseStep(path, i);
      if step.Err? {
        return Err(step.error);
      }
      var (more, next) := step.value;
      assert path[i..][next - i..] == path[next..];
      PrependTwice(tokens, more, Scan(path[next..]));
      tokens := tokens + more;
      i := next;
    }
    assert tokens + [] == tokens;
    if tokens == [] {
      return Err(Required);
    }
    r := Ok(tokens);
  }

  lemma PrependTwice(ts: seq<Token>, us: seq<Token>, r: Result<seq<Token>, PathError>)
    ensures Prepend(ts + us, r) == Prepend(ts, Prepend(us, r))
  {
    if r.Ok? {
      assert ts + us + r.value == ts + (us + r.value);
    }
  }

  // ---------------------------------------------------------------- the printer

  function Decimal(n: nat): (s: string)
    ensures s != "" && AllDigits(s)
    ensures Value(s) == n
  {
    var last := [(n % 10) as char + '0'];
    if n < 10 then assert last[..0] == ""; last else
      var s := Decimal(n / 10) + last;
      assert s[..|s| - 1] == Decimal(n / 10);
      s
  }

  /** A token the parser can produce. */
  predicate Canonical(t: Token) {
    match t
    case Key(k) => k != "" && Trimmed(k) && '.' !in k && '[' !in k
    case Index(n) => n <= MAX_INT
  }

  predicate AllCanonical(ts: seq<Token>) {
    forall t :: t in ts ==> Canonical(t)
  }

  function PrintToken(t: Token): string {
    match t
    case Key(k) => k
    case Index(n) => "[" + Decimal(n) + "]"
  }

  /** A token after the first one: keys are led by a dot. */
  function Lead(t: Token): (s: string)
    ensures s != ""
  {
    if t.Key? then "." + PrintToken(t) else PrintToken(t)
  }

  function PrintTail(ts: seq<Token>): string {
    if ts == [] then "" else
      Lead(ts[0]) + PrintTail(ts[1..])
  }

  /** The canonical text of a path. */
  function Print(ts: seq<Token>): string {
    if ts != [] && ts[0].Key? then ts[0].key + PrintTail(ts[1..]) else PrintTail(ts)
  }

  lemma {:induction false} KeyLengthOf(k: string, rest: string)
    requires '.' !in k && '[' !in k
    requires rest == "" || Separates(rest[0])
    ensures KeyLength(k + rest) == |k|
  {
    if k == "" {
      assert k + rest == rest;
    } else {
      assert (k + rest)[1..] == k[1..] + rest;
      KeyLengthOf(k[1..], rest);
    }
  }

  lemma StepKey(k: string, rest: string)
    requires Canonical(Key(k)) && (rest == "" || Separates(rest[0]))
    ensures Step(k + rest) == Ok(([Key(k)], |k|))
  {
    KeyLengthOf(k, rest);
    assert (k + rest)[0] == k[0] && k[0] in k;
    assert (k + rest)[..|k|] == k;
  }

  lemma {:induction false} CloseAfter(digits: string, rest: string)
    requires AllDigits(digits)
    ensures CloseAt(digits + "]" + rest) == Some(|digits|)
  {
    if digits != "" {
      assert (digits + "]" + rest)[1..] == digits[1..] + "]" + rest;
      assert IsDigit(digits[0]);
      CloseAfter(digits[1..], rest);
    }
  }

  lemma DigitsAreAnIndex(digits: string)
    requires digits != "" && AllDigits(digits) && Value(digits) <= MAX_INT
    ensures BracketIndex(digits) == Ok(Value(digits))
  {
    assert IsDigit(digits[0]) && IsDigit(digits[|digits| - 1]);
    assert Trimmed(digits);
    assert Trim(digits) == digits;
  }

  lemma StepBracket(inside: string, rest: string, n: nat)
    requires CloseAt(inside + "]" + rest) == Some(|inside|) && BracketIndex(inside) == Ok(n)
    ensures Step("[" + inside + "]" + rest) == Ok(([Index(n)], |inside| + 2))
  {
    hide BracketIndex;
    var s := "[" + inside + "]" + rest;
    assert s[1..] == inside + "]" + rest;
    assert CloseAt(s) == Some(|inside| + 1);
    assert s[1..|inside| + 1] == inside;
  }

  lemma StepIndex(n: nat, rest: string)
    requires n <= MAX_INT
    ensures Step("[" + Decimal(n) + "]" + rest) == Ok(([Index(n)], |Decimal(n)| + 2))
  {
    hide Step, BracketIndex;
    CloseAfter(Decimal(n), rest);
    DigitsAreAnIndex(Decimal(n));
    StepBracket(Decimal(n), rest, n);
  }

  lemma ScanPrinted(t: Token, printed: string, rest: string)
    requires printed != "" && Step(printed + rest) == Ok(([t], |printed|))
    ensures Scan(printed + rest) == Prepend([t], Scan(rest))
  {
    assert (printed + rest)[|printed|..] == rest;
  }

  lemma ScanToken(t: Token, rest: string)
    requires Canonical(t) && (rest == "" || Separates(rest[0]))
    ensures Scan(PrintToken(t) + rest) == Prepend([t], Scan(rest))
  {
    hide Step, Scan;
    match t
    case Key(k) =>
      StepKey(k, rest);
      ScanPrinted(t, k, rest);
    case Index(n) =>
      StepIndex(n, rest);
      ScanPrinted(t, PrintToken(t), rest);
  }

  lemma ScanDot(s: string)
    ensures Scan("." + s) == Scan(s)
  {
    assert ("." + s)[1..] == s;
    assert Step("." + s) == Ok(([], 1));
    assert Scan(s).Ok? ==> [] + Scan(s).value == Scan(s).value;
  }

  lemma ScanTailStep(t: Token, rest: string)
    requires Canonical(t) && (rest == "" || Separates(rest[0]))
    ensures Scan(Lead(t) + rest) == Prepend([t], Scan(rest))
    ensures Separates((Lead(t) + rest)[0])
  {
    hide Step, Scan;
    ScanToken(t, rest);
    if t.Key? {
      ScanDot(PrintToken(t) + rest);
      assert Lead(t) + rest == "." + (PrintToken(t) + rest);
    }
  }

  lemma {:induction false} ScanTail(ts: seq<Token>)
    requires AllCanonical(ts)
    ensures Scan(PrintTail(ts)) == Ok(ts)
    ensures PrintTail(ts) == "" || Separates(PrintTail(ts)[0])
  {
    if ts != [] {
      ScanTail(ts[1..]);
      assert Canonical(ts[0]);
      ScanTailStep(ts[0], PrintTail(ts[1..]));
      assert [ts[0]] + ts[1..] == ts;
    }
  }

  lemma LeadEndsVisibly(t: Token)
    requires Canonical(t)
    ensures var s := Lead(t); !IsSpace(s[0]) && !IsSpace(s[|s| - 1])
  {
  }

  lemma {:induction false} TailEndsVisibly(ts: seq<Token>)
    requires AllCanonical(ts) && ts != []
    ensures var s := PrintTail(ts); s != "" && !IsSpace(s[0]) && !IsSpace(s[|s| - 1])
  {
    assert Canonical(ts[0]);
    LeadEndsVisibly(ts[0]);
    if |ts| > 1 {
      TailEndsVisibly(ts[1..]);
    }
  }

  lemma ScanPrint(ts: seq<Token>)
    requires ts != [] && AllCanonical(ts)
    ensures Scan(Print(ts)) == Ok(ts)
  {
    ScanTail(ts);
    if ts[0].Key? {
      ScanTail(ts[1..]);
      assert Canonical(ts[0]);
      ScanToken(ts[0], PrintTail(ts[1..]));
      assert [ts[0]] + ts[1..] == ts;
    }
  }

  lemma PrintInTail(ts: seq<Token>)
    requires ts != []
    ensures PrintTail(ts) == (if ts[0].Key? then "." else "") + Print(ts)
    ensures ts[0].Key? ==> ts[0].key <= Print(ts)
  {
  }

  lemma PrintIsTrimmed(ts: seq<Token>)
    requires ts != [] && AllCanonical(ts)
    ensures Print(ts) != "" && Trimmed(Print(ts))
  {
    hide PrintTail, Print, IsSpace;
    assert Canonical(ts[0]);
    TailEndsVisibly(ts);
    PrintInTail(ts);
  }

  /** Parsing the canonical text of a path gives the path back. */
  lemma ParsePrint(ts: seq<Token>)
    requires ts != [] && AllCanonical(ts)
    ensures Parse(Print(ts)) == Ok(ts)
  {
    ScanPrint(ts);
    PrintIsTrimmed(ts);
  }

  lemma {:induction false} KeyHasNoSeparators(s: string, n: nat)
    requires n <= KeyLength(s)
    ensures '.' !in s[..n] && '[' !in s[..n]
  {
  }

  lemma StepIsCanonical(s: string)
    requires s != [] && Step(s).Ok?
    ensures AllCanonical(Step(s).value.0)
  {
    if s[0] != '.' && s[0] != '[' {
      var key := s[..KeyLength(s)];
      KeyHasNoSeparators(s, KeyLength(s));
      TrimKeeps(key, '.');
      TrimKeeps(key, '[');
    }
  }

  lemma {:induction false} ScanIsCanonical(s: string)
    ensures Scan(s).Ok? ==> AllCanonical(Scan(s).value)
    decreases |s|
  {
    if s != [] && Step(s).Ok? {
      StepIsCanonical(s);
      ScanIsCanonical(s[Step(s).value.1..]);
    }
  }

  /** Every text the parser accepts means the same as its canonical text. */
  lemma ParsePrintParse(path: string)
    requires Parse(path).Ok?
    ensures Parse(path).value != [] && AllCanonical(Parse(path).value)
    ensures Parse(Print(Parse(path).value)) == Parse(path)
  {
    ScanIsCanonical(Trim(path));
    ParsePrint(Parse(path).value);
  }
}
