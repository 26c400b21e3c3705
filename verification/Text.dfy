/** The string helpers of Go's standard library that the modelled code relies on. */
module Text {

  /** `unicode.IsSpace`. */
  predicate IsSpace(c: char) {
    || '\t' <= c <= '\r' || c == ' ' || c == '\U{0085}' || c == '\U{00A0}' || c == '\U{1680}'
    || '\U{2000}' <= c <= '\U{200A}' || c == '\U{2028}' || c == '\U{2029}' || c == '\U{202F}'
    || c == '\U{205F}' || c == '\U{3000}'
  }

  function TrimLeft(s: string): (r: string)
    ensures |r| <= |s|
    ensures r != [] ==> !IsSpace(r[0])
    ensures r == s <==> s == [] || !IsSpace(s[0])
  {
    if s != [] && IsSpace(s[0]) then TrimLeft(s[1..]) else s
  }

  function TrimRight(s: string): (r: string)
    ensures |r| <= |s|
    ensures r != [] ==> r[0] == s[0] && !IsSpace(r[|r| - 1])
    ensures r == s <==> s == [] || !IsSpace(s[|s| - 1])
  {
    if s != [] && IsSpace(s[|s| - 1]) then TrimRight(s[..|s| - 1]) else s
  }

  /** No white space at either end. */
  predicate Trimmed(s: string) {
    s != [] ==> !IsSpace(s[0]) && !IsSpace(s[|s| - 1])
  }

  /** `strings.TrimSpace`: a slice of its argument without white space at either end. */
  function Trim(s: string): (r: string)
    ensures Trimmed(r)
    ensures |r| <= |s|
    ensures r == s <==> Trimmed(s)
  {
    TrimRight(TrimLeft(s))
  }

  lemma TrimSkips(s: string)
    requires s != "" && IsSpace(s[0])
    ensures Trim(s) == Trim(s[1..])
  {
    hide TrimRight;
  }

  lemma {:induction false} TrimLeftDrops(s: string)
    ensures TrimLeft(s) == s[|s| - |TrimLeft(s)|..]
  {
    if s != [] && IsSpace(s[0]) {
      TrimLeftDrops(s[1..]);
    }
  }

  lemma {:induction false} TrimRightDrops(s: string)
    ensures TrimRight(s) == s[..|TrimRight(s)|]
  {
    if s != [] && IsSpace(s[|s| - 1]) {
      TrimRightDrops(s[..|s| - 1]);
    }
  }

  lemma TrimSkipsLast(s: string)
    requires s != "" && IsSpace(s[|s| - 1]) && !IsSpace(s[0])
    ensures Trim(s) == Trim(s[..|s| - 1])
  {
    assert TrimLeft(s) == s && TrimLeft(s[..|s| - 1]) == s[..|s| - 1];
  }

  /** Nothing but white space. */
  predicate Blank(s: string) {
    forall i :: 0 <= i < |s| ==> IsSpace(s[i])
  }

  /** Trimming leaves nothing of a text exactly if it is blank. */
  lemma BlankIsEmpty(s: string)
    ensures Trim(s) == "" <==> Blank(s)
  {
    var lo, hi := TrimSlice(s);
    BlankLeft(s);
    BlankRight(TrimLeft(s));
    if Blank(s) {
      assert TrimRight("") == "";
    }
    if TrimLeft(s) != "" {
      assert !IsSpace(TrimLeft(s)[0]);
    }
  }

  lemma {:induction false} BlankLeft(s: string)
    ensures TrimLeft(s) == "" <==> Blank(s)
  {
    if s != "" && IsSpace(s[0]) {
      BlankLeft(s[1..]);
      assert Blank(s) <==> Blank(s[1..]) by {
        assert forall i :: 0 < i < |s| ==> s[i] == s[1..][i - 1];
      }
    }
  }

  lemma {:induction false} BlankRight(s: string)
    ensures TrimRight(s) == "" ==> Blank(s)
  {
    if s != "" && IsSpace(s[|s| - 1]) {
      BlankRight(s[..|s| - 1]);
      assert forall i :: 0 <= i < |s| - 1 ==> s[i] == s[..|s| - 1][i];
    }
  }

  /** Trimming only drops characters at the ends. */
  lemma TrimSlice(s: string) returns (lo: nat, hi: nat)
    ensures lo <= hi <= |s| && Trim(s) == s[lo..hi]
  {
    TrimLeftDrops(s);
    TrimRightDrops(TrimLeft(s));
    lo := |s| - |TrimLeft(s)|;
    hi := lo + |Trim(s)|;
  }

  lemma TrimKeeps(s: string, c: char)
    requires c !in s
    ensures c !in Trim(s)
  {
    var lo, hi := TrimSlice(s);
  }

  /** ASCII part of `strings.ToLower`. */
  function LowerChar(c: char): char {
    if 'A' <= c <= 'Z' then c - 'A' + 'a' else c
  }

  function Lower(s: string): (r: string)
    ensures |r| == |s|
    ensures forall i :: 0 <= i < |s| ==> r[i] == LowerChar(s[i])
  {
    seq(|s|, i requires 0 <= i < |s| => LowerChar(s[i]))
  }

  /** `strings.Join`. */
  function Join(parts: seq<string>, separator: string): string {
    if parts == [] then ""
    else if |parts| == 1 then parts[0]
    else parts[0] + separator + Join(parts[1..], separator)
  }

  /** A joined text starts as its first part does and ends as its last one does. */
  lemma {:induction false} JoinEnds(parts: seq<string>, separator: string)
    requires parts != [] && parts[0] != "" && parts[|parts| - 1] != ""
    ensures var s, last := Join(parts, separator), parts[|parts| - 1];
            s != "" && s[0] == parts[0][0] && s[|s| - 1] == last[|last| - 1]
  {
    if |parts| > 1 {
      JoinEndsAsLast(parts[1..], separator);
    }
  }

  lemma {:induction false} JoinEndsAsLast(parts: seq<string>, separator: string)
    requires parts != [] && parts[|parts| - 1] != ""
    ensures var s, last := Join(parts, separator), parts[|parts| - 1]; s != "" && s[|s| - 1] == last[|last| - 1]
  {
    if |parts| > 1 {
      JoinEndsAsLast(parts[1..], separator);
    }
  }

  /** Neither does the first part start with white space nor the last one end with it. */
  predicate TidyEdges(parts: seq<string>) {
    parts != [] ==>
      var first, last := parts[0], parts[|parts| - 1];
      (first != "" ==> !IsSpace(first[0])) && (last != "" ==> !IsSpace(last[|last| - 1]))
  }

  /** What is joined has white space around it exactly if its parts have it at their edges. */
  lemma JoinTrimmed(parts: seq<string>, separator: string)
    requires parts != [] ==> parts[0] != "" && parts[|parts| - 1] != ""
    ensures Trimmed(Join(parts, separator)) <==> TidyEdges(parts)
  {
    if parts != [] {
      JoinEnds(parts, separator);
    }
  }
}
