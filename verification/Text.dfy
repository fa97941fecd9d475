/** White space, as strings.TrimSpace sees it. */
module Text {
  predicate IsSpace(c: char) {
    || c == ' ' || '\t' <= c <= '\r' || c == '\U{85}' || c == '\U{A0}' || c == '\U{1680}'
    || '\U{2000}' <= c <= '\U{200A}' || c == '\U{2028}' || c == '\U{2029}' || c == '\U{202F}'
    || c == '\U{205F}' || c == '\U{3000}'
  }

  function TrimLeft(s: string): string {
    if s != [] && IsSpace(s[0]) then TrimLeft(s[1..]) else s
  }

  function TrimRight(s: string): string {
    if s != [] && IsSpace(s[|s| - 1]) then TrimRight(s[..|s| - 1]) else s
  }

  function Trim(s: string): string {
    TrimRight(TrimLeft(s))
  }

  /** Among the ASCII characters, white space is tab, newline, vertical tab, form feed, carriage return and
      the space. */
  lemma AsciiSpace(c: char)
    requires c as int < 128
    ensures IsSpace(c) <==> c as int in {9, 10, 11, 12, 13, 32}
  {}

  lemma {:induction false} TrimLeftIs(s: string)
    ensures var k := |s| - |TrimLeft(s)|;
      && 0 <= k && TrimLeft(s) == s[k..] && (forall j :: 0 <= j < k ==> IsSpace(s[j]))
      && (k < |s| ==> !IsSpace(s[k]))
  {
    if s != [] && IsSpace(s[0]) {
      TrimLeftIs(s[1..]);
      assert forall j :: 1 <= j < |s| ==> s[j] == s[1..][j - 1];
    }
  }

  lemma {:induction false} TrimRightIs(s: string)
    ensures var k := |TrimRight(s)|;
      && k <= |s| && TrimRight(s) == s[..k] && (forall j :: k <= j < |s| ==> IsSpace(s[j]))
      && (k > 0 ==> !IsSpace(s[k - 1]))
  {
    if s != [] && IsSpace(s[|s| - 1]) {
      TrimRightIs(s[..|s| - 1]);
    }
  }

  /** Trimming cuts off white space at both ends, all of it and nothing else. */
  lemma TrimIs(s: string) returns (from: nat, to: nat)
    ensures from <= to <= |s| && Trim(s) == s[from..to]
    ensures forall j :: 0 <= j < from || to <= j < |s| ==> IsSpace(s[j])
    ensures from < to ==> !IsSpace(s[from]) && !IsSpace(s[to - 1])
  {
    var left := TrimLeft(s);
    TrimLeftIs(s);
    from := |s| - |left|;
    to := from + |Trim(s)|;
    TrimRightIs(left);
    forall j | 0 <= j < from || to <= j < |s| ensures IsSpace(s[j]) {
      if to <= j {
        assert s[j] == left[j - from];
      }
    }
    if from < to {
      assert s[from] == left[0] && s[to - 1] == left[to - 1 - from];
    }
  }

  /** Trimmed text has no white space at its ends, so trimming it again changes nothing. */
  lemma TrimTwice(s: string)
    ensures Trim(Trim(s)) == Trim(s)
    ensures Trim(s) != [] ==> !IsSpace(Trim(s)[0]) && !IsSpace(Trim(s)[|Trim(s)| - 1])
  {
    var from, to := TrimIs(s);
  }

  /** Only blank text is empty when trimmed. */
  lemma TrimmedEmptyIff(s: string)
    ensures Trim(s) == "" <==> forall i :: 0 <= i < |s| ==> IsSpace(s[i])
  {
    var from, to := TrimIs(s);
  }
}
