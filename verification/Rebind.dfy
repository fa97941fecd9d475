/** The rewriting of '?' placeholders into '$1', '$2', … for PostgreSQL, and the reading of the
    result by a server that takes the longest run of digits after a '$'. */
module Rebind {
  // ---------- numerals ----------

  predicate IsDigit(c: char) {
    '0' <= c <= '9'
  }

  function Digit(d: nat): (c: char)
    requires d < 10
    ensures IsDigit(c)
  {
    '0' + d as char
  }

  function Value(c: char): nat
    requires IsDigit(c)
  {
    c as int - '0' as int
  }

  function Decimal(n: nat): (s: string)
    ensures s != [] && forall i :: 0 <= i < |s| ==> IsDigit(s[i])
    ensures n > 0 ==> s[0] != '0'
    ensures n == 0 ==> s == "0"
  {
    if n < 10 then [Digit(n)] else Decimal(n / 10) + [Digit(n % 10)]
  }

  function Number(s: string): nat
    requires forall i :: 0 <= i < |s| ==> IsDigit(s[i])
  {
    if s == [] then 0 else 10 * Number(s[..|s| - 1]) + Value(s[|s| - 1])
  }

  lemma {:induction false} NumberDecimal(n: nat)
    ensures Number(Decimal(n)) == n
  {
    var s := Decimal(n);
    if n < 10 {
      assert s[..0] == [];
    } else {
      NumberDecimal(n / 10);
      assert s[..|s| - 1] == Decimal(n / 10);
    }
  }

  // ---------- tokens ----------

  datatype Token = Text(c: char) | Param(n: nat)

  function Marks(q: string): nat {
    if q == [] then 0 else Marks(q[..|q| - 1]) + (if q[|q| - 1] == '?' then 1 else 0)
  }

  /** What a query with '?' placeholders means: the k-th '?' is parameter k, the rest is text. */
  function Mark(q: string): seq<Token> {
    seq(|q|, i requires 0 <= i < |q| => if q[i] == '?' then Param(Marks(q[..i + 1])) else Text(q[i]))
  }

  function Spell(t: Token): string {
    match t
    case Text(c) => [c]
    case Param(n) => "$" + Decimal(n)
  }

  function Unread(ts: seq<Token>): string {
    if ts == [] then [] else Spell(ts[0]) + Unread(ts[1..])
  }

  function Run(s: string): (r: nat)
    ensures r <= |s| && forall i :: 0 <= i < r ==> IsDigit(s[i])
    ensures r < |s| ==> !IsDigit(s[r])
  {
    if s != [] && IsDigit(s[0]) then 1 + Run(s[1..]) else 0
  }

  /** How the server reads a query: '$' and the digits after it are a parameter. */
  function Read(s: string): seq<Token> {
    if s == [] then []
    else
      var d := if s[0] == '$' then Run(s[1..]) else 0;
      if d > 0 then [Param(Number(s[1..1 + d]))] + Read(s[1 + d..])
      else [Text(s[0])] + Read(s[1..])
  }

  /** The query with its parameters written as '?' again. */
  function Forget(ts: seq<Token>): string {
    seq(|ts|, i requires 0 <= i < |ts| => match ts[i] case Text(c) => c case Param(_) => '?')
  }

  function Rebind(q: string): string {
    Unread(Mark(q))
  }

  /** No token runs into a digit that the server would take as part of a parameter number. */
  ghost predicate Settled(ts: seq<Token>) {
    forall i :: 0 <= i < |ts| - 1 && (ts[i].Param? || ts[i].c == '$') && ts[i + 1].Text? ==> !IsDigit(ts[i + 1].c)
  }

  /** Neither '$' nor '?' is directly followed by a digit. */
  ghost predicate Clean(q: string) {
    forall i :: 0 <= i < |q| - 1 && (q[i] == '$' || q[i] == '?') ==> !IsDigit(q[i + 1])
  }

  /** Parameter numbers count the marks from the left, starting at one. */
  lemma {:induction false} MarkNumber(q: string, i: nat)
    requires i < |q| && q[i] == '?'
    ensures Mark(q)[i] == Param(|set j | 0 <= j <= i && q[j] == '?'|)
  {
    MarksCount(q, i + 1);
    assert (set j | 0 <= j < i + 1 && q[j] == '?') == set j | 0 <= j <= i && q[j] == '?';
  }

  lemma {:induction false} MarksCount(q: string, k: nat)
    requires k <= |q|
    ensures Marks(q[..k]) == |set j | 0 <= j < k && q[j] == '?'|
  {
    if k > 0 {
      MarksCount(q, k - 1);
      assert q[..k][..k - 1] == q[..k - 1];
      var last := if q[k - 1] == '?' then {k - 1} else {};
      assert (set j | 0 <= j < k && q[j] == '?') == (set j | 0 <= j < k - 1 && q[j] == '?') + last;
    }
  }

  // ---------- the loop ----------

  lemma {:induction false} UnreadConcat(a: seq<Token>, b: seq<Token>)
    ensures Unread(a + b) == Unread(a) + Unread(b)
  {
    if a == [] {
      assert a + b == b;
    } else {
      assert (a + b)[1..] == a[1..] + b;
      UnreadConcat(a[1..], b);
    }
  }

  lemma RebindAppend(q: string, i: nat)
    requires i < |q|
    ensures Marks(q[..i + 1]) == Marks(q[..i]) + (if q[i] == '?' then 1 else 0)
    ensures Rebind(q[..i + 1]) == Rebind(q[..i]) + Spell(Mark(q)[i])
  {
    var now, next := q[..i], q[..i + 1];
    assert next[..i] == now;
    forall k | 0 <= k < i ensures Mark(next)[k] == Mark(now)[k] {
      assert next[..k + 1] == now[..k + 1];
    }
    assert next[..i + 1] == next;
    assert Mark(next) == Mark(now) + [Mark(q)[i]];
    UnreadConcat(Mark(now), [Mark(q)[i]]);
    assert [Mark(q)[i]][1..] == [];
  }

  lemma RebindStep(q: string, i: nat, n: nat, out: string)
    requires i < |q| && n == Marks(q[..i]) && out == Rebind(q[..i])
    ensures q[i] == '?' ==> n + 1 == Marks(q[..i + 1]) && out + "$" + Decimal(n + 1) == Rebind(q[..i + 1])
    ensures q[i] != '?' ==> n == Marks(q[..i + 1]) && out + [q[i]] == Rebind(q[..i + 1])
  {
    RebindAppend(q, i);
    if q[i] == '?' {
      assert Mark(q)[i] == Param(n + 1);
      assert out + ("$" + Decimal(n + 1)) == out + "$" + Decimal(n + 1);
    }
  }

  method RebindSQL(query: string) returns (out: string)
    ensures out == Rebind(query)
  {
    out := "";
    var n := 0;
    var i := 0;
    while i < |query|
      invariant 0 <= i <= |query|
      invariant n == Marks(query[..i])
      invariant out == Rebind(query[..i])
    {
      RebindStep(query, i, n, out);
      if query[i] == '?' {
        n := n + 1;
        out := out + "$";
        out := out + Decimal(n);
      } else {
        out := out + [query[i]];
      }
      i := i + 1;
    }
    assert query[..i] == query;
  }

  // ---------- reading back ----------

  /** How many single digits of text a token list starts with. */
  function Lead(ts: seq<Token>): (r: nat)
    ensures r <= |ts|
  {
    if ts != [] && ts[0].Text? && IsDigit(ts[0].c) then 1 + Lead(ts[1..]) else 0
  }

  lemma {:induction false} RunLead(ts: seq<Token>)
    ensures Run(Unread(ts)) == Lead(ts)
    ensures Unread(ts)[Lead(ts)..] == Unread(ts[Lead(ts)..])
  {
    if ts != [] {
      var s := Unread(ts);
      if Lead(ts) == 0 {
        assert Spell(ts[0])[0] == s[0];
      } else {
        RunLead(ts[1..]);
        assert s[1..] == Unread(ts[1..]);
        assert s[Lead(ts)..] == s[1..][Lead(ts[1..])..];
        assert ts[1..][Lead(ts[1..])..] == ts[Lead(ts)..];
      }
    }
  }

  lemma {:induction false} RunConcat(a: string, b: string)
    requires forall i :: 0 <= i < |a| ==> IsDigit(a[i])
    ensures Run(a + b) == |a| + Run(b)
  {
    if a == [] {
      assert a + b == b;
    } else {
      assert (a + b)[1..] == a[1..] + b;
      RunConcat(a[1..], b);
    }
  }

  lemma ReadParamFirst(s: string, d: nat, after: string)
    requires s != [] && s[0] == '$' && d == Run(s[1..]) && d > 0 && after == s[1 + d..]
    ensures Read(s) == [Param(Number(s[1..1 + d]))] + Read(after)
  {}

  lemma DollarSlices(digits: string, tail: string, k: nat)
    requires k <= |tail|
    ensures var s, d := "$" + digits + tail, |digits| + k;
      s[1..] == digits + tail && s[1 + d..] == tail[k..] && s[1..1 + |digits|] == digits
  {}

  lemma ReadDollar(digits: string, tail: string, k: nat)
    requires digits != [] && forall i :: 0 <= i < |digits| ==> IsDigit(digits[i])
    requires k == Run(tail)
    ensures var s := "$" + digits + tail;
      Read(s) == [Read(s)[0]] + Read(tail[k..]) && (k == 0 ==> Read(s)[0] == Param(Number(digits)))
  {
    DollarSlices(digits, tail, k);
    RunConcat(digits, tail);
    ReadParamFirst("$" + digits + tail, |digits| + k, tail[k..]);
  }

  /** Reading takes a parameter together with the digits of text behind it. */
  lemma ReadParam(n: nat, rest: seq<Token>)
    ensures var s := Unread([Param(n)] + rest);
      Read(s) == [Read(s)[0]] + Read(Unread(rest[Lead(rest)..])) && (Lead(rest) == 0 ==> Read(s)[0] == Param(n))
  {
    assert ([Param(n)] + rest)[1..] == rest;
    RunLead(rest);
    ReadDollar(Decimal(n), Unread(rest), Lead(rest));
    NumberDecimal(n);
  }

  lemma ReadText(c: char, rest: seq<Token>)
    ensures var s := Unread([Text(c)] + rest); var k := if c == '$' then Lead(rest) else 0;
      Read(s) == [Read(s)[0]] + Read(Unread(rest[k..])) && (k == 0 ==> Read(s)[0] == Text(c))
  {
    var ts := [Text(c)] + rest;
    assert ts[1..] == rest;
    var s := Unread(ts);
    assert s[1..] == Unread(rest);
    RunLead(rest);
    var d := if c == '$' then Lead(rest) else 0;
    assert s[1 + d..] == s[1..][d..];
    assert rest[0..] == rest;
  }

  lemma SettledTail(ts: seq<Token>, k: nat)
    requires ts != [] && k <= |ts| - 1
    requires k == if ts[0] == Text('$') || ts[0].Param? then Lead(ts[1..]) else 0
    ensures Settled(ts) <==> k == 0 && Settled(ts[1 + k..])
  {}

  /** The server reads back exactly the tokens written, or else fewer of them. */
  lemma {:induction false} ReadBack(ts: seq<Token>)
    ensures Settled(ts) ==> Read(Unread(ts)) == ts
    ensures !Settled(ts) ==> |Read(Unread(ts))| < |ts|
    decreases |ts|
  {
    if ts != [] {
      var rest := ts[1..];
      assert ts == [ts[0]] + rest;
      match ts[0] {
        case Text(c) => ReadText(c, rest);
        case Param(n) => ReadParam(n, rest);
      }
      var k := if ts[0] == Text('$') || ts[0].Param? then Lead(rest) else 0;
      SettledTail(ts, k);
      assert rest[k..] == ts[1 + k..];
      ReadBack(rest[k..]);
    }
  }

  lemma CleanSettles(q: string)
    ensures Clean(q) <==> Settled(Mark(q))
  {
    var ts := Mark(q);
    if Clean(q) {
      forall i | 0 <= i < |ts| - 1 && (ts[i].Param? || ts[i].c == '$') && ts[i + 1].Text?
        ensures !IsDigit(ts[i + 1].c)
      {
        assert q[i] == '$' || q[i] == '?';
      }
    }
    if Settled(ts) {
      forall i | 0 <= i < |q| - 1 && (q[i] == '$' || q[i] == '?') ensures !IsDigit(q[i + 1]) {
        assert (ts[i].Param? || ts[i].c == '$') && (ts[i + 1].Text? || q[i + 1] == '?');
      }
    }
  }

  /** The rewritten query is read as the original was meant exactly when no '$' or '?' of the
      original stands directly before a digit. */
  lemma RebindMeans(q: string)
    ensures Read(Rebind(q)) == Mark(q) <==> Clean(q)
  {
    CleanSettles(q);
    ReadBack(Mark(q));
  }

  /** Under the same condition, and no other, the rewriting can be undone. */
  lemma RebindUndone(q: string)
    ensures Forget(Read(Rebind(q))) == q <==> Clean(q)
  {
    CleanSettles(q);
    ReadBack(Mark(q));
    assert Forget(Mark(q)) == q;
  }

  /** "?1" is rewritten to "$11", which is read as parameter 11 and turns back into "?". */
  lemma DigitSwallowed()
    ensures Rebind("?1") == "$11" && Mark("?1") == [Param(1), Text('1')] && Read("$11") == [Param(11)]
    ensures Forget(Read(Rebind("?1"))) == "?"
  {
    var q := "?1";
    assert q[..1] == "?" && q[..2] == q && "?"[..0] == "";
    assert Mark(q) == [Param(1), Text('1')];
    assert Mark(q)[1..] == [Text('1')] && [Text('1')][1..] == [];
    assert Unread([Text('1')]) == "1" && Decimal(1) == "1";
    assert "$11"[1..] == "11" && "11"[1..] == "1" && "1"[1..] == "" && Run("11") == 2;
    assert "$11"[1..3] == "11" && "$11"[3..] == "" && "11"[..1] == "1" && "1"[..0] == "";
    assert Number("1") == 1 && Number("11") == 11;
  }

  // ---------- rewriting twice ----------

  lemma {:induction false} NoMarksLeft(ts: seq<Token>)
    requires Text('?') !in ts
    ensures '?' !in Unread(ts)
  {
    if ts != [] {
      NoMarksLeft(ts[1..]);
      assert ts[0] in ts;
      if ts[0].Param? {
        assert '?' !in Decimal(ts[0].n);
      }
    }
  }

  lemma {:induction false} TextUnread(s: string)
    requires '?' !in s
    ensures Rebind(s) == s
  {
    if s != [] {
      var i := |s| - 1;
      TextUnread(s[..i]);
      RebindAppend(s, i);
      assert s[i] in s && s[..i + 1] == s;
    }
  }

  lemma RebindTwice(q: string)
    ensures '?' !in Rebind(q)
    ensures Rebind(Rebind(q)) == Rebind(q)
  {
    assert Text('?') !in Mark(q);
    NoMarksLeft(Mark(q));
    TextUnread(Rebind(q));
  }

  /** The text that reaches the inner driver: a connection without PrepareContext falls back to
      Prepare, which rewrites once more. */
  method PrepareContext(query: string, hasContext: bool) returns (prepared: string)
    ensures prepared == Rebind(query)
  {
    prepared := RebindSQL(query);
    if !hasContext {
      RebindTwice(query);
      prepared := RebindSQL(prepared);
    }
  }
}
