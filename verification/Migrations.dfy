/** The migration runner: how a file is cut into statements, and what a database holds after any
    sequence of runs that may fail or crash at any point. */
module Migrations {
  import opened Text

  // ---------- lines ----------

  predicate StartsWith(s: string, prefix: string) {
    |prefix| <= |s| && s[..|prefix|] == prefix
  }

  predicate IsComment(line: string) {
    StartsWith(Trim(line), "--")
  }

  predicate EndsWith(s: string, c: char) {
    s != [] && s[|s| - 1] == c
  }

  predicate Ends(line: string) {
    EndsWith(Trim(line), ';')
  }

  function Lines(body: string): (ls: seq<string>)
    ensures ls != []
  {
    if body == [] then [""]
    else
      var before := Lines(body[..|body| - 1]);
      var c := body[|body| - 1];
      if c == '\n' then before + [""] else before[..|before| - 1] + [before[|before| - 1] + [c]]
  }

  function Kept(lines: seq<string>): seq<string> {
    if lines == [] then []
    else Kept(lines[..|lines| - 1]) + (if IsComment(lines[|lines| - 1]) then [] else [lines[|lines| - 1]])
  }

  /** Lines as they are written into a statement, each with its newline. */
  function Written(lines: seq<string>): string {
    if lines == [] then "" else Written(lines[..|lines| - 1]) + lines[|lines| - 1] + "\n"
  }

  function Concat(ss: seq<string>): string {
    if ss == [] then "" else Concat(ss[..|ss| - 1]) + ss[|ss| - 1]
  }

  // ---------- cutting ----------

  datatype Cut = Cut(blocks: seq<seq<string>>, rest: seq<string>)

  function Joined(blocks: seq<seq<string>>): seq<string> {
    if blocks == [] then [] else Joined(blocks[..|blocks| - 1]) + blocks[|blocks| - 1]
  }

  ghost predicate Open(lines: seq<string>) {
    forall i :: 0 <= i < |lines| ==> !Ends(lines[i])
  }

  ghost predicate Closed(block: seq<string>) {
    block != [] && Open(block[..|block| - 1]) && Ends(block[|block| - 1])
  }

  /** `c` cuts the lines into blocks closed by their last line alone, and an open rest. */
  ghost predicate Cuts(lines: seq<string>, c: Cut) {
    && lines == Joined(c.blocks) + c.rest
    && (forall i :: 0 <= i < |c.blocks| ==> Closed(c.blocks[i]))
    && Open(c.rest)
  }

  /** The cut with one more line. */
  function Grown(c: Cut, line: string): Cut {
    if Ends(line) then Cut(c.blocks + [c.rest + [line]], []) else Cut(c.blocks, c.rest + [line])
  }

  function CutOf(lines: seq<string>): Cut {
    if lines == [] then Cut([], []) else Grown(CutOf(lines[..|lines| - 1]), lines[|lines| - 1])
  }

  function Texts(blocks: seq<seq<string>>): (r: seq<string>)
    ensures |r| == |blocks|
  {
    if blocks == [] then [] else Texts(blocks[..|blocks| - 1]) + [Written(blocks[|blocks| - 1])]
  }

  function Statements(body: string): seq<string> {
    Texts(CutOf(Kept(Lines(body))).blocks)
  }

  lemma JoinedAppend(blocks: seq<seq<string>>, block: seq<string>)
    ensures Joined(blocks + [block]) == Joined(blocks) + block
  {}

  lemma ClosedAppend(rest: seq<string>, line: string)
    requires Open(rest)
    ensures if Ends(line) then Closed(rest + [line]) else Open(rest + [line])
  {}

  lemma CutAppend(lines: seq<string>, line: string)
    ensures CutOf(lines + [line]) == Grown(CutOf(lines), line)
  {
    assert (lines + [line])[..|lines|] == lines;
  }

  lemma CutsClosed(lines: seq<string>, c: Cut, line: string)
    requires Cuts(lines, c) && Ends(line)
    ensures Cuts(lines + [line], Cut(c.blocks + [c.rest + [line]], []))
  {
    JoinedAppend(c.blocks, c.rest + [line]);
    ClosedAppend(c.rest, line);
    assert Joined(c.blocks) + c.rest + [line] == Joined(c.blocks) + (c.rest + [line]) + [];
  }

  lemma CutsOpen(lines: seq<string>, c: Cut, line: string)
    requires Cuts(lines, c) && !Ends(line)
    ensures Cuts(lines + [line], Cut(c.blocks, c.rest + [line]))
  {
    ClosedAppend(c.rest, line);
    assert Joined(c.blocks) + c.rest + [line] == Joined(c.blocks) + (c.rest + [line]);
  }

  lemma GrownCuts(lines: seq<string>, c: Cut, line: string)
    requires Cuts(lines, c)
    ensures Cuts(lines + [line], Grown(c, line))
  {
    if Ends(line) {
      CutsClosed(lines, c, line);
    } else {
      CutsOpen(lines, c, line);
    }
  }

  lemma {:induction false} CutOfCuts(lines: seq<string>)
    ensures Cuts(lines, CutOf(lines))
  {
    if lines != [] {
      var k := |lines| - 1;
      CutOfCuts(lines[..k]);
      GrownCuts(lines[..k], CutOf(lines[..k]), lines[k]);
      assert lines == lines[..k] + [lines[k]];
    }
  }

  lemma {:induction false} JoinedLength(blocks: seq<seq<string>>)
    requires forall i :: 0 <= i < |blocks| ==> Closed(blocks[i])
    ensures |Joined(blocks)| >= |blocks|
  {
    if blocks != [] {
      JoinedLength(blocks[..|blocks| - 1]);
      assert Closed(blocks[|blocks| - 1]);
    }
  }

  /** A cut of at least one line is a smaller cut, grown. */
  lemma Shrink(lines: seq<string>, c: Cut) returns (smaller: Cut)
    requires Cuts(lines, c) && lines != []
    ensures Cuts(lines[..|lines| - 1], smaller) && c == Grown(smaller, lines[|lines| - 1])
  {
    var k := |lines| - 1;
    if c.rest != [] {
      var r := |c.rest| - 1;
      smaller := Cut(c.blocks, c.rest[..r]);
      assert c.rest == c.rest[..r] + [lines[k]];
      assert lines[..k] == Joined(c.blocks) + c.rest[..r];
    } else {
      smaller := Reopened(lines, c);
    }
  }

  lemma Reopened(lines: seq<string>, c: Cut) returns (smaller: Cut)
    requires Cuts(lines, c) && lines != [] && c.rest == []
    ensures Cuts(lines[..|lines| - 1], smaller) && c == Grown(smaller, lines[|lines| - 1])
  {
    var b, k := |c.blocks| - 1, |lines| - 1;
    var block := c.blocks[b];
    assert Closed(block);
    var rest := block[..|block| - 1];
    smaller := Cut(c.blocks[..b], rest);
    JoinedAppend(c.blocks[..b], block);
    assert c.blocks == c.blocks[..b] + [block];
    assert lines == Joined(c.blocks[..b]) + block;
    assert lines[..k] == Joined(c.blocks[..b]) + rest;
    assert block == rest + [lines[k]];
  }

  /** There is only one way to cut. */
  lemma {:induction false} CutUnique(lines: seq<string>, c: Cut)
    requires Cuts(lines, c)
    ensures c == CutOf(lines)
  {
    if lines == [] {
      JoinedLength(c.blocks);
    } else {
      var smaller := Shrink(lines, c);
      CutUnique(lines[..|lines| - 1], smaller);
    }
  }

  lemma KeptAppend(lines: seq<string>, line: string)
    ensures Kept(lines + [line]) == if IsComment(line) then Kept(lines) else Kept(lines) + [line]
  {}

  /** What the loop has written once it has seen `kept`. */
  ghost predicate Split(kept: seq<string>, out: seq<string>, cur: string) {
    var c := CutOf(kept); out == Texts(c.blocks) && cur == Written(c.rest)
  }

  lemma SplitStep(kept: seq<string>, line: string, out: seq<string>, cur: string)
    requires Split(kept, out, cur)
    ensures var text := cur + line + "\n";
      if Ends(line) then Split(kept + [line], out + [text], "") else Split(kept + [line], out, text)
  {}

  method SplitStatements(body: string) returns (out: seq<string>)
    ensures out == Statements(body)
  {
    var lines := Lines(body);
    var cur := "";
    out := [];
    for i := 0 to |lines|
      invariant Split(Kept(lines[..i]), out, cur)
    {
      assert lines[..i + 1] == lines[..i] + [lines[i]];
      KeptAppend(lines[..i], lines[i]);
      if IsComment(lines[i]) {
        continue;
      }
      SplitStep(Kept(lines[..i]), lines[i], out, cur);
      cur := cur + lines[i];
      cur := cur + "\n";
      if Ends(lines[i]) {
        out := out + [cur];
        cur := "";
      }
    }
    assert lines[..|lines|] == lines;
  }

  lemma {:induction false} WrittenConcat(a: seq<string>, b: seq<string>)
    ensures Written(a + b) == Written(a) + Written(b)
  {
    if b == [] {
      assert a + b == a;
    } else {
      assert (a + b)[..|a + b| - 1] == a + b[..|b| - 1];
      WrittenConcat(a, b[..|b| - 1]);
    }
  }

  lemma {:induction false} WrittenJoined(blocks: seq<seq<string>>)
    ensures Concat(Texts(blocks)) == Written(Joined(blocks))
  {
    if blocks != [] {
      var k := |blocks| - 1;
      WrittenJoined(blocks[..k]);
      WrittenConcat(Joined(blocks[..k]), blocks[k]);
      assert Texts(blocks)[..k] == Texts(blocks[..k]);
    }
  }

  lemma WrittenLast(before: seq<string>, line: string)
    ensures Written(before + [line]) == Written(before) + line + "\n"
  {
    assert (before + [line])[..|before|] == before;
  }

  lemma SameBeforeLast<T>(a: seq<T>, b: seq<T>, c: T)
    requires a + [c] == b + [c]
    ensures a == b
  {
    assert (a + [c])[..|a|] == (b + [c])[..|b|];
  }

  /** A character added to the last line. */
  lemma WrittenExtended(before: seq<string>, last: string, text: string, c: char)
    requires Written(before + [last]) == text + "\n"
    ensures Written(before + [last + [c]]) == text + [c] + "\n"
  {
    WrittenLast(before, last);
    SameBeforeLast(Written(before) + last, text, '\n');
    WrittenLast(before, last + [c]);
    assert Written(before) + (last + [c]) == Written(before) + last + [c];
  }

  /** Lines are what lies between newlines: written out they are the body and one last newline. */
  lemma {:induction false} LinesWritten(body: string)
    ensures Written(Lines(body)) == body + "\n"
    ensures forall i :: 0 <= i < |Lines(body)| ==> '\n' !in Lines(body)[i]
  {
    var lines := Lines(body);
    if body != [] {
      var before, c := Lines(body[..|body| - 1]), body[|body| - 1];
      LinesWritten(body[..|body| - 1]);
      assert body == body[..|body| - 1] + [c];
      if c == '\n' {
        WrittenLast(before, "");
      } else {
        var k := |before| - 1;
        assert before == before[..k] + [before[k]];
        WrittenExtended(before[..k], before[k], body[..|body| - 1], c);
      }
    }
  }

  /** Splitting loses the comment lines and the lines after the last one that ends in ';', nothing
      else; so nothing but comments is lost exactly when such a rest is empty. */
  lemma NothingElseLost(body: string)
    ensures var kept := Kept(Lines(body));
      && Concat(Statements(body)) + Written(CutOf(kept).rest) == Written(kept)
      && (Concat(Statements(body)) == Written(kept) <==> (kept == [] || Ends(kept[|kept| - 1])))
  {
    var kept := Kept(Lines(body));
    var c := CutOf(kept);
    CutOfCuts(kept);
    WrittenJoined(c.blocks);
    WrittenConcat(Joined(c.blocks), c.rest);
    if c.rest != [] {
      assert kept[|kept| - 1] == c.rest[|c.rest| - 1];
      assert |Written(c.rest)| > 0;
      assert |Written(kept)| == |Concat(Statements(body))| + |Written(c.rest)|;
    } else if kept != [] {
      assert Closed(c.blocks[|c.blocks| - 1]);
    }
  }

  // ---------- statements, over characters ----------

  /** The last character that is not white space is a semicolon. */
  predicate EndsInSemicolon(line: string) {
    exists i :: 0 <= i < |line| && line[i] == ';' && forall j :: i < j < |line| ==> IsSpace(line[j])
  }

  /** The first two characters that are not white space are dashes, next to each other. */
  predicate Dashed(line: string) {
    exists i | 0 <= i < |line| :: DashesAt(line, i)
  }

  predicate DashesAt(line: string, i: int) {
    0 <= i < |line| - 1 && line[i] == '-' && line[i + 1] == '-' && forall j :: 0 <= j < i ==> IsSpace(line[j])
  }

  lemma EndsIff(line: string)
    ensures Ends(line) <==> EndsInSemicolon(line)
  {
    var from, to := TrimIs(line);
    if Ends(line) {
      assert line[to - 1] == Trim(line)[|Trim(line)| - 1];
    }
    if i :| 0 <= i < |line| && line[i] == ';' && forall j :: i < j < |line| ==> IsSpace(line[j]) {
      assert i == to - 1;
    }
  }

  lemma CommentIff(line: string)
    ensures IsComment(line) <==> Dashed(line)
  {
    var from, to := TrimIs(line);
    var t := Trim(line);
    if IsComment(line) {
      assert t[0] == '-' && t[1] == '-' && line[from] == t[0] && line[from + 1] == t[1];
      assert DashesAt(line, from);
    }
    if i :| DashesAt(line, i) {
      assert i == from && to >= i + 2;
      assert t[0] == line[from] && t[1] == line[from + 1];
      assert t[..2] == "--";
    }
  }

  lemma {:induction false} KeptMembers(lines: seq<string>)
    ensures forall l :: l in Kept(lines) <==> l in lines && !Dashed(l)
  {
    if lines != [] {
      var k := |lines| - 1;
      KeptMembers(lines[..k]);
      CommentIff(lines[k]);
      assert lines == lines[..k] + [lines[k]];
    }
  }

  lemma {:induction false} BlockMembers(blocks: seq<seq<string>>, k: nat)
    requires k < |blocks|
    ensures forall l :: l in blocks[k] ==> l in Joined(blocks)
  {
    var n := |blocks| - 1;
    if k < n {
      BlockMembers(blocks[..n], k);
    }
  }

  lemma {:induction false} TextAt(blocks: seq<seq<string>>, k: nat)
    requires k < |blocks|
    ensures Texts(blocks)[k] == Written(blocks[k])
  {
    var n := |blocks| - 1;
    if k < n {
      TextAt(blocks[..n], k);
    }
  }

  /** A statement's lines: written out they are the statement; they are lines of the body that are no
      comments; the last ends in a semicolon and no other does. */
  ghost predicate IsStatement(body: string, text: string, block: seq<string>) {
    && text == Written(block) && block != [] && EndsInSemicolon(block[|block| - 1])
    && (forall i :: 0 <= i < |block| - 1 ==> !EndsInSemicolon(block[i]))
    && forall l :: l in block ==> l in Lines(body) && !Dashed(l)
  }

  lemma StatementRule(body: string, k: nat)
    requires k < |Statements(body)|
    ensures exists block :: IsStatement(body, Statements(body)[k], block)
  {
    var kept := Kept(Lines(body));
    var blocks := CutOf(kept).blocks;
    CutOfCuts(kept);
    KeptMembers(Lines(body));
    BlockMembers(blocks, k);
    TextAt(blocks, k);
    var block := blocks[k];
    assert Closed(block);
    forall i | 0 <= i < |block| ensures EndsInSemicolon(block[i]) <==> Ends(block[i]) { EndsIff(block[i]); }
    forall i | 0 <= i < |block| - 1 ensures !EndsInSemicolon(block[i]) {
      assert block[..|block| - 1][i] == block[i];
    }
    assert IsStatement(body, Statements(body)[k], block);
  }

  /** The lines that close a statement. */
  ghost function Closing(lines: seq<string>): set<int> {
    set i | 0 <= i < |lines| && !Dashed(lines[i]) && EndsInSemicolon(lines[i])
  }

  lemma {:induction false} ClosingCount(lines: seq<string>)
    ensures |CutOf(Kept(lines)).blocks| == |Closing(lines)|
  {
    if lines != [] {
      var k := |lines| - 1;
      ClosingCount(lines[..k]);
      CommentIff(lines[k]);
      EndsIff(lines[k]);
      assert lines == lines[..k] + [lines[k]];
      KeptAppend(lines[..k], lines[k]);
      CutAppend(Kept(lines[..k]), lines[k]);
      ClosingLast(lines);
    }
  }

  lemma ClosingLast(lines: seq<string>)
    requires lines != []
    ensures var k := |lines| - 1;
      |Closing(lines)| == |Closing(lines[..k])| + (if !Dashed(lines[k]) && EndsInSemicolon(lines[k]) then 1 else 0)
  {
    var k := |lines| - 1;
    var last := if !Dashed(lines[k]) && EndsInSemicolon(lines[k]) then {k} else {};
    assert Closing(lines) == Closing(lines[..k]) + last;
  }

  /** A body has as many statements as lines that end in a semicolon and are no comments. */
  lemma StatementCount(body: string)
    ensures |Statements(body)| == |Closing(Lines(body))|
  {
    ClosingCount(Lines(body));
  }

  lemma {:induction false} LinesExtended(body: string, line: string)
    requires '\n' !in line
    ensures var ls := Lines(body); Lines(body + line) == ls[..|ls| - 1] + [ls[|ls| - 1] + line]
  {
    var ls := Lines(body);
    if line == "" {
      assert body + line == body && ls[|ls| - 1] + line == ls[|ls| - 1];
    } else {
      var k := |line| - 1;
      LinesExtended(body, line[..k]);
      assert (body + line)[..|body + line| - 1] == body + line[..k];
      assert line[k] in line;
      assert ls[|ls| - 1] + line[..k] + [line[k]] == ls[|ls| - 1] + line;
    }
  }

  lemma {:induction false} LinesOfWritten(ls: seq<string>)
    requires forall i :: 0 <= i < |ls| ==> '\n' !in ls[i]
    ensures Lines(Written(ls)) == ls + [""]
  {
    if ls != [] {
      var k := |ls| - 1;
      var text := Written(ls[..k]);
      LinesOfWritten(ls[..k]);
      LinesExtended(text, ls[k]);
      assert "" + ls[k] == ls[k];
      assert (text + ls[k] + "\n")[..|text + ls[k]|] == text + ls[k];
      assert ls == ls[..k] + [ls[k]];
    }
  }

  lemma {:induction false} SingleBlocks(ls: seq<string>)
    requires forall i :: 0 <= i < |ls| ==> !IsComment(ls[i]) && Ends(ls[i])
    ensures Kept(ls) == ls && CutOf(ls).rest == [] && |CutOf(ls).blocks| == |ls|
    ensures forall i :: 0 <= i < |ls| ==> CutOf(ls).blocks[i] == [ls[i]]
  {
    if ls != [] {
      var k := |ls| - 1;
      SingleBlocks(ls[..k]);
      assert [] + [ls[k]] == [ls[k]] && ls == ls[..k] + [ls[k]];
    }
  }

  ghost predicate OnlyStatements(ls: seq<string>) {
    forall i :: 0 <= i < |ls| ==> '\n' !in ls[i] && !Dashed(ls[i]) && EndsInSemicolon(ls[i])
  }

  lemma StatementsOfLines(ls: seq<string>)
    requires OnlyStatements(ls)
    ensures Statements(Written(ls)) == Texts(CutOf(ls).blocks)
    ensures |CutOf(ls).blocks| == |ls| && forall i :: 0 <= i < |ls| ==> CutOf(ls).blocks[i] == [ls[i]]
  {
    forall i | 0 <= i < |ls| ensures !IsComment(ls[i]) && Ends(ls[i]) {
      CommentIff(ls[i]);
      EndsIff(ls[i]);
    }
    LinesOfWritten(ls);
    SingleBlocks(ls);
    CommentIff("");
    EndsIff("");
    KeptAppend(ls, "");
    CutAppend(ls, "");
  }

  /** A body of lines that each end in a semicolon, without comments, is one statement a line. */
  lemma OneStatementALine(ls: seq<string>, i: nat)
    requires OnlyStatements(ls) && i < |ls|
    ensures |Statements(Written(ls))| == |ls| && Statements(Written(ls))[i] == ls[i] + "\n"
  {
    StatementsOfLines(ls);
    TextAt(CutOf(ls).blocks, i);
    WrittenLast([], ls[i]);
    assert [] + [ls[i]] == [ls[i]];
  }

  // ---------- files in order ----------

  /** An embedded file, and what the runner makes of it. */
  datatype File = File(name: string, body: string)
  datatype Migration = Migration(name: string, statements: seq<string>)

  /** The byte order of sort.Strings. */
  predicate Before(a: string, b: string) {
    b != [] && (a == [] || a[0] < b[0] || (a[0] == b[0] && Before(a[1..], b[1..])))
  }

  lemma {:induction false} BeforeAsymmetric(a: string, b: string)
    ensures !(Before(a, b) && Before(b, a))
  {
    if a != [] && b != [] {
      BeforeAsymmetric(a[1..], b[1..]);
    }
  }

  /** The names agree up to `k`, where the first ends or has the smaller byte. */
  predicate SmallerAt(a: string, b: string, k: int) {
    0 <= k <= |a| && k < |b| && (forall j :: 0 <= j < k ==> a[j] == b[j]) && (k == |a| || a[k] < b[k])
  }

  lemma {:induction false} BeforeIff(a: string, b: string)
    ensures Before(a, b) <==> exists k :: SmallerAt(a, b, k)
  {
    if a != [] && b != [] && a[0] == b[0] {
      BeforeIff(a[1..], b[1..]);
      if k :| SmallerAt(a, b, k) {
        assert SmallerAt(a[1..], b[1..], k - 1);
      }
      if k :| SmallerAt(a[1..], b[1..], k) {
        assert forall j :: 1 <= j < k + 1 ==> a[j] == a[1..][j - 1] && b[j] == b[1..][j - 1];
        assert SmallerAt(a, b, k + 1);
      }
    } else if Before(a, b) {
      assert SmallerAt(a, b, 0);
    }
  }

  ghost predicate Sorted(files: seq<Migration>) {
    forall i, j :: 0 <= i < j < |files| ==> Before(files[i].name, files[j].name)
  }

  ghost predicate Includes(files: seq<Migration>, more: seq<Migration>) {
    forall f :: f in files ==> f in more
  }

  /** Every file that is new in `more` sorts after every old one. */
  ghost predicate NewSortLast(files: seq<Migration>, more: seq<Migration>) {
    forall f, g :: f in files && g in more && g !in files ==> Before(f.name, g.name)
  }

  lemma NamedOnce(files: seq<Migration>, i: nat, j: nat)
    requires Sorted(files) && i < |files| && j < |files| && files[i].name == files[j].name
    ensures i == j
  {
    BeforeAsymmetric(files[i].name, files[j].name);
  }

  lemma SameIndex(files: seq<Migration>, more: seq<Migration>, i: nat)
    requires Sorted(files) && Sorted(more) && Includes(files, more) && NewSortLast(files, more)
    requires i < |files| && i <= |more| && files[..i] == more[..i]
    ensures i < |more| && files[i] == more[i]
  {
    var f := files[i];
    assert f in more;
    var p :| 0 <= p < |more| && more[p] == f;
    if p < i {
      assert files[..i][p] == more[..i][p];
      NamedOnce(files, p, i);
    }
    if p > i {
      var g := more[i];
      BeforeAsymmetric(f.name, g.name);
      assert g in files;
      var q :| 0 <= q < |files| && files[q] == g;
      if q < i {
        assert files[..i][q] == more[..i][q];
        NamedOnce(more, q, i);
      }
    }
  }

  /** A later release starts with the files of an earlier one, in the same order, exactly when its
      new files sort after the old ones. */
  lemma {:induction false} PrefixIff(files: seq<Migration>, more: seq<Migration>)
    requires Sorted(files) && Sorted(more) && Includes(files, more)
    ensures files <= more <==> NewSortLast(files, more)
  {
    if files <= more {
      forall f, g | f in files && g in more && g !in files ensures Before(f.name, g.name) {
        var p, q :| 0 <= p < |files| && files[p] == f && 0 <= q < |more| && more[q] == g;
        assert forall k :: 0 <= k < |files| ==> more[k] == files[k] && files[k] in files;
      }
    }
    if NewSortLast(files, more) {
      var i := 0;
      while i < |files|
        invariant 0 <= i <= |files| && i <= |more| && files[..i] == more[..i]
      {
        SameIndex(files, more, i);
        i := i + 1;
      }
    }
  }

  // ---------- runs ----------

  function Parsed(files: seq<File>): seq<Migration> {
    seq(|files|, i requires 0 <= i < |files| => Migration(files[i].name, Statements(files[i].body)))
  }

  /** What is durable: the rows of schema_migrations and every statement that took effect. */
  datatype Durable = Durable(recorded: seq<string>, log: seq<string>)

  function Names(files: seq<Migration>): (r: seq<string>)
    ensures |r| == |files| && forall i :: 0 <= i < |r| ==> r[i] == files[i].name
  {
    seq(|files|, i requires 0 <= i < |files| => files[i].name)
  }

  function Script(files: seq<Migration>): seq<string> {
    if files == [] then [] else Script(files[..|files| - 1]) + files[|files| - 1].statements
  }

  function Unrecorded(files: seq<Migration>, recorded: seq<string>): seq<Migration> {
    if files == [] then []
    else
      var f := files[|files| - 1];
      Unrecorded(files[..|files| - 1], recorded) + (if f.name in recorded then [] else [f])
  }

  /** Where a run stopped: it went through the first `done` files, and `stray` statements of one
      more took effect without that file being recorded. */
  datatype Stop = Stop(done: nat, stray: seq<string>)

  datatype Dialect = SQLite | PostgreSQL | MySQL {
    /** Data definition can be rolled back. */
    predicate Transactional() {
      !MySQL?
    }
  }

  /** Only a dialect without transactions leaves stray statements. */
  predicate Leaves(dialect: Dialect, stop: Stop) {
    dialect.Transactional() ==> stop.stray == []
  }

  ghost predicate Possible(files: seq<Migration>, stop: Stop) {
    stop.done <= |files| && (stop.stray != [] ==> exists f :: f in files && stop.stray <= f.statements)
  }

  ghost function After(files: seq<Migration>, d: Durable, stop: Stop): Durable
    requires stop.done <= |files|
  {
    var due := Unrecorded(files[..stop.done], d.recorded);
    Durable(d.recorded + Names(due), d.log + Script(due) + stop.stray)
  }

  /** The database calls it takes to apply and record files. */
  function Cost(files: seq<Migration>): nat {
    if files == [] then 0 else Cost(files[..|files| - 1]) + |files[|files| - 1].statements| + 3
  }

  /** Nothing but a failing call can stop a run over these files: every row of a recorded one was
      delivered, and every other one has statements. */
  ghost predicate Ready(files: seq<Migration>, recorded: seq<string>, rows: seq<string>) {
    forall i :: 0 <= i < |files| ==>
      if files[i].name in recorded then files[i].name in rows else files[i].statements != []
  }

  lemma ReadyAppend(files: seq<Migration>, recorded: seq<string>, rows: seq<string>, i: nat)
    requires i < |files|
    ensures Ready(files[..i + 1], recorded, rows) <==> (Ready(files[..i], recorded, rows)
      && if files[i].name in recorded then files[i].name in rows else files[i].statements != [])
    ensures Ready(files, recorded, rows) ==> Ready(files[..i + 1], recorded, rows)
  {}

  lemma {:induction false} CostMonotone(files: seq<Migration>, recorded: seq<string>, i: nat)
    requires i <= |files|
    ensures Cost(Unrecorded(files[..i], recorded)) <= Cost(Unrecorded(files, recorded))
  {
    if i < |files| {
      var k := |files| - 1;
      CostMonotone(files[..k], recorded, i);
      assert files[..k][..i] == files[..i];
      CostAppend(Unrecorded(files[..k], recorded), files[k]);
      assert Unrecorded(files[..k], recorded) + [] == Unrecorded(files[..k], recorded);
    } else {
      assert files[..i] == files;
    }
  }

  lemma CostAppend(files: seq<Migration>, f: Migration)
    ensures Cost(files + [f]) == Cost(files) + |f.statements| + 3
  {}

  lemma ScriptAppend(files: seq<Migration>, f: Migration)
    ensures Script(files + [f]) == Script(files) + f.statements
    ensures Names(files + [f]) == Names(files) + [f.name]
  {}

  lemma {:induction false} UnrecordedFrom(files: seq<Migration>, recorded: seq<string>, f: Migration)
    requires f in Unrecorded(files, recorded)
    ensures f in files && f.name !in recorded
  {
    var last := files[|files| - 1];
    if f in Unrecorded(files[..|files| - 1], recorded) {
      UnrecordedFrom(files[..|files| - 1], recorded, f);
    }
  }

  lemma UnrecordedStep(files: seq<Migration>, recorded: seq<string>, i: nat)
    requires i < |files|
    ensures var before := Unrecorded(files[..i], recorded);
      Unrecorded(files[..i + 1], recorded) == if files[i].name in recorded then before else before + [files[i]]
  {
    assert files[..i + 1][..i] == files[..i];
    assert Unrecorded(files[..i], recorded) + [] == Unrecorded(files[..i], recorded);
  }

  lemma Associative<T>(a: seq<T>, b: seq<T>, c: seq<T>)
    ensures a + (b + c) == a + b + c && a + b + [] == a + b && a + (b + c) + [] == a + b + c
  {}

  lemma AfterSkip(files: seq<Migration>, d: Durable, i: nat)
    requires i < |files| && files[i].name in d.recorded
    ensures After(files, d, Stop(i + 1, [])) == After(files, d, Stop(i, []))
    ensures Unrecorded(files[..i + 1], d.recorded) == Unrecorded(files[..i], d.recorded)
  {
    UnrecordedStep(files, d.recorded, i);
  }

  lemma AfterApply(files: seq<Migration>, d: Durable, i: nat)
    requires i < |files| && files[i].name !in d.recorded
    ensures var now := After(files, d, Stop(i, []));
      After(files, d, Stop(i + 1, [])) == Durable(now.recorded + [files[i].name], now.log + files[i].statements)
  {
    var due := Unrecorded(files[..i], d.recorded);
    UnrecordedStep(files, d.recorded, i);
    ScriptAppend(due, files[i]);
    Associative(d.recorded, Names(due), [files[i].name]);
    Associative(d.log, Script(due), files[i].statements);
  }

  lemma AfterCost(files: seq<Migration>, d: Durable, i: nat)
    requires i < |files| && files[i].name !in d.recorded
    ensures Cost(Unrecorded(files[..i + 1], d.recorded))
      == Cost(Unrecorded(files[..i], d.recorded)) + |files[i].statements| + 3
  {
    UnrecordedStep(files, d.recorded, i);
    CostAppend(Unrecorded(files[..i], d.recorded), files[i]);
  }

  lemma AfterStray(files: seq<Migration>, d: Durable, i: nat, stray: seq<string>)
    requires i < |files| && stray <= files[i].statements
    ensures var now := After(files, d, Stop(i, []));
      After(files, d, Stop(i, stray)) == Durable(now.recorded, now.log + stray)
    ensures Possible(files, Stop(i, stray))
  {}

  lemma NotYet(files: seq<Migration>, recorded: seq<string>, i: nat)
    requires Sorted(files) && i < |files|
    ensures files[i].name in recorded + Names(Unrecorded(files[..i], recorded)) <==> files[i].name in recorded
  {
    var due := Unrecorded(files[..i], recorded);
    if k :| 0 <= k < |due| && due[k].name == files[i].name {
      UnrecordedFrom(files[..i], recorded, due[k]);
      var j :| 0 <= j < i && files[j] == due[k];
      BeforeAsymmetric(files[j].name, files[i].name);
    }
  }

  class Database {
    var recorded: seq<string>
    var log: seq<string>
    /** How many more calls to the database succeed before an error or a crash ends the run. */
    var budget: nat
    const dialect: Dialect

    ghost function View(): Durable
      reads this
    {
      Durable(recorded, log)
    }

    constructor (dialect: Dialect, budget: nat)
      ensures View() == Durable([], []) && this.dialect == dialect
    {
      this.dialect, this.budget, recorded, log := dialect, budget, [], [];
    }

    /** One call; false when it fails. */
    method Call() returns (ok: bool)
      modifies `budget
      ensures ok <==> old(budget) > 0
      ensures budget == if ok then old(budget) - 1 else 0
    {
      ok := budget > 0;
      if ok {
        budget := budget - 1;
      }
    }

    /** Runs a file's statements and then records it. Version names are a primary key, so a second
        record of the same name fails. */
    method ApplyMigration(name: string, statements: seq<string>) returns (ok: bool, ghost stray: seq<string>)
      modifies this
      ensures ok <==> name !in old(recorded) && old(budget) >= |statements| + 3
      ensures ok ==> stray == [] && budget == old(budget) - |statements| - 3
      ensures recorded == old(recorded) + if ok then [name] else []
      ensures log == old(log) + if ok then statements else stray
      ensures stray <= statements && (dialect.Transactional() ==> stray == [])
    {
      if !dialect.Transactional() {
        ok, stray := ApplyUnprotected(name, statements);
        return;
      }
      stray := [];
      ok := Call();
      if !ok { return; }
      var pending := [];
      for i := 0 to |statements|
        invariant pending == statements[..i] && recorded == old(recorded) && log == old(log)
        invariant budget == old(budget) - 1 - i
      {
        ok := Call();
        if !ok { return; }
        pending := pending + [statements[i]];
      }
      ok := Call();
      if !ok || name in recorded { return false, []; }
      ok := Call();
      if !ok { return; }
      log, recorded := log + pending, recorded + [name];
    }

    /** MySQL: every statement takes effect at once, and only the record is in a transaction. */
    method ApplyUnprotected(name: string, statements: seq<string>) returns (ok: bool, ghost stray: seq<string>)
      modifies this
      ensures ok <==> name !in old(recorded) && old(budget) >= |statements| + 3
      ensures ok ==> stray == [] && budget == old(budget) - |statements| - 3
      ensures recorded == old(recorded) + if ok then [name] else []
      ensures log == old(log) + if ok then statements else stray
      ensures stray == if ok then [] else if old(budget) < |statements| then statements[..old(budget)] else statements
    {
      for i := 0 to |statements|
        invariant recorded == old(recorded) && log == old(log) + statements[..i]
        invariant budget == old(budget) - i
      {
        ok := Call();
        if !ok { return false, statements[..i]; }
        log := log + [statements[i]];
      }
      stray := statements;
      ok := Call();
      if !ok { return; }
      ok := Call();
      if !ok || name in recorded { return false, statements; }
      ok := Call();
      if !ok { return; }
      recorded := recorded + [name];
      stray := [];
    }

    /** The versions the query delivered, as a set. */
    method Applied(rows: seq<string>) returns (applied: set<string>)
      ensures forall v :: v in applied <==> v in rows
    {
      applied := {};
      for i := 0 to |rows|
        invariant forall v :: v in applied <==> v in rows[..i]
      {
        applied := applied + {rows[i]};
      }
    }

    /** Applies the files that are not in `applied`, until one fails. */
    method ApplyAll(files: seq<File>, applied: set<string>, ghost ms: seq<Migration>, ghost rows: seq<string>)
      returns (ok: bool, ghost stop: Stop)
      requires Sorted(ms) && ms == Parsed(files)
      requires forall v :: v in applied <==> v in rows
      requires forall v :: v in rows ==> v in recorded
      modifies this
      ensures Possible(ms, stop) && View() == After(ms, old(View()), stop)
      ensures Leaves(dialect, stop) && (ok ==> stop.stray == [])
      ensures ok ==> stop.done == |files|
      ensures ok <==> (Ready(ms, old(recorded), rows) && old(budget) >= Cost(Unrecorded(ms, old(recorded))))
    {
      ghost var was := View();
      assert View() == After(ms, was, Stop(0, []));
      for i := 0 to |files|
        invariant View() == After(ms, was, Stop(i, []))
        invariant budget + Cost(Unrecorded(ms[..i], was.recorded)) == old(budget)
        invariant Ready(ms[..i], was.recorded, rows)
      {
        ReadyAppend(ms, was.recorded, rows, i);
        if files[i].name in applied {
          AfterSkip(ms, was, i);
          continue;
        }
        var statements := SplitStatements(files[i].body);
        stop := Stop(i, []);
        if statements == [] { return false, stop; }
        NotYet(ms, was.recorded, i);
        if files[i].name !in was.recorded {
          CostMonotone(ms, was.recorded, i + 1);
          AfterCost(ms, was, i);
        }
        ghost var now := View();
        ghost var stray;
        ok, stray := ApplyMigration(files[i].name, statements);
        stop := Stop(i, stray);
        if !ok {
          AfterStray(ms, was, i, stray);
          assert View() == Durable(now.recorded, now.log + stray);
          return;
        }
        AfterApply(ms, was, i);
      }
      assert ms[..|files|] == ms;
      ok, stop := true, Stop(|files|, []);
    }

    /** `rows` are the versions the query delivered; an error in the middle of the rows goes
        unnoticed, so some may be missing. */
    method RunMigrations(files: seq<File>, rows: seq<string>) returns (ok: bool, ghost stop: Stop)
      requires Sorted(Parsed(files)) && forall v :: v in rows ==> v in recorded
      modifies this
      ensures Possible(Parsed(files), stop) && View() == After(Parsed(files), old(View()), stop)
      ensures Leaves(dialect, stop) && (ok ==> stop.stray == [])
      ensures ok ==> stop.done == |files|
      ensures ok <==> (Ready(Parsed(files), old(recorded), rows)
        && old(budget) >= 2 + Cost(Unrecorded(Parsed(files), old(recorded))))
    {
      stop := Stop(0, []);
      ok := Call();
      if !ok { return; }
      ok := Call();
      if !ok { return; }
      var applied := Applied(rows);
      ok, stop := ApplyAll(files, applied, Parsed(files), rows);
    }
  }

  // ---------- any sequence of runs ----------

  datatype Attempt = Attempt(files: seq<Migration>, stop: Stop)

  /** Each attempt starts from the files of the one before it, with new ones only at the end. */
  ghost predicate Growing(runs: seq<Attempt>) {
    && (forall i :: 0 <= i < |runs| ==> Sorted(runs[i].files) && Possible(runs[i].files, runs[i].stop))
    && forall i :: 0 <= i < |runs| - 1 ==> runs[i].files <= runs[i + 1].files
  }

  ghost function Outcome(runs: seq<Attempt>): Durable
    requires Growing(runs)
  {
    if runs == [] then Durable([], [])
    else
      var r := runs[|runs| - 1];
      After(r.files, Outcome(runs[..|runs| - 1]), r.stop)
  }

  ghost function Latest(runs: seq<Attempt>): seq<Migration> {
    if runs == [] then [] else runs[|runs| - 1].files
  }

  /** How far the runs have got. */
  ghost function Reached(runs: seq<Attempt>): (k: nat)
    requires Growing(runs)
    ensures k <= |Latest(runs)|
  {
    if runs == [] then 0
    else
      Further(Reached(runs[..|runs| - 1]), runs[|runs| - 1].stop)
  }

  ghost predicate NoStray(runs: seq<Attempt>) {
    forall i :: 0 <= i < |runs| ==> runs[i].stop.stray == []
  }

  lemma NamedAmong(files: seq<Migration>, k: nat, i: nat)
    requires Sorted(files) && k <= |files| && i < |files|
    ensures files[i].name in Names(files[..k]) <==> i < k
  {
    var names := Names(files[..k]);
    if i < k {
      assert names[i] == files[i].name;
    } else if j :| 0 <= j < k && names[j] == files[i].name {
      NamedOnce(files, j, i);
    }
  }

  function Between(files: seq<Migration>, k: nat, done: nat): seq<Migration>
    requires k <= |files| && done <= |files|
  {
    if k <= done then files[k..done] else []
  }

  lemma BetweenStep(files: seq<Migration>, k: nat, i: nat)
    requires k <= |files| && i < |files|
    ensures Between(files, k, i + 1) == if i < k then Between(files, k, i) else Between(files, k, i) + [files[i]]
  {}

  lemma {:induction false} UnrecordedPrefix(files: seq<Migration>, recorded: seq<string>, k: nat, done: nat)
    requires k <= |files| && done <= |files|
    requires forall i :: 0 <= i < done ==> (files[i].name in recorded <==> i < k)
    ensures Unrecorded(files[..done], recorded) == Between(files, k, done)
  {
    if done > 0 {
      UnrecordedPrefix(files, recorded, k, done - 1);
      UnrecordedStep(files, recorded, done - 1);
      BetweenStep(files, k, done - 1);
    }
  }

  lemma {:induction false} ScriptConcat(a: seq<Migration>, b: seq<Migration>)
    ensures Script(a + b) == Script(a) + Script(b)
  {
    if b == [] {
      assert a + b == a;
    } else {
      assert (a + b)[..|a + b| - 1] == a + b[..|b| - 1];
      ScriptConcat(a, b[..|b| - 1]);
    }
  }

  lemma NamesConcat(a: seq<Migration>, b: seq<Migration>)
    ensures Names(a + b) == Names(a) + Names(b)
  {}

  function Further(k: nat, stop: Stop): nat {
    if k <= stop.done then stop.done else k
  }

  /** The statements that take a prefix of `k` files to where the run stopped. */
  function Gain(files: seq<Migration>, k: nat, stop: Stop): seq<string>
    requires k <= |files| && stop.done <= |files|
  {
    Script(Between(files, k, stop.done))
  }

  lemma AfterPrefix(files: seq<Migration>, k: nat, log: seq<string>, stop: Stop)
    requires Sorted(files) && k <= |files| && stop.done <= |files|
    ensures var reached := files[..Further(k, stop)];
      && Script(reached) == Script(files[..k]) + Gain(files, k, stop)
      && After(files, Durable(Names(files[..k]), log), stop)
        == Durable(Names(reached), log + Gain(files, k, stop) + stop.stray)
  {
    forall i | 0 <= i < stop.done ensures files[i].name in Names(files[..k]) <==> i < k {
      NamedAmong(files, k, i);
    }
    UnrecordedPrefix(files, Names(files[..k]), k, stop.done);
    var more := Between(files, k, stop.done);
    assert files[..Further(k, stop)] == files[..k] + more;
    ScriptConcat(files[..k], more);
    NamesConcat(files[..k], more);
  }

  lemma GrowingBefore(runs: seq<Attempt>)
    requires Growing(runs) && runs != []
    ensures var before := runs[..|runs| - 1];
      Growing(before) && Latest(before) <= Latest(runs)
      && Latest(before)[..Reached(before)] == Latest(runs)[..Reached(before)]
  {}

  lemma NoStrayLast(runs: seq<Attempt>)
    requires runs != []
    ensures NoStray(runs) <==> NoStray(runs[..|runs| - 1]) && runs[|runs| - 1].stop.stray == []
  {}

  /** The log is at least the script, and equal to it exactly when nothing is stray. */
  ghost predicate Exact(log: seq<string>, script: seq<string>, clean: bool) {
    |log| >= |script| && (log == script <==> clean) && (log == script <==> |log| == |script|)
  }

  lemma ExactExtend(log: seq<string>, script: seq<string>, clean: bool, more: seq<string>, stray: seq<string>)
    requires Exact(log, script, clean)
    ensures Exact(log + more + stray, script + more, clean && stray == [])
  {}

  /** All runs were on this dialect. */
  ghost predicate On(dialect: Dialect, runs: seq<Attempt>) {
    forall i :: 0 <= i < |runs| ==> Leaves(dialect, runs[i].stop)
  }

  lemma {:induction false} RecordedPrefix(runs: seq<Attempt>)
    requires Growing(runs)
    ensures var prefix := Latest(runs)[..Reached(runs)];
      Outcome(runs).recorded == Names(prefix) && Exact(Outcome(runs).log, Script(prefix), NoStray(runs))
  {
    if runs != [] {
      var before, r := runs[..|runs| - 1], runs[|runs| - 1];
      GrowingBefore(runs);
      RecordedPrefix(before);
      var k, was := Reached(before), Outcome(before);
      assert was == Durable(Names(r.files[..k]), was.log);
      AfterPrefix(r.files, k, was.log, r.stop);
      ExactExtend(was.log, Script(r.files[..k]), NoStray(before), Gain(r.files, k, r.stop), r.stop.stray);
      NoStrayLast(runs);
    }
  }

  /** After any failures, crashes and restarts the recorded versions are a prefix of the files in
      order; and the statements that took effect are those of that prefix, once each and in order,
      exactly when no run left stray statements behind. */
  lemma PrefixOnce(runs: seq<Attempt>)
    requires Growing(runs)
    ensures var prefix := Latest(runs)[..Reached(runs)];
      Outcome(runs).recorded == Names(prefix) && (Outcome(runs).log == Script(prefix) <==> NoStray(runs))
  {
    RecordedPrefix(runs);
  }

  /** SQLite and PostgreSQL: all or nothing per file, so the schema is always that of the prefix. */
  lemma TransactionalSafe(dialect: Dialect, runs: seq<Attempt>)
    requires Growing(runs) && On(dialect, runs) && dialect != MySQL
    ensures var prefix := Latest(runs)[..Reached(runs)];
      Outcome(runs) == Durable(Names(prefix), Script(prefix))
    ensures runs != [] && runs[|runs| - 1].stop.done == |Latest(runs)| ==>
      Outcome(runs) == Durable(Names(Latest(runs)), Script(Latest(runs)))
  {
    PrefixOnce(runs);
    assert Latest(runs)[..|Latest(runs)|] == Latest(runs);
  }

  lemma SameNamesPrefix(files: seq<Migration>, more: seq<Migration>)
    requires Sorted(files) && Sorted(more) && Includes(files, more) && Names(files) <= Names(more)
    ensures files <= more
  {
    forall i | 0 <= i < |files| ensures files[i] == more[i] {
      assert Names(files)[i] == Names(more)[i];
      assert files[i] in more;
      var p :| 0 <= p < |more| && more[p] == files[i];
      NamedOnce(more, p, i);
    }
  }

  /** A release whose successful run follows a successful run of the release before it records its
      files in their own order exactly when its new files sort last. */
  lemma OrderIff(files: seq<Migration>, more: seq<Migration>)
    requires Sorted(files) && Sorted(more) && Includes(files, more)
    ensures After(more, Durable(Names(files), Script(files)), Stop(|more|, [])).recorded == Names(more)
      <==> NewSortLast(files, more)
  {
    PrefixIff(files, more);
    if files <= more {
      assert more[..|files|] == files;
      AfterPrefix(more, |files|, Script(files), Stop(|more|, []));
      assert more[..|more|] == more;
    } else if Names(files) <= Names(more) {
      SameNamesPrefix(files, more);
    }
  }

  /** The files of one release, a MySQL run over them that stops inside the file, and the run that
      completes it. */
  const RELEASE := [Migration("001.sql", ["A;", "B;"])]
  const STOPPED := Attempt(RELEASE, Stop(0, ["A;"]))
  const COMPLETED := Attempt(RELEASE, Stop(1, []))

  lemma Stopped()
    ensures Possible(RELEASE, STOPPED.stop) && Growing([STOPPED]) && Outcome([STOPPED]) == Durable([], ["A;"])
  {}

  lemma Completed()
    ensures After(RELEASE, Durable([], ["A;"]), COMPLETED.stop) == Durable(["001.sql"], ["A;", "A;", "B;"])
  {
    assert RELEASE[..1] == RELEASE && RELEASE[..0] == [];
    ScriptAppend([], RELEASE[0]);
    assert Unrecorded(RELEASE, []) == RELEASE;
  }

  /** The statement that the first run left behind takes effect twice. */
  lemma StatementRepeated()
    ensures var runs := [STOPPED, COMPLETED];
      Growing(runs) && On(MySQL, runs) && !NoStray(runs) && Outcome(runs) == Durable(["001.sql"], ["A;", "A;", "B;"])
  {
    var runs := [STOPPED, COMPLETED];
    Stopped();
    Completed();
    assert runs[..1] == [STOPPED] && runs[0] == STOPPED && runs[1] == COMPLETED;
    assert STOPPED.stop.stray != [] && COMPLETED.stop.stray == [];
  }
}
