/**
 The line diff shown for changed files: a longest-common-subsequence table filled from the end, a walk
 from the start, and a plain delete-then-add listing when the table would be too large.
 */
module LineDiff {

  const TABLE_LIMIT := 100_000

  datatype Line =
    | Ctx(text: string, oldLine: int, newLine: int)
    | Del(text: string, oldLine: int)
    | Add(text: string, newLine: int)

  // ----- Texts and lines -----

  /** `text.split('\n')`. */
  function Split(text: string): (lines: seq<string>)
    ensures |lines| > 0
  {
    if text == "" then [""]
    else
      var rest := Split(text[1..]);
      if text[0] == '\n' then [""] + rest else [[text[0]] + rest[0]] + rest[1..]
  }

  function Join(lines: seq<string>): string {
    if |lines| == 0 then "" else if |lines| == 1 then lines[0] else lines[0] + "\n" + Join(lines[1..])
  }

  function LinesOf(text: string): seq<string> {
    if text == "" then [] else Split(text)
  }

  lemma {:induction false} JoinSplit(text: string)
    ensures Join(Split(text)) == text
  {
    if text != "" {
      JoinSplit(text[1..]);
      var rest := Split(text[1..]);
      if text[0] == '\n' {
        assert ([""] + rest)[1..] == rest;
      } else {
        var lines := [[text[0]] + rest[0]] + rest[1..];
        assert lines[1..] == rest[1..];
        assert Join(lines) == [text[0]] + Join(rest);
      }
    }
  }

  predicate Whole(lines: seq<string>) {
    forall l <- lines :: '\n' !in l
  }

  /** No line holds a line break. */
  lemma {:induction false} LinesAreWhole(text: string)
    ensures Whole(Split(text))
  {
    if text != "" {
      LinesAreWhole(text[1..]);
      var rest := Split(text[1..]);
      assert rest == [rest[0]] + rest[1..];
    }
  }

  /** The split is the only list of lines without line breaks that gives the text when joined. */
  lemma {:induction false} SplitIsUnique(text: string, lines: seq<string>)
    requires lines != [] && Whole(lines) && Join(lines) == text
    ensures lines == Split(text)
    decreases |text|
  {
    assert lines == [lines[0]] + lines[1..];
    if text != "" {
      if lines[0] == "" {
        assert |lines| > 1 && text == "\n" + Join(lines[1..]);
        SplitIsUnique(text[1..], lines[1..]);
      } else {
        assert text[0] == lines[0][0] && lines[0][0] in lines[0];
        var shorter := [lines[0][1..]] + lines[1..];
        assert shorter[1..] == lines[1..];
        assert Join(shorter) == text[1..];
        assert forall c :: c in lines[0][1..] ==> c in lines[0];
        assert forall l :: l in shorter ==> l == lines[0][1..] || l in lines;
        SplitIsUnique(text[1..], shorter);
        assert lines[0] == [text[0]] + shorter[0];
      }
    }
  }

  /** The lines of a text: none of the empty text, otherwise the only whole lines that join to it. */
  lemma LinesAreUnique(text: string, lines: seq<string>)
    ensures lines == LinesOf(text) <==> Whole(lines) && Join(lines) == text && (lines == [] <==> text == "")
  {
    JoinSplit(text);
    LinesAreWhole(text);
    if lines != [] && Whole(lines) && Join(lines) == text { SplitIsUnique(text, lines); }
  }

  // ----- What a diff says -----

  /** The old text, as the context and deleted lines give it. */
  function OldSide(d: seq<Line>): seq<string> {
    if d == [] then [] else (if d[0].Add? then [] else [d[0].text]) + OldSide(d[1..])
  }

  function NewSide(d: seq<Line>): seq<string> {
    if d == [] then [] else (if d[0].Del? then [] else [d[0].text]) + NewSide(d[1..])
  }

  function Contexts(d: seq<Line>): nat {
    if d == [] then 0 else (if d[0].Ctx? then 1 else 0) + Contexts(d[1..])
  }

  function Additions(d: seq<Line>): nat {
    if d == [] then 0 else (if d[0].Add? then 1 else 0) + Additions(d[1..])
  }

  function Deletions(d: seq<Line>): nat {
    if d == [] then 0 else (if d[0].Del? then 1 else 0) + Deletions(d[1..])
  }

  function Edits(d: seq<Line>): nat {
    Additions(d) + Deletions(d)
  }

  /** Old lines are numbered `o`, `o + 1`, ... and new lines `n`, `n + 1`, ..., in order. */
  predicate Numbered(d: seq<Line>, o: int, n: int) {
    d == [] ||
    match d[0]
    case Ctx(_, ol, nl) => ol == o && nl == n && Numbered(d[1..], o + 1, n + 1)
    case Del(_, ol) => ol == o && Numbered(d[1..], o + 1, n)
    case Add(_, nl) => nl == n && Numbered(d[1..], o, n + 1)
  }

  /** `d` turns the lines `a` into the lines `b`. */
  predicate Script(d: seq<Line>, a: seq<string>, b: seq<string>) {
    OldSide(d) == a && NewSide(d) == b
  }

  /** Lines are conserved: each old and each new line is a context line or one edit. */
  lemma {:induction false} EditsCount(d: seq<Line>)
    ensures Deletions(d) + Contexts(d) == |OldSide(d)|
    ensures Additions(d) + Contexts(d) == |NewSide(d)|
  {
    if d != [] { EditsCount(d[1..]); }
  }

  // ----- The longest common subsequence -----

  /** Length of the longest common subsequence of `a[i..]` and `b[j..]`. */
  function Lcs(a: seq<string>, b: seq<string>, i: nat, j: nat): nat
    requires i <= |a| && j <= |b|
    decreases |a| - i + |b| - j
  {
    if i == |a| || j == |b| then 0
    else if a[i] == b[j] then Lcs(a, b, i + 1, j + 1) + 1
    else Max(Lcs(a, b, i + 1, j), Lcs(a, b, i, j + 1))
  }

  function Max(x: nat, y: nat): nat { if x >= y then x else y }

  /** Dropping one line from either side loses at most one match and gains none. */
  lemma {:induction false} LcsDrop(a: seq<string>, b: seq<string>, i: nat, j: nat)
    requires i <= |a| && j <= |b|
    ensures i < |a| ==> Lcs(a, b, i + 1, j) <= Lcs(a, b, i, j) <= Lcs(a, b, i + 1, j) + 1
    ensures j < |b| ==> Lcs(a, b, i, j + 1) <= Lcs(a, b, i, j) <= Lcs(a, b, i, j + 1) + 1
    decreases |a| - i + |b| - j
  {
    if i < |a| && j < |b| {
      LcsDrop(a, b, i + 1, j);
      LcsDrop(a, b, i, j + 1);
      LcsDrop(a, b, i + 1, j + 1);
    }
  }

  /** No script between the two line lists keeps more lines than the table promises. */
  lemma {:induction false} LcsBoundsScripts(d: seq<Line>, a: seq<string>, b: seq<string>, i: nat, j: nat)
    requires i <= |a| && j <= |b| && Script(d, a[i..], b[j..])
    ensures Contexts(d) <= Lcs(a, b, i, j)
    decreases |d|
  {
    if d != [] {
      LcsDrop(a, b, i, j);
      match d[0]
      case Ctx(t, _, _) =>
        assert a[i] == t == b[j] && a[i..][1..] == a[i + 1..] && b[j..][1..] == b[j + 1..];
        LcsBoundsScripts(d[1..], a, b, i + 1, j + 1);
      case Del(t, _) =>
        assert a[i..][1..] == a[i + 1..];
        LcsBoundsScripts(d[1..], a, b, i + 1, j);
      case Add(t, _) =>
        assert b[j..][1..] == b[j + 1..];
        LcsBoundsScripts(d[1..], a, b, i, j + 1);
    }
  }

  predicate Disjoint(a: seq<string>, b: seq<string>) {
    forall x <- a :: x !in b
  }

  lemma {:induction false} LcsOfDisjoint(a: seq<string>, b: seq<string>, i: nat, j: nat)
    requires i <= |a| && j <= |b|
    ensures Lcs(a, b, i, j) == 0 <==> Disjoint(a[i..], b[j..])
    decreases |a| - i + |b| - j
  {
    if i < |a| && j < |b| {
      if a[i] == b[j] {
        assert a[i] in a[i..] && a[i] in b[j..];
      } else {
        LcsOfDisjoint(a, b, i + 1, j);
        LcsOfDisjoint(a, b, i, j + 1);
        assert a[i..] == [a[i]] + a[i + 1..] && b[j..] == [b[j]] + b[j + 1..];
      }
    }
  }

  // ----- The program -----

  predicate Tabled(a: seq<string>, b: seq<string>) {
    |a| * |b| <= TABLE_LIMIT
  }

  /** A diff with no fewer context lines, and so no more edits, than any other script has. */
  ghost predicate Minimal(d: seq<Line>, a: seq<string>, b: seq<string>) {
    forall e :: Script(e, a, b) ==> Edits(d) <= Edits(e)
  }

  /** Row `p` of the table is correct from column `from` on. */
  predicate RowDone(a: seq<string>, b: seq<string>, lcs: array2<nat>, p: nat, from: nat)
    requires lcs.Length0 == |a| + 1 && lcs.Length1 == |b| + 1 && p <= |a|
    reads lcs
  {
    forall q :: from <= q <= |b| ==> lcs[p, q] == Lcs(a, b, p, q)
  }

  /** The diff of `a[i..]` and `b[j..]`: equal lines are kept; between two ways as good, the deletion comes first. */
  function Preferred(a: seq<string>, b: seq<string>, i: nat, j: nat): seq<Line>
    requires i <= |a| && j <= |b|
    decreases |a| - i + |b| - j
  {
    if i < |a| && j < |b| && a[i] == b[j] then [Ctx(a[i], i + 1, j + 1)] + Preferred(a, b, i + 1, j + 1)
    else if i < |a| && (j == |b| || Lcs(a, b, i + 1, j) >= Lcs(a, b, i, j + 1)) then [Del(a[i], i + 1)] + Preferred(a, b, i + 1, j)
    else if j < |b| then [Add(b[j], j + 1)] + Preferred(a, b, i, j + 1)
    else []
  }

  /** It is a numbered script for the two lists and keeps a longest common subsequence. */
  lemma {:induction false} PreferredIsScript(a: seq<string>, b: seq<string>, i: nat, j: nat)
    requires i <= |a| && j <= |b|
    ensures Script(Preferred(a, b, i, j), a[i..], b[j..])
    ensures Numbered(Preferred(a, b, i, j), i + 1, j + 1)
    ensures Contexts(Preferred(a, b, i, j)) == Lcs(a, b, i, j)
    decreases |a| - i + |b| - j
  {
    var d := Preferred(a, b, i, j);
    if i < |a| && j < |b| && a[i] == b[j] {
      PreferredIsScript(a, b, i + 1, j + 1);
      ScriptCons(d[0], Preferred(a, b, i + 1, j + 1), a, b, i, j);
    } else if i < |a| && (j == |b| || Lcs(a, b, i + 1, j) >= Lcs(a, b, i, j + 1)) {
      PreferredIsScript(a, b, i + 1, j);
      ScriptCons(d[0], Preferred(a, b, i + 1, j), a, b, i, j);
    } else if j < |b| {
      PreferredIsScript(a, b, i, j + 1);
      ScriptCons(d[0], Preferred(a, b, i, j + 1), a, b, i, j);
    }
  }

  /** A line in front of a script for what it leaves of the two lists. */
  lemma ScriptCons(line: Line, d: seq<Line>, a: seq<string>, b: seq<string>, i: nat, j: nat)
    requires i <= |a| && j <= |b|
    requires line.Add? || (i < |a| && line.text == a[i])
    requires line.Del? || (j < |b| && line.text == b[j])
    requires Script(d, a[if line.Add? then i else i + 1..], b[if line.Del? then j else j + 1..])
    ensures Script([line] + d, a[i..], b[j..])
    ensures Contexts([line] + d) == Contexts(d) + if line.Ctx? then 1 else 0
  {
    assert ([line] + d)[1..] == d;
    if !line.Add? { assert a[i..] == [a[i]] + a[i + 1..]; }
    if !line.Del? { assert b[j..] == [b[j]] + b[j + 1..]; }
  }

  /** Where kinds of lines stand in a diff if there is a choice: kept lines first, then deletions, then additions. */
  function Rank(line: Line): nat {
    if line.Ctx? then 0 else if line.Del? then 1 else 2
  }

  /** `d` comes no later than `e` if scripts are ordered by the kinds of their lines, the first difference deciding. */
  predicate NoLater(d: seq<Line>, e: seq<Line>) {
    d == [] || (e != [] && (Rank(d[0]) < Rank(e[0]) || (Rank(d[0]) == Rank(e[0]) && NoLater(d[1..], e[1..]))))
  }

  /** Of all scripts that keep a longest common subsequence, the preferred one comes first. */
  lemma {:induction false} PreferredIsFirst(a: seq<string>, b: seq<string>, i: nat, j: nat, e: seq<Line>)
    requires i <= |a| && j <= |b| && Script(e, a[i..], b[j..]) && Contexts(e) == Lcs(a, b, i, j)
    ensures NoLater(Preferred(a, b, i, j), e)
    decreases |e|
  {
    if e != [] {
      FirstLine(e, a, b, i, j);
      LcsDrop(a, b, i, j);
      match e[0]
      case Ctx(_, _, _) => PreferredIsFirst(a, b, i + 1, j + 1, e[1..]);
      case Del(_, _) =>
        LcsBoundsScripts(e[1..], a, b, i + 1, j);
        if Preferred(a, b, i, j)[0].Del? { PreferredIsFirst(a, b, i + 1, j, e[1..]); }
      case Add(_, _) =>
        LcsBoundsScripts(e[1..], a, b, i, j + 1);
        if Preferred(a, b, i, j)[0].Add? { PreferredIsFirst(a, b, i, j + 1, e[1..]); }
    }
  }

  /** What the first line of a script says about the two lists, and what the rest is a script for. */
  lemma FirstLine(e: seq<Line>, a: seq<string>, b: seq<string>, i: nat, j: nat)
    requires i <= |a| && j <= |b| && e != [] && Script(e, a[i..], b[j..])
    ensures !e[0].Add? ==> i < |a| && e[0].text == a[i]
    ensures !e[0].Del? ==> j < |b| && e[0].text == b[j]
    ensures Script(e[1..], a[if e[0].Add? then i else i + 1..], b[if e[0].Del? then j else j + 1..])
  {
    if !e[0].Add? { assert a[i..][1..] == a[i + 1..] && a[i..][0] == a[i]; }
    if !e[0].Del? { assert b[j..][1..] == b[j + 1..] && b[j..][0] == b[j]; }
  }

  /** The fallback for large inputs: every old line deleted, then every new line added. */
  function DeleteAndAdd(a: seq<string>, b: seq<string>, i: nat, j: nat): seq<Line>
    requires i <= |a| && j <= |b|
    decreases |a| - i + |b| - j
  {
    if i < |a| then [Del(a[i], i + 1)] + DeleteAndAdd(a, b, i + 1, j)
    else if j < |b| then [Add(b[j], j + 1)] + DeleteAndAdd(a, b, i, j + 1)
    else []
  }

  lemma {:induction false} DeleteAndAddIsScript(a: seq<string>, b: seq<string>, i: nat, j: nat)
    requires i <= |a| && j <= |b|
    ensures Script(DeleteAndAdd(a, b, i, j), a[i..], b[j..])
    ensures Numbered(DeleteAndAdd(a, b, i, j), i + 1, j + 1)
    ensures Contexts(DeleteAndAdd(a, b, i, j)) == 0
    decreases |a| - i + |b| - j
  {
    var d := DeleteAndAdd(a, b, i, j);
    if i < |a| {
      DeleteAndAddIsScript(a, b, i + 1, j);
      ScriptCons(d[0], DeleteAndAdd(a, b, i + 1, j), a, b, i, j);
    } else if j < |b| {
      DeleteAndAddIsScript(a, b, i, j + 1);
      ScriptCons(d[0], DeleteAndAdd(a, b, i, j + 1), a, b, i, j);
    }
  }

  /** Of all scripts that keep no line, the fallback comes first: deletions before additions. */
  lemma {:induction false} DeleteAndAddIsFirst(a: seq<string>, b: seq<string>, i: nat, j: nat, e: seq<Line>)
    requires i <= |a| && j <= |b| && Script(e, a[i..], b[j..]) && Contexts(e) == 0
    ensures NoLater(DeleteAndAdd(a, b, i, j), e)
    decreases |e|
  {
    if e != [] {
      FirstLine(e, a, b, i, j);
      if e[0].Del? {
        DeleteAndAddIsFirst(a, b, i + 1, j, e[1..]);
      } else if i == |a| {
        DeleteAndAddIsFirst(a, b, i, j + 1, e[1..]);
      }
    }
  }

  /** Fills the table of longest common subsequences of all pairs of suffixes, last line first. */
  method FillTable(a: seq<string>, b: seq<string>) returns (lcs: array2<nat>)
    ensures fresh(lcs) && lcs.Length0 == |a| + 1 && lcs.Length1 == |b| + 1
    ensures forall p: nat :: p <= |a| ==> RowDone(a, b, lcs, p, 0)
  {
    lcs := new nat[|a| + 1, |b| + 1]((i, j) => 0);
    var i := |a| - 1;
    while i >= 0
      invariant -1 <= i < |a|
      invariant forall p: nat :: i < p <= |a| ==> RowDone(a, b, lcs, p, 0)
      invariant forall p: nat :: p <= |a| ==> lcs[p, |b|] == 0
    {
      label Before:
      FillRow(a, b, lcs, i);
      forall p: nat | i < p <= |a| ensures RowDone(a, b, lcs, p, 0) {
        assert old@Before(RowDone(a, b, lcs, p, 0));
      }
      i := i - 1;
    }
  }

  method FillRow(a: seq<string>, b: seq<string>, lcs: array2<nat>, i: nat)
    requires lcs.Length0 == |a| + 1 && lcs.Length1 == |b| + 1 && i < |a|
    requires RowDone(a, b, lcs, i + 1, 0) && lcs[i, |b|] == 0
    modifies lcs
    ensures RowDone(a, b, lcs, i, 0)
    ensures forall p, q :: 0 <= p <= |a| && 0 <= q <= |b| && (p != i || q == |b|) ==> lcs[p, q] == old(lcs[p, q])
  {
    var j := |b| - 1;
    while j >= 0
      invariant -1 <= j < |b|
      invariant RowDone(a, b, lcs, i + 1, 0) && RowDone(a, b, lcs, i, j + 1)
      invariant forall p, q :: 0 <= p <= |a| && 0 <= q <= |b| && (p != i || q == |b|) ==> lcs[p, q] == old(lcs[p, q])
    {
      lcs[i, j] := if a[i] == b[j] then lcs[i + 1, j + 1] + 1 else Max(lcs[i + 1, j], lcs[i, j + 1]);
      j := j - 1;
    }
  }

  lemma MoveOver(done: seq<Line>, line: Line, rest: seq<Line>)
    ensures done + ([line] + rest) == (done + [line]) + rest
  {
  }

  /** The forward walk over the table, then the lines left over on either side. */
  method Walk(a: seq<string>, b: seq<string>, lcs: array2<nat>) returns (lines: seq<Line>)
    requires lcs.Length0 == |a| + 1 && lcs.Length1 == |b| + 1
    requires forall p: nat :: p <= |a| ==> RowDone(a, b, lcs, p, 0)
    ensures lines == Preferred(a, b, 0, 0)
  {
    lines := [];
    var i, j := 0, 0;
    while i < |a| && j < |b|
      invariant i <= |a| && j <= |b| && lines + Preferred(a, b, i, j) == Preferred(a, b, 0, 0)
      decreases |a| - i + |b| - j
    {
      assert RowDone(a, b, lcs, i, 0) && RowDone(a, b, lcs, i + 1, 0);
      var line;
      ghost var before := Preferred(a, b, i, j);
      if a[i] == b[j] {
        line := Ctx(a[i], i + 1, j + 1);
        i, j := i + 1, j + 1;
      } else if lcs[i + 1, j] >= lcs[i, j + 1] {
        line := Del(a[i], i + 1);
        i := i + 1;
      } else {
        line := Add(b[j], j + 1);
        j := j + 1;
      }
      assert before == [line] + Preferred(a, b, i, j);
      MoveOver(lines, line, Preferred(a, b, i, j));
      lines := lines + [line];
    }
    while i < |a|
      invariant i <= |a| && j <= |b| && (i == |a| || j == |b|) && lines + Preferred(a, b, i, j) == Preferred(a, b, 0, 0)
    {
      MoveOver(lines, Del(a[i], i + 1), Preferred(a, b, i + 1, j));
      lines := lines + [Del(a[i], i + 1)];
      i := i + 1;
    }
    while j < |b|
      invariant j <= |b| && i == |a| && lines + Preferred(a, b, i, j) == Preferred(a, b, 0, 0)
    {
      MoveOver(lines, Add(b[j], j + 1), Preferred(a, b, i, j + 1));
      lines := lines + [Add(b[j], j + 1)];
      j := j + 1;
    }
  }

  /** What the diff of two texts is, said of its lines alone. */
  ghost predicate Explains(lines: seq<Line>, oldText: string, newText: string) {
    var a, b := OldSide(lines), NewSide(lines);
    && Whole(a) && Join(a) == oldText && (a == [] <==> oldText == "")
    && Whole(b) && Join(b) == newText && (b == [] <==> newText == "")
    && Numbered(lines, 1, 1)
  }

  /**
   The context and deleted lines are the lines of the old text, the context and added lines those of the new
   text; the line numbers count up from one on both sides. Up to 100,000 pairs of lines as many lines are
   kept as any script can keep, beyond it none, and of all scripts that keep as many the first is given: no
   other has a kept line, or else a deletion, where it has something that ranks lower.
   */
  method ComputeDiffLines(oldText: string, newText: string) returns (lines: seq<Line>)
    ensures Explains(lines, oldText, newText)
    ensures var a, b := LinesOf(oldText), LinesOf(newText);
            && Script(lines, a, b)
            && Contexts(lines) == (if |a| * |b| <= 100_000 then Lcs(a, b, 0, 0) else 0)
            && (Minimal(lines, a, b) <==> |a| * |b| <= 100_000 || Disjoint(a, b))
            && (forall e :: Script(e, a, b) && Contexts(e) == Contexts(lines) ==> NoLater(lines, e))
    ensures lines == if Tabled(LinesOf(oldText), LinesOf(newText)) then Preferred(LinesOf(oldText), LinesOf(newText), 0, 0)
                     else DeleteAndAdd(LinesOf(oldText), LinesOf(newText), 0, 0)
  {
    var a, b := LinesOf(oldText), LinesOf(newText);
    if |a| * |b| > TABLE_LIMIT {
      lines := DeleteAndAdd(a, b, 0, 0);
    } else {
      var lcs := FillTable(a, b);
      lines := Walk(a, b, lcs);
    }
    DiffIsScript(a, b, lines);
    MinimalIff(lines, a, b);
    LinesAreUnique(oldText, a);
    LinesAreUnique(newText, b);
    forall e | Script(e, a, b) && Contexts(e) == Contexts(lines) ensures NoLater(lines, e) {
      DiffIsFirst(a, b, lines, e);
    }
  }

  lemma DiffIsScript(a: seq<string>, b: seq<string>, lines: seq<Line>)
    requires lines == if Tabled(a, b) then Preferred(a, b, 0, 0) else DeleteAndAdd(a, b, 0, 0)
    ensures Script(lines, a, b) && Numbered(lines, 1, 1)
    ensures Contexts(lines) == if Tabled(a, b) then Lcs(a, b, 0, 0) else 0
  {
    assert a[0..] == a && b[0..] == b;
    PreferredIsScript(a, b, 0, 0);
    DeleteAndAddIsScript(a, b, 0, 0);
  }

  lemma DiffIsFirst(a: seq<string>, b: seq<string>, lines: seq<Line>, e: seq<Line>)
    requires lines == if Tabled(a, b) then Preferred(a, b, 0, 0) else DeleteAndAdd(a, b, 0, 0)
    requires Script(e, a, b) && Contexts(e) == if Tabled(a, b) then Lcs(a, b, 0, 0) else 0
    ensures NoLater(lines, e)
  {
    assert a[0..] == a && b[0..] == b;
    if Tabled(a, b) { PreferredIsFirst(a, b, 0, 0, e); } else { DeleteAndAddIsFirst(a, b, 0, 0, e); }
  }

  /** A script has the fewest edits exactly when it keeps a longest common subsequence. */
  lemma MinimalMeansLcs(d: seq<Line>, a: seq<string>, b: seq<string>)
    requires Script(d, a, b)
    ensures Minimal(d, a, b) <==> Contexts(d) == Lcs(a, b, 0, 0)
    ensures Contexts(d) <= Lcs(a, b, 0, 0)
  {
    assert a[0..] == a && b[0..] == b;
    EditsCount(d);
    LcsBoundsScripts(d, a, b, 0, 0);
    PreferredIsScript(a, b, 0, 0);
    EditsCount(Preferred(a, b, 0, 0));
    forall e | Script(e, a, b) && Contexts(d) == Lcs(a, b, 0, 0) ensures Edits(d) <= Edits(e) {
      EditsCount(e);
      LcsBoundsScripts(e, a, b, 0, 0);
    }
  }

  lemma MinimalIff(d: seq<Line>, a: seq<string>, b: seq<string>)
    requires Script(d, a, b)
    requires Contexts(d) == if Tabled(a, b) then Lcs(a, b, 0, 0) else 0
    ensures Minimal(d, a, b) <==> Tabled(a, b) || Disjoint(a, b)
  {
    MinimalMeansLcs(d, a, b);
    LcsOfDisjoint(a, b, 0, 0);
    assert a[0..] == a && b[0..] == b;
  }

  function BlankLines(n: nat): string {
    seq(n, _ => '\n')
  }

  lemma {:induction false} SplitBlankLines(n: nat)
    ensures |Split(BlankLines(n))| == n + 1 && Split(BlankLines(n))[0] == ""
  {
    if n > 0 {
      SplitBlankLines(n - 1);
      assert BlankLines(n)[1..] == BlankLines(n - 1);
    }
  }

  /** An unchanged text of 317 blank lines is shown as deleted and added again. */
  lemma LargeTextIsRewritten()
    ensures var a := LinesOf(BlankLines(316));
            |a| == 317 && !Tabled(a, a) && !Minimal(DeleteAndAdd(a, a, 0, 0), a, a)
  {
    var a := LinesOf(BlankLines(316));
    SplitBlankLines(316);
    assert a[0] in a && a[0..] == a;
    DeleteAndAddIsScript(a, a, 0, 0);
    MinimalIff(DeleteAndAdd(a, a, 0, 0), a, a);
  }
}
