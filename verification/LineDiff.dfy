/** The line comparison of two card versions: `lines_of`, `bounded_diff_text` and `line_diff`
    of src/history/CardHistory.cpp. A text is its bytes, one character each. */
module LineDiff {
  import opened Common

  // ----- lines -----

  /** `text.find('\n', from)`, the length of the text when there is none. */
  function Newline(text: string, from: nat): (r: nat)
    requires from <= |text|
    ensures from <= r <= |text| && (r < |text| ==> text[r] == '\n')
    ensures forall k :: from <= k < r ==> text[k] != '\n'
    decreases |text| - from
  {
    if from == |text| || text[from] == '\n' then from else Newline(text, from + 1)
  }

  function JoinLines(lines: seq<string>): string
  {
    if lines == [] then "" else if |lines| == 1 then lines[0] else lines[0] + "\n" + JoinLines(lines[1..])
  }

  ghost predicate OneLine(line: string)
  {
    '\n' !in line
  }

  /** The lines of a text: none when it is empty, otherwise what stands between newlines. */
  ghost predicate LinesOf(text: string, lines: seq<string>)
  {
    && JoinLines(lines) == text && (forall i :: 0 <= i < |lines| ==> OneLine(lines[i]))
    && (text == "" <==> lines == [])
  }

  lemma {:induction false} JoinSnoc(lines: seq<string>, line: string)
    ensures JoinLines(lines + [line]) == if lines == [] then line else JoinLines(lines) + "\n" + line
    decreases |lines|
  {
    if |lines| > 0 {
      assert (lines + [line])[1..] == lines[1..] + [line];
      JoinSnoc(lines[1..], line);
    }
  }

  lemma JoinNone()
    ensures JoinLines([]) == ""
  {
  }

  lemma {:induction false} LinesUnique(a: seq<string>, b: seq<string>)
    requires JoinLines(a) == JoinLines(b) && |a| > 0 && |b| > 0
    requires forall i :: 0 <= i < |a| ==> OneLine(a[i])
    requires forall i :: 0 <= i < |b| ==> OneLine(b[i])
    ensures a == b
    decreases |a|
  {
    assert OneLine(a[0]) && OneLine(b[0]);
    FirstLine(a, b);
    if |a| > 1 && |b| > 1 {
      assert JoinLines(a)[|a[0]| + 1..] == JoinLines(a[1..]) && JoinLines(b)[|b[0]| + 1..] == JoinLines(b[1..]);
      LinesUnique(a[1..], b[1..]);
      assert a == [a[0]] + a[1..] && b == [b[0]] + b[1..];
    }
  }

  lemma FirstLine(a: seq<string>, b: seq<string>)
    requires JoinLines(a) == JoinLines(b) && |a| > 0 && |b| > 0 && OneLine(a[0]) && OneLine(b[0])
    ensures a[0] == b[0] && (|a| == 1 <==> |b| == 1)
  {
    var t := JoinLines(a);
    assert a[0] == t[..|a[0]|] && b[0] == t[..|b[0]|];
    assert |a| > 1 ==> t[|a[0]|] == '\n';
    assert |b| > 1 ==> t[|b[0]|] == '\n';
    assert forall k :: 0 <= k < |a[0]| ==> t[k] != '\n' by { assert forall k :: 0 <= k < |a[0]| ==> t[k] == a[0][k]; }
    assert forall k :: 0 <= k < |b[0]| ==> t[k] != '\n' by { assert forall k :: 0 <= k < |b[0]| ==> t[k] == b[0][k]; }
  }

  /** A text has one list of lines. */
  lemma LinesDetermined(text: string, a: seq<string>, b: seq<string>)
    requires LinesOf(text, a) && LinesOf(text, b)
    ensures a == b
  {
    if text != "" { LinesUnique(a, b); }
  }

  /** `lines_of`. */
  method SplitLines(text: string) returns (lines: seq<string>)
    ensures LinesOf(text, lines)
  {
    hide JoinLines;
    JoinNone();
    lines := [];
    var start := 0;
    var open := true;
    while start < |text| && open
      invariant start <= |text| && forall i :: 0 <= i < |lines| ==> OneLine(lines[i])
      invariant open ==> if start == 0 then lines == [] else lines != [] && text[..start] == JoinLines(lines) + "\n"
      invariant !open ==> text != "" && lines != [] && text == JoinLines(lines) && text[|text| - 1] != '\n'
      decreases |text| - start, open
    {
      var end := Newline(text, start);
      JoinSnoc(lines, text[start..end]);
      assert text[..end] == text[..start] + text[start..end];
      lines := lines + [text[start..end]];
      if end == |text| {
        assert text[..end] == text;
        open := false;
      } else {
        assert text[..end + 1] == text[..end] + "\n";
        start := end + 1;
      }
    }
    if text != "" && text[|text| - 1] == '\n' {
      assert text[..start] == text;
      JoinSnoc(lines, "");
      lines := lines + [""];
    }
  }

  // ----- shortened lines -----

  const MAX_LINE: nat := 16384
  const SUFFIX: string := "... [line shortened]"

  /** A continuation byte of UTF-8: the two high bits are 10. */
  predicate Continuation(c: char)
  {
    c as int / 64 % 4 == 2
  }

  function CutBefore(text: string, end: nat): (r: nat)
    requires end < |text|
    ensures r <= end && (r == 0 || !Continuation(text[r]))
    ensures forall k :: r < k <= end ==> Continuation(text[k])
  {
    if end > 0 && Continuation(text[end]) then CutBefore(text, end - 1) else end
  }

  /** `bounded_diff_text`: a line too long is cut between characters and marked. */
  function Bounded(text: string): (r: string)
    ensures |r| <= MAX_LINE
    ensures |text| <= MAX_LINE <==> r == text
  {
    if |text| <= MAX_LINE then text else text[..CutBefore(text, MAX_LINE - |SUFFIX|)] + SUFFIX
  }

  /** The part kept of a long line ends before the last character that would not fit whole: of the
      bytes up to the limit only those of that character are lost. */
  lemma BoundedCut(text: string) returns (cut: nat)
    requires |text| > 16384
    ensures cut + 20 <= 16384 && Bounded(text) == text[..cut] + "... [line shortened]"
    ensures cut == 0 || !Continuation(text[cut])
    ensures forall k :: cut < k <= 16384 - 20 ==> Continuation(text[k])
  {
    cut := CutBefore(text, MAX_LINE - |SUFFIX|);
  }

  function BoundAll(lines: seq<string>): (r: seq<string>)
    ensures |r| == |lines| && forall i :: 0 <= i < |r| ==> r[i] == Bounded(lines[i])
  {
    seq(|lines|, i requires 0 <= i < |lines| => Bounded(lines[i]))
  }

  ghost predicate HasLong(lines: seq<string>)
  {
    exists i :: 0 <= i < |lines| && |lines[i]| > MAX_LINE
  }

  lemma BoundAllSame(lines: seq<string>)
    ensures BoundAll(lines) == lines <==> !HasLong(lines)
  {
    if !HasLong(lines) {
      forall i | 0 <= i < |lines|
        ensures Bounded(lines[i]) == lines[i]
      {
      }
    } else {
      var i :| 0 <= i < |lines| && |lines[i]| > MAX_LINE;
      assert BoundAll(lines)[i] != lines[i];
    }
  }

  // ----- the longest common subsequence -----

  ghost predicate Sub<T>(c: seq<T>, s: seq<T>)
    decreases |s|
  {
    c == [] || (s != [] && ((c[0] == s[0] && Sub(c[1..], s[1..])) || Sub(c, s[1..])))
  }

  /** The recurrence of the table, from suffixes of the two line lists. */
  function Lcs(a: seq<string>, b: seq<string>): (r: nat)
    decreases |a| + |b|
  {
    if a == [] || b == [] then 0
    else if a[0] == b[0] then Lcs(a[1..], b[1..]) + 1
    else
      var down, right := Lcs(a[1..], b), Lcs(a, b[1..]);
      if down < right then right else down
  }

  lemma {:induction false} SubTail<T>(c: seq<T>, s: seq<T>)
    requires Sub(c, s) && c != []
    ensures s != [] && Sub(c[1..], s[1..])
    decreases |s|
  {
    if !(c[0] == s[0] && Sub(c[1..], s[1..])) {
      SubTail(c, s[1..]);
      SubSkip(c[1..], s[1..]);
    }
  }

  lemma SubSkip<T>(c: seq<T>, s: seq<T>)
    requires s != [] && Sub(c, s[1..])
    ensures Sub(c, s)
  {
  }

  /** No common subsequence is longer. */
  lemma {:induction false} LcsBounds(a: seq<string>, b: seq<string>, c: seq<string>)
    requires Sub(c, a) && Sub(c, b)
    ensures |c| <= Lcs(a, b)
    decreases |a| + |b|
  {
    if c != [] {
      if a[0] == b[0] {
        SubTail(c, a);
        SubTail(c, b);
        LcsBounds(a[1..], b[1..], c[1..]);
      } else if c[0] != a[0] {
        LcsBounds(a[1..], b, c);
      } else {
        LcsBounds(a, b[1..], c);
      }
    }
  }

  /** Some common subsequence is as long. */
  lemma {:induction false} LcsReached(a: seq<string>, b: seq<string>) returns (c: seq<string>)
    ensures Sub(c, a) && Sub(c, b) && |c| == Lcs(a, b)
    decreases |a| + |b|
  {
    if a == [] || b == [] {
      c := [];
    } else if a[0] == b[0] {
      var d := LcsReached(a[1..], b[1..]);
      c := [a[0]] + d;
      assert c[1..] == d;
    } else if Lcs(a[1..], b) < Lcs(a, b[1..]) {
      c := LcsReached(a, b[1..]);
      SubSkip(c, b);
    } else {
      c := LcsReached(a[1..], b);
      SubSkip(c, a);
    }
  }

  lemma {:induction false} LcsSmall(a: seq<string>, b: seq<string>)
    ensures Lcs(a, b) <= |a| && Lcs(a, b) <= |b|
    decreases |a| + |b|
  {
    if a != [] && b != [] {
      if a[0] == b[0] { LcsSmall(a[1..], b[1..]); } else { LcsSmall(a[1..], b); LcsSmall(a, b[1..]); }
    }
  }

  /** The table of `line_diff`, filled from its far corner. */
  method FillTable(a: seq<string>, b: seq<string>) returns (t: array2<nat>)
    ensures fresh(t) && t.Length0 == |a| + 1 && t.Length1 == |b| + 1
    ensures forall i, j :: 0 <= i <= |a| && 0 <= j <= |b| ==> t[i, j] == Lcs(a[i..], b[j..])
  {
    hide Lcs;
    t := new nat[|a| + 1, |b| + 1]((i, j) => 0);
    Corner(a, b);
    var i := |a|;
    while i > 0
      invariant 0 <= i <= |a|
      invariant forall x, y :: i <= x <= |a| && 0 <= y <= |b| ==> t[x, y] == Lcs(a[x..], b[y..])
      invariant forall x :: 0 <= x <= |a| ==> t[x, |b|] == Lcs(a[x..], b[|b|..])
    {
      i := i - 1;
      var j := |b|;
      while j > 0
        invariant 0 <= j <= |b|
        invariant forall x, y :: i < x <= |a| && 0 <= y <= |b| ==> t[x, y] == Lcs(a[x..], b[y..])
        invariant forall y :: j <= y <= |b| ==> t[i, y] == Lcs(a[i..], b[y..])
        invariant forall x :: 0 <= x <= |a| ==> t[x, |b|] == Lcs(a[x..], b[|b|..])
      {
        j := j - 1;
        Cell(a, b, i, j);
        t[i, j] := if a[i] == b[j] then t[i + 1, j + 1] + 1
                   else if t[i + 1, j] < t[i, j + 1] then t[i, j + 1] else t[i + 1, j];
      }
    }
  }

  lemma Corner(a: seq<string>, b: seq<string>)
    ensures forall y :: 0 <= y <= |b| ==> Lcs(a[|a|..], b[y..]) == 0
    ensures forall x :: 0 <= x <= |a| ==> Lcs(a[x..], b[|b|..]) == 0
  {
  }

  lemma Cell(a: seq<string>, b: seq<string>, i: nat, j: nat)
    requires i < |a| && j < |b|
    ensures Lcs(a[i..], b[j..]) ==
      if a[i] == b[j] then Lcs(a[i + 1..], b[j + 1..]) + 1
      else if Lcs(a[i + 1..], b[j..]) < Lcs(a[i..], b[j + 1..]) then Lcs(a[i..], b[j + 1..])
      else Lcs(a[i + 1..], b[j..])
  {
    assert a[i..][1..] == a[i + 1..] && b[j..][1..] == b[j + 1..];
  }

  // ----- the comparison -----

  /** One line of the comparison: context ' ', only in the old text '-', only in the new '+'. */
  datatype DiffLine = DiffLine(origin: char, text: string, oldLine: int, newLine: int)

  /** The old text's lines, read off a comparison; likewise the new text's. */
  function OldSide(out: seq<DiffLine>): seq<string>
  {
    if out == [] then []
    else
      var last := out[|out| - 1];
      OldSide(out[..|out| - 1]) + if last.origin == '+' then [] else [last.text]
  }

  function NewSide(out: seq<DiffLine>): seq<string>
  {
    if out == [] then []
    else
      var last := out[|out| - 1];
      NewSide(out[..|out| - 1]) + if last.origin == '-' then [] else [last.text]
  }

  function Contexts(out: seq<DiffLine>): nat
  {
    if out == [] then 0 else Contexts(out[..|out| - 1]) + if out[|out| - 1].origin == ' ' then 1 else 0
  }

  /** Every line carries its own line number on each side it belongs to, -1 on the other. */
  ghost predicate Numbered(out: seq<DiffLine>)
  {
    forall k :: 0 <= k < |out| ==> NumberedAt(out, k)
  }

  ghost predicate NumberedAt(out: seq<DiffLine>, k: nat)
    requires k < |out|
  {
    && out[k].origin in {' ', '-', '+'}
    && out[k].oldLine == (if out[k].origin == '+' then -1 else |OldSide(out[..k])| + 1)
    && out[k].newLine == (if out[k].origin == '-' then -1 else |NewSide(out[..k])| + 1)
  }

  /** The comparison so far covers `i` lines of the old text and `j` of the new. */
  ghost predicate Covers(a: seq<string>, b: seq<string>, i: nat, j: nat, out: seq<DiffLine>)
    requires i <= |a| && j <= |b|
  {
    && OldSide(out) == BoundAll(a[..i]) && NewSide(out) == BoundAll(b[..j]) && Numbered(out)
    && |out| + Contexts(out) == i + j
  }

  /** How a comparison goes on after `i` old and `j` new lines: with a common line if both texts
      have one, and else with the new line if that loses no common line, before the old one. */
  ghost predicate Continues(a: seq<string>, b: seq<string>, i: nat, j: nat, origin: char)
  {
    && i <= |a| && j <= |b|
    && (origin == ' ' <==> i < |a| && j < |b| && a[i] == b[j])
    && (origin == '+' <==>
          && j < |b| && (i == |a| || a[i] != b[j])
          && (i == |a| || Lcs(a[i..], b[j + 1..]) >= Lcs(a[i + 1..], b[j..])))
  }

  /** Every line of the comparison is the one that has to come. */
  ghost predicate InTurn(a: seq<string>, b: seq<string>, out: seq<DiffLine>)
  {
    forall k :: 0 <= k < |out| ==> Continues(a, b, |OldSide(out[..k])|, |NewSide(out[..k])|, out[k].origin)
  }

  lemma InTurnSnoc(a: seq<string>, b: seq<string>, i: nat, j: nat, out: seq<DiffLine>, d: DiffLine)
    requires i <= |a| && j <= |b| && Covers(a, b, i, j, out) && InTurn(a, b, out)
    requires Continues(a, b, i, j, d.origin)
    ensures InTurn(a, b, out + [d])
  {
    hide OldSide, NewSide, Continues, Numbered, Contexts;
    var next := out + [d];
    forall k | 0 <= k < |next|
      ensures Continues(a, b, |OldSide(next[..k])|, |NewSide(next[..k])|, next[k].origin)
    {
      assert next[..k] == out[..k];
      if k == |out| { assert out[..k] == out; }
    }
  }

  lemma Snoc(out: seq<DiffLine>, d: DiffLine)
    ensures OldSide(out + [d]) == OldSide(out) + if d.origin == '+' then [] else [d.text]
    ensures NewSide(out + [d]) == NewSide(out) + if d.origin == '-' then [] else [d.text]
    ensures Contexts(out + [d]) == Contexts(out) + if d.origin == ' ' then 1 else 0
  {
    assert (out + [d])[..|out|] == out;
  }

  lemma NumberedSnoc(out: seq<DiffLine>, d: DiffLine)
    requires Numbered(out) && d.origin in {' ', '-', '+'}
    requires d.oldLine == (if d.origin == '+' then -1 else |OldSide(out)| + 1)
    requires d.newLine == (if d.origin == '-' then -1 else |NewSide(out)| + 1)
    ensures Numbered(out + [d])
  {
    hide OldSide, NewSide;
    var next := out + [d];
    forall k | 0 <= k < |next|
      ensures NumberedAt(next, k)
    {
      assert next[..k] == out[..k];
      if k < |out| { assert NumberedAt(out, k); } else { assert out[..k] == out; }
    }
  }

  lemma BoundSnoc(lines: seq<string>, i: nat)
    requires i < |lines|
    ensures BoundAll(lines[..i + 1]) == BoundAll(lines[..i]) + [Bounded(lines[i])]
    ensures HasLong(lines[..i + 1]) <==> HasLong(lines[..i]) || |lines[i]| > MAX_LINE
  {
    hide Bounded;
    var s := lines[..i + 1];
    assert forall k :: 0 <= k < i ==> lines[..i][k] == s[k];
    if |lines[i]| > MAX_LINE { assert |s[i]| > MAX_LINE; }
    if HasLong(lines[..i]) {
      var k :| 0 <= k < i && |lines[..i][k]| > MAX_LINE;
      assert |s[k]| > MAX_LINE;
    }
  }

  /** The three ways the walk goes on. */
  lemma CoverContext(a: seq<string>, b: seq<string>, i: nat, j: nat, out: seq<DiffLine>)
    requires i < |a| && j < |b| && a[i] == b[j] && Covers(a, b, i, j, out)
    ensures var d := DiffLine(' ', Bounded(a[i]), i + 1, j + 1);
      Covers(a, b, i + 1, j + 1, out + [d]) && Contexts(out + [d]) == Contexts(out) + 1
  {
    hide BoundAll, Bounded, OldSide, NewSide, Contexts, Numbered;
    Snoc(out, DiffLine(' ', Bounded(a[i]), i + 1, j + 1));
    BoundSnoc(a, i);
    BoundSnoc(b, j);
    NumberedSnoc(out, DiffLine(' ', Bounded(a[i]), i + 1, j + 1));
  }

  lemma CoverPlus(a: seq<string>, b: seq<string>, i: nat, j: nat, out: seq<DiffLine>)
    requires i <= |a| && j < |b| && Covers(a, b, i, j, out)
    ensures var d := DiffLine('+', Bounded(b[j]), -1, j + 1);
      Covers(a, b, i, j + 1, out + [d]) && Contexts(out + [d]) == Contexts(out)
  {
    hide BoundAll, Bounded, OldSide, NewSide, Contexts, Numbered;
    var d := DiffLine('+', Bounded(b[j]), -1, j + 1);
    Snoc(out, d);
    BoundSnoc(b, j);
    NumberedSnoc(out, d);
  }

  lemma CoverMinus(a: seq<string>, b: seq<string>, i: nat, j: nat, out: seq<DiffLine>)
    requires i < |a| && j <= |b| && Covers(a, b, i, j, out)
    ensures var d := DiffLine('-', Bounded(a[i]), i + 1, -1);
      Covers(a, b, i + 1, j, out + [d]) && Contexts(out + [d]) == Contexts(out)
  {
    hide BoundAll, Bounded, OldSide, NewSide, Contexts, Numbered;
    var d := DiffLine('-', Bounded(a[i]), i + 1, -1);
    Snoc(out, d);
    BoundSnoc(a, i);
    NumberedSnoc(out, d);
  }

  const MAX_LINES: nat := 5000

  /** The two line lists are too long for a table. */
  predicate TooLarge(a: seq<string>, b: seq<string>)
  {
    a != [] && |b| > 1000000 / |a|
  }

  /** The guard divides, to the same effect. */
  lemma TooLargeExact(a: seq<string>, b: seq<string>)
    ensures TooLarge(a, b) <==> |a| * |b| > 1000000
  {
    if a != [] { Quotient(|a|, |b|, 1000000); }
  }

  lemma Quotient(m: nat, n: nat, limit: nat)
    requires m > 0
    ensures n > limit / m <==> m * n > limit
  {
    var q := limit / m;
    assert m * q <= limit < m * q + m;
    if n > q { Scaled(m, q + 1, n); } else { Scaled(m, n, q); }
  }

  lemma Scaled(m: nat, p: nat, q: nat)
    requires p <= q
    ensures m * p <= m * q
  {
  }

  /** How many lines the whole comparison has. */
  function Total(a: seq<string>, b: seq<string>): int
  {
    |a| + |b| - if TooLarge(a, b) then 0 else Lcs(a, b)
  }

  /** What is promised of a comparison, cut short or not. */
  ghost predicate Truthful(a: seq<string>, b: seq<string>, out: seq<DiffLine>)
  {
    && OldSide(out) <= BoundAll(a) && NewSide(out) <= BoundAll(b) && Numbered(out) && |out| <= MAX_LINES
  }

  lemma CoversTruthful(a: seq<string>, b: seq<string>, i: nat, j: nat, out: seq<DiffLine>)
    requires i <= |a| && j <= |b| && Covers(a, b, i, j, out) && |out| <= MAX_LINES
    ensures Truthful(a, b, out)
  {
    hide Bounded, Numbered, OldSide, NewSide;
    assert BoundAll(a[..i]) == BoundAll(a)[..i] && BoundAll(b[..j]) == BoundAll(b)[..j];
  }

  /** The fallback: every old line goes, every new line comes. */
  method ReplaceAll(a: seq<string>, b: seq<string>) returns (out: seq<DiffLine>, truncated: bool)
    ensures Truthful(a, b, out) && Contexts(out) == 0
    ensures truncated <==> |a| + |b| > MAX_LINES || HasLong(a) || HasLong(b)
    ensures |out| == if |a| + |b| > MAX_LINES then MAX_LINES else |a| + |b|
    ensures !truncated ==> OldSide(out) == a && NewSide(out) == b
    ensures forall k :: 0 <= k < |out| ==> out[k].origin == if k < |a| then '-' else '+'
  {
    hide BoundAll, Bounded, OldSide, NewSide, Contexts, Numbered, Truthful, HasLong, Covers;
    out, truncated := [], false;
    NothingYet(a, b);
    for i := 0 to |a|
      invariant Covers(a, b, i, 0, out) && |out| == i <= MAX_LINES && Contexts(out) == 0
      invariant (truncated <==> HasLong(a[..i])) && forall k :: 0 <= k < i ==> out[k].origin == '-'
    {
      if |out| == MAX_LINES {
        CoversTruthful(a, b, i, 0, out);
        return out, true;
      }
      CoverMinus(a, b, i, 0, out);
      BoundSnoc(a, i);
      out := out + [DiffLine('-', Bounded(a[i]), i + 1, -1)];
      truncated := truncated || |a[i]| > MAX_LINE;
    }
    assert a[..|a|] == a;
    for j := 0 to |b|
      invariant Covers(a, b, |a|, j, out) && |out| == |a| + j <= MAX_LINES && Contexts(out) == 0
      invariant truncated <==> HasLong(a) || HasLong(b[..j])
      invariant forall k :: 0 <= k < |out| ==> out[k].origin == if k < |a| then '-' else '+'
    {
      if |out| == MAX_LINES {
        CoversTruthful(a, b, |a|, j, out);
        return out, true;
      }
      CoverPlus(a, b, |a|, j, out);
      BoundSnoc(b, j);
      out := out + [DiffLine('+', Bounded(b[j]), -1, j + 1)];
      truncated := truncated || |b[j]| > MAX_LINE;
    }
    assert b[..|b|] == b;
    CoversTruthful(a, b, |a|, |b|, out);
    CoversAll(a, b, out);
  }

  lemma NothingYet(a: seq<string>, b: seq<string>)
    ensures Covers(a, b, 0, 0, []) && Contexts([]) == 0 && !HasLong(a[..0]) && !HasLong(b[..0])
  {
  }

  lemma CoversAll(a: seq<string>, b: seq<string>, out: seq<DiffLine>)
    requires Covers(a, b, |a|, |b|, out)
    ensures !HasLong(a) && !HasLong(b) ==> OldSide(out) == a && NewSide(out) == b
    ensures |out| + Contexts(out) == |a| + |b|
  {
    hide BoundAll, OldSide, NewSide, Numbered, HasLong, Contexts;
    assert a[..|a|] == a && b[..|b|] == b;
    BoundAllSame(a);
    BoundAllSame(b);
  }

  /** The walk through the table keeps a longest common subsequence as context. */
  method WalkTable(a: seq<string>, b: seq<string>, t: array2<nat>) returns (out: seq<DiffLine>, truncated: bool)
    requires t.Length0 == |a| + 1 && t.Length1 == |b| + 1
    requires forall i, j :: 0 <= i <= |a| && 0 <= j <= |b| ==> t[i, j] == Lcs(a[i..], b[j..])
    ensures Truthful(a, b, out)
    ensures truncated <==> |a| + |b| - Lcs(a, b) > MAX_LINES || HasLong(a) || HasLong(b)
    ensures |out| == if |a| + |b| - Lcs(a, b) > MAX_LINES then MAX_LINES else |a| + |b| - Lcs(a, b)
    ensures !truncated ==> OldSide(out) == a && NewSide(out) == b
    ensures |a| + |b| - Lcs(a, b) <= MAX_LINES ==> Contexts(out) == Lcs(a, b)
    ensures InTurn(a, b, out)
  {
    hide BoundAll, Bounded, OldSide, NewSide, Contexts, Numbered, Truthful, HasLong, Lcs, Covers, InTurn, Continues;
    out, truncated := [], false;
    var i, j := 0, 0;
    NothingYet(a, b);
    NoneInTurn(a, b);
    assert a[0..] == a && b[0..] == b;
    while i < |a| || j < |b|
      invariant i <= |a| && j <= |b| && Covers(a, b, i, j, out) && |out| <= MAX_LINES
      invariant Contexts(out) + Lcs(a[i..], b[j..]) == Lcs(a, b)
      invariant (truncated <==> HasLong(a[..i]) || HasLong(b[..j])) && InTurn(a, b, out)
      decreases |a| - i + |b| - j
    {
      LcsSmall(a[i..], b[j..]);
      CoversCount(a, b, i, j, out);
      if |out| == MAX_LINES {
        CoversTruthful(a, b, i, j, out);
        return out, true;
      }
      if i < |a| && j < |b| && a[i] == b[j] {
        CoverContext(a, b, i, j, out);
        Cell(a, b, i, j);
        BoundSnoc(a, i);
        BoundSnoc(b, j);
        TurnIs(a, b, i, j);
        InTurnSnoc(a, b, i, j, out, DiffLine(' ', Bounded(a[i]), i + 1, j + 1));
        out := out + [DiffLine(' ', Bounded(a[i]), i + 1, j + 1)];
        truncated := truncated || |a[i]| > MAX_LINE;
        i, j := i + 1, j + 1;
      } else if j < |b| && (i == |a| || t[i, j + 1] >= t[i + 1, j]) {
        CoverPlus(a, b, i, j, out);
        if i < |a| { Cell(a, b, i, j); } else { Corner(a, b); }
        BoundSnoc(b, j);
        TurnIs(a, b, i, j);
        InTurnSnoc(a, b, i, j, out, DiffLine('+', Bounded(b[j]), -1, j + 1));
        out := out + [DiffLine('+', Bounded(b[j]), -1, j + 1)];
        truncated := truncated || |b[j]| > MAX_LINE;
        j := j + 1;
      } else {
        CoverMinus(a, b, i, j, out);
        if j < |b| { Cell(a, b, i, j); } else { Corner(a, b); }
        BoundSnoc(a, i);
        TurnIs(a, b, i, j);
        InTurnSnoc(a, b, i, j, out, DiffLine('-', Bounded(a[i]), i + 1, -1));
        out := out + [DiffLine('-', Bounded(a[i]), i + 1, -1)];
        truncated := truncated || |a[i]| > MAX_LINE;
        i := i + 1;
      }
    }
    assert a[..|a|] == a && b[..|b|] == b;
    Corner(a, b);
    CoversTruthful(a, b, |a|, |b|, out);
    CoversAll(a, b, out);
  }

  lemma NoneInTurn(a: seq<string>, b: seq<string>)
    ensures InTurn(a, b, [])
  {
  }

  /** Which line has to come. */
  lemma TurnIs(a: seq<string>, b: seq<string>, i: nat, j: nat)
    requires i <= |a| && j <= |b| && (i < |a| || j < |b|)
    ensures var common := i < |a| && j < |b| && a[i] == b[j];
      var new_ := !common && j < |b| && (i == |a| || Lcs(a[i..], b[j + 1..]) >= Lcs(a[i + 1..], b[j..]));
      Continues(a, b, i, j, if common then ' ' else if new_ then '+' else '-')
  {
    hide Lcs;
  }

  lemma CoversCount(a: seq<string>, b: seq<string>, i: nat, j: nat, out: seq<DiffLine>)
    requires i <= |a| && j <= |b| && Covers(a, b, i, j, out)
    ensures |out| + Contexts(out) == i + j
  {
    hide Contexts;
  }

  /** `line_diff`: a comparison not cut short gives back both texts, and keeps as much of them
      common as any comparison can. It is cut short exactly when it would have more than 5,000
      lines or one of the lines is too long. */
  method Diff(oldText: string, newText: string)
    returns (out: seq<DiffLine>, truncated: bool, ghost a: seq<string>, ghost b: seq<string>)
    ensures LinesOf(oldText, a) && LinesOf(newText, b) && Truthful(a, b, out)
    ensures truncated <==> Total(a, b) > 5000 || HasLong(a) || HasLong(b)
    ensures |out| == if Total(a, b) > 5000 then 5000 else Total(a, b)
    ensures !truncated ==> JoinLines(OldSide(out)) == oldText && JoinLines(NewSide(out)) == newText
    ensures |a| * |b| <= 1000000 ==> InTurn(a, b, out)
    ensures |a| * |b| > 1000000 ==> forall k :: 0 <= k < |out| ==> out[k].origin == if k < |a| then '-' else '+'
    ensures |a| * |b| <= 1000000 && Total(a, b) <= 5000 ==>
      Contexts(out) == Lcs(a, b) && forall c :: Sub(c, a) && Sub(c, b) ==> |c| <= Contexts(out)
  {
    hide InTurn, Truthful, HasLong, OldSide, NewSide, Contexts, Lcs, JoinLines, Sub;
    var before := SplitLines(oldText);
    var after := SplitLines(newText);
    a, b := before, after;
    TooLargeExact(a, b);
    if TooLarge(before, after) {
      out, truncated := ReplaceAll(before, after);
    } else {
      var t := FillTable(before, after);
      out, truncated := WalkTable(before, after, t);
      forall c | Sub(c, a) && Sub(c, b)
        ensures |c| <= Lcs(a, b)
      {
        LcsBounds(a, b, c);
      }
    }
  }
}
