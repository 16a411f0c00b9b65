/** Cleaning of the concatenated footprint replies (app.py 261-279). The replies
    to the separate blocks each repeat a table header and alignment rows, and may
    carry stray short lines; only the first header survives, alignment rows and
    short lines are dropped, and every other line is kept in order. */
module ReplyFilter {
  import opened Wrappers
  import opened Seqs
  import opened Text

  /** A header line names both ID and Material and holds a cell bar. */
  predicate IsHeader(line: string)
  {
    Contains(line, "ID") && Contains(line, "Material") && '|' in line
  }

  /** A character of the class `[:\-\s\|]`. */
  predicate IsAlignmentChar(c: char)
  {
    c == ':' || c == '-' || c == '|' || IsSpace(c)
  }

  /** `re.fullmatch(r"[:\-\s\|]+", line)`: a markdown alignment row. */
  predicate IsAlignment(line: string)
  {
    |line| > 0 && forall i :: 0 <= i < |line| ==> IsAlignmentChar(line[i])
  }

  /** A character of the class `[a-zA-Z0-9\$\-_]`. */
  predicate IsTokenChar(c: char)
  {
    ('a' <= c <= 'z') || ('A' <= c <= 'Z') || IsDigit(c) || c == '$' || c == '-' || c == '_'
  }

  /** `re.fullmatch(r"[a-zA-Z0-9\$\-_]{1,6}", s)`. */
  predicate IsShortToken(s: string)
  {
    1 <= |s| <= 6 && forall i :: 0 <= i < |s| ==> IsTokenChar(s[i])
  }

  /** A line too short to be a table row. */
  predicate IsNoise(line: string)
  {
    |Strip(line)| < 10 || IsShortToken(Strip(line))
  }

  /** The short-token test never decides anything: such a token is already short. */
  lemma ShortTokenIsShort(line: string)
    ensures IsNoise(line) <==> |Strip(line)| < 10
  {
  }

  /** A non-header line that survives the filter. */
  predicate Keepable(line: string)
  {
    !IsHeader(line) && !IsAlignment(line) && !IsNoise(line)
  }

  /** Index of the first header line. */
  function FirstHeader(lines: seq<string>): Option<nat>
  {
    FirstWhere(lines, IsHeader)
  }

  /** The lines a filter keeps that retains the first line `hd` accepts and
      otherwise the lines `keep` accepts. */
  function KeepFirst<T>(lines: seq<T>, hd: T -> bool, keep: T -> bool): seq<T>
  {
    match FirstWhere(lines, hd)
    case None => Filter(lines, keep)
    case Some(h) => Filter(lines[..h], keep) + [lines[h]] + Filter(lines[h + 1..], keep)
  }

  /** Reading one more line extends the kept lines by that line exactly when it is
      the first one `hd` accepts or one `keep` accepts. */
  lemma KeepFirstSnoc<T>(lines: seq<T>, x: T, hd: T -> bool, keep: T -> bool)
    requires keep(x) ==> !hd(x)
    ensures KeepFirst(lines + [x], hd, keep) ==
      KeepFirst(lines, hd, keep) + if (hd(x) && FirstWhere(lines, hd).None?) || keep(x) then [x] else []
  {
    FilterSingle(x, keep);
    match FirstWhere(lines, hd)
    case Some(h) => KeepFirstSnocAfter(lines, x, hd, keep, h);
    case None =>
      if hd(x) {
        KeepFirstSnocHeader(lines, x, hd, keep);
      } else {
        KeepFirstSnocBefore(lines, x, hd, keep);
      }
  }

  lemma KeepFirstSnocAfter<T>(lines: seq<T>, x: T, hd: T -> bool, keep: T -> bool, h: nat)
    requires FirstWhere(lines, hd) == Some(h)
    ensures KeepFirst(lines + [x], hd, keep) == KeepFirst(lines, hd, keep) + Filter([x], keep)
  {
    var l := lines + [x];
    FirstWhereSnoc(lines, x, hd);
    assert FirstWhere(l, hd) == Some(h);
    assert l[..h] == lines[..h] && l[h] == lines[h];
    assert l[h + 1..] == lines[h + 1..] + [x];
    FilterAppend(lines[h + 1..], [x], keep);
    var a := Filter(lines[..h], keep);
    var b := Filter(lines[h + 1..], keep);
    assert KeepFirst(lines, hd, keep) == a + [lines[h]] + b;
    assert KeepFirst(l, hd, keep) == a + [lines[h]] + (b + Filter([x], keep));
    AppendAssoc(a + [lines[h]], b, Filter([x], keep));
  }

  lemma KeepFirstSnocHeader<T>(lines: seq<T>, x: T, hd: T -> bool, keep: T -> bool)
    requires FirstWhere(lines, hd) == None && hd(x)
    ensures KeepFirst(lines + [x], hd, keep) == KeepFirst(lines, hd, keep) + [x]
  {
    var l := lines + [x];
    FirstWhereSnoc(lines, x, hd);
    assert l[..|lines|] == lines;
    assert l[|lines| + 1..] == [];
  }

  lemma KeepFirstSnocBefore<T>(lines: seq<T>, x: T, hd: T -> bool, keep: T -> bool)
    requires FirstWhere(lines, hd) == None && !hd(x)
    ensures KeepFirst(lines + [x], hd, keep) == KeepFirst(lines, hd, keep) + Filter([x], keep)
  {
    FirstWhereSnoc(lines, x, hd);
    FilterAppend(lines, [x], keep);
  }

  /** The kept lines: the keepable lines before the first header, that header,
      and the keepable lines after it. */
  function Kept(lines: seq<string>): seq<string>
  {
    KeepFirst(lines, IsHeader, Keepable)
  }

  /** The filtering loop of app.py 263-277 over the reply's lines. */
  method FilterLines(lines: seq<string>) returns (kept: seq<string>)
    ensures kept == Kept(lines)
  {
    kept := [];
    var headerUsed := false;
    var i := 0;
    while i < |lines|
      invariant 0 <= i <= |lines|
      invariant headerUsed == FirstHeader(lines[..i]).Some?
      invariant kept == Kept(lines[..i])
    {
      var line := lines[i];
      assert lines[..i + 1] == lines[..i] + [line];
      KeepFirstSnoc(lines[..i], line, IsHeader, Keepable);
      FirstWhereSnoc(lines[..i], line, IsHeader);
      if IsHeader(line) {
        if !headerUsed {
          kept := kept + [line];
          headerUsed := true;
        }
      } else if IsAlignment(line) {
        assert !Keepable(line);
      } else if IsNoise(line) {
        assert !Keepable(line);
      } else {
        assert Keepable(line);
        kept := kept + [line];
      }
      i := i + 1;
    }
    assert lines[..|lines|] == lines;
  }

  /** app.py 261-279: the reply is stripped and cut at line breaks, the lines are
      filtered, and the kept ones are joined again. */
  method CleanReply(total: string) returns (cleaned: string)
    ensures cleaned == Join(Kept(Split(Strip(total), "\n")), "\n")
  {
    var kept := FilterLines(Split(Strip(total), "\n"));
    cleaned := Join(kept, "\n");
  }

  /** The kept lines are some of the input lines, in their original order. */
  lemma KeptIsSubSeq(lines: seq<string>)
    ensures SubSeq(Kept(lines), lines)
  {
    KeepFirstSubSeq(lines, IsHeader, Keepable);
  }

  lemma KeepFirstSubSeq<T>(lines: seq<T>, hd: T -> bool, keep: T -> bool)
    ensures SubSeq(KeepFirst(lines, hd, keep), lines)
  {
    match FirstWhere(lines, hd)
    case None =>
      FilterIsSubSeq(lines, keep);
    case Some(h) =>
      FilterIsSubSeq(lines[..h], keep);
      FilterIsSubSeq(lines[h + 1..], keep);
      SubSeqRefl([lines[h]]);
      SubSeqConcat(Filter(lines[..h], keep), lines[..h], [lines[h]], [lines[h]]);
      SubSeqConcat(Filter(lines[..h], keep) + [lines[h]], lines[..h] + [lines[h]],
                   Filter(lines[h + 1..], keep), lines[h + 1..]);
      assert lines[..h] + [lines[h]] + lines[h + 1..] == lines;
  }

  /** At most one kept line is a header, and it is the first header of the input;
      every other kept line is at least ten characters once stripped and is not an
      alignment row. */
  lemma KeptLines(lines: seq<string>)
    ensures var k := Kept(lines);
      forall j :: 0 <= j < |k| ==>
        if IsHeader(k[j]) then FirstHeader(lines).Some? && k[j] == lines[FirstHeader(lines).value]
        else |Strip(k[j])| >= 10 && !IsAlignment(k[j])
  {
    var k := Kept(lines);
    forall j | 0 <= j < |k|
      ensures if IsHeader(k[j]) then FirstHeader(lines).Some? && k[j] == lines[FirstHeader(lines).value]
              else |Strip(k[j])| >= 10 && !IsAlignment(k[j])
    {
      match FirstHeader(lines)
      case None =>
        FilterMembers(lines, Keepable);
        assert k[j] in Filter(lines, Keepable);
      case Some(h) =>
        var a := Filter(lines[..h], Keepable);
        var b := Filter(lines[h + 1..], Keepable);
        FilterMembers(lines[..h], Keepable);
        FilterMembers(lines[h + 1..], Keepable);
        assert k == a + [lines[h]] + b;
        if j < |a| {
          assert k[j] in a;
        } else if j > |a| {
          assert k[j] == b[j - |a| - 1];
          assert k[j] in b;
        }
    }
  }

  /** No two kept lines are headers. */
  lemma KeptHasOneHeader(lines: seq<string>)
    ensures var k := Kept(lines);
      forall i, j :: 0 <= i < j < |k| ==> !(IsHeader(k[i]) && IsHeader(k[j]))
  {
    var k := Kept(lines);
    match FirstHeader(lines)
    case None =>
      FilterMembers(lines, Keepable);
      forall i | 0 <= i < |k|
        ensures Keepable(k[i])
      {
        assert k[i] in Filter(lines, Keepable);
      }
    case Some(h) =>
      var a := Filter(lines[..h], Keepable);
      var b := Filter(lines[h + 1..], Keepable);
      FilterMembers(lines[..h], Keepable);
      FilterMembers(lines[h + 1..], Keepable);
      assert k == a + [lines[h]] + b;
      AroundKeepable(a, lines[h], b);
  }

  /** In `a + [x] + b` with `a` and `b` keepable, every position but that of `x`
      holds a keepable line. */
  lemma AroundKeepable(a: seq<string>, x: string, b: seq<string>)
    requires forall y :: y in a ==> Keepable(y)
    requires forall y :: y in b ==> Keepable(y)
    ensures forall m :: 0 <= m < |a + [x] + b| && m != |a| ==> Keepable((a + [x] + b)[m])
  {
    var k := a + [x] + b;
    forall m | 0 <= m < |k| && m != |a|
      ensures Keepable(k[m])
    {
      if m < |a| {
        assert k[m] == a[m];
      } else {
        assert k[m] == b[m - |a| - 1];
      }
    }
  }

  /** Every keepable input line is kept. */
  lemma KeepableKept(lines: seq<string>, i: nat)
    requires i < |lines| && Keepable(lines[i])
    ensures lines[i] in Kept(lines)
  {
    match FirstHeader(lines)
    case None =>
      FilterMembers(lines, Keepable);
    case Some(h) =>
      FilterMembers(lines[..h], Keepable);
      FilterMembers(lines[h + 1..], Keepable);
      if i < h {
        assert lines[i] == lines[..h][i];
      } else {
        assert lines[i] == lines[h + 1..][i - h - 1];
      }
  }
}
