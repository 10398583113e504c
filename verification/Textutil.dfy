/** textutil: indent and undent, and the one thing the change log printer relies on: they move only blanks. */
module Textutil {
  import opened TclText

  function NonBlank(lines: Lines): Lines {
    if lines == [] then []
    else NonBlank(lines[..|lines| - 1]) + if Trim(lines[|lines| - 1]) == "" then [] else [lines[|lines| - 1]]
  }

  function CommonPrefix(a: string, b: string): string {
    if a != "" && b != "" && a[0] == b[0] then [a[0]] + CommonPrefix(a[1..], b[1..]) else ""
  }

  /** The longest common prefix of all lines. */
  function CommonPrefixes(lines: Lines): string {
    if lines == [] then ""
    else if |lines| == 1 then lines[0]
    else CommonPrefix(CommonPrefixes(lines[..|lines| - 1]), lines[|lines| - 1])
  }

  function LeadingBlanks(s: string): nat {
    if s != "" && s[0] == ' ' then 1 + LeadingBlanks(s[1..]) else 0
  }

  function DropFirst(s: string, k: nat): string {
    if k <= |s| then s[k..] else ""
  }

  function DropLine(l: string, k: nat): string {
    if Trim(l) == "" then "" else DropFirst(l, k)
  }

  function DropAll(lines: Lines, k: nat): (r: Lines)
    ensures |r| == |lines|
    ensures forall i :: 0 <= i < |lines| ==> r[i] == DropLine(lines[i], k)
  {
    if lines == [] then [] else DropAll(lines[..|lines| - 1], k) + [DropLine(lines[|lines| - 1], k)]
  }

  /** The number of blanks that all lines of the text start with, blank lines aside. */
  function Margin(text: string): nat {
    LeadingBlanks(CommonPrefixes(NonBlank(Split(text))))
  }

  function Undent(text: string): string {
    if text == "" || Margin(text) == 0 then text else Join(DropAll(Split(text), Margin(text)))
  }

  function IndentLine(prefix: string, l: string): string {
    if Trim(l) == "" then "" else prefix + TrimRight(l)
  }

  function IndentAll(prefix: string, lines: Lines): (r: Lines)
    ensures |r| == |lines|
    ensures forall i :: 0 <= i < |lines| ==> r[i] == IndentLine(prefix, lines[i])
  {
    if lines == [] then []
    else IndentAll(prefix, lines[..|lines| - 1]) + [IndentLine(prefix, lines[|lines| - 1])]
  }

  function Indent(text: string, prefix: string): string {
    Join(IndentAll(prefix, Split(TrimRight(text))))
  }

  // What indent makes of undented text, line by line

  /** The lines without the blank ones at the end. */
  function Chop(lines: Lines): Lines {
    if lines != [] && Trim(lines[|lines| - 1]) == "" then Chop(lines[..|lines| - 1]) else lines
  }

  lemma {:induction false} LeadingBlanksAre(s: string)
    ensures LeadingBlanks(s) <= |s| && AllSpace(s[..LeadingBlanks(s)])
  {
    if s != "" && s[0] == ' ' {
      LeadingBlanksAre(s[1..]);
      assert s[..LeadingBlanks(s)] == [s[0]] + s[1..][..LeadingBlanks(s[1..])];
    }
  }

  lemma {:induction false} CommonPrefixIs(a: string, b: string)
    ensures CommonPrefix(a, b) <= a && CommonPrefix(a, b) <= b
  {
    if a != "" && b != "" && a[0] == b[0] {
      CommonPrefixIs(a[1..], b[1..]);
      assert a == [a[0]] + a[1..] && b == [b[0]] + b[1..];
    }
  }

  lemma {:induction false} CommonPrefixesAre(lines: Lines, i: nat)
    requires i < |lines|
    ensures CommonPrefixes(lines) <= lines[i]
  {
    if |lines| > 1 {
      var init := lines[..|lines| - 1];
      CommonPrefixIs(CommonPrefixes(init), lines[|lines| - 1]);
      if i < |init| {
        CommonPrefixesAre(init, i);
      }
    }
  }

  lemma {:induction false} NonBlankHas(lines: Lines, i: nat)
    requires i < |lines| && Trim(lines[i]) != ""
    ensures lines[i] in NonBlank(lines)
  {
    if i < |lines| - 1 {
      NonBlankHas(lines[..|lines| - 1], i);
    }
  }

  /** Every line that is not blank starts with the margin. */
  lemma MarginFits(text: string, i: nat)
    requires i < |Split(text)| && Trim(Split(text)[i]) != ""
    ensures Margin(text) <= |Split(text)[i]| && AllSpace(Split(text)[i][..Margin(text)])
  {
    var lines, ne := Split(text), NonBlank(Split(text));
    NonBlankHas(lines, i);
    var j :| 0 <= j < |ne| && ne[j] == lines[i];
    CommonPrefixesAre(ne, j);
    LeadingBlanksAre(CommonPrefixes(ne));
    var k := Margin(text);
    assert lines[i][..k] == CommonPrefixes(ne)[..k];
  }

  /** Two lists of lines that differ only in blanks at the ends of their lines. */
  ghost predicate SameTrimmed(a: Lines, b: Lines) {
    |a| == |b| && forall i :: 0 <= i < |a| ==> Trim(a[i]) == Trim(b[i])
  }

  lemma {:induction false} UndentSame(text: string)
    ensures SameTrimmed(Split(Undent(text)), Split(text))
  {
    var lines, k := Split(text), Margin(text);
    if text != "" && k != 0 {
      forall i | 0 <= i < |lines| && Trim(lines[i]) != ""
        ensures k <= |lines[i]| && AllSpace(lines[i][..k])
      {
        MarginFits(text, i);
      }
      SplitGivesLines(text);
      DroppedSame(lines, k);
      SplitJoin(DropAll(lines, k));
      SplitAllLines(DropAll(lines, k));
    }
  }

  lemma DroppedSame(lines: Lines, k: nat)
    requires AllOneLine(lines)
    requires forall i :: 0 <= i < |lines| && Trim(lines[i]) != "" ==> k <= |lines[i]| && AllSpace(lines[i][..k])
    ensures SameTrimmed(DropAll(lines, k), lines) && AllOneLine(DropAll(lines, k))
  {
    forall i | 0 <= i < |lines|
      ensures Trim(DropLine(lines[i], k)) == Trim(lines[i]) && OneLine(DropLine(lines[i], k))
    {
      if Trim(lines[i]) != "" {
        LineDropped(lines[i], k);
      }
    }
  }

  lemma LineDropped(l: string, k: nat)
    requires OneLine(l) && k <= |l| && AllSpace(l[..k])
    ensures Trim(DropFirst(l, k)) == Trim(l) && OneLine(DropFirst(l, k))
  {
    TrimAfter(l[..k], l[k..]);
    assert l == l[..k] + l[k..];
  }

  lemma {:induction false} ChopSame(a: Lines, b: Lines)
    requires SameTrimmed(a, b)
    ensures SameTrimmed(Chop(a), Chop(b))
  {
    if a != [] && Trim(a[|a| - 1]) == "" {
      ChopSame(a[..|a| - 1], b[..|b| - 1]);
    }
  }

  lemma JoinSnoc(lines: Lines, l: string)
    requires lines != []
    ensures Join(lines + [l]) == Join(lines) + (['\n'] + l)
  {
    assert (lines + [l])[..|lines|] == lines;
    assert Join(lines) + ['\n'] + l == Join(lines) + (['\n'] + l);
  }

  /** Trimming joined lines at the right drops the blank lines at the end and trims the one before them. */
  lemma {:induction false} TrimRightJoin(lines: Lines)
    requires lines != [] && AllOneLine(lines)
    ensures Chop(lines) == [] ==> TrimRight(Join(lines)) == ""
    ensures Chop(lines) != [] ==>
              var k := |Chop(lines)| - 1;
              Split(TrimRight(Join(lines))) == Chop(lines)[..k] + [TrimRight(Chop(lines)[k])]
  {
    var init, l := lines[..|lines| - 1], lines[|lines| - 1];
    TrimEnds(l);
    if init == [] {
      TrimRightSplits(l);
      assert lines == [l];
      SplitOneLine(TrimRight(l));
    } else {
      JoinSnoc(init, l);
      assert init + [l] == lines;
      if Trim(l) == "" {
        TrimRightOf(Join(init), ['\n'] + l);
        TrimRightJoin(init);
      } else {
        LastLine(init, l);
      }
    }
  }

  lemma LastLine(init: Lines, l: string)
    requires init != [] && AllOneLine(init) && OneLine(l) && !AllSpace(l)
    ensures Split(TrimRight(Join(init) + (['\n'] + l))) == init + [TrimRight(l)]
  {
    TrimRightStops(['\n'], l);
    assert !AllSpace(['\n'] + l) by {
      var i :| 0 <= i < |l| && !IsSpace(l[i]);
      assert (['\n'] + l)[i + 1] == l[i];
    }
    TrimRightStops(Join(init), ['\n'] + l);
    TrimRightSplits(l);
    SplitConcat(Join(init), TrimRight(l));
    assert Join(init) + ['\n'] + TrimRight(l) == Join(init) + (['\n'] + TrimRight(l));
    SplitJoin(init);
    SplitAllLines(init);
    SplitOneLine(TrimRight(l));
  }

  /** An indented line: nothing where the original is blank, otherwise the prefix and the same words. */
  ghost predicate Indented(prefix: string, was: string, l: string) {
    Trim(l) == Trim(was) && (Trim(was) == "" ==> l == "") && (Trim(was) != "" ==> prefix <= l)
  }

  /**
   The lines of indent applied to undented text are the lines of the text without the blank ones at
   the end, indented; and one empty line when there are no others.
   */
  lemma IndentUndent(text: string, prefix: string)
    requires AllSpace(prefix) && OneLine(prefix)
    ensures var chopped := Chop(Split(text));
            var out := Split(Indent(Undent(text), prefix));
            && (chopped == [] ==> out == [""])
            && (chopped != [] ==>
                  |out| == |chopped| && forall i :: 0 <= i < |out| ==> Indented(prefix, chopped[i], out[i]))
  {
    UndentSame(text);
    ChopSame(Split(Undent(text)), Split(text));
    IndentLines(Undent(text), prefix);
  }

  lemma IndentLines(text: string, prefix: string)
    requires AllSpace(prefix) && OneLine(prefix)
    ensures var chopped := Chop(Split(text));
            var out := Split(Indent(text, prefix));
            && (chopped == [] ==> out == [""])
            && (chopped != [] ==>
                  |out| == |chopped| && forall i :: 0 <= i < |out| ==> Indented(prefix, chopped[i], out[i]))
  {
    BodyLines(text);
    var chopped, body := Chop(Split(text)), Split(TrimRight(text));
    if chopped == [] {
    } else {
      IndentedBody(prefix, chopped, body);
    }
  }

  /** Text trimmed at the right: its lines are those up to the last one that is not blank, and that one is trimmed. */
  lemma BodyLines(text: string)
    ensures var chopped, body := Chop(Split(text)), Split(TrimRight(text));
            && AllOneLine(body)
            && (chopped == [] ==> TrimRight(text) == "")
            && (chopped != [] ==>
                  |body| == |chopped|
                  && forall i :: 0 <= i < |body| ==> body[i] == chopped[i] || body[i] == TrimRight(chopped[i]))
  {
    var lines := Split(text);
    SplitGivesLines(text);
    SplitGivesLines(TrimRight(text));
    JoinSplit(text);
    TrimRightJoin(lines);
    assert Join(lines) == text;
    if Chop(lines) != [] {
      LastTrimmed(Chop(lines), Split(TrimRight(text)));
    }
  }

  lemma LastTrimmed(chopped: Lines, body: Lines)
    requires chopped != [] && body == chopped[..|chopped| - 1] + [TrimRight(chopped[|chopped| - 1])]
    ensures |body| == |chopped| && forall i :: 0 <= i < |body| ==> body[i] == chopped[i] || body[i] == TrimRight(chopped[i])
  {
  }

  lemma IndentedBody(prefix: string, was: Lines, body: Lines)
    requires AllSpace(prefix) && OneLine(prefix) && body != [] && AllOneLine(body)
    requires |body| == |was| && forall i :: 0 <= i < |body| ==> body[i] == was[i] || body[i] == TrimRight(was[i])
    ensures var out := Split(Join(IndentAll(prefix, body)));
            |out| == |was| && forall i :: 0 <= i < |out| ==> Indented(prefix, was[i], out[i])
  {
    var out := IndentAll(prefix, body);
    forall i | 0 <= i < |body|
      ensures Indented(prefix, was[i], out[i]) && OneLine(out[i])
    {
      IndentedLine(prefix, was[i], body[i]);
    }
    SplitJoin(out);
    SplitAllLines(out);
  }

  lemma IndentedLine(prefix: string, was: string, l: string)
    requires AllSpace(prefix) && OneLine(prefix) && OneLine(l)
    requires l == was || l == TrimRight(was)
    ensures Indented(prefix, was, IndentLine(prefix, l)) && OneLine(IndentLine(prefix, l))
  {
    TrimOfTrimRight(was);
    TrimOfTrimRight(l);
    TrimAfter(prefix, TrimRight(l));
    TrimRightSplits(l);
  }
}
