/** The printed change log, character by character: its lines, and where the lines of a comment begin. */
module PrintedText {
  import opened CvsCollector
  import opened CvsLog
  import opened Machines
  import opened TclText
  import opened Textutil
  import opened TrimmedLines

  // The layout of groups

  /** The lines of files, each with its newline. */
  function FileText(files: seq<string>): string {
    if files == [] then "" else FileText(files[..|files| - 1]) + "\t* " + files[|files| - 1] + ":\n"
  }

  lemma {:induction false} FileLinesText(files: seq<string>)
    ensures Terminated(FileLines(files)) == FileText(files)
  {
    if files != [] {
      FileLinesText(files[..|files| - 1]);
      assert ("\t* " + files[|files| - 1] + [':']) + ['\n'] == "\t* " + files[|files| - 1] + ":\n";
    }
  }

  lemma {:induction false} JoinTogether(a: Lines, b: Lines)
    requires a != [] && b != []
    ensures Join(a + b) == Join(a) + ['\n'] + Join(b)
    decreases |b|
  {
    var init, l := b[..|b| - 1], b[|b| - 1];
    assert (a + b)[..|a + b| - 1] == a + init;
    if init == [] {
      assert a + init == a && b == [l];
    } else {
      JoinTogether(a, init);
      Regroup(Join(a) + ['\n'], Join(init), ['\n'] + l);
      Regroup(Join(a) + ['\n'] + Join(init), ['\n'], l);
      Regroup(Join(init), ['\n'], l);
    }
  }

  /** Groups are printed one after the other. */
  lemma PrintedGroups(gs: seq<Group>, g: Group)
    requires gs != []
    ensures Printed(gs + [g]) == Printed(gs) + "\n" + Printed([g])
  {
    assert (gs + [g])[..|gs|] == gs && [g][..0] == [];
    assert GroupsBuffer([g]) == GroupBuffer(g);
    SomeLines(gs);
    JoinTogether(GroupsBuffer(gs), GroupBuffer(g));
  }

  lemma SomeLines(gs: seq<Group>)
    requires gs != []
    ensures GroupsBuffer(gs) != []
  {
    assert GroupBuffer(gs[|gs| - 1]) != [];
  }

  /** A group begins with its date and author and an empty line. */
  lemma PrintedDay(date: string, author: string)
    ensures Printed([Group((date, author), [])]) == date + " " + author + "\n"
  {
    var g, l := Group((date, author), []), DayLine((date, author));
    assert [g][..0] == [];
    assert GroupsBuffer([g]) == [l] + [""] by {
      assert GroupBuffer(g) == [l, ""] + [] == [l] + [""];
    }
    JoinTogether([l], [""]);
    assert Join([l]) == l && Join([""]) == "";
  }

  /** A section: a line for each file, then the comment, indented, then an empty line. */
  lemma PrintedSection(d: Day, ss: seq<Section>, s: Section)
    ensures Printed([Group(d, ss + [s])])
         == Printed([Group(d, ss)]) + "\n" + (FileText(s.files) + Indent(Undent(s.comment), "\t  ") + "\n")
  {
    OneGroup(Group(d, ss));
    OneGroup(Group(d, ss + [s]));
    SectionAdded(d, ss, s);
    JoinTogether(GroupBuffer(Group(d, ss)), SectionBuffer(s));
    SectionText(s);
  }

  lemma OneGroup(g: Group)
    ensures Printed([g]) == Join(GroupBuffer(g))
  {
    assert [g][..0] == [];
    assert GroupsBuffer([g]) == GroupBuffer(g);
  }

  lemma SectionAdded(d: Day, ss: seq<Section>, s: Section)
    ensures GroupBuffer(Group(d, ss + [s])) == GroupBuffer(Group(d, ss)) + SectionBuffer(s)
  {
    assert (ss + [s])[..|ss|] == ss;
    Regroup([DayLine(d), ""], SectionsBuffer(ss), SectionBuffer(s));
  }

  lemma SectionText(s: Section)
    ensures Join(SectionBuffer(s)) == FileText(s.files) + Indent(Undent(s.comment), "\t  ") + "\n"
  {
    var text := Indent(Undent(s.comment), TEXT_PREFIX);
    var lines := FileLines(s.files) + [text];
    assert SectionBuffer(s) == lines + [""];
    TerminatedJoins(lines);
    assert lines[..|lines| - 1] == FileLines(s.files);
    FileLinesText(s.files);
  }

  // The lines of a comment

  predicate StartsBlank(l: string, k: nat) {
    k <= |l| && forall i :: 0 <= i < k ==> l[i] == ' '
  }

  /** All lines that are not blank start with k blanks, and line j with no more. */
  predicate IsMargin(lines: Lines, k: nat, j: nat) {
    && j < |lines| && Trim(lines[j]) != "" && k < |lines[j]| && lines[j][k] != ' '
    && forall i :: 0 <= i < |lines| && Trim(lines[i]) != "" ==> StartsBlank(lines[i], k)
  }

  lemma {:induction false} CommonStart(a: string, b: string, k: nat)
    requires StartsBlank(a, k) && StartsBlank(b, k)
    ensures StartsBlank(CommonPrefix(a, b), k)
  {
    if k > 0 {
      assert forall i :: 0 <= i < k - 1 ==> a[1..][i] == a[i + 1] && b[1..][i] == b[i + 1];
      CommonStart(a[1..], b[1..], k - 1);
    }
  }

  lemma {:induction false} CommonStarts(lines: Lines, k: nat)
    requires lines != [] && forall i :: 0 <= i < |lines| ==> StartsBlank(lines[i], k)
    ensures StartsBlank(CommonPrefixes(lines), k)
  {
    if |lines| > 1 {
      CommonStarts(lines[..|lines| - 1], k);
      CommonStart(CommonPrefixes(lines[..|lines| - 1]), lines[|lines| - 1], k);
    }
  }

  lemma {:induction false} NonBlankFrom(lines: Lines)
    ensures forall l :: l in NonBlank(lines) ==> l in lines && Trim(l) != ""
  {
    if lines != [] {
      NonBlankFrom(lines[..|lines| - 1]);
    }
  }

  lemma {:induction false} BlanksCounted(s: string, k: nat)
    requires StartsBlank(s, k) && (k < |s| ==> s[k] != ' ')
    ensures LeadingBlanks(s) == k
  {
    if k > 0 {
      assert forall i :: 0 <= i < k - 1 ==> s[1..][i] == s[i + 1];
      BlanksCounted(s[1..], k - 1);
    }
  }

  /** The margin is what all lines that are not blank have in common. */
  lemma MarginIs(text: string, k: nat, j: nat)
    requires IsMargin(Split(text), k, j)
    ensures Margin(text) == k
  {
    var lines, ne := Split(text), NonBlank(Split(text));
    NonBlankFrom(lines);
    NonBlankHas(lines, j);
    forall i | 0 <= i < |ne|
      ensures StartsBlank(ne[i], k)
    {
      assert ne[i] in ne;
    }
    CommonStarts(ne, k);
    var m :| 0 <= m < |ne| && ne[m] == lines[j];
    CommonPrefixesAre(ne, m);
    BlanksCounted(CommonPrefixes(ne), k);
  }

  /** Undented text: the margin is gone from every line that is not blank. */
  lemma UndentedLines(text: string, k: nat, j: nat)
    requires IsMargin(Split(text), k, j)
    ensures var lines, out := Split(text), Split(Undent(text));
            |out| == |lines|
            && forall i :: 0 <= i < |lines| ==>
                 if Trim(lines[i]) == "" then Trim(out[i]) == "" else out[i] == lines[i][k..]
  {
    var lines := Split(text);
    MarginIs(text, k, j);
    SplitGivesLines(text);
    if k == 0 {
      assert forall i :: 0 <= i < |lines| ==> lines[i][0..] == lines[i];
    } else if text != "" {
      var out := DropAll(lines, k);
      assert AllOneLine(out);
      SplitJoin(out);
      SplitAllLines(out);
      assert Trim("") == "";
    }
  }

  lemma {:induction false} ChopIsFront(lines: Lines)
    ensures |Chop(lines)| <= |lines| && Chop(lines) == lines[..|Chop(lines)|]
  {
    if lines != [] && Trim(lines[|lines| - 1]) == "" {
      ChopIsFront(lines[..|lines| - 1]);
    }
  }

  /** Indented text: nothing for a blank line, otherwise the prefix and the line without the blanks at its end. */
  lemma IndentedLines(text: string, prefix: string)
    requires OneLine(prefix) && Chop(Split(text)) != []
    ensures var chopped, out := Chop(Split(text)), Split(Indent(text, prefix));
            |out| == |chopped|
            && forall i :: 0 <= i < |out| ==>
                 out[i] == if Trim(chopped[i]) == "" then "" else prefix + TrimRight(chopped[i])
  {
    BodyLines(text);
    var chopped, body := Chop(Split(text)), Split(TrimRight(text));
    var out := IndentAll(prefix, body);
    forall i | 0 <= i < |body|
      ensures out[i] == if Trim(chopped[i]) == "" then "" else prefix + TrimRight(chopped[i])
      ensures OneLine(out[i])
    {
      LineIndented(prefix, chopped[i], body[i]);
    }
    SplitJoin(out);
    SplitAllLines(out);
  }

  lemma LineIndented(prefix: string, was: string, l: string)
    requires OneLine(prefix) && OneLine(l) && (l == was || l == TrimRight(was))
    ensures IndentLine(prefix, l) == if Trim(was) == "" then "" else prefix + TrimRight(was)
    ensures OneLine(IndentLine(prefix, l))
  {
    TrimOfTrimRight(was);
    TrimRightSplits(l);
    TrimRightSplits(was);
    if l == TrimRight(was) {
      TrimRightSplits(TrimRight(was));
      TrimRightTwice(was);
    }
  }

  lemma TrimRightTwice(s: string)
    ensures TrimRight(TrimRight(s)) == TrimRight(s)
  {
    TrimRightSplits(s);
  }

  /**
   The lines of a comment as they are printed, up to the last that is not blank: a tab and two blanks, and the line
   without the margin of the comment, so that lines keep their distance from each other; blank lines are empty.
   */
  lemma CommentPrinted(comment: string, k: nat, j: nat)
    requires IsMargin(Split(comment), k, j)
    ensures var lines, out := Split(comment), Split(Indent(Undent(comment), "\t  "));
            && j < |out| <= |lines|
            && (forall i :: |out| <= i < |lines| ==> Trim(lines[i]) == "")
            && (forall i :: 0 <= i < |out| ==>
                  out[i] == if Trim(lines[i]) == "" then "" else "\t  " + TrimRight(lines[i][k..]))
  {
    var lines, u := Split(comment), Split(Undent(comment));
    UndentedLines(comment, k, j);
    UndentSame(comment);
    ChopSame(u, lines);
    ChopIsFront(u);
    ChopIsFront(lines);
    ChopRest(lines);
    IndentedLines(Undent(comment), "\t  ");
    var out := Split(Indent(Undent(comment), "\t  "));
    forall i | 0 <= i < |out|
      ensures out[i] == if Trim(lines[i]) == "" then "" else "\t  " + TrimRight(lines[i][k..])
    {
      assert Chop(u)[i] == u[i] && Trim(u[i]) == Trim(lines[i]);
    }
  }

  /** What is chopped off is blank. */
  lemma {:induction false} ChopRest(lines: Lines)
    ensures |Chop(lines)| <= |lines| && forall i :: |Chop(lines)| <= i < |lines| ==> Trim(lines[i]) == ""
  {
    if lines != [] && Trim(lines[|lines| - 1]) == "" {
      ChopRest(lines[..|lines| - 1]);
    }
  }
}
