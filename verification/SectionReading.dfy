/**
 What the ChangeLog scanner reads back from one printed section of a change log.

 A section comes back as itself, its comment with every line trimmed, exactly when no line of the
 comment is blank or starts an item, the blank lines at its end aside.
 */
module SectionReading {
  import CvsLog
  import CvsCollector
  import opened ChangeLog
  import opened Machines
  import opened Outcomes
  import opened TclText
  import opened Textutil
  import opened TrimmedLines

  /** A comment with every line trimmed. */
  function Squeezed(comment: string): string {
    Trim(Terminated(TrimAll(Split(comment))))
  }

  predicate PlainFile(f: string) {
    f != "" && '\n' !in f && '(' !in f && NoColonBlank(f)
  }

  predicate NoColonBlank(f: string) {
    forall i :: 0 <= i < |f| - 1 && f[i] == ':' ==> f[i + 1] !in {' ', '\t'}
  }

  predicate PlainFiles(fs: seq<string>) {
    fs != [] && forall i :: 0 <= i < |fs| ==> PlainFile(fs[i])
  }

  /** A line that is there, and starts no item. */
  predicate TextLine(l: string) {
    Trim(l) != "" && !IsItem(Trim(l))
  }

  /** Up to the last line that is not blank, every line is a line of text. */
  predicate PlainComment(comment: string) {
    var lines := Chop(Split(comment));
    forall i :: 0 <= i < |lines| ==> TextLine(lines[i])
  }

  // Lines inside an entry

  predicate Inside(lines: Lines) {
    forall i :: 0 <= i < |lines| ==> !IsHeader(lines[i])
  }

  /** Between sections: no files and no comment are pending. */
  predicate Idle(v: Vars) {
    v.files == [] && v.comment == "" && !v.first
  }

  predicate Pending(v: Vars) {
    v.files != [] || v.comment != ""
  }

  const NEW := Vars([], [], [], "", false, "", "", _ => None)

  /** The sections of v, then what u has. */
  function Beside(v: Vars, u: Vars): Vars {
    v.(clist := v.clist + u.clist, files := u.files, comment := u.comment)
  }

  /** Lines inside an entry neither see nor change what was there before. */
  lemma {:induction false} Framed(v: Vars, lines: Lines)
    requires Idle(v) && Inside(lines)
    ensures FeedAll(v, lines) == Beside(v, FeedAll(NEW, lines))
  {
    if lines == [] {
      assert v.clist + [] == v.clist;
    } else {
      var init, l := lines[..|lines| - 1], lines[|lines| - 1];
      Framed(v, init);
    }
  }

  /** What is pending stays so, or becomes a section; no section is lost. */
  lemma {:induction false} Closes(v: Vars, lines: Lines)
    requires Inside(lines)
    ensures var w := FeedAll(v, lines);
            |w.clist| >= |v.clist| && (Pending(v) ==> Pending(w) || |w.clist| > |v.clist|)
  {
    if lines != [] {
      Closes(v, lines[..|lines| - 1]);
      CloseStep(FeedAll(v, lines[..|lines| - 1]), lines[|lines| - 1]);
    }
  }

  lemma CloseStep(v: Vars, l: string)
    requires !IsHeader(l)
    ensures |Feed(v, l).clist| >= |v.clist|
    ensures Pending(v) ==> Pending(Feed(v, l)) || |Feed(v, l).clist| > |v.clist|
    ensures l == "" ==> Feed(v, l) == CloseSection(v)
    ensures Trim(l) != "" ==> Pending(Feed(v, l))
  {
  }

  // The files of a section

  function Newlines(n: nat): string {
    if n == 0 then "" else Newlines(n - 1) + ['\n']
  }

  lemma {:induction false} NewlinesBlank(n: nat)
    ensures AllSpace(Newlines(n)) && |Newlines(n)| == n
  {
    if n > 0 {
      NewlinesBlank(n - 1);
    }
  }

  lemma FileLineFed(v: Vars, f: string)
    requires PlainFile(f)
    ensures Feed(v, CvsCollector.FILE_PREFIX + f + [':'])
         == v.(files := v.files + [f], comment := v.comment + ['\n'])
  {
    var raw := CvsCollector.FILE_PREFIX + f + [':'];
    var line := ['*', ' '] + f + [':'];
    assert raw == ['\t'] + line;
    TrimAfter(['\t'], line);
    TrimFixed(line);
    NoColonBefore(line, f, |line|);
    assert line[2..|line| - 1] == f;
    assert ItemParts(line) == (f, "");
    assert Unparen(f, "") == (f, "");
    assert v.comment + "" + ['\n'] == v.comment + ['\n'];
  }

  lemma {:induction false} NoColonBefore(line: string, f: string, k: nat)
    requires line == ['*', ' '] + f + [':'] && NoColonBlank(f) && k <= |line|
    ensures LastColon(line, k) == -1
  {
    if k > 0 {
      NoColonBefore(line, f, k - 1);
      assert 2 <= k - 1 < |line| - 1 ==> line[k - 1] == f[k - 3];
      assert 2 <= k < |line| - 1 ==> line[k] == f[k - 2];
    }
  }

  lemma {:induction false} FilesFed(v: Vars, fs: seq<string>)
    requires forall i :: 0 <= i < |fs| ==> PlainFile(fs[i])
    ensures FeedAll(v, CvsCollector.FileLines(fs))
         == v.(files := v.files + fs, comment := v.comment + Newlines(|fs|))
  {
    if fs == [] {
      assert v.files + [] == v.files && v.comment + "" == v.comment;
    } else {
      var init, f := fs[..|fs| - 1], fs[|fs| - 1];
      FilesFed(v, init);
      FeedSnoc(v, CvsCollector.FileLines(init), CvsCollector.FILE_PREFIX + f + [':']);
      FileLineFed(v.(files := v.files + init, comment := v.comment + Newlines(|init|)), f);
      Regroup(v.files, init, [f]);
      Regroup(v.comment, Newlines(|init|), ['\n']);
      assert init + [f] == fs;
    }
  }

  lemma {:induction false} FileLinesInside(fs: seq<string>)
    requires forall i :: 0 <= i < |fs| ==> PlainFile(fs[i])
    ensures AllOneLine(CvsCollector.FileLines(fs)) && Inside(CvsCollector.FileLines(fs))
  {
    if fs != [] {
      FileLinesInside(fs[..|fs| - 1]);
    }
  }

  // The comment of a section, where no line of it is blank

  /** The file that a trimmed line adds, if any. */
  function NamesIn(l: string): seq<string> {
    if !IsItem(l) then []
    else
      var name := Unparen(ItemParts(l).0, "").0;
      if name == "" then [] else [name]
  }

  /** The text that a trimmed line adds. */
  function TextIn(l: string): string {
    if !IsItem(l) then l
    else
      var parts := ItemParts(l);
      var detail := Unparen(parts.0, "").1;
      if detail != "" then detail + [' '] + parts.1 else parts.1
  }

  function Names(ts: Lines): seq<string> {
    if ts == [] then [] else Names(ts[..|ts| - 1]) + NamesIn(ts[|ts| - 1])
  }

  function Texts(ts: Lines): (r: Lines)
    ensures |r| == |ts| && forall i :: 0 <= i < |ts| ==> r[i] == TextIn(ts[i])
  {
    if ts == [] then [] else Texts(ts[..|ts| - 1]) + [TextIn(ts[|ts| - 1])]
  }

  /** A printed file line adds exactly the file it names if and only if the name is plain. */
  lemma FileNameIff(v: Vars, f: string)
    requires '\n' !in f
    ensures Feed(v, CvsCollector.FILE_PREFIX + f + [':']).files == v.files + [f] <==> PlainFile(f)
  {
    if PlainFile(f) {
      FileLineFed(v, f);
    } else {
      var line := ['*', ' '] + f + [':'];
      assert CvsCollector.FILE_PREFIX + f + [':'] == ['\t'] + line;
      TrimAfter(['\t'], line);
      TrimFixed(line);
      OtherName(f);
      assert v.files + NamesIn(line) != v.files + [f] by {
        assert |v.files + NamesIn(line)| == |v.files| + |NamesIn(line)|;
        assert NamesIn(line) != [] ==> (v.files + NamesIn(line))[|v.files|] == NamesIn(line)[0];
        assert (v.files + [f])[|v.files|] == f;
      }
    }
  }

  lemma OtherName(f: string)
    requires '\n' !in f && !PlainFile(f)
    ensures NamesIn(['*', ' '] + f + [':']) != [f]
  {
    var line := ['*', ' '] + f + [':'];
    var part := ItemParts(line).0;
    UnparenShorter(part, "");
    if !NoColonBlank(f) {
      var i :| 0 <= i < |f| - 1 && f[i] == ':' && f[i + 1] in {' ', '\t'};
      assert line[i + 2] == ':' && line[i + 3] == f[i + 1];
      ColonFound(line, |line|, i + 2);
    }
  }

  lemma {:induction false} ColonFound(line: string, k: nat, i: nat)
    requires i < k <= |line| && i + 1 < |line| && line[i] == ':' && line[i + 1] in {' ', '\t'}
    ensures LastColon(line, k) >= i
  {
    if i < k - 1 {
      ColonFound(line, k - 1, i);
    }
  }

  lemma {:induction false} UnparenShorter(fname: string, detail: string)
    ensures |Unparen(fname, detail).0| <= |fname|
    decreases |fname|
  {
    if '(' in fname {
      var cut := CutParen(fname);
      TrimShorter(cut.0);
      UnparenShorter(Trim(cut.0), detail + [' '] + cut.1);
    }
  }

  /** The variables after trimmed lines, none of them empty. */
  function Gathered(v: Vars, ts: Lines): Vars {
    v.(files := v.files + Names(ts), comment := v.comment + Terminated(Texts(ts)))
  }

  lemma GatheredSnoc(v: Vars, ts: Lines, l: string)
    requires !IsHeader(l) && Trim(l) != ""
    ensures Feed(Gathered(v, ts), l) == Gathered(v, ts + [Trim(l)])
  {
    var t := Trim(l);
    assert (ts + [t])[..|ts|] == ts;
    assert v.files + Names(ts) + NamesIn(t) == v.files + (Names(ts) + NamesIn(t));
    assert Texts(ts + [t]) == Texts(ts) + [TextIn(t)];
    TerminatedSnoc(v.comment, Texts(ts), TextIn(t));
  }

  lemma {:induction false} LinesFed(v: Vars, ts: Lines, out: Lines)
    requires |ts| == |out| && Inside(out)
    requires forall i :: 0 <= i < |out| ==> Trim(out[i]) == ts[i] != ""
    ensures FeedAll(v, out) == Gathered(v, ts)
  {
    if out == [] {
      assert v.files + [] == v.files && v.comment + "" == v.comment;
    } else {
      var k := |out| - 1;
      LinesFed(v, ts[..k], out[..k]);
      GatheredSnoc(v, ts[..k], out[k]);
      assert ts[..k] + [ts[k]] == ts;
    }
  }

  lemma {:induction false} TerminatedSnoc(before: string, lines: Lines, l: string)
    ensures before + Terminated(lines + [l]) == before + Terminated(lines) + l + ['\n']
  {
    assert (lines + [l])[..|lines|] == lines;
    assert before + Terminated(lines) + l + ['\n'] == before + (Terminated(lines) + l + ['\n']);
  }

  /** An item does not come back as the line it was. */
  lemma ItemChanges(l: string)
    requires IsItem(l) && NamesIn(l) == []
    ensures Trim(TextIn(l)) != l
  {
    var parts := ItemParts(l);
    var detail := Unparen(parts.0, "").1;
    if detail == "" {
      TrimShorter(parts.1);
    } else {
      DetailOpens(parts.0);
      DetailShows(detail, [' '] + parts.1);
      assert detail + [' '] + parts.1 == detail + ([' '] + parts.1);
    }
  }

  lemma DetailShows(detail: string, rest: string)
    requires |detail| >= 2 && detail[0] == ' ' && detail[1] == '('
    ensures Trim(detail + rest) != "" && Trim(detail + rest)[0] == '('
  {
    var s := detail[1..] + rest;
    assert detail + rest == [' '] + s;
    TrimAfter([' '], s);
    TrimKeepsFirst(s);
  }

  lemma TrimKeepsFirst(s: string)
    requires s != "" && !IsSpace(s[0])
    ensures Trim(s) != "" && Trim(s)[0] == s[0]
  {
    TrimRightSplits(s);
    assert !AllSpace(s);
  }

  /** The details taken off a file name start with a blank and a parenthesis. */
  lemma DetailOpens(fname: string)
    requires Unparen(fname, "").1 != ""
    ensures var d := Unparen(fname, "").1; |d| >= 2 && d[0] == ' ' && d[1] == '('
  {
    var cut := CutParen(fname);
    TrimShorter(cut.0);
    var d := "" + [' '] + cut.1;
    assert cut.1[0] == '(';
    DetailGrows(Trim(cut.0), d);
  }

  lemma {:induction false} DetailGrows(fname: string, detail: string)
    ensures detail <= Unparen(fname, detail).1
    decreases |fname|
  {
    if '(' in fname {
      var cut := CutParen(fname);
      TrimShorter(cut.0);
      DetailGrows(Trim(cut.0), detail + [' '] + cut.1);
    }
  }

  lemma {:induction false} UnparenOneLine(fname: string, detail: string)
    requires OneLine(fname) && OneLine(detail)
    ensures OneLine(Unparen(fname, detail).1)
    decreases |fname|
  {
    if '(' in fname {
      var cut := CutParen(fname);
      TrimShorter(cut.0);
      TrimEnds(cut.0);
      UnparenOneLine(Trim(cut.0), detail + [' '] + cut.1);
    }
  }

  lemma TextInOneLine(l: string)
    requires OneLine(l)
    ensures OneLine(TextIn(l))
  {
    if IsItem(l) {
      UnparenOneLine(ItemParts(l).0, "");
    }
  }

  lemma {:induction false} NoNames(ts: Lines, i: nat)
    requires i < |ts| && Names(ts) == []
    ensures NamesIn(ts[i]) == []
  {
    if i < |ts| - 1 {
      NoNames(ts[..|ts| - 1], i);
    }
  }

  lemma {:induction false} NoItems(ts: Lines)
    requires forall i :: 0 <= i < |ts| ==> !IsItem(ts[i])
    ensures Names(ts) == [] && Texts(ts) == ts
  {
    if ts != [] {
      NoItems(ts[..|ts| - 1]);
    }
  }

  /** Trimmed lines, none of them empty. */
  predicate Tidy(ts: Lines) {
    AllOneLine(ts) && forall i :: 0 <= i < |ts| ==> Trim(ts[i]) == ts[i] != ""
  }

  lemma TextsOneLine(ts: Lines)
    requires AllOneLine(ts)
    ensures AllOneLine(Texts(ts))
  {
    forall k | 0 <= k < |ts|
      ensures OneLine(Texts(ts)[k])
    {
      TextInOneLine(ts[k]);
    }
  }

  lemma ItemShows(ts: Lines, i: nat)
    requires Tidy(ts) && i < |ts| && IsItem(ts[i]) && Names(ts) == []
    ensures Trim(Terminated(Texts(ts))) != Trim(Terminated(ts))
  {
    NoNames(ts, i);
    ItemChanges(ts[i]);
    if Trim(Terminated(Texts(ts))) == Trim(Terminated(ts)) {
      TextsOneLine(ts);
      SameLines(Texts(ts), ts, i);
    }
  }

  /** Such lines come back as they were exactly when none of them is an item. */
  lemma ItemsShow(ts: Lines)
    requires Tidy(ts)
    ensures (Names(ts) == [] && Trim(Terminated(Texts(ts))) == Trim(Terminated(ts)))
       <==> (forall i :: 0 <= i < |ts| ==> !IsItem(ts[i]))
  {
    if i :| 0 <= i < |ts| && IsItem(ts[i]) {
      if Names(ts) == [] {
        ItemShows(ts, i);
      }
    } else {
      NoItems(ts);
    }
  }

  // Blank lines

  lemma BlankEnd(lines: Lines, l: string)
    requires Trim(l) == ""
    ensures Trim(Terminated(TrimAll(lines + [l]))) == Trim(Terminated(TrimAll(lines)))
  {
    var text := Terminated(TrimAll(lines));
    TrimAllSnoc(lines, l);
    TerminatedSnoc("", TrimAll(lines), "");
    TrimOf("", text, ['\n']);
    assert "" + text + "" + ['\n'] == "" + text + ['\n'];
    assert "" + Terminated(TrimAll(lines + [l])) == Terminated(TrimAll(lines + [l]));
  }

  /** Blank lines at the end of a comment make no difference to its trimmed text. */
  lemma {:induction false} ChopTrimmed(lines: Lines)
    ensures Trim(Terminated(TrimAll(lines))) == Trim(Terminated(TrimAll(Chop(lines))))
  {
    if lines != [] && Trim(lines[|lines| - 1]) == "" {
      var init, l := lines[..|lines| - 1], lines[|lines| - 1];
      assert lines == init + [l] && Chop(lines) == Chop(init);
      ChopTrimmed(init);
      BlankEnd(init, l);
    }
  }

  /** An empty line before the last one that is not blank makes two sections at least. */
  lemma BlankSplits(v: Vars, out: Lines, i: nat)
    requires Inside(out) && Pending(v) && i < |out| - 1 && out[i] == "" && Trim(out[|out| - 1]) != ""
    ensures |FeedAll(v, out + [""]).clist| >= |v.clist| + 2
  {
    var front, rest := out[..i], out[i + 1..];
    var a := FeedAll(v, front);
    Closes(v, front);
    FeedSnoc(v, front, "");
    CloseStep(a, "");
    var b := FeedAll(v, front + [""]);
    Closes(b, rest[..|rest| - 1]);
    CloseStep(FeedAll(b, rest[..|rest| - 1]), rest[|rest| - 1]);
    FeedSplits(v, front + [""], rest);
    assert out == front + [""] + rest;
    FeedSnoc(v, out, "");
    CloseStep(FeedAll(v, out), "");
  }

  // One section

  function ReadBack(s: CvsLog.Section): seq<Section> {
    FeedAll(NEW, SplitAll(CvsCollector.SectionBuffer(s))).clist
  }

  /** The lines of the printed comment. */
  function Body(s: CvsLog.Section): Lines {
    Split(Indent(Undent(s.comment), CvsCollector.TEXT_PREFIX))
  }

  lemma SectionLines(s: CvsLog.Section)
    requires PlainFiles(s.files)
    ensures SplitAll(CvsCollector.SectionBuffer(s)) == CvsCollector.FileLines(s.files) + (Body(s) + [""])
  {
    var names := CvsCollector.FileLines(s.files);
    var body := Indent(Undent(s.comment), CvsCollector.TEXT_PREFIX);
    FileLinesInside(s.files);
    SplitAllLines(names);
    SplitAllConcat(names, [body, ""]);
    SplitWithEmpty(body);
  }

  lemma SplitWithEmpty(text: string)
    ensures SplitAll([text, ""]) == Split(text) + [""]
  {
    SplitAllSnoc([], text);
    SplitAllSnoc([text], "");
    assert [] + [text] == [text] && [text] + [""] == [text, ""];
  }

  /** The printed comment, line by line: trimmed, it is the comment without the blank lines at the end. */
  lemma BodyIs(s: CvsLog.Section)
    ensures var chopped, out := Chop(Split(s.comment)), Body(s);
            && Inside(out)
            && (chopped == [] ==> out == [""])
            && (chopped != [] ==>
                  |out| == |chopped| && forall i :: 0 <= i < |out| ==>
                    Trim(out[i]) == Trim(chopped[i]) && (Trim(chopped[i]) == "" ==> out[i] == ""))
  {
    IndentUndent(s.comment, CvsCollector.TEXT_PREFIX);
    var chopped, out := Chop(Split(s.comment)), Body(s);
    forall i | 0 <= i < |out|
      ensures !IsHeader(out[i])
    {
      if chopped != [] && Trim(chopped[i]) != "" {
        assert out[i][0] == CvsCollector.TEXT_PREFIX[0];
      }
    }
  }

  /** Once the files of a section are read. */
  function Filed(files: seq<string>): Vars {
    NEW.(files := files, comment := Newlines(|files|))
  }

  /** A printed section adds what it is read back as, and leaves nothing pending. */
  lemma SectionFed(v: Vars, s: CvsLog.Section)
    requires PlainFiles(s.files) && Idle(v)
    ensures FeedAll(v, SplitAll(CvsCollector.SectionBuffer(s))) == v.(clist := v.clist + ReadBack(s))
  {
    var lines := SplitAll(CvsCollector.SectionBuffer(s));
    SectionLines(s);
    FileLinesInside(s.files);
    BodyIs(s);
    Framed(v, lines);
    Regroup(CvsCollector.FileLines(s.files), Body(s), [""]);
    var front := CvsCollector.FileLines(s.files) + Body(s);
    FeedSnoc(NEW, front, "");
    CloseStep(FeedAll(NEW, front), "");
  }

  lemma FilesFirst(files: seq<string>, body: Lines)
    requires PlainFiles(files) && Inside(body)
    ensures FeedAll(NEW, CvsCollector.FileLines(files) + (body + [""])) == FeedAll(Filed(files), body + [""])
    ensures |FeedAll(Filed(files), body + [""]).clist| >= 1
  {
    FilesFed(NEW, files);
    assert [] + files == files && "" + Newlines(|files|) == Newlines(|files|);
    FeedSplits(NEW, CvsCollector.FileLines(files), body + [""]);
    Closes(Filed(files), body);
    FeedSnoc(Filed(files), body, "");
    CloseStep(FeedAll(Filed(files), body), "");
  }

  /** What is read after the files of a section. */
  lemma BodyRead(s: CvsLog.Section)
    requires PlainFiles(s.files)
    ensures ReadBack(s) == FeedAll(Filed(s.files), Body(s) + [""]).clist
    ensures |ReadBack(s)| >= 1
  {
    SectionLines(s);
    BodyIs(s);
    FilesFirst(s.files, Body(s));
  }

  lemma {:induction false} ChopLast(lines: Lines)
    ensures Chop(lines) != [] ==> Trim(Chop(lines)[|Chop(lines)| - 1]) != ""
    ensures AllOneLine(lines) ==> AllOneLine(Chop(lines))
  {
    if lines != [] && Trim(lines[|lines| - 1]) == "" {
      ChopLast(lines[..|lines| - 1]);
    }
  }

  lemma LinesClosed(files: seq<string>, ts: Lines, out: Lines)
    requires files != [] && |ts| == |out| && Inside(out)
    requires forall i :: 0 <= i < |out| ==> Trim(out[i]) == ts[i] != ""
    ensures FeedAll(Filed(files), out + [""]).clist == [Section(files + Names(ts), Trim(Terminated(Texts(ts))))]
  {
    LinesFed(Filed(files), ts, out);
    FeedSnoc(Filed(files), out, "");
    CloseStep(Gathered(Filed(files), ts), "");
    NewlinesBlank(|files|);
    TrimAfter(Newlines(|files|), Terminated(Texts(ts)));
  }

  lemma TrimmedClosed(files: seq<string>, chopped: Lines, out: Lines)
    requires files != [] && |chopped| == |out| && Inside(out)
    requires forall i :: 0 <= i < |out| ==> Trim(out[i]) == Trim(chopped[i]) != ""
    ensures var ts := TrimAll(chopped);
            FeedAll(Filed(files), out + [""]).clist == [Section(files + Names(ts), Trim(Terminated(Texts(ts))))]
  {
    LinesClosed(files, TrimAll(chopped), out);
  }

  /** Where no line is blank, a section comes back as one: its files and those of its items, its texts trimmed. */
  lemma WholeRead(s: CvsLog.Section)
    requires PlainFiles(s.files) && Chop(Split(s.comment)) != []
    requires var chopped := Chop(Split(s.comment)); forall i :: 0 <= i < |chopped| ==> Trim(chopped[i]) != ""
    ensures var ts := TrimAll(Chop(Split(s.comment)));
            ReadBack(s) == [Section(s.files + Names(ts), Trim(Terminated(Texts(ts))))]
  {
    var chopped, out := Chop(Split(s.comment)), Body(s);
    BodyRead(s);
    BodyIs(s);
    TrimmedClosed(s.files, chopped, out);
  }

  lemma EmptyClosed(files: seq<string>)
    requires files != []
    ensures FeedAll(Filed(files), [""] + [""]).clist == [Section(files, "")]
  {
    FeedSnoc(Filed(files), [""], "");
    FeedSnoc(Filed(files), [], "");
    assert [] + [""] == [""];
    CloseStep(Filed(files), "");
    CloseStep(CloseSection(Filed(files)), "");
    NewlinesBlank(|files|);
    TrimEnds(Newlines(|files|));
  }

  lemma EmptyRead(s: CvsLog.Section)
    requires PlainFiles(s.files) && Chop(Split(s.comment)) == []
    ensures ReadBack(s) == [Section(s.files, Squeezed(s.comment))]
  {
    BodyRead(s);
    BodyIs(s);
    ChopTrimmed(Split(s.comment));
    EmptyClosed(s.files);
  }

  /** A section is read back as at least one, and as itself exactly when its comment is plain. */
  lemma ReadBackExact(s: CvsLog.Section)
    requires PlainFiles(s.files)
    ensures |ReadBack(s)| >= 1
    ensures ReadBack(s) == [Section(s.files, Squeezed(s.comment))] <==> PlainComment(s.comment)
  {
    BodyRead(s);
    var chopped := Chop(Split(s.comment));
    if chopped == [] {
      EmptyRead(s);
    } else if i :| 0 <= i < |chopped| && Trim(chopped[i]) == "" {
      BlankRead(s, i);
    } else {
      NoBlankExact(s);
    }
  }

  lemma BlankRead(s: CvsLog.Section, i: nat)
    requires PlainFiles(s.files) && i < |Chop(Split(s.comment))| && Trim(Chop(Split(s.comment))[i]) == ""
    ensures |ReadBack(s)| >= 2
  {
    var chopped, out := Chop(Split(s.comment)), Body(s);
    BodyRead(s);
    BodyIs(s);
    ChopLast(Split(s.comment));
    BlankClosed(s.files, chopped, out, i);
  }

  lemma BlankClosed(files: seq<string>, chopped: Lines, out: Lines, i: nat)
    requires files != [] && Inside(out) && |out| == |chopped| && i < |chopped|
    requires forall k :: 0 <= k < |out| ==> Trim(out[k]) == Trim(chopped[k]) && (Trim(chopped[k]) == "" ==> out[k] == "")
    requires Trim(chopped[i]) == "" && Trim(chopped[|chopped| - 1]) != ""
    ensures |FeedAll(Filed(files), out + [""]).clist| >= 2
  {
    BlankSplits(Filed(files), out, i);
  }

  lemma NoBlankExact(s: CvsLog.Section)
    requires PlainFiles(s.files) && Chop(Split(s.comment)) != []
    requires var chopped := Chop(Split(s.comment)); forall i :: 0 <= i < |chopped| ==> Trim(chopped[i]) != ""
    ensures ReadBack(s) == [Section(s.files, Squeezed(s.comment))] <==> PlainComment(s.comment)
  {
    var chopped := Chop(Split(s.comment));
    var ts := TrimAll(chopped);
    WholeRead(s);
    ChopTrimmed(Split(s.comment));
    SplitGivesLines(s.comment);
    ChopLast(Split(s.comment));
    LinesExact(s.files, chopped);
    assert Squeezed(s.comment) == Trim(Terminated(ts));
  }

  lemma LinesExact(files: seq<string>, chopped: Lines)
    requires AllOneLine(chopped) && forall i :: 0 <= i < |chopped| ==> Trim(chopped[i]) != ""
    ensures var ts := TrimAll(chopped);
            [Section(files + Names(ts), Trim(Terminated(Texts(ts))))] == [Section(files, Trim(Terminated(ts)))]
            <==> (forall i :: 0 <= i < |chopped| ==> TextLine(chopped[i]))
  {
    var ts := TrimAll(chopped);
    TidyLines(chopped);
    ItemsShow(ts);
    SameSection(files, Names(ts), Trim(Terminated(Texts(ts))), Trim(Terminated(ts)));
    assert forall i :: 0 <= i < |ts| ==> ts[i] == Trim(chopped[i]);
  }

  lemma TidyLines(chopped: Lines)
    requires AllOneLine(chopped) && forall i :: 0 <= i < |chopped| ==> Trim(chopped[i]) != ""
    ensures Tidy(TrimAll(chopped))
  {
    var ts := TrimAll(chopped);
    forall i | 0 <= i < |ts|
      ensures Trim(ts[i]) == ts[i] && OneLine(ts[i])
    {
      TidyLine(chopped[i]);
    }
  }

  lemma TidyLine(l: string)
    requires OneLine(l)
    ensures Trim(Trim(l)) == Trim(l) && OneLine(Trim(l))
  {
    TrimIdempotent(l);
    TrimEnds(l);
  }

  lemma SameSection(files: seq<string>, names: seq<string>, a: string, b: string)
    ensures [Section(files + names, a)] == [Section(files, b)] <==> names == [] && a == b
  {
    assert [Section(files + names, a)][0] == Section(files + names, a) && [Section(files, b)][0] == Section(files, b);
    assert |files + names| == |files| + |names|;
    assert files + [] == files;
  }

}
