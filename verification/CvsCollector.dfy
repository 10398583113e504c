/** The two commands of the cvs log tool, on the variables their caller passes in. */
module CvsCollector {
  import opened CvsLog
  import opened Outcomes
  import opened Sorting
  import opened TclText
  import opened Textutil

  // The printed text

  const FILE_PREFIX := "\t* "
  const TEXT_PREFIX := "\t  "

  function FileLines(files: seq<string>): Lines {
    if files == [] then [] else FileLines(files[..|files| - 1]) + [FILE_PREFIX + files[|files| - 1] + [':']]
  }

  /** One section: its files, the indented comment, an empty line. */
  function SectionBuffer(s: Section): Lines {
    FileLines(s.files) + [Indent(Undent(s.comment), TEXT_PREFIX), ""]
  }

  function SectionsBuffer(ss: seq<Section>): Lines {
    if ss == [] then [] else SectionsBuffer(ss[..|ss| - 1]) + SectionBuffer(ss[|ss| - 1])
  }

  function DayLine(d: Day): string {
    d.0 + [' '] + d.1
  }

  function GroupBuffer(g: Group): Lines {
    [DayLine(g.day), ""] + SectionsBuffer(g.sections)
  }

  function GroupsBuffer(gs: seq<Group>): Lines {
    if gs == [] then [] else GroupsBuffer(gs[..|gs| - 1]) + GroupBuffer(gs[|gs| - 1])
  }

  /** The change log of groups: the line buffer, joined. */
  function Printed(gs: seq<Group>): string {
    Join(GroupsBuffer(gs))
  }

  class Collector {
    var entries: seq<Day>
    var comments: Table
    var files: Table

    function Now(): Log
      reads this
    {
      Log(entries, comments, files)
    }

    constructor ()
      ensures Now() == NOTHING
    {
      entries, comments, files := [], map[], map[];
    }

    /** Adds the revisions of a cvs log to what earlier calls collected. */
    method ScanLog(text: string) returns (ok: bool)
      modifies this
      ensures Scanned(Now(), ok) == ScanFrom(Split(text), 0, UNSET, old(Now()))
      ensures ok ==> Now() == AddAll(old(Now()), Revisions(text))
    {
      var lines := Split(text);
      ScanCollects(lines, 0, UNSET, Now());
      var v, i := UNSET, 0;
      while i < |lines|
        invariant 0 <= i <= |lines|
        invariant ScanFrom(lines, i, v, Now()) == ScanFrom(lines, 0, UNSET, old(Now()))
      {
        var line := lines[i];
        match KindOf(line) {
          case FileKind => v := FileLine(v, line);
          case OtherKind =>
          case DateKind =>
            ok, v, i := ReadRevision(lines, i, v);
            if !ok { return; }
        }
        i := Past(lines, i);
      }
      ok := true;
    }

    /** A date line and the comment after it. */
    method ReadRevision(lines: Lines, i: nat, v: Vars) returns (ok: bool, w: Vars, k: nat)
      requires i < |lines| && KindOf(lines[i]) == DateKind
      modifies this
      ensures i < k <= |lines|
      ensures match Dated(v, lines[i])
              case None => !ok && Now() == old(Now())
              case Some(x) =>
                if x.filename.None? then !ok && Now() == AddComment(old(Now()), VarsDay(x), Comment(lines, i))
                else ok && w == x && k == CommentEnd(lines, i + 1) && Now() == Add(old(Now()), RevisionAt(lines, i, x))
    {
      w, k := v, i + 1;
      var x := Dated(v, lines[i]);
      if x.None? { return false, w, k; }
      w := x.value;
      var comment;
      comment, k := ReadComment(lines, i + 1);
      ok := Record(VarsDay(w), comment, w.filename);
    }

    /** The three appends for a revision; the third reads the file name, which may be unset. */
    method Record(d: Day, comment: string, filename: Option<string>) returns (ok: bool)
      modifies this
      ensures ok <==> filename.Some?
      ensures Now() == if ok then Add(old(Now()), Revision(d.0, d.1, comment, filename.value))
                       else AddComment(old(Now()), d, comment)
    {
      entries := entries + [d];
      comments := Lappend(comments, DayKey(d), comment);
      if filename.None? { return false; }
      files := Lappend(files, CommentKey(d, comment), filename.value);
      ok := true;
    }

    /** The lines up to the next separator, on the scanner's own index. */
    method ReadComment(lines: Lines, start: nat) returns (comment: string, i: nat)
      requires start <= |lines|
      ensures i == CommentEnd(lines, start) && comment == Terminated(lines[start..i])
    {
      comment, i := "", start;
      while i < |lines| && !Separator(lines[i])
        invariant start <= i <= |lines|
        invariant comment == Terminated(lines[start..i])
        invariant CommentEnd(lines, start) == CommentEnd(lines, i)
      {
        assert lines[start..i + 1][..i - start] == lines[start..i];
        comment := comment + lines[i] + ['\n'];
        i := i + 1;
      }
    }

    /** The change log of what was collected; it misses no key exactly when the log is complete. */
    method ToChangeLog(le: (Day, Day) -> bool) returns (r: Result<string>)
      requires TotalOrder(le)
      ensures r.Success? <==> Complete(Now())
      ensures Complete(Now()) ==> r == Success(Printed(Groups(Now(), le)))
    {
      var buffer: Lines := [];
      var days := SortedDays(Now(), le);
      DownOrder(le);
      Sorts(entries, Down(le));
      var i := 0;
      while i < |days|
        invariant 0 <= i <= |days|
        invariant forall k :: 0 <= k < i ==> DayComplete(Now(), days[k])
        invariant buffer == GroupsBuffer(GroupsOf(Now(), days[..i]))
      {
        var lines := PrintDay(days[i]);
        if lines.Failure? {
          assert days[i] in days;
          return Failure(MissingKey);
        }
        buffer := buffer + lines.value;
        GroupsOfSnoc(Now(), days, i);
        i := i + 1;
      }
      assert days[..i] == days;
      EntriesComplete(Now(), days);
      r := Success(Join(buffer));
    }

    method PrintDay(d: Day) returns (r: Result<Lines>)
      requires d in entries
      ensures r.Success? <==> DayComplete(Now(), d)
      ensures r.Success? ==> r.value == GroupBuffer(GroupOf(Now(), d))
    {
      if DayKey(d) !in comments { return Failure(MissingKey); }
      var clist := SortUnique(comments[DayKey(d)], StringLe);
      StringOrder();
      Sorts(comments[DayKey(d)], StringLe);
      var sections: Lines, j := [], 0;
      while j < |clist|
        invariant 0 <= j <= |clist|
        invariant forall k :: 0 <= k < j ==> CommentComplete(Now(), d, clist[k])
        invariant sections == SectionsBuffer(SectionsOf(Now(), d, clist[..j]))
      {
        var lines := PrintSection(d, clist[j]);
        if lines.Failure? {
          assert clist[j] in clist;
          return Failure(MissingKey);
        }
        SectionsOfSnoc(Now(), d, clist, j);
        sections := sections + lines.value;
        j := j + 1;
      }
      assert clist[..j] == clist;
      CommentsComplete(Now(), d);
      r := Success([DayLine(d), ""] + sections);
    }

    method PrintSection(d: Day, comment: string) returns (r: Result<Lines>)
      ensures r.Success? <==> CommentComplete(Now(), d, comment)
      ensures r.Success? ==> r.value == SectionBuffer(SectionOf(Now(), d, comment))
    {
      if CommentKey(d, comment) !in files { return Failure(MissingKey); }
      var flist := SortUnique(files[CommentKey(d, comment)], StringLe);
      var lines: Lines, k := [], 0;
      while k < |flist|
        invariant 0 <= k <= |flist|
        invariant lines == FileLines(flist[..k])
      {
        assert flist[..k + 1][..k] == flist[..k];
        lines := lines + [FILE_PREFIX + flist[k] + [':']];
        k := k + 1;
      }
      assert flist[..k] == flist;
      r := Success(lines + [Indent(Undent(comment), TEXT_PREFIX), ""]);
    }
  }

  lemma GroupsOfSnoc(l: Log, days: seq<Day>, i: nat)
    requires i < |days| && forall k :: 0 <= k <= i ==> DayComplete(l, days[k])
    ensures GroupsBuffer(GroupsOf(l, days[..i + 1]))
         == GroupsBuffer(GroupsOf(l, days[..i])) + GroupBuffer(GroupOf(l, days[i]))
  {
    assert days[..i + 1][..i] == days[..i];
    assert GroupsOf(l, days[..i + 1])[..i] == GroupsOf(l, days[..i]);
  }

  lemma SectionsOfSnoc(l: Log, d: Day, cs: seq<string>, j: nat)
    requires j < |cs| && forall k :: 0 <= k <= j ==> CommentComplete(l, d, cs[k])
    ensures SectionsBuffer(SectionsOf(l, d, cs[..j + 1]))
         == SectionsBuffer(SectionsOf(l, d, cs[..j])) + SectionBuffer(SectionOf(l, d, cs[j]))
  {
    assert cs[..j + 1][..j] == cs[..j];
    assert SectionsOf(l, d, cs[..j + 1])[..j] == SectionsOf(l, d, cs[..j]);
  }

  lemma EntriesComplete(l: Log, days: seq<Day>)
    requires forall d :: d in days <==> d in l.entries
    requires forall k :: 0 <= k < |days| ==> DayComplete(l, days[k])
    ensures Complete(l)
  {
    forall i | 0 <= i < |l.entries|
      ensures DayComplete(l, l.entries[i])
    {
      assert l.entries[i] in days;
    }
  }

  lemma CommentsComplete(l: Log, d: Day)
    requires DayKey(d) in l.comments
    requires forall k :: 0 <= k < |SortUnique(l.comments[DayKey(d)], StringLe)| ==>
               CommentComplete(l, d, SortUnique(l.comments[DayKey(d)], StringLe)[k])
    ensures DayComplete(l, d)
  {
    StringOrder();
    Sorts(l.comments[DayKey(d)], StringLe);
    var cs := l.comments[DayKey(d)];
    forall j | 0 <= j < |cs|
      ensures CommentComplete(l, d, cs[j])
    {
      assert cs[j] in SortUnique(cs, StringLe);
    }
  }
}
