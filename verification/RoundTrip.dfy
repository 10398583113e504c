/**
 Printing a collected cvs log and scanning the change log: exactly when are the printed groups read back?
 */
module RoundTrip {
  import CvsLog
  import CvsCollector
  import opened ChangeLog
  import opened Machines
  import opened SectionReading
  import opened Sorting
  import opened TclText
  import Textutil

  /** A printed section as it should be read back: its files, and its comment with every line trimmed. */
  function Faithful(s: CvsLog.Section): Section {
    Section(s.files, Squeezed(s.comment))
  }

  function SectionsBack(ss: seq<CvsLog.Section>): seq<Section> {
    Each(Faithful, ss)
  }

  function Each<T, U>(f: T -> U, s: seq<T>): (r: seq<U>)
    ensures |r| == |s| && forall i :: 0 <= i < |s| ==> r[i] == f(s[i])
  {
    if s == [] then [] else Each(f, s[..|s| - 1]) + [f(s[|s| - 1])]
  }

  function EntryBack(g: CvsLog.Group): Entry {
    Entry(g.day.0, g.day.1, SectionsBack(g.sections))
  }

  function EntriesBack(gs: seq<CvsLog.Group>): seq<Entry> {
    Each(EntryBack, gs)
  }

  /** A word: a plain list of one element that is the word itself. */
  predicate PlainToken(s: string) {
    s != "" && PlainChars(s) && forall i :: 0 <= i < |s| ==> !IsSpace(s[i])
  }

  predicate PlainNames(ss: seq<CvsLog.Section>) {
    forall i :: 0 <= i < |ss| ==> PlainFiles(ss[i].files)
  }

  /** The day and the files of a group are plain; nothing is said about its comments. */
  predicate PlainGroup(g: CvsLog.Group) {
    PlainToken(g.day.0) && PlainToken(g.day.1) && PlainNames(g.sections)
  }

  predicate PlainComments(ss: seq<CvsLog.Section>) {
    forall i :: 0 <= i < |ss| ==> PlainComment(ss[i].comment)
  }

  // The sections of an entry

  /** What the sections of a group are read back as. */
  function SectionsRead(ss: seq<CvsLog.Section>): seq<Section> {
    Collect(ReadBack, ss)
  }

  ghost predicate Adds(back: CvsLog.Section -> seq<Section>, v: Vars, s: CvsLog.Section) {
    FeedAll(v, SplitAll(CvsCollector.SectionBuffer(s))) == v.(clist := v.clist + back(s))
  }

  lemma {:induction false} AddInTurn(back: CvsLog.Section -> seq<Section>, v: Vars, ss: seq<CvsLog.Section>)
    requires Idle(v) && forall w, s :: Idle(w) && s in ss ==> Adds(back, w, s)
    ensures FeedAll(v, SplitAll(CvsCollector.SectionsBuffer(ss))) == v.(clist := v.clist + Collect(back, ss))
  {
    if ss == [] {
      assert v.clist + [] == v.clist;
    } else {
      var init, s := ss[..|ss| - 1], ss[|ss| - 1];
      AddInTurn(back, v, init);
      FedInTurn(v, CvsCollector.SectionsBuffer(init), CvsCollector.SectionBuffer(s));
      assert Adds(back, v.(clist := v.clist + Collect(back, init)), s);
      Regroup(v.clist, Collect(back, init), back(s));
    }
  }

  lemma SectionsFed(v: Vars, ss: seq<CvsLog.Section>)
    requires PlainNames(ss) && Idle(v)
    ensures FeedAll(v, SplitAll(CvsCollector.SectionsBuffer(ss))) == v.(clist := v.clist + SectionsRead(ss))
  {
    forall w, s | Idle(w) && s in ss
      ensures Adds(ReadBack, w, s)
    {
      SectionFed(w, s);
    }
    AddInTurn(ReadBack, v, ss);
  }

  lemma FedInTurn(v: Vars, a: Lines, b: Lines)
    ensures FeedAll(v, SplitAll(a + b)) == FeedAll(FeedAll(v, SplitAll(a)), SplitAll(b))
  {
    SplitAllConcat(a, b);
    FeedSplits(v, SplitAll(a), SplitAll(b));
  }

  /** No part can make up for another one when each is at least one. */
  lemma {:induction false} PartsExact<T, U>(f: T -> seq<U>, g: T -> U, s: seq<T>)
    requires forall i :: 0 <= i < |s| ==> |f(s[i])| >= 1
    ensures |Collect(f, s)| >= |s| == |Each(g, s)|
    ensures Collect(f, s) == Each(g, s) <==> forall i :: 0 <= i < |s| ==> f(s[i]) == [g(s[i])]
  {
    if s != [] {
      var init, x := s[..|s| - 1], s[|s| - 1];
      PartsExact(f, g, init);
      SameEnds(Collect(f, init), Each(g, init), f(x), g(x));
    }
  }

  lemma SectionsExact(ss: seq<CvsLog.Section>)
    requires PlainNames(ss)
    ensures SectionsRead(ss) == SectionsBack(ss) <==> PlainComments(ss)
  {
    forall i | 0 <= i < |ss|
      ensures |ReadBack(ss[i])| >= 1 && (ReadBack(ss[i]) == [Faithful(ss[i])] <==> PlainComment(ss[i].comment))
    {
      ReadBackExact(ss[i]);
    }
    PartsExact(ReadBack, Faithful, ss);
  }

  lemma SameEnds<T>(a: seq<T>, b: seq<T>, c: seq<T>, x: T)
    requires |a| >= |b| && |c| >= 1
    ensures a + c == b + [x] <==> a == b && c == [x]
  {
    if a + c == b + [x] {
      assert |a| + |c| == |b| + 1;
      assert a == (a + c)[..|a|] && b == (b + [x])[..|b|];
      assert c == (a + c)[|a|..] && [x] == (b + [x])[|b|..];
    }
  }

  // Entries

  lemma DayLineFed(v: Vars, d: CvsLog.Day)
    requires PlainToken(d.0) && PlainToken(d.1)
    ensures Feed(v, CvsCollector.DayLine(d)) == CloseEntry(v).(date := d.0, author := d.1)
  {
    var line := CvsCollector.DayLine(d);
    assert PlainChars(line);
    assert line == d.0 + ([' '] + d.1);
    assert line[0] == d.0[0];
    WordEndIs(d.0, [' '] + d.1);
    assert line[..|d.0|] == d.0 && line[|d.0|..] == [' '] + d.1;
    TrimLeftOf([' '], d.1);
    WordEndIs(d.1, "");
    assert d.1 + "" == d.1;
    assert d.1[..|d.1|] == d.1 && d.1[|d.1|..] == "";
    assert Words([' '] + d.1) == d.1;
    assert Header(v.asList, line) == d;
  }

  lemma HeadFed(v: Vars, d: CvsLog.Day)
    requires PlainToken(d.0) && PlainToken(d.1)
    ensures FeedAll(v, SplitAll([CvsCollector.DayLine(d), ""])) == CloseEntry(v).(date := d.0, author := d.1)
  {
    DayLineFed(v, d);
    TwoLinesFed(v, CvsCollector.DayLine(d));
    CloseStep(CloseEntry(v).(date := d.0, author := d.1), "");
  }

  lemma TwoLinesFed(v: Vars, line: string)
    requires OneLine(line)
    ensures FeedAll(v, SplitAll([line, ""])) == Feed(Feed(v, line), "")
  {
    SplitAllLines([line, ""]);
    FeedSnoc(v, [], line);
    FeedSnoc(v, [line], "");
    assert [] + [line] == [line] && [line] + [""] == [line, ""];
  }

  function EntryRead(g: CvsLog.Group): Entry {
    Entry(g.day.0, g.day.1, SectionsRead(g.sections))
  }

  function EntriesRead(gs: seq<CvsLog.Group>): seq<Entry> {
    Each(EntryRead, gs)
  }

  /** The entries that v will have reported once its entry is closed. */
  function Closed(v: Vars): seq<Entry> {
    CloseEntry(v).entries
  }

  lemma GroupFed(v: Vars, g: CvsLog.Group)
    requires PlainGroup(g)
    ensures Idle(FeedAll(v, SplitAll(CvsCollector.GroupBuffer(g))))
    ensures Closed(FeedAll(v, SplitAll(CvsCollector.GroupBuffer(g)))) == Closed(v) + [EntryRead(g)]
  {
    var w := CloseEntry(v).(date := g.day.0, author := g.day.1);
    HeadFed(v, g.day);
    SectionsFed(w, g.sections);
    assert [] + SectionsRead(g.sections) == SectionsRead(g.sections);
    FedInTurn(v, [CvsCollector.DayLine(g.day), ""], CvsCollector.SectionsBuffer(g.sections));
  }

  lemma {:induction false} GroupsFed(asList: ListReader, gs: seq<CvsLog.Group>)
    requires forall i :: 0 <= i < |gs| ==> PlainGroup(gs[i])
    ensures Closed(FeedAll(Start(asList), SplitAll(CvsCollector.GroupsBuffer(gs)))) == EntriesRead(gs)
  {
    if gs != [] {
      var init, g := gs[..|gs| - 1], gs[|gs| - 1];
      GroupsFed(asList, init);
      GroupFed(FeedAll(Start(asList), SplitAll(CvsCollector.GroupsBuffer(init))), g);
      FedInTurn(Start(asList), CvsCollector.GroupsBuffer(init), CvsCollector.GroupBuffer(g));
    }
  }

  /** An entry for every group, whatever the comments; its sections are those of its printed sections. */
  lemma ScanPrinted(asList: ListReader, gs: seq<CvsLog.Group>)
    requires forall i :: 0 <= i < |gs| ==> PlainGroup(gs[i])
    ensures ScanText(asList, CvsCollector.Printed(gs)) == EntriesRead(gs)
  {
    var buffer := CvsCollector.GroupsBuffer(gs);
    if gs == [] {
      ScanNothing(asList);
    } else {
      GroupsFed(asList, gs);
      assert buffer != [];
      SplitJoin(buffer);
    }
  }

  lemma ScanNothing(asList: ListReader)
    ensures ScanText(asList, "") == []
  {
    SplitOneLine("");
    FeedSnoc(Start(asList), [], "");
    assert [] + [""] == [""];
    CloseStep(Start(asList), "");
  }

  /** Scanning the print of groups gives them back exactly when all their comments are plain. */
  lemma PrintedExact(asList: ListReader, gs: seq<CvsLog.Group>)
    requires forall i :: 0 <= i < |gs| ==> PlainGroup(gs[i])
    ensures ScanText(asList, CvsCollector.Printed(gs)) == EntriesBack(gs)
       <==> (forall i :: 0 <= i < |gs| ==> PlainComments(gs[i].sections))
  {
    ScanPrinted(asList, gs);
    forall i | 0 <= i < |gs|
      ensures EntryRead(gs[i]) == EntryBack(gs[i]) <==> PlainComments(gs[i].sections)
    {
      SectionsExact(gs[i].sections);
    }
    EachSame(EntryRead, EntryBack, gs);
  }

  lemma EachSame<T, U>(f: T -> U, g: T -> U, s: seq<T>)
    ensures Each(f, s) == Each(g, s) <==> forall i :: 0 <= i < |s| ==> f(s[i]) == g(s[i])
  {
    if Each(f, s) == Each(g, s) {
      forall i | 0 <= i < |s|
        ensures f(s[i]) == g(s[i])
      {
        assert Each(f, s)[i] == Each(g, s)[i];
      }
    }
  }

  // Collected logs

  predicate PlainRevision(r: CvsLog.Revision) {
    PlainToken(r.date) && PlainToken(r.author) && PlainFile(r.file)
  }

  /** Where a file and a comment of a printed section come from. */
  lemma {:induction false} SectionSources(revs: seq<CvsLog.Revision>, le: (CvsLog.Day, CvsLog.Day) -> bool,
                                          i: nat, j: nat, k: nat)
    requires TotalOrder(le) && CvsLog.Complete(CvsLog.Collected(revs))
    requires var groups := CvsLog.Groups(CvsLog.Collected(revs), le);
             i < |groups| && j < |groups[i].sections| && k < |groups[i].sections[j].files|
    ensures var s := CvsLog.Groups(CvsLog.Collected(revs), le)[i].sections[j];
            (exists r :: r in revs && r.file == s.files[k]) && (exists r :: r in revs && r.comment == s.comment)
  {
    var l := CvsLog.Collected(revs);
    var groups := CvsLog.Groups(l, le);
    var s := groups[i].sections[j];
    CvsLog.CollectedHolds(revs);
    var r := CvsLog.Revision(groups[i].day.0, groups[i].day.1, s.comment, s.files[k]);
    assert CvsLog.NamesAt(groups[i], j, r);
    CvsLog.NamedIsLogged(l, le, r);
  }

  lemma DaySource(revs: seq<CvsLog.Revision>, le: (CvsLog.Day, CvsLog.Day) -> bool, i: nat)
    requires TotalOrder(le) && CvsLog.Complete(CvsLog.Collected(revs))
    requires i < |CvsLog.Groups(CvsLog.Collected(revs), le)|
    ensures exists r :: r in revs && CvsLog.DayOf(r) == CvsLog.Groups(CvsLog.Collected(revs), le)[i].day
  {
    var l := CvsLog.Collected(revs);
    CvsLog.CollectedHolds(revs);
    CvsLog.SortedDaysComplete(l, le);
    DownOrder(le);
    Sorts(l.entries, Down(le));
    assert CvsLog.SortedDays(l, le)[i] in l.entries;
  }

  lemma GroupIsPlain(revs: seq<CvsLog.Revision>, le: (CvsLog.Day, CvsLog.Day) -> bool, i: nat)
    requires TotalOrder(le) && CvsLog.Complete(CvsLog.Collected(revs))
    requires (forall r :: r in revs ==> PlainRevision(r)) && i < |CvsLog.Groups(CvsLog.Collected(revs), le)|
    ensures PlainGroup(CvsLog.Groups(CvsLog.Collected(revs), le)[i])
  {
    var l := CvsLog.Collected(revs);
    var g := CvsLog.Groups(l, le)[i];
    CvsLog.CollectedComplete(revs);
    DaySource(revs, le, i);
    forall j | 0 <= j < |g.sections|
      ensures PlainFiles(g.sections[j].files)
    {
      CvsLog.GroupsSorted(l, le, i, j);
      forall k | 0 <= k < |g.sections[j].files|
        ensures PlainFile(g.sections[j].files[k])
      {
        SectionSources(revs, le, i, j, k);
      }
    }
  }

  /** The comments printed are the comments collected. */
  lemma SameComments(revs: seq<CvsLog.Revision>, le: (CvsLog.Day, CvsLog.Day) -> bool)
    requires TotalOrder(le) && CvsLog.Complete(CvsLog.Collected(revs))
    ensures var groups := CvsLog.Groups(CvsLog.Collected(revs), le);
            (forall i :: 0 <= i < |groups| ==> PlainComments(groups[i].sections))
            <==> (forall r :: r in revs ==> PlainComment(r.comment))
  {
    var l := CvsLog.Collected(revs);
    var groups := CvsLog.Groups(l, le);
    CvsLog.CollectedComplete(revs);
    if forall i :: 0 <= i < |groups| ==> PlainComments(groups[i].sections) {
      forall r | r in revs
        ensures PlainComment(r.comment)
      {
        CommentPrinted(revs, le, r);
      }
    }
    if forall r :: r in revs ==> PlainComment(r.comment) {
      forall i, j | 0 <= i < |groups| && 0 <= j < |groups[i].sections|
        ensures PlainComment(groups[i].sections[j].comment)
      {
        CvsLog.GroupsSorted(l, le, i, j);
        SectionSources(revs, le, i, j, 0);
      }
    }
  }

  lemma CommentPrinted(revs: seq<CvsLog.Revision>, le: (CvsLog.Day, CvsLog.Day) -> bool, r: CvsLog.Revision)
    requires TotalOrder(le) && CvsLog.Complete(CvsLog.Collected(revs)) && r in revs
    ensures var groups := CvsLog.Groups(CvsLog.Collected(revs), le);
            exists i, j :: 0 <= i < |groups| && 0 <= j < |groups[i].sections| && groups[i].sections[j].comment == r.comment
  {
    var l := CvsLog.Collected(revs);
    CvsLog.CollectedHolds(revs);
    assert CvsLog.Has(l.comments, CvsLog.DayKey(CvsLog.DayOf(r)), r.comment);
    assert CvsLog.Has(l.files, CvsLog.CommentKey(CvsLog.DayOf(r), r.comment), r.file);
    CvsLog.LoggedIsNamed(l, le, r);
    var groups := CvsLog.Groups(l, le);
    var i, j :| 0 <= i < |groups| && 0 <= j < |groups[i].sections| && CvsLog.NamesAt(groups[i], j, r);
  }

  /**
   Print and parse: take any collected log whose dates, authors and file names are plain. Scanning its
   change log gives an entry for each day, in decreasing order, and in it a section for each comment,
   with its files; files and comments are sorted and unique, and each comment is the original up to
   blanks at the ends of its lines. This holds exactly when every comment is plain: up to its last line that is
   not blank, no line is blank and none starts an item.
   */
  lemma ScanOfChangeLog(asList: ListReader, revs: seq<CvsLog.Revision>, le: (CvsLog.Day, CvsLog.Day) -> bool)
    requires (forall r :: r in revs ==> PlainRevision(r)) && TotalOrder(le)
    ensures CvsLog.Complete(CvsLog.Collected(revs))
    ensures var groups := CvsLog.Groups(CvsLog.Collected(revs), le);
            ScanText(asList, CvsCollector.Printed(groups)) == EntriesBack(groups)
            <==> (forall r :: r in revs ==> PlainComment(r.comment))
  {
    CvsLog.CollectedComplete(revs);
    var groups := CvsLog.Groups(CvsLog.Collected(revs), le);
    forall i | 0 <= i < |groups|
      ensures PlainGroup(groups[i])
    {
      GroupIsPlain(revs, le, i);
    }
    PrintedExact(asList, groups);
    SameComments(revs, le);
  }

  lemma BlankBetween(a: string, b: string)
    requires OneLine(a) && OneLine(b) && Trim(b) != ""
    ensures !PlainComment(a + (['\n', '\n'] + b))
  {
    SplitBetween(a, b);
    var lines := [a, "", b];
    assert Textutil.Chop(lines) == lines && !TextLine(lines[1]);
  }

  lemma SplitBetween(a: string, b: string)
    requires OneLine(a) && OneLine(b)
    ensures Split(a + (['\n', '\n'] + b)) == [a, "", b]
  {
    var all := [a, "", b];
    SplitJoin(all);
    JoinThree(a, b);
    SplitAllLines(all);
  }

  lemma JoinThree(a: string, b: string)
    ensures Join([a, "", b]) == a + (['\n', '\n'] + b)
  {
    assert [a, "", b][..2] == [a, ""] && [a, ""][..1] == [a];
    assert Join([a]) == a;
    assert Join([a, ""]) == a + ['\n'] + "";
  }

  /** A comment with a blank line inside it, in an otherwise plain log, is not read back. */
  lemma BlankLineNotRead(asList: ListReader, le: (CvsLog.Day, CvsLog.Day) -> bool)
    requires TotalOrder(le)
    ensures var revs := [CvsLog.Revision("d", "a", "x\n\ny", "f")];
            CvsLog.Complete(CvsLog.Collected(revs))
            && var groups := CvsLog.Groups(CvsLog.Collected(revs), le);
               ScanText(asList, CvsCollector.Printed(groups)) != EntriesBack(groups)
  {
    BlankBetween("x", "y");
    assert "x" + (['\n', '\n'] + "y") == "x\n\ny";
    NotRead(asList, CvsLog.Revision("d", "a", "x\n\ny", "f"), le);
  }

  lemma NotRead(asList: ListReader, r: CvsLog.Revision, le: (CvsLog.Day, CvsLog.Day) -> bool)
    requires TotalOrder(le) && PlainRevision(r) && !PlainComment(r.comment)
    ensures CvsLog.Complete(CvsLog.Collected([r]))
    ensures var groups := CvsLog.Groups(CvsLog.Collected([r]), le);
            ScanText(asList, CvsCollector.Printed(groups)) != EntriesBack(groups)
  {
    assert r in [r];
    ScanOfChangeLog(asList, [r], le);
  }

  /**
   From cvs logs to entries: any number of logs scanned into the same variables, none of which stops the scan. Their
   change log can be printed and names every revision of every log, and these only exactly where the revisions are
   closed under coinciding keys. It is read back exactly when all comments are plain.
   */
  lemma FromCvsTexts(asList: ListReader, texts: seq<string>, le: (CvsLog.Day, CvsLog.Day) -> bool)
    requires CvsLog.ScanTexts(texts, CvsLog.NOTHING).ok && TotalOrder(le)
    ensures var log := CvsLog.ScanTexts(texts, CvsLog.NOTHING).log;
            var revs := CvsLog.AllRevisions(texts);
            CvsLog.Complete(log)
            && var groups := CvsLog.Groups(log, le);
               (forall r :: r in revs ==> CvsLog.Names(groups, r))
               && ((forall r :: CvsLog.Names(groups, r) <==> r in revs) <==> CvsLog.Closed(revs))
               && ((forall r :: r in revs ==> PlainRevision(r)) ==>
                     (ScanText(asList, CvsCollector.Printed(groups)) == EntriesBack(groups)
                      <==> (forall r :: r in revs ==> PlainComment(r.comment))))
  {
    var revs := CvsLog.AllRevisions(texts);
    CvsLog.ScanTextsCollects(texts, CvsLog.NOTHING);
    CvsLog.CollectedComplete(revs);
    forall r | r in revs
      ensures CvsLog.Names(CvsLog.Groups(CvsLog.Collected(revs), le), r)
    {
      CvsLog.NothingLost(revs, le, r);
    }
    CvsLog.ConservationIff(revs, le);
    if forall r :: r in revs ==> PlainRevision(r) {
      ScanOfChangeLog(asList, revs, le);
    }
  }
}
