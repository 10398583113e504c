/**
 The cvs log tool: scanLog collects revisions into three variables of its caller, toChangeLog
 prints them grouped by day and comment.

 The variables are a list of (date, author) pairs and two arrays whose keys are made by joining
 dates, authors and comments with commas.
 */
module CvsLog {
  import opened Machines
  import opened Outcomes
  import opened Sorting
  import opened TclText
  import opened Textutil

  type Day = (string, string)

  type Table = map<string, seq<string>>

  datatype Revision = Revision(date: string, author: string, comment: string, file: string)

  datatype Log = Log(entries: seq<Day>, comments: Table, files: Table)

  const NOTHING := Log([], map[], map[])

  function DayKey(d: Day): string {
    d.0 + [','] + d.1
  }

  function CommentKey(d: Day, comment: string): string {
    DayKey(d) + [','] + comment
  }

  function DayOf(r: Revision): Day {
    (r.date, r.author)
  }

  function Lappend(t: Table, key: string, value: string): Table {
    t[key := (if key in t then t[key] else []) + [value]]
  }

  /** The first two of the three appends for a revision. */
  function AddComment(l: Log, d: Day, comment: string): Log {
    l.(entries := l.entries + [d], comments := Lappend(l.comments, DayKey(d), comment))
  }

  function Add(l: Log, r: Revision): Log {
    var m := AddComment(l, DayOf(r), r.comment);
    m.(files := Lappend(m.files, CommentKey(DayOf(r), r.comment), r.file))
  }

  function AddAll(l: Log, revs: seq<Revision>): Log {
    Fold(Add, l, revs)
  }

  function Collected(revs: seq<Revision>): Log {
    AddAll(NOTHING, revs)
  }

  // Reading a log

  /** The variables of one scanLog call that live on from line to line; None while unset. */
  datatype Vars = Vars(filename: Option<string>, date: Option<string>, author: Option<string>)

  /** Semicolons off both ends. */
  function TrimSemicolons(s: string): string
    decreases |s|
  {
    if s != "" && s[0] == ';' then TrimSemicolons(s[1..])
    else if s != "" && s[|s| - 1] == ';' then TrimSemicolons(s[..|s| - 1])
    else s
  }

  const FILE_MARK := "Working file:"
  const DATE_MARK := "date:"
  const AUTHOR_MARK := "author:"

  /** regexp {Working file: (.*)}: no change when the blank after the colon is missing. */
  function FileLine(v: Vars, line: string): Vars {
    var mark := FILE_MARK + " ";
    var k := First(mark, line);
    if k < 0 || k + |mark| > |line| then v else v.(filename := Some(line[k + |mark|..]))
  }

  /** scan "date: %s %s author: %s": the variables of the conversions that succeed are set, the others keep their values. */
  function DateLine(v: Vars, line: string): Vars
    requires DATE_MARK <= line
  {
    var a := TrimLeft(line[|DATE_MARK|..]);
    if a == "" then v
    else TimeAndAuthor(v.(date := Some(a[..WordEnd(a)])), a[WordEnd(a)..])
  }

  function TimeAndAuthor(v: Vars, s: string): Vars {
    var b := TrimLeft(s);
    var c := TrimLeft(b[WordEnd(b)..]);
    if b == "" || !(AUTHOR_MARK <= c) then v
    else
      var d := TrimLeft(c[|AUTHOR_MARK|..]);
      if d == "" then v else v.(author := Some(d[..WordEnd(d)]))
  }

  predicate Separator(line: string) {
    Contains(line, "----") || Contains(line, "====")
  }

  /** The first separator line at or after i, or the end of the log. */
  function CommentEnd(lines: Lines, i: nat): (k: nat)
    requires i <= |lines|
    ensures i <= k <= |lines|
    decreases |lines| - i
  {
    if i == |lines| || Separator(lines[i]) then i else CommentEnd(lines, i + 1)
  }

  /** What a scan leaves: the log, and whether it got to the end without reading an unset variable. */
  datatype Scanned = Scanned(log: Log, ok: bool)

  datatype LineKind = FileKind | DateKind | OtherKind

  function KindOf(line: string): LineKind {
    if Contains(line, FILE_MARK) then FileKind
    else if DATE_MARK <= line then DateKind
    else OtherKind
  }

  /** The variables after a date line, or None where the day is unset. */
  function Dated(v: Vars, line: string): Option<Vars>
    requires DATE_MARK <= line
  {
    var w := DateLine(v, line);
    if w.author.None? || w.date.None? then None
    else Some(w.(author := Some(TrimSemicolons(w.author.value))))
  }

  function VarsDay(v: Vars): Day
    requires v.date.Some? && v.author.Some?
  {
    (v.date.value, v.author.value)
  }

  /** Where the scan goes on after a comment that ends at k: past the separator, if there is one. */
  function Past(lines: Lines, k: nat): nat {
    if k < |lines| then k + 1 else k
  }

  function Comment(lines: Lines, i: nat): string
    requires i < |lines|
  {
    Terminated(lines[i + 1..CommentEnd(lines, i + 1)])
  }

  function ScanFrom(lines: Lines, i: nat, v: Vars, l: Log): Scanned
    requires i <= |lines|
    decreases |lines| - i
  {
    if i == |lines| then Scanned(l, true)
    else
      match KindOf(lines[i])
      case FileKind => ScanFrom(lines, i + 1, FileLine(v, lines[i]), l)
      case OtherKind => ScanFrom(lines, i + 1, v, l)
      case DateKind =>
        match Dated(v, lines[i])
        case None => Scanned(l, false)
        case Some(x) =>
          if x.filename.None? then Scanned(AddComment(l, VarsDay(x), Comment(lines, i)), false)
          else ScanFrom(lines, Past(lines, CommentEnd(lines, i + 1)), x, Add(l, RevisionAt(lines, i, x)))
  }

  function RevisionAt(lines: Lines, i: nat, x: Vars): Revision
    requires i < |lines| && x.date.Some? && x.author.Some? && x.filename.Some?
  {
    Revision(x.date.value, x.author.value, Comment(lines, i), x.filename.value)
  }

  const UNSET := Vars(None, None, None)

  /** The revisions that a scan reads before it ends or stops. */
  function RevisionsFrom(lines: Lines, i: nat, v: Vars): seq<Revision>
    requires i <= |lines|
    decreases |lines| - i
  {
    if i == |lines| then []
    else
      match KindOf(lines[i])
      case FileKind => RevisionsFrom(lines, i + 1, FileLine(v, lines[i]))
      case OtherKind => RevisionsFrom(lines, i + 1, v)
      case DateKind =>
        match Dated(v, lines[i])
        case None => []
        case Some(x) =>
          if x.filename.None? then []
          else [RevisionAt(lines, i, x)] + RevisionsFrom(lines, Past(lines, CommentEnd(lines, i + 1)), x)
  }

  function Revisions(text: string): seq<Revision> {
    RevisionsFrom(Split(text), 0, UNSET)
  }

  lemma AddAllSplits(l: Log, a: seq<Revision>, b: seq<Revision>)
    ensures AddAll(l, a + b) == AddAll(AddAll(l, a), b)
  {
    FoldSplits(Add, l, a, b);
  }

  lemma AddFirst(l: Log, r: Revision, rest: seq<Revision>)
    ensures AddAll(l, [r] + rest) == AddAll(Add(l, r), rest)
  {
    AddAllSplits(l, [r], rest);
    FoldOne(Add, l, r);
  }

  /** How a scan ends: at the end of the text, or at a date line that gives no day, or between its appends. */
  datatype Ending = Finished | NoDay | NoFile(day: Day, comment: string)

  function EndingFrom(lines: Lines, i: nat, v: Vars): Ending
    requires i <= |lines|
    decreases |lines| - i
  {
    if i == |lines| then Finished
    else
      match KindOf(lines[i])
      case FileKind => EndingFrom(lines, i + 1, FileLine(v, lines[i]))
      case OtherKind => EndingFrom(lines, i + 1, v)
      case DateKind =>
        match Dated(v, lines[i])
        case None => NoDay
        case Some(x) =>
          if x.filename.None? then NoFile(VarsDay(x), Comment(lines, i))
          else EndingFrom(lines, Past(lines, CommentEnd(lines, i + 1)), x)
  }

  function Ended(l: Log, e: Ending): Log {
    match e case NoFile(d, c) => AddComment(l, d, c) case _ => l
  }

  /** A scan adds its revisions, and where it stops between its appends the day and comment of one more. */
  lemma {:induction false} ScanCollects(lines: Lines, i: nat, v: Vars, l: Log)
    requires i <= |lines|
    ensures var e := EndingFrom(lines, i, v);
            ScanFrom(lines, i, v, l) == Scanned(Ended(AddAll(l, RevisionsFrom(lines, i, v)), e), e.Finished?)
    decreases |lines| - i
  {
    if i < |lines| {
      match KindOf(lines[i])
      case FileKind => ScanCollects(lines, i + 1, FileLine(v, lines[i]), l);
      case OtherKind => ScanCollects(lines, i + 1, v, l);
      case DateKind =>
        if Dated(v, lines[i]).Some? && Dated(v, lines[i]).value.filename.Some? {
          var x, next := Dated(v, lines[i]).value, Past(lines, CommentEnd(lines, i + 1));
          var r := RevisionAt(lines, i, x);
          ScanCollects(lines, next, x, Add(l, r));
          AddFirst(l, r, RevisionsFrom(lines, next, x));
        }
    }
  }

  /** Several logs, scanned into the same variables up to the first scan that stops. */
  function ScanTexts(texts: seq<string>, l: Log): Scanned {
    if texts == [] then Scanned(l, true)
    else
      var s := ScanTexts(texts[..|texts| - 1], l);
      if s.ok then ScanFrom(Split(texts[|texts| - 1]), 0, UNSET, s.log) else s
  }

  function AllRevisions(texts: seq<string>): seq<Revision> {
    if texts == [] then [] else AllRevisions(texts[..|texts| - 1]) + Revisions(texts[|texts| - 1])
  }

  lemma {:induction false} ScanTextsCollects(texts: seq<string>, l: Log)
    requires ScanTexts(texts, l).ok
    ensures ScanTexts(texts, l).log == AddAll(l, AllRevisions(texts))
  {
    if texts != [] {
      var init, last := texts[..|texts| - 1], texts[|texts| - 1];
      ScanTextsCollects(init, l);
      ScanCollects(Split(last), 0, UNSET, ScanTexts(init, l).log);
      AddAllSplits(l, AllRevisions(init), Revisions(last));
    }
  }

  // When a scan gets to the end

  predicate NamesFile(line: string) {
    KindOf(line).FileKind? && FileLine(UNSET, line).filename.Some?
  }

  predicate GivesDay(line: string) {
    KindOf(line).DateKind? && Dated(UNSET, line).Some?
  }

  /** The first date line at or after i, or the end of the log. */
  function FirstDate(lines: Lines, i: nat): (k: nat)
    requires i <= |lines|
    ensures i <= k <= |lines| && (k < |lines| ==> KindOf(lines[k]).DateKind?)
    ensures forall j :: i <= j < k ==> !KindOf(lines[j]).DateKind?
    decreases |lines| - i
  {
    if i == |lines| || KindOf(lines[i]).DateKind? then i else FirstDate(lines, i + 1)
  }

  /** Once all three variables are set a scan does not stop. */
  lemma {:induction false} SetFinishes(lines: Lines, i: nat, v: Vars)
    requires i <= |lines| && v.filename.Some? && v.date.Some? && v.author.Some?
    ensures EndingFrom(lines, i, v) == Finished
    decreases |lines| - i
  {
    if i < |lines| {
      match KindOf(lines[i])
      case FileKind =>
        SetFinishes(lines, i + 1, FileLine(v, lines[i]));
      case OtherKind => SetFinishes(lines, i + 1, v);
      case DateKind =>
        SetFinishes(lines, Past(lines, CommentEnd(lines, i + 1)), Dated(v, lines[i]).value);
    }
  }

  /** A file is named between i and k. */
  predicate FileBefore(lines: Lines, i: nat, k: nat)
    requires i <= k <= |lines|
  {
    exists j :: i <= j < k && NamesFile(lines[j])
  }

  lemma {:induction false} FinishesIff(lines: Lines, i: nat, v: Vars)
    requires i <= |lines| && v.date.None? && v.author.None?
    ensures var k := FirstDate(lines, i);
            EndingFrom(lines, i, v) == Finished
            <==> (k < |lines| ==> (v.filename.Some? || FileBefore(lines, i, k)) && GivesDay(lines[k]))
    decreases |lines| - i
  {
    if i < |lines| {
      if KindOf(lines[i]).DateKind? {
        if GivesDay(lines[i]) && v.filename.Some? {
          SetFinishes(lines, Past(lines, CommentEnd(lines, i + 1)), Dated(v, lines[i]).value);
        }
      } else {
        assert FileBefore(lines, i, FirstDate(lines, i))
          <==> NamesFile(lines[i]) || FileBefore(lines, i + 1, FirstDate(lines, i));
        if KindOf(lines[i]).FileKind? {
          FinishesIff(lines, i + 1, FileLine(v, lines[i]));
        } else {
          FinishesIff(lines, i + 1, v);
        }
      }
    }
  }

  /**
   A scan succeeds if and only if its log has no date line, or a file is named before the first one and that one
   gives both date and author. Later date lines cannot stop it: the variables keep their values.
   */
  lemma ScanSucceedsIff(text: string, l: Log)
    ensures var lines := Split(text);
            var k := FirstDate(lines, 0);
            ScanFrom(lines, 0, UNSET, l).ok <==> (k < |lines| ==> FileBefore(lines, 0, k) && GivesDay(lines[k]))
  {
    ScanCollects(Split(text), 0, UNSET, l);
    FinishesIff(Split(text), 0, UNSET);
  }

  // What a collected log holds

  /** No key that toChangeLog reads is missing. */
  predicate Complete(l: Log) {
    forall i :: 0 <= i < |l.entries| ==> DayComplete(l, l.entries[i])
  }

  predicate DayComplete(l: Log, d: Day) {
    && DayKey(d) in l.comments
    && forall j :: 0 <= j < |l.comments[DayKey(d)]| ==> CommentComplete(l, d, l.comments[DayKey(d)][j])
  }

  predicate CommentComplete(l: Log, d: Day, comment: string) {
    CommentKey(d, comment) in l.files
  }

  /** No list in either array is empty. */
  predicate Filled(l: Log) {
    (forall k :: k in l.comments ==> l.comments[k] != []) && (forall k :: k in l.files ==> l.files[k] != [])
  }

  /** The log holds exactly what the revisions say, key by key. */
  ghost predicate Holds(l: Log, revs: seq<Revision>) {
    && (forall d :: d in l.entries <==> exists r :: r in revs && DayOf(r) == d)
    && (forall k, c :: Has(l.comments, k, c) <==> exists r :: r in revs && DayKey(DayOf(r)) == k && r.comment == c)
    && (forall k, f :: Has(l.files, k, f) <==> exists r :: r in revs && CommentKey(DayOf(r), r.comment) == k && r.file == f)
    && Filled(l)
  }

  predicate Has(t: Table, key: string, value: string) {
    key in t && value in t[key]
  }

  lemma LappendHas(t: Table, key: string, value: string)
    ensures forall k, x :: Has(Lappend(t, key, value), k, x) <==> Has(t, k, x) || (k == key && x == value)
    ensures forall k :: k in Lappend(t, key, value) <==> k in t || k == key
    ensures (forall k :: k in t ==> t[k] != []) ==>
              forall k :: k in Lappend(t, key, value) ==> Lappend(t, key, value)[k] != []
  {
  }

  lemma {:induction false} CollectedHolds(revs: seq<Revision>)
    ensures Holds(Collected(revs), revs)
  {
    if revs != [] {
      var init, r := revs[..|revs| - 1], revs[|revs| - 1];
      assert init + [r] == revs;
      CollectedHolds(init);
      AddHolds(Collected(init), init, r);
    }
  }

  lemma AddHolds(l: Log, revs: seq<Revision>, r: Revision)
    requires Holds(l, revs)
    ensures Holds(Add(l, r), revs + [r])
  {
    LappendHas(l.comments, DayKey(DayOf(r)), r.comment);
    LappendHas(l.files, CommentKey(DayOf(r), r.comment), r.file);
    assert forall x :: x in revs + [r] <==> x in revs || x == r;
  }

  /** After any number of successful scans into the same variables, no key is missing and no list is empty. */
  lemma CollectedComplete(revs: seq<Revision>)
    ensures Complete(Collected(revs)) && Filled(Collected(revs))
  {
    CollectedHolds(revs);
    var l := Collected(revs);
    forall i | 0 <= i < |l.entries|
      ensures DayComplete(l, l.entries[i])
    {
      var d := l.entries[i];
      assert d in l.entries;
      var r :| r in revs && DayOf(r) == d;
      assert Has(l.comments, DayKey(d), r.comment);
      forall j | 0 <= j < |l.comments[DayKey(d)]|
        ensures CommentComplete(l, d, l.comments[DayKey(d)][j])
      {
        var c := l.comments[DayKey(d)][j];
        assert Has(l.comments, DayKey(d), c);
        var q :| q in revs && DayKey(DayOf(q)) == DayKey(d) && q.comment == c;
        assert Has(l.files, CommentKey(d, c), q.file);
      }
    }
  }

  /** The first two appends alone leave a collected log complete exactly when its files have that key already. */
  lemma AddCommentCompleteIff(revs: seq<Revision>, d: Day, comment: string)
    ensures Complete(AddComment(Collected(revs), d, comment)) <==> CommentKey(d, comment) in Collected(revs).files
  {
    var l := Collected(revs);
    var m := AddComment(l, d, comment);
    CollectedHolds(revs);
    CollectedComplete(revs);
    LappendHas(l.comments, DayKey(d), comment);
    if Complete(m) {
      assert m.entries[|l.entries|] == d && Has(m.comments, DayKey(d), comment);
      var j :| 0 <= j < |m.comments[DayKey(d)]| && m.comments[DayKey(d)][j] == comment;
      assert CommentComplete(m, d, m.comments[DayKey(d)][j]);
    }
    if CommentKey(d, comment) in l.files {
      forall i | 0 <= i < |m.entries|
        ensures DayComplete(m, m.entries[i])
      {
        StillComplete(revs, d, comment, m.entries[i]);
      }
    }
  }

  lemma StillComplete(revs: seq<Revision>, d: Day, comment: string, e: Day)
    requires CommentKey(d, comment) in Collected(revs).files && (e == d || e in Collected(revs).entries)
    ensures DayComplete(AddComment(Collected(revs), d, comment), e)
  {
    var l := Collected(revs);
    var m := AddComment(l, d, comment);
    CollectedHolds(revs);
    CollectedComplete(revs);
    LappendHas(l.comments, DayKey(d), comment);
    if e != d {
      var i :| 0 <= i < |l.entries| && l.entries[i] == e;
      assert DayComplete(l, l.entries[i]);
    }
    forall j | 0 <= j < |m.comments[DayKey(e)]|
      ensures CommentComplete(m, e, m.comments[DayKey(e)][j])
    {
      var c := m.comments[DayKey(e)][j];
      assert Has(m.comments, DayKey(e), c);
      if Has(l.comments, DayKey(e), c) {
        var q :| q in revs && DayKey(DayOf(q)) == DayKey(e) && q.comment == c;
        assert Has(l.files, CommentKey(e, c), q.file);
      }
    }
  }

  /**
   A scan into a collected log leaves a log that toChangeLog can print if and only if it got to the end, or stopped
   before its first append, or stopped at a day and comment for which a file is on record.
   */
  lemma ScanCompleteIff(revs: seq<Revision>, lines: Lines, i: nat, v: Vars)
    requires i <= |lines|
    ensures var l := AddAll(Collected(revs), RevisionsFrom(lines, i, v));
            Complete(ScanFrom(lines, i, v, Collected(revs)).log)
            <==> match EndingFrom(lines, i, v)
                 case NoFile(d, c) => CommentKey(d, c) in l.files
                 case _ => true
  {
    var more := RevisionsFrom(lines, i, v);
    ScanCollects(lines, i, v, Collected(revs));
    AddAllSplits(NOTHING, revs, more);
    assert AddAll(Collected(revs), more) == Collected(revs + more);
    CollectedComplete(revs + more);
    match EndingFrom(lines, i, v)
    case NoFile(d, c) => AddCommentCompleteIff(revs + more, d, c);
    case _ =>
  }

  // A log that starts with a date line

  const DATE_FIRST := "date: d t author: a"

  lemma {:induction false} FirstMissing(pat: string, s: string)
    requires pat != "" && pat[0] !in s
    ensures First(pat, s) == -1
  {
    if s != "" {
      FirstMissing(pat, s[1..]);
    }
  }

  /** A word after a blank, as scan reads it with %s. */
  lemma WordTaken(w: string, rest: string)
    requires w != "" && (forall i :: 0 <= i < |w| ==> !IsSpace(w[i])) && (rest == "" || IsSpace(rest[0]))
    ensures TrimLeft([' '] + w + rest) == w + rest
    ensures WordEnd(w + rest) == |w| && (w + rest)[..|w|] == w && (w + rest)[|w|..] == rest
  {
    TrimLeftOf([' '], w + rest);
    assert [' '] + (w + rest) == [' '] + w + rest && (w + rest)[0] == w[0];
    WordEndIs(w, rest);
  }

  predicate Token(w: string) {
    w != "" && forall i :: 0 <= i < |w| ==> !IsSpace(w[i])
  }

  lemma TimeAndAuthorRead(v: Vars, time: string, author: string)
    requires Token(time) && Token(author)
    ensures TimeAndAuthor(v, [' '] + time + ([' '] + AUTHOR_MARK + ([' '] + author))) == v.(author := Some(author))
  {
    var s4 := [' '] + author;
    var s3 := [' '] + AUTHOR_MARK + s4;
    WordTaken(time, s3);
    WordTaken(AUTHOR_MARK, s4);
    WordTaken(author, "");
    assert [' '] + author + "" == s4 && author + "" == author;
    assert (AUTHOR_MARK + s4)[|AUTHOR_MARK|..] == s4;
  }

  /** A date line of single words gives its date and author. */
  lemma DateLineReads(v: Vars, date: string, time: string, author: string)
    requires Token(date) && Token(time) && Token(author)
    ensures DateLine(v, DATE_MARK + ([' '] + date + ([' '] + time + ([' '] + AUTHOR_MARK + ([' '] + author)))))
         == v.(date := Some(date), author := Some(author))
  {
    var s2 := [' '] + time + ([' '] + AUTHOR_MARK + ([' '] + author));
    WordTaken(date, s2);
    assert (DATE_MARK + ([' '] + date + s2))[|DATE_MARK|..] == [' '] + date + s2;
    TimeAndAuthorRead(v.(date := Some(date)), time, author);
  }

  lemma DateFirstLine()
    ensures Split(DATE_FIRST) == [DATE_FIRST]
  {
    SplitOneLine(DATE_FIRST);
  }

  lemma DateFirstKind()
    ensures KindOf(DATE_FIRST) == DateKind
  {
    var line := DATE_FIRST;
    assert FILE_MARK[0] == 'W' && 'W' !in line;
    FirstMissing(FILE_MARK, line);
    assert DATE_MARK <= line;
  }

  lemma DateFirstIs()
    ensures DATE_FIRST == DATE_MARK + ([' '] + "d" + ([' '] + "t" + ([' '] + AUTHOR_MARK + ([' '] + "a"))))
  {
  }

  lemma DateFirstRead()
    ensures DATE_MARK <= DATE_FIRST && Dated(UNSET, DATE_FIRST) == Some(Vars(None, Some("d"), Some("a")))
  {
    DateLineReads(UNSET, "d", "t", "a");
    DateFirstIs();
    assert TrimSemicolons("a") == "a";
  }

  /** Scanned first, that log stops the scan and cannot be printed; after a file of that day and comment it can. */
  lemma StoppedScan(file: string)
    ensures !ScanFrom(Split(DATE_FIRST), 0, UNSET, NOTHING).ok
    ensures !Complete(ScanFrom(Split(DATE_FIRST), 0, UNSET, NOTHING).log)
    ensures Complete(ScanFrom(Split(DATE_FIRST), 0, UNSET, Collected([Revision("d", "a", "", file)])).log)
  {
    var lines, rev := [DATE_FIRST], Revision("d", "a", "", file);
    DateFirstLine();
    DateFirstKind();
    DateFirstRead();
    assert Comment(lines, 0) == "" by {
      assert lines[1..1] == [];
    }
    assert EndingFrom(lines, 0, UNSET) == NoFile(("d", "a"), "") && RevisionsFrom(lines, 0, UNSET) == [];
    ScanCollects(lines, 0, UNSET, NOTHING);
    ScanCompleteIff([], lines, 0, UNSET);
    ScanCompleteIff([rev], lines, 0, UNSET);
    CollectedHolds([rev]);
    assert rev in [rev];
    assert Has(Collected([rev]).files, CommentKey(DayOf(rev), rev.comment), file);
  }

  // Printing

  datatype Section = Section(files: seq<string>, comment: string)
  datatype Group = Group(day: Day, sections: seq<Section>)

  function SectionOf(l: Log, d: Day, comment: string): Section
    requires CommentComplete(l, d, comment)
  {
    Section(SortUnique(l.files[CommentKey(d, comment)], StringLe), comment)
  }

  function SectionsOf(l: Log, d: Day, comments: seq<string>): (r: seq<Section>)
    requires forall i :: 0 <= i < |comments| ==> CommentComplete(l, d, comments[i])
    ensures |r| == |comments|
    ensures forall i :: 0 <= i < |r| ==> r[i] == SectionOf(l, d, comments[i])
  {
    if comments == [] then []
    else SectionsOf(l, d, comments[..|comments| - 1]) + [SectionOf(l, d, comments[|comments| - 1])]
  }

  function SortedComments(l: Log, d: Day): seq<string>
    requires DayComplete(l, d)
  {
    SortUnique(l.comments[DayKey(d)], StringLe)
  }

  lemma SortedCommentsComplete(l: Log, d: Day)
    requires DayComplete(l, d)
    ensures forall i :: 0 <= i < |SortedComments(l, d)| ==> CommentComplete(l, d, SortedComments(l, d)[i])
  {
    StringOrder();
    Sorts(l.comments[DayKey(d)], StringLe);
    forall i | 0 <= i < |SortedComments(l, d)|
      ensures CommentComplete(l, d, SortedComments(l, d)[i])
    {
      assert SortedComments(l, d)[i] in l.comments[DayKey(d)];
    }
  }

  function GroupOf(l: Log, d: Day): Group
    requires DayComplete(l, d)
  {
    SortedCommentsComplete(l, d);
    Group(d, SectionsOf(l, d, SortedComments(l, d)))
  }

  function GroupsOf(l: Log, days: seq<Day>): (r: seq<Group>)
    requires forall i :: 0 <= i < |days| ==> DayComplete(l, days[i])
    ensures |r| == |days|
    ensures forall i :: 0 <= i < |r| ==> r[i] == GroupOf(l, days[i])
  {
    if days == [] then [] else GroupsOf(l, days[..|days| - 1]) + [GroupOf(l, days[|days| - 1])]
  }

  function SortedDays(l: Log, le: (Day, Day) -> bool): seq<Day> {
    SortUnique(l.entries, Down(le))
  }

  lemma SortedDaysComplete(l: Log, le: (Day, Day) -> bool)
    requires Complete(l) && TotalOrder(le)
    ensures forall i :: 0 <= i < |SortedDays(l, le)| ==> DayComplete(l, SortedDays(l, le)[i])
  {
    DownOrder(le);
    Sorts(l.entries, Down(le));
    forall i | 0 <= i < |SortedDays(l, le)|
      ensures DayComplete(l, SortedDays(l, le)[i])
    {
      assert SortedDays(l, le)[i] in l.entries;
    }
  }

  /** What toChangeLog prints, in order. le is the order in which lsort puts (date, author) lists. */
  ghost function Groups(l: Log, le: (Day, Day) -> bool): seq<Group>
    requires Complete(l) && TotalOrder(le)
  {
    SortedDaysComplete(l, le);
    GroupsOf(l, SortedDays(l, le))
  }

  // Conservation

  predicate NoComma(s: string) {
    ',' !in s
  }

  predicate CommaFree(revs: seq<Revision>) {
    forall i :: 0 <= i < |revs| ==> NoComma(revs[i].date) && NoComma(revs[i].author)
  }

  lemma JoinInjective(a: string, x: string, b: string, y: string)
    requires NoComma(a) && NoComma(b) && a + [','] + x == b + [','] + y
    ensures a == b && x == y
  {
    FirstComma(a, x);
    FirstComma(b, y);
    assert |a| == |b|;
    assert a == (a + [','] + x)[..|a|] && b == (b + [','] + y)[..|b|];
    assert x == (a + [','] + x)[|a| + 1..] && y == (b + [','] + y)[|b| + 1..];
  }

  lemma FirstComma(a: string, x: string)
    requires NoComma(a)
    ensures (a + [','] + x)[|a|] == ','
    ensures forall k :: 0 <= k < |a| ==> (a + [','] + x)[k] != ','
  {
    assert forall k :: 0 <= k < |a| ==> (a + [','] + x)[k] == a[k];
  }

  lemma KeysInjective(d: Day, c: string, e: Day, b: string)
    requires NoComma(d.0) && NoComma(d.1) && NoComma(e.0) && NoComma(e.1)
    ensures DayKey(d) == DayKey(e) ==> d == e
    ensures CommentKey(d, c) == CommentKey(e, b) ==> d == e && c == b
  {
    if DayKey(d) == DayKey(e) {
      JoinInjective(d.0, d.1, e.0, e.1);
    }
    if CommentKey(d, c) == CommentKey(e, b) {
      assert CommentKey(d, c) == d.0 + [','] + (d.1 + [','] + c);
      assert CommentKey(e, b) == e.0 + [','] + (e.1 + [','] + b);
      JoinInjective(d.0, d.1 + [','] + c, e.0, e.1 + [','] + b);
      JoinInjective(d.1, c, e.1, b);
    }
  }

  ghost predicate Names(groups: seq<Group>, r: Revision) {
    exists i, j :: 0 <= i < |groups| && 0 <= j < |groups[i].sections| && NamesAt(groups[i], j, r)
  }

  predicate NamesAt(g: Group, j: nat, r: Revision)
    requires j < |g.sections|
  {
    g.day == DayOf(r) && g.sections[j].comment == r.comment && r.file in g.sections[j].files
  }

  /** What the printed groups name is in the log. */
  lemma NamedIsLogged(l: Log, le: (Day, Day) -> bool, r: Revision)
    requires Complete(l) && TotalOrder(le) && Names(Groups(l, le), r)
    ensures DayOf(r) in l.entries && Has(l.comments, DayKey(DayOf(r)), r.comment)
    ensures Has(l.files, CommentKey(DayOf(r), r.comment), r.file)
  {
    SortedDaysComplete(l, le);
    DownOrder(le);
    Sorts(l.entries, Down(le));
    StringOrder();
    var groups := Groups(l, le);
    var i, j :| 0 <= i < |groups| && 0 <= j < |groups[i].sections| && NamesAt(groups[i], j, r);
    var d := SortedDays(l, le)[i];
    assert d in SortedDays(l, le) && groups[i] == GroupOf(l, d);
    SortedCommentsComplete(l, d);
    Sorts(l.comments[DayKey(d)], StringLe);
    assert SortedComments(l, d)[j] in SortedComments(l, d);
    Sorts(l.files[CommentKey(d, r.comment)], StringLe);
  }

  /** What is in the log is named by the printed groups. */
  lemma LoggedIsNamed(l: Log, le: (Day, Day) -> bool, r: Revision)
    requires Complete(l) && TotalOrder(le)
    requires DayOf(r) in l.entries && Has(l.comments, DayKey(DayOf(r)), r.comment)
    requires Has(l.files, CommentKey(DayOf(r), r.comment), r.file)
    ensures Names(Groups(l, le), r)
  {
    SortedDaysComplete(l, le);
    DownOrder(le);
    Sorts(l.entries, Down(le));
    StringOrder();
    var d := DayOf(r);
    assert d in SortedDays(l, le);
    var i :| 0 <= i < |SortedDays(l, le)| && SortedDays(l, le)[i] == d;
    SortedCommentsComplete(l, d);
    Sorts(l.comments[DayKey(d)], StringLe);
    assert r.comment in SortedComments(l, d);
    var j :| 0 <= j < |SortedComments(l, d)| && SortedComments(l, d)[j] == r.comment;
    Sorts(l.files[CommentKey(d, r.comment)], StringLe);
    assert NamesAt(Groups(l, le)[i], j, r);
  }

  /** Day, comment and file of a printed tuple each come from some revision, under the same array keys. */
  predicate Mixed(r: Revision, e: Revision, p: Revision, q: Revision) {
    && DayOf(e) == DayOf(r)
    && DayKey(DayOf(p)) == DayKey(DayOf(r)) && p.comment == r.comment
    && CommentKey(DayOf(q), q.comment) == CommentKey(DayOf(r), r.comment) && q.file == r.file
  }

  lemma NamedIff(revs: seq<Revision>, le: (Day, Day) -> bool, r: Revision)
    requires TotalOrder(le)
    ensures Complete(Collected(revs))
    ensures Names(Groups(Collected(revs), le), r)
       <==> exists e, p, q :: e in revs && p in revs && q in revs && Mixed(r, e, p, q)
  {
    var l := Collected(revs);
    CollectedComplete(revs);
    CollectedHolds(revs);
    if Names(Groups(l, le), r) {
      NamedIsLogged(l, le, r);
      var e :| e in revs && DayOf(e) == DayOf(r);
      var p :| p in revs && DayKey(DayOf(p)) == DayKey(DayOf(r)) && p.comment == r.comment;
      var q :| q in revs && CommentKey(DayOf(q), q.comment) == CommentKey(DayOf(r), r.comment) && q.file == r.file;
      assert Mixed(r, e, p, q);
    }
    if e, p, q :| e in revs && p in revs && q in revs && Mixed(r, e, p, q) {
      assert Has(l.comments, DayKey(DayOf(r)), r.comment) && Has(l.files, CommentKey(DayOf(r), r.comment), r.file);
      LoggedIsNamed(l, le, r);
    }
  }

  /** Nothing is lost, whatever the dates and authors. */
  lemma NothingLost(revs: seq<Revision>, le: (Day, Day) -> bool, r: Revision)
    requires TotalOrder(le) && r in revs
    ensures Complete(Collected(revs)) && Names(Groups(Collected(revs), le), r)
  {
    NamedIff(revs, le, r);
    assert Mixed(r, r, r, r);
  }

  /** Wherever array keys coincide, the tuple that mixes their revisions was scanned as well. */
  predicate Closed(revs: seq<Revision>) {
    forall e, p, q :: e in revs && p in revs && q in revs && Mixable(e, p, q) ==> Mixture(e, p, q) in revs
  }

  predicate Mixable(e: Revision, p: Revision, q: Revision) {
    DayKey(DayOf(p)) == DayKey(DayOf(e)) && CommentKey(DayOf(q), q.comment) == CommentKey(DayOf(e), p.comment)
  }

  function Mixture(e: Revision, p: Revision, q: Revision): Revision {
    Revision(e.date, e.author, p.comment, q.file)
  }

  /** Nothing is added if and only if the revisions are closed under coinciding keys. */
  lemma ConservationIff(revs: seq<Revision>, le: (Day, Day) -> bool)
    requires TotalOrder(le)
    ensures Complete(Collected(revs))
    ensures (forall r :: Names(Groups(Collected(revs), le), r) <==> r in revs) <==> Closed(revs)
  {
    CollectedComplete(revs);
    if Closed(revs) {
      forall r
        ensures Names(Groups(Collected(revs), le), r) <==> r in revs
      {
        ClosedConserves(revs, le, r);
      }
    }
    if forall r :: Names(Groups(Collected(revs), le), r) <==> r in revs {
      forall e, p, q | e in revs && p in revs && q in revs && Mixable(e, p, q)
        ensures Mixture(e, p, q) in revs
      {
        NamedIff(revs, le, Mixture(e, p, q));
        assert Mixed(Mixture(e, p, q), e, p, q);
      }
    }
  }

  lemma ClosedConserves(revs: seq<Revision>, le: (Day, Day) -> bool, r: Revision)
    requires Closed(revs) && TotalOrder(le)
    ensures Complete(Collected(revs))
    ensures Names(Groups(Collected(revs), le), r) <==> r in revs
  {
    NamedIff(revs, le, r);
    if r in revs {
      NothingLost(revs, le, r);
    }
    if Names(Groups(Collected(revs), le), r) {
      var e, p, q :| e in revs && p in revs && q in revs && Mixed(r, e, p, q);
      assert Mixable(e, p, q) && Mixture(e, p, q) == r;
    }
  }

  /** Different days, and different comments of days, have different keys. */
  predicate NoClash(revs: seq<Revision>) {
    forall p, q :: p in revs && q in revs ==> Apart(p, q)
  }

  predicate Apart(p: Revision, q: Revision) {
    && (DayKey(DayOf(p)) == DayKey(DayOf(q)) ==> DayOf(p) == DayOf(q))
    && (CommentKey(DayOf(p), p.comment) == CommentKey(DayOf(q), q.comment) ==>
          DayOf(p) == DayOf(q) && p.comment == q.comment)
  }

  lemma CommaFreeNoClash(revs: seq<Revision>)
    requires CommaFree(revs)
    ensures NoClash(revs)
  {
    forall p, q | p in revs && q in revs
      ensures Apart(p, q)
    {
      KeysInjective(DayOf(p), p.comment, DayOf(q), q.comment);
    }
  }

  /** Conservation: where no keys clash, the change log names exactly the tuples that were scanned. */
  lemma Conservation(revs: seq<Revision>, le: (Day, Day) -> bool, r: Revision)
    requires NoClash(revs) && TotalOrder(le)
    ensures Complete(Collected(revs))
    ensures Names(Groups(Collected(revs), le), r) <==> r in revs
  {
    forall e, p, q | e in revs && p in revs && q in revs && Mixable(e, p, q)
      ensures Mixture(e, p, q) in revs
    {
      assert Apart(p, e) && Apart(q, p);
    }
    ClosedConserves(revs, le, r);
  }

  /** Two days with the same key: the change log gives the first one the comment of the second. */
  lemma InventedTuple(e: Revision, q: Revision, le: (Day, Day) -> bool)
    requires TotalOrder(le) && DayKey(DayOf(e)) == DayKey(DayOf(q)) && DayOf(e) != DayOf(q) && e.comment != q.comment
    ensures Complete(Collected([e, q]))
    ensures Names(Groups(Collected([e, q]), le), Mixture(e, q, q)) && Mixture(e, q, q) !in [e, q]
  {
    var revs, r := [e, q], Mixture(e, q, q);
    NamedIff(revs, le, r);
    assert e in revs && q in revs && Mixed(r, e, q, q);
  }

  /** Commas can make that happen. */
  lemma CommasInvent(le: (Day, Day) -> bool)
    requires TotalOrder(le)
    ensures var revs := [Revision("a", "b,c", "x", "f"), Revision("a,b", "c", "y", "g")];
            var r := Revision("a", "b,c", "y", "g");
            Complete(Collected(revs)) && Names(Groups(Collected(revs), le), r) && r !in revs
  {
    assert "a" != "a,b" && "x" != "y";
    InventedTuple(Revision("a", "b,c", "x", "f"), Revision("a,b", "c", "y", "g"), le);
  }

  /** Days come once, in decreasing order; comments of a day and files of a comment come once, in increasing order. */
  lemma GroupsSorted(l: Log, le: (Day, Day) -> bool, i: nat, j: nat)
    requires Complete(l) && Filled(l) && TotalOrder(le)
    requires i < |Groups(l, le)| && j < |Groups(l, le)[i].sections|
    ensures forall a, b :: 0 <= a < b < |Groups(l, le)| ==>
              Groups(l, le)[a].day != Groups(l, le)[b].day && le(Groups(l, le)[b].day, Groups(l, le)[a].day)
    ensures forall a, b :: 0 <= a < b < |Groups(l, le)[i].sections| ==>
              var ss := Groups(l, le)[i].sections; ss[a].comment != ss[b].comment && StringLe(ss[a].comment, ss[b].comment)
    ensures StrictlySorted(Groups(l, le)[i].sections[j].files, StringLe)
    ensures Groups(l, le)[i].sections[j].files != []
  {
    SortedDaysComplete(l, le);
    DownOrder(le);
    StringOrder();
    Sorts(l.entries, Down(le));
    var d := SortedDays(l, le)[i];
    SortedCommentsComplete(l, d);
    Sorts(l.comments[DayKey(d)], StringLe);
    var c := SortedComments(l, d)[j];
    var fs := l.files[CommentKey(d, c)];
    Sorts(fs, StringLe);
    assert fs[0] in SortUnique(fs, StringLe);
  }
}
