/**
 The text that cvs log writes, and what scanLog reads of it.

 A log is a sequence of files, each a line with its name and its check-ins, each a date line, the lines of its comment
 and a rule below them. The rules, the marks and the lines between are described here by the characters they hold.
 */
module CvsFormat {
  import opened CvsLog
  import opened Outcomes
  import opened TclText
  import opened TrimmedLines

  predicate Occurs(pat: string, line: string) {
    exists i :: 0 <= i <= |line| && pat <= line[i..]
  }

  /** A line that ends a comment: four dashes in a row, or four equal signs. */
  predicate Rule(line: string) {
    Occurs("----", line) || Occurs("====", line)
  }

  /** A line that is neither the name of a file nor a date. */
  predicate Silent(line: string) {
    !Occurs("Working file:", line) && !("date:" <= line)
  }

  predicate AllSilent(lines: Lines) {
    forall i :: 0 <= i < |lines| ==> Silent(lines[i])
  }

  /** A check-in: the lines before its date, what the date line says, its comment, and the rule after that. */
  datatype Checkin = Checkin(
    before: Lines, date: string, time: string, author: string, more: string, comment: Lines, rule: string)

  datatype FileLog = FileLog(before: Lines, name: string, checkins: seq<Checkin>, after: Lines)

  predicate Word(w: string) {
    w != "" && forall i :: 0 <= i < |w| ==> w[i] != ' ' && w[i] != '\t' && w[i] != '\n' && w[i] != '\r'
  }

  predicate GoodCheckin(c: Checkin) {
    && AllSilent(c.before) && Word(c.date) && Word(c.time)
    && Word(c.author) && c.author[0] != ';' && c.author[|c.author| - 1] != ';'
    && (c.more == "" || c.more[0] == ' ') && !Occurs("Working file:", DateText(c))
    && (forall i :: 0 <= i < |c.comment| ==> !Rule(c.comment[i])) && Rule(c.rule)
  }

  predicate GoodFile(f: FileLog) {
    AllSilent(f.before) && AllSilent(f.after) && forall i :: 0 <= i < |f.checkins| ==> GoodCheckin(f.checkins[i])
  }

  predicate GoodFiles(fs: seq<FileLog>) {
    forall i :: 0 <= i < |fs| ==> GoodFile(fs[i])
  }

  // The lines of a log

  function DateText(c: Checkin): string {
    "date: " + c.date + " " + c.time + ";  author: " + c.author + ";" + c.more
  }

  function CheckinLines(c: Checkin): Lines {
    c.before + [DateText(c)] + c.comment + [c.rule]
  }

  function CheckinsLines(cs: seq<Checkin>): Lines {
    if cs == [] then [] else CheckinLines(cs[0]) + CheckinsLines(cs[1..])
  }

  function FileLines(f: FileLog): Lines {
    f.before + ["Working file: " + f.name] + CheckinsLines(f.checkins) + f.after
  }

  function LogLines(fs: seq<FileLog>): Lines {
    if fs == [] then [] else FileLines(fs[0]) + LogLines(fs[1..])
  }

  // Its revisions

  function RevisionOf(name: string, c: Checkin): Revision {
    Revision(c.date, c.author, Join(c.comment + [""]), name)
  }

  function RevisionsOf(name: string, cs: seq<Checkin>): seq<Revision> {
    if cs == [] then [] else [RevisionOf(name, cs[0])] + RevisionsOf(name, cs[1..])
  }

  function AllOf(fs: seq<FileLog>): seq<Revision> {
    if fs == [] then [] else RevisionsOf(fs[0].name, fs[0].checkins) + AllOf(fs[1..])
  }

  // The marks are found where they stand

  lemma {:induction false} ContainsIs(s: string, pat: string)
    ensures Contains(s, pat) <==> Occurs(pat, s)
  {
    assert s[0..] == s;
    if pat <= s {
      assert pat <= s[0..];
    } else if s != "" {
      ContainsIs(s[1..], pat);
      OccursLater(pat, s);
    } else {
      assert forall i :: 0 <= i <= |s| ==> s[i..] == s;
    }
  }

  lemma OccursLater(pat: string, s: string)
    requires s != "" && !(pat <= s)
    ensures Occurs(pat, s) <==> Occurs(pat, s[1..])
  {
    if i :| 0 <= i <= |s| && pat <= s[i..] {
      assert s[0..] == s && i > 0;
      assert s[1..][i - 1..] == s[i..];
    }
    if i :| 0 <= i <= |s[1..]| && pat <= s[1..][i..] {
      assert s[1..][i..] == s[i + 1..];
    }
  }

  lemma SeparatorIs(line: string)
    ensures Separator(line) <==> Rule(line)
  {
    ContainsIs(line, "----");
    ContainsIs(line, "====");
  }

  lemma SilentIs(line: string)
    ensures KindOf(line).OtherKind? <==> Silent(line)
  {
    ContainsIs(line, "Working file:");
  }

  lemma NameRead(v: Vars, name: string)
    ensures KindOf("Working file: " + name).FileKind?
    ensures FileLine(v, "Working file: " + name) == v.(filename := Some(name))
  {
    var line := "Working file: " + name;
    assert FILE_MARK + " " == "Working file: ";
    assert FILE_MARK + " " <= line && FILE_MARK <= line;
    assert line[|FILE_MARK + " "|..] == name;
  }

  lemma {:induction false} FirstIs(pat: string, s: string, k: nat)
    requires k <= |s| && pat <= s[k..] && forall i :: 0 <= i < k ==> !(pat <= s[i..])
    ensures First(pat, s) == k
  {
    assert s[0..] == s;
    if k > 0 {
      assert !(pat <= s[0..]);
      assert forall i :: 0 <= i < k ==> s[1..][i..] == s[i + 1..];
      FirstIs(pat, s[1..], k - 1);
    }
  }

  /** A line with the mark of a file in it names one if a blank follows: all that comes after the first such mark. */
  lemma FileLineIs(v: Vars, line: string)
    ensures KindOf(line).FileKind? <==> Occurs("Working file:", line)
    ensures KindOf(line).DateKind? <==> !Occurs("Working file:", line) && "date:" <= line
    ensures forall k :: 0 <= k <= |line| && "Working file: " <= line[k..]
                        && (forall i :: 0 <= i < k ==> !("Working file: " <= line[i..])) ==>
              FileLine(v, line) == v.(filename := Some(line[k + 14..]))
    ensures !Occurs("Working file: ", line) ==> FileLine(v, line) == v
  {
    assert FILE_MARK + " " == "Working file: ";
    ContainsIs(line, "Working file:");
    ContainsIs(line, "Working file: ");
    forall k | 0 <= k <= |line| && "Working file: " <= line[k..]
               && (forall i :: 0 <= i < k ==> !("Working file: " <= line[i..]))
      ensures FileLine(v, line) == v.(filename := Some(line[k + 14..]))
    {
      FirstIs("Working file: ", line, k);
    }
  }

  // Date lines

  lemma DateKindIs(c: Checkin)
    requires GoodCheckin(c)
    ensures DATE_MARK <= DateText(c) && KindOf(DateText(c)).DateKind?
  {
    ContainsIs(DateText(c), "Working file:");
    assert "date:" <= DateText(c);
  }

  /** A date line in the pieces that scan takes off it. */
  lemma DatePieces(c: Checkin)
    ensures DateText(c)
         == DATE_MARK + ([' '] + c.date + ([' '] + (c.time + ";")
                                           + ("  " + (AUTHOR_MARK + ([' '] + (c.author + ";") + c.more)))))
  {
  }

  lemma WordIs(w: string)
    requires Word(w)
    ensures Token(w) && Token(w + ";")
  {
  }

  lemma AuthorTaken(v: Vars, time: string, author: string, more: string)
    requires Token(time) && Token(author) && (more == "" || more[0] == ' ')
    ensures TimeAndAuthor(v, [' '] + time + ("  " + (AUTHOR_MARK + ([' '] + author + more)))) == v.(author := Some(author))
  {
    var s3 := [' '] + author + more;
    var c := AUTHOR_MARK + s3;
    WordTaken(time, "  " + c);
    TrimLeftOf("  ", c);
    assert c[0] == 'a';
    assert c[|AUTHOR_MARK|..] == s3;
    WordTaken(author, more);
  }

  lemma DateTaken(v: Vars, date: string, time: string, author: string, more: string)
    requires Token(date) && Token(time) && Token(author) && (more == "" || more[0] == ' ')
    ensures DateLine(v, DATE_MARK + ([' '] + date + ([' '] + time + ("  " + (AUTHOR_MARK + ([' '] + author + more))))))
         == v.(date := Some(date), author := Some(author))
  {
    var s1 := [' '] + time + ("  " + (AUTHOR_MARK + ([' '] + author + more)));
    WordTaken(date, s1);
    assert (DATE_MARK + ([' '] + date + s1))[|DATE_MARK|..] == [' '] + date + s1;
    AuthorTaken(v.(date := Some(date)), time, author, more);
  }

  lemma SemicolonOff(author: string)
    requires author != "" && author[0] != ';' && author[|author| - 1] != ';'
    ensures TrimSemicolons(author + ";") == author
  {
    assert (author + ";")[..|author|] == author;
    assert TrimSemicolons(author) == author;
  }

  /** Semicolons go from both ends of an author, and from nowhere else. */
  lemma {:induction false} SemicolonsOff(front: string, author: string, back: string)
    requires (forall i :: 0 <= i < |front| ==> front[i] == ';') && (forall i :: 0 <= i < |back| ==> back[i] == ';')
    requires author != "" && author[0] != ';' && author[|author| - 1] != ';'
    ensures TrimSemicolons(front + author + back) == author
    decreases |front| + |back|
  {
    var all := front + author + back;
    if front != "" {
      SemicolonsOff(front[1..], author, back);
      assert all[1..] == front[1..] + author + back && all[0] == front[0];
    } else if back != "" {
      SemicolonsOff("", author, back[..|back| - 1]);
      assert all[0] == author[0] && all[|all| - 1] == back[|back| - 1];
      assert all[..|all| - 1] == "" + author + back[..|back| - 1];
    } else {
      assert all == author;
    }
  }

  /** A date line that stops short, or has no mark of an author, leaves the author of before, and the date if it has none. */
  lemma ShortDateLine(v: Vars, gap: string, date: string, rest: string)
    requires AllSpace(gap) && Word(date) && (rest == "" || IsSpace(rest[0]))
    requires var c := TrimLeft(TrimLeft(rest)[WordEnd(TrimLeft(rest))..]); !("author:" <= c) || AllSpace(c[7..])
    ensures DateLine(v, "date:" + gap) == v
    ensures DateLine(v, "date:" + (gap + (date + rest))) == v.(date := Some(date))
  {
    assert ("date:" + gap)[5..] == gap && ("date:" + (gap + (date + rest)))[5..] == gap + (date + rest);
    TrimLeftSplits(gap);
    TrimLeftOf(gap, date + rest);
    WordIs(date);
    assert (date + rest)[0] == date[0];
    WordEndIs(date, rest);
    assert (date + rest)[..|date|] == date && (date + rest)[|date|..] == rest;
    var c := TrimLeft(TrimLeft(rest)[WordEnd(TrimLeft(rest))..]);
    if "author:" <= c {
      TrimLeftSplits(c[7..]);
    }
  }

  /** What a date line of a check-in does to the variables. */
  lemma CheckinDated(v: Vars, c: Checkin)
    requires GoodCheckin(c)
    ensures KindOf(DateText(c)).DateKind? && DATE_MARK <= DateText(c)
    ensures Dated(v, DateText(c)) == Some(v.(date := Some(c.date), author := Some(c.author)))
  {
    DateKindIs(c);
    DatePieces(c);
    WordIs(c.date);
    WordIs(c.time);
    WordIs(c.author);
    DateTaken(v, c.date, c.time + ";", c.author + ";", c.more);
    SemicolonOff(c.author);
  }

  // Reading on

  /** From line k with w the scan reads what it reads from line i with v, but for the revisions between. */
  ghost predicate ReadsOn(lines: Lines, i: nat, v: Vars, between: seq<Revision>, k: nat, w: Vars) {
    && i <= k <= |lines|
    && RevisionsFrom(lines, i, v) == between + RevisionsFrom(lines, k, w)
    && EndingFrom(lines, i, v) == EndingFrom(lines, k, w)
  }

  lemma ReadsOnward(lines: Lines, i: nat, v: Vars, a: seq<Revision>, j: nat, u: Vars, b: seq<Revision>, k: nat, w: Vars)
    requires ReadsOn(lines, i, v, a, j, u) && ReadsOn(lines, j, u, b, k, w)
    ensures ReadsOn(lines, i, v, a + b, k, w)
  {
    assert a + (b + RevisionsFrom(lines, k, w)) == a + b + RevisionsFrom(lines, k, w);
  }

  lemma {:induction false} SilentRead(lines: Lines, i: nat, k: nat, v: Vars)
    requires i <= k <= |lines| && AllSilent(lines[i..k])
    ensures ReadsOn(lines, i, v, [], k, v)
    decreases k - i
  {
    if i < k {
      assert lines[i..k][0] == lines[i] && lines[i..k][1..] == lines[i + 1..k];
      SilentIs(lines[i]);
      SilentRead(lines, i + 1, k, v);
    }
  }

  lemma {:induction false} CommentIs(lines: Lines, i: nat, k: nat)
    requires i <= k < |lines| && (forall j :: i <= j < k ==> !Rule(lines[j])) && Rule(lines[k])
    ensures CommentEnd(lines, i) == k
    decreases k - i
  {
    SeparatorIs(lines[i]);
    if i < k {
      CommentIs(lines, i + 1, k);
    }
  }

  /** The date line of a check-in, its comment and its rule. */
  lemma DateRead(lines: Lines, d: nat, k: nat, v: Vars, name: string, c: Checkin)
    requires GoodCheckin(c) && v.filename == Some(name)
    requires d + |c.comment| + 2 == k <= |lines| && lines[d] == DateText(c) && lines[k - 1] == c.rule
    requires lines[d + 1..k - 1] == c.comment
    ensures ReadsOn(lines, d, v, [RevisionOf(name, c)], k, v.(date := Some(c.date), author := Some(c.author)))
  {
    var x := v.(date := Some(c.date), author := Some(c.author));
    CheckinDated(v, c);
    assert forall j :: d + 1 <= j < k - 1 ==> lines[j] == lines[d + 1..k - 1][j - d - 1];
    CommentIs(lines, d + 1, k - 1);
    TerminatedJoins(c.comment);
    assert RevisionAt(lines, d, x) == RevisionOf(name, c);
  }

  lemma CheckinRead(lines: Lines, i: nat, k: nat, v: Vars, name: string, c: Checkin)
    requires GoodCheckin(c) && i <= k <= |lines| && lines[i..k] == CheckinLines(c) && v.filename == Some(name)
    ensures ReadsOn(lines, i, v, [RevisionOf(name, c)], k, v.(date := Some(c.date), author := Some(c.author)))
  {
    var d := i + |c.before|;
    var x := v.(date := Some(c.date), author := Some(c.author));
    CheckinAt(lines, i, k, c);
    SilentRead(lines, i, d, v);
    DateRead(lines, d, k, v, name, c);
    ReadsOnward(lines, i, v, [], d, v, [RevisionOf(name, c)], k, x);
    assert [] + [RevisionOf(name, c)] == [RevisionOf(name, c)];
  }

  /** Where the parts of a check-in stand. */
  lemma CheckinAt(lines: Lines, i: nat, k: nat, c: Checkin)
    requires i <= k <= |lines| && lines[i..k] == CheckinLines(c)
    ensures var d := i + |c.before|;
            && d + |c.comment| + 2 == k && lines[i..d] == c.before && lines[d] == DateText(c)
            && lines[d + 1..k - 1] == c.comment && lines[k - 1] == c.rule
  {
    var d := i + |c.before|;
    Parted(lines, i, k, c.before + [DateText(c)] + c.comment, [c.rule]);
    Parted(lines, i, k - 1, c.before + [DateText(c)], c.comment);
    Parted(lines, i, d + 1, c.before, [DateText(c)]);
    assert lines[k - 1] == lines[k - 1..k][0] && lines[d] == lines[d..d + 1][0];
  }

  lemma {:induction false} CheckinsRead(lines: Lines, i: nat, k: nat, v: Vars, name: string, cs: seq<Checkin>)
    returns (w: Vars)
    requires (forall m :: 0 <= m < |cs| ==> GoodCheckin(cs[m])) && v.filename == Some(name)
    requires i <= k <= |lines| && lines[i..k] == CheckinsLines(cs)
    ensures ReadsOn(lines, i, v, RevisionsOf(name, cs), k, w)
    decreases |cs|
  {
    if cs == [] {
      w := v;
    } else {
      var j := i + |CheckinLines(cs[0])|;
      Parted(lines, i, k, CheckinLines(cs[0]), CheckinsLines(cs[1..]));
      CheckinRead(lines, i, j, v, name, cs[0]);
      var u := v.(date := Some(cs[0].date), author := Some(cs[0].author));
      w := CheckinsRead(lines, j, k, u, name, cs[1..]);
      ReadsOnward(lines, i, v, [RevisionOf(name, cs[0])], j, u, RevisionsOf(name, cs[1..]), k, w);
    }
  }

  lemma Parted(lines: Lines, i: nat, k: nat, a: Lines, b: Lines)
    requires i <= k <= |lines| && lines[i..k] == a + b
    ensures i + |a| <= k && lines[i..i + |a|] == a && lines[i + |a|..k] == b
  {
    assert lines[i..k][..|a|] == lines[i..i + |a|] && lines[i..k][|a|..] == lines[i + |a|..k];
  }

  /** The lines up to the name of a file. */
  lemma NameLineRead(lines: Lines, i: nat, k: nat, v: Vars, before: Lines, name: string)
    requires AllSilent(before) && i <= k <= |lines| && lines[i..k] == before + ["Working file: " + name]
    ensures ReadsOn(lines, i, v, [], k, v.(filename := Some(name)))
  {
    var n := k - 1;
    Parted(lines, i, k, before, ["Working file: " + name]);
    assert lines[n] == lines[n..k][0];
    SilentRead(lines, i, n, v);
    NameRead(v, name);
    assert ReadsOn(lines, n, v, [], k, v.(filename := Some(name)));
    ReadsOnward(lines, i, v, [], n, v, [], k, v.(filename := Some(name)));
  }

  lemma FileRead(lines: Lines, i: nat, k: nat, v: Vars, f: FileLog) returns (w: Vars)
    requires GoodFile(f) && i <= k <= |lines| && lines[i..k] == FileLines(f)
    ensures ReadsOn(lines, i, v, RevisionsOf(f.name, f.checkins), k, w)
  {
    var first, u := f.before + ["Working file: " + f.name], v.(filename := Some(f.name));
    var n := i + |first|;
    var e := n + |CheckinsLines(f.checkins)|;
    Parted(lines, i, k, first + CheckinsLines(f.checkins), f.after);
    Parted(lines, i, e, first, CheckinsLines(f.checkins));
    NameLineRead(lines, i, n, v, f.before, f.name);
    w := CheckinsRead(lines, n, e, u, f.name, f.checkins);
    SilentRead(lines, e, k, w);
    AroundRead(lines, i, v, n, u, RevisionsOf(f.name, f.checkins), e, w, k);
  }

  lemma AroundRead(lines: Lines, i: nat, v: Vars, n: nat, u: Vars, revs: seq<Revision>, e: nat, w: Vars, k: nat)
    requires ReadsOn(lines, i, v, [], n, u) && ReadsOn(lines, n, u, revs, e, w) && ReadsOn(lines, e, w, [], k, w)
    ensures ReadsOn(lines, i, v, revs, k, w)
  {
    ReadsOnward(lines, i, v, [], n, u, revs, e, w);
    assert [] + revs == revs && revs + [] == revs;
    ReadsOnward(lines, i, v, revs, e, w, [], k, w);
  }

  lemma {:induction false} FilesRead(lines: Lines, i: nat, v: Vars, fs: seq<FileLog>)
    requires GoodFiles(fs) && i <= |lines| && lines[i..] == LogLines(fs)
    ensures RevisionsFrom(lines, i, v) == AllOf(fs) && EndingFrom(lines, i, v) == Finished
    decreases |fs|
  {
    if fs != [] {
      var j := i + |FileLines(fs[0])|;
      assert lines[i..|lines|] == lines[i..];
      Parted(lines, i, |lines|, FileLines(fs[0]), LogLines(fs[1..]));
      var w := FileRead(lines, i, j, v, fs[0]);
      assert lines[j..|lines|] == lines[j..];
      FilesRead(lines, j, w, fs[1..]);
    }
  }

  /**
   For every cvs log: scanning its text reads exactly its check-ins, in order, each with its file, date, author and
   comment, and gets to the end. So the log collected so far gains exactly these revisions.
   */
  lemma ScanReadsLog(fs: seq<FileLog>, l: Log)
    requires GoodFiles(fs) && AllOneLine(LogLines(fs))
    ensures Revisions(Join(LogLines(fs))) == AllOf(fs)
    ensures ScanFrom(Split(Join(LogLines(fs))), 0, UNSET, l) == Scanned(AddAll(l, AllOf(fs)), true)
  {
    var lines := LogLines(fs);
    if fs == [] {
      SilentIs("");
      assert Split("") == [""];
      assert RevisionsFrom([""], 0, UNSET) == [];
    } else {
      SplitJoin(lines);
      SplitAllLines(lines);
      assert lines[0..] == lines;
      FilesRead(lines, 0, UNSET, fs);
    }
    ScanCollects(Split(Join(lines)), 0, UNSET, l);
  }
}
