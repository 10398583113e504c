/**
 The ChangeLog scanner: scan and its helpers closeSection and closeEntry.

 Feed says what one line does to the variables of scan; the Scanner class changes them in place.
 */
module ChangeLog {
  import opened Machines
  import opened Outcomes
  import opened TclText

  datatype Section = Section(files: seq<string>, text: string)
  datatype Entry = Entry(date: string, author: string, sections: seq<Section>)

  /** The first word and the other words of a line that Tcl reads as a list; None where the line is no list. */
  type ListReader = string -> Option<(string, string)>

  /** The variables of scan, and how it reads lists. */
  datatype Vars = Vars(
    entries: seq<Entry>, clist: seq<Section>, files: seq<string>, comment: string,
    first: bool, date: string, author: string, asList: ListReader)

  function Start(asList: ListReader): Vars {
    Vars([], [], [], "", true, "", "", asList)
  }

  function CloseSection(v: Vars): Vars {
    if v.comment != "" || v.files != [] then
      v.(clist := v.clist + [Section(v.files, Trim(v.comment))], files := [], comment := "")
    else v
  }

  function CloseEntry(v: Vars): Vars {
    var w := if v.first then v
             else
               var c := CloseSection(v);
               c.(entries := c.entries + [Entry(c.date, c.author, c.clist)]);
    w.(first := false, clist := [], files := [], comment := "")
  }

  // The header of an entry

  /** No character that means something to the parser or the printer of Tcl lists. */
  predicate PlainChars(s: string) {
    forall i :: 0 <= i < |s| ==> s[i] !in {'{', '}', '[', ']', '"', '\\', '$', ';', '#'}
  }

  /** The words of a plain list, joined by single blanks. */
  function Words(s: string): string
    decreases |s|
  {
    TrimLeftShorter(s);
    var t := TrimLeft(s);
    if t == "" then ""
    else
      var rest := Words(t[WordEnd(t)..]);
      if rest == "" then t[..WordEnd(t)] else t[..WordEnd(t)] + [' '] + rest
  }

  lemma TrimLeftShorter(s: string)
    ensures |TrimLeft(s)| <= |s|
    ensures TrimLeft(s) != "" ==> WordEnd(TrimLeft(s)) > 0
  {
    TrimLeftSplits(s);
  }

  /** Date and author: by words where the line is a list, otherwise at the first blank. */
  function Header(asList: ListReader, line: string): (string, string) {
    if PlainChars(line) then
      TrimLeftShorter(line);
      var t := TrimLeft(line);
      (t[..WordEnd(t)], Words(t[WordEnd(t)..]))
    else
      match asList(line)
      case Some(h) => (Trim(h.0), Trim(h.1))
      case None =>
        var k := First(" ", line);
        if k < 0 || k >= |line| then ("", Trim(line)) else (Trim(line[..k + 1]), Trim(line[k..]))
  }

  // The lines of a section

  function IndexOf(c: char, s: string): (k: int)
    ensures -1 <= k < |s|
    ensures k >= 0 ==> s[k] == c && c !in s[..k]
    ensures k < 0 ==> c !in s
  {
    if s == "" then -1
    else if s[0] == c then 0
    else
      var k := IndexOf(c, s[1..]);
      assert s == [s[0]] + s[1..];
      assert k >= 0 ==> s[..k + 1] == [s[0]] + s[1..][..k];
      if k < 0 then -1 else k + 1
  }

  /** The first parenthesis and what it holds, up to its closing one or the end: the name without it, and it. */
  function CutParen(fname: string): (r: (string, string))
    requires '(' in fname
    ensures |r.0| < |fname|
  {
    var p := IndexOf('(', fname);
    var q := IndexOf(')', fname[p..]);
    if q >= 0 then (fname[..p] + fname[p + q + 1..], fname[p..p + q + 1]) else (fname[..p], fname[p..])
  }

  /** The file name without any parentheses, and the details that were in them. */
  function Unparen(fname: string, detail: string): (r: (string, string))
    ensures '(' !in r.0
    decreases |fname|
  {
    if '(' !in fname then (fname, detail)
    else
      var cut := CutParen(fname);
      TrimShorter(cut.0);
      Unparen(Trim(cut.0), detail + [' '] + cut.1)
  }

  lemma TrimShorter(s: string)
    ensures |Trim(s)| <= |s|
  {
    TrimLeftSplits(s);
    TrimRightSplits(TrimLeft(s));
  }

  /** The last colon before k that a blank or tab follows, or -1. */
  function LastColon(line: string, k: nat): (c: int)
    requires k <= |line|
    ensures -1 <= c < k
    ensures c >= 0 ==> c + 1 < |line| && line[c] == ':'
  {
    if k == 0 then -1
    else if line[k - 1] == ':' && k < |line| && line[k] in {' ', '\t'} then k - 1
    else LastColon(line, k - 1)
  }

  predicate IsItem(line: string) {
    |line| >= 2 && line[0] == '*' && line[1] == ' '
  }

  /** The file name and the text of an item line. */
  function ItemParts(line: string): (string, string)
    requires IsItem(line)
  {
    var k := LastColon(line, |line|);
    if k >= 2 then (line[2..k], line[k + 2..])
    else if |line| >= 3 && line[|line| - 1] == ':' then (line[2..|line| - 1], "")
    else ("", line[2..])
  }

  function FeedItem(v: Vars, line: string): Vars
    requires IsItem(line)
  {
    var parts := ItemParts(line);
    var name := Unparen(parts.0, "");
    var text := if name.1 != "" then name.1 + [' '] + parts.1 else parts.1;
    v.(files := if name.0 != "" then v.files + [name.0] else v.files, comment := v.comment + text + ['\n'])
  }

  predicate IsHeader(line: string) {
    line != "" && line[0] != ' ' && line[0] != '\t'
  }

  function Feed(v: Vars, line: string): Vars {
    if IsHeader(line) then
      var h := Header(v.asList, line);
      CloseEntry(v).(date := h.0, author := h.1)
    else
      var l := Trim(line);
      if l == "" then CloseSection(v)
      else if IsItem(l) then FeedItem(v, l)
      else v.(comment := v.comment + l + ['\n'])
  }

  function FeedAll(v: Vars, lines: Lines): Vars {
    Fold(Feed, v, lines)
  }

  lemma FeedSnoc(v: Vars, lines: Lines, l: string)
    ensures FeedAll(v, lines + [l]) == Feed(FeedAll(v, lines), l)
  {
    assert (lines + [l])[..|lines|] == lines;
  }

  lemma FeedSplits(v: Vars, a: Lines, b: Lines)
    ensures FeedAll(v, a + b) == FeedAll(FeedAll(v, a), b)
  {
    FoldSplits(Feed, v, a, b);
  }

  /** The entries of a change log. */
  function ScanText(asList: ListReader, text: string): seq<Entry> {
    CloseEntry(FeedAll(Start(asList), Split(text))).entries
  }

  class Scanner {
    const asList: ListReader
    var entries: seq<Entry>
    var clist: seq<Section>
    var files: seq<string>
    var comment: string
    var first: bool
    var date: string
    var author: string

    function Now(): Vars
      reads this
    {
      Vars(entries, clist, files, comment, first, date, author, asList)
    }

    constructor (asList: ListReader)
      ensures Now() == Start(asList)
    {
      this.asList := asList;
      entries, clist, files, comment, first, date, author := [], [], [], "", true, "", "";
    }

    method DoCloseSection()
      modifies this
      ensures Now() == CloseSection(old(Now()))
    {
      if |comment| > 0 || |files| > 0 {
        clist := clist + [Section(files, Trim(comment))];
        files := [];
        comment := "";
      }
    }

    method DoCloseEntry()
      modifies this
      ensures Now() == CloseEntry(old(Now()))
    {
      if !first {
        DoCloseSection();
        entries := entries + [Entry(date, author, clist)];
      }
      first := false;
      clist := [];
      files := [];
      comment := "";
    }

    /** Strips parentheses off a file name; each round removes one and shortens the name. */
    method StripParens(name: string) returns (fname: string, detail: string)
      ensures (fname, detail) == Unparen(name, "") && '(' !in fname
    {
      fname, detail := name, "";
      while '(' in fname
        invariant Unparen(fname, detail) == Unparen(name, "")
        decreases |fname|
      {
        var cut := CutParen(fname);
        TrimShorter(cut.0);
        fname := Trim(cut.0);
        detail := detail + [' '] + cut.1;
      }
    }

    method Line(raw: string)
      modifies this
      ensures Now() == Feed(old(Now()), raw)
    {
      if IsHeader(raw) {
        DoCloseEntry();
        var h := Header(asList, raw);
        date, author := h.0, h.1;
        return;
      }
      var line := Trim(raw);
      if |line| == 0 {
        DoCloseSection();
        return;
      }
      if IsItem(line) {
        var parts := ItemParts(line);
        var fname, detail := StripParens(parts.0);
        line := if detail != "" then detail + [' '] + parts.1 else parts.1;
        if fname != "" {
          files := files + [fname];
        }
      }
      comment := comment + line + ['\n'];
    }

    /** All of scan. */
    method Scan(text: string) returns (result: seq<Entry>)
      requires Now() == Start(asList)
      modifies this
      ensures result == ScanText(asList, text)
    {
      var lines := Split(text);
      var i := 0;
      while i < |lines|
        invariant 0 <= i <= |lines|
        invariant Now() == FeedAll(Start(asList), lines[..i])
      {
        FeedSnoc(Start(asList), lines[..i], lines[i]);
        assert lines[..i] + [lines[i]] == lines[..i + 1];
        Line(lines[i]);
        i := i + 1;
      }
      assert lines[..i] == lines;
      DoCloseEntry();
      result := entries;
    }
  }

  // File names

  predicate CleanName(f: string) {
    f != "" && '(' !in f
  }

  predicate CleanFiles(fs: seq<string>) {
    forall i :: 0 <= i < |fs| ==> CleanName(fs[i])
  }

  predicate CleanSections(ss: seq<Section>) {
    forall i :: 0 <= i < |ss| ==> CleanFiles(ss[i].files)
  }

  predicate CleanEntries(es: seq<Entry>) {
    forall i :: 0 <= i < |es| ==> CleanSections(es[i].sections)
  }

  predicate Clean(v: Vars) {
    CleanFiles(v.files) && CleanSections(v.clist) && CleanEntries(v.entries)
  }

  lemma {:induction false} FeedAllClean(asList: ListReader, lines: Lines)
    ensures Clean(FeedAll(Start(asList), lines))
  {
    if lines != [] {
      FeedAllClean(asList, lines[..|lines| - 1]);
      FeedClean(FeedAll(Start(asList), lines[..|lines| - 1]), lines[|lines| - 1]);
    }
  }

  lemma FeedClean(v: Vars, line: string)
    requires Clean(v)
    ensures Clean(Feed(v, line)) && Clean(CloseEntry(v))
  {
  }

  /** Whatever the text, no file name that scan reports is empty or holds an opening parenthesis. */
  lemma FileNamesClean(asList: ListReader, text: string)
    ensures CleanEntries(ScanText(asList, text))
  {
    FeedAllClean(asList, Split(text));
    FeedClean(FeedAll(Start(asList), Split(text)), "");
  }
}
