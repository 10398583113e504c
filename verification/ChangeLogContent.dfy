/**
 What a generated manpage says: its header, the items of its lists, the markup in them and the texts of the sections,
 read off the document by the macros alone.
 */
module ChangeLogContent {
  import opened ChangeLog
  import opened ChangeLogDoctools
  import opened Machines
  import opened ManpageGrammar
  import opened ManpageState
  import opened QuotedArgument

  /** How many lists are open, the items in the outermost one and those in lists inside it, and the markup. */
  datatype Seen = Seen(depth: int, outer: seq<string>, inner: seq<string>, markup: seq<(string, string)>)

  function See(s: Seen, m: Macro): Seen {
    match m
    case ListBegin(_) => s.(depth := s.depth + 1)
    case ListEnd => s.(depth := s.depth - 1)
    case Item(_, text) =>
      if s.depth == 1 then s.(outer := s.outer + [text]) else s.(inner := s.inner + [text])
    case Inline(name, text) => s.(markup := s.markup + [(name, text)])
    case _ => s
  }

  function SeeLine(s: Seen, l: Line): Seen {
    Fold(See, s, l)
  }

  function SeeLines(s: Seen, lines: seq<Line>): Seen {
    Fold(SeeLine, s, lines)
  }

  const NOTHING := Seen(0, [], [], [])

  // What entries have to say

  function FileMarkup(files: seq<string>): seq<(string, string)> {
    if files == [] then [] else FileMarkup(files[..|files| - 1]) + [("file", files[|files| - 1])]
  }

  /** The items in the list of a section: its files, or a bullet where it has a text only. */
  function SectionItems(env: Env, s: ChangeLog.Section): seq<string> {
    if s.files != [] then s.files
    else if s.text != "" && env.adjust(s.text) != "" then [""]
    else []
  }

  function SectionsItems(env: Env, ss: seq<ChangeLog.Section>): seq<string> {
    if ss == [] then [] else SectionsItems(env, ss[..|ss| - 1]) + SectionItems(env, ss[|ss| - 1])
  }

  function SectionsMarkup(ss: seq<ChangeLog.Section>): seq<(string, string)> {
    if ss == [] then [] else SectionsMarkup(ss[..|ss| - 1]) + FileMarkup(ss[|ss| - 1].files)
  }

  function EntriesItems(env: Env, es: seq<Entry>): seq<string> {
    if es == [] then [] else EntriesItems(env, es[..|es| - 1]) + SectionsItems(env, es[|es| - 1].sections)
  }

  function EntriesMarkup(es: seq<Entry>): seq<(string, string)> {
    if es == [] then []
    else EntriesMarkup(es[..|es| - 1]) + [("emph", es[|es| - 1].date)] + SectionsMarkup(es[|es| - 1].sections)
  }

  function Title(e: Entry): string {
    e.date + " -- " + e.author
  }

  function Titles(es: seq<Entry>): (r: seq<string>)
    ensures |r| == |es| && forall i :: 0 <= i < |es| ==> r[i] == Title(es[i])
  {
    if es == [] then [] else Titles(es[..|es| - 1]) + [Title(es[|es| - 1])]
  }

  predicate PlainAuthors(es: seq<Entry>) {
    forall i :: 0 <= i < |es| ==> PlainAuthor(es[i].author)
  }

  // Folding over lines

  lemma SeenSplits(s: Seen, a: seq<Line>, b: seq<Line>)
    ensures SeeLines(s, a + b) == SeeLines(SeeLines(s, a), b)
  {
    FoldSplits(SeeLine, s, a, b);
  }

  lemma SeenLine(s: Seen, l: Line)
    ensures SeeLines(s, [l]) == SeeLine(s, l)
  {
    FoldOne(SeeLine, s, l);
  }

  lemma SeenMacro(s: Seen, m: Macro)
    ensures SeeLines(s, [[m]]) == See(s, m)
  {
    FoldOne(See, s, m);
    SeenLine(s, [m]);
  }

  /** The newlines between lines say nothing. */
  lemma {:induction false} SeenJoined(s: Seen, lines: seq<Line>)
    ensures Fold(See, s, Joined(lines)) == SeeLines(s, lines)
  {
    if |lines| == 1 {
      SeenLine(s, lines[0]);
      assert [lines[0]] == lines;
    } else if lines != [] {
      var init, l := lines[..|lines| - 1], lines[|lines| - 1];
      SeenJoined(s, init);
      FoldSplits(See, s, Joined(init) + [Text("\n")], l);
      FoldSplits(See, s, Joined(init), [Text("\n")]);
      FoldOne(See, Fold(See, s, Joined(init)), Text("\n"));
    }
  }

  lemma {:induction false} TextUnseen(s: Seen, l: Line)
    requires forall m :: m in l ==> m.Text?
    ensures SeeLine(s, l) == s
  {
    if l != [] {
      TextUnseen(s, l[..|l| - 1]);
      assert l[|l| - 1] in l;
    }
  }

  lemma ShownUnseen(s: Seen, shown: string)
    ensures SeeLines(s, ShownLines(shown)) == s
  {
    var nothing, pieces: Line := [], Pieces(shown);
    TextUnseen(s, pieces);
    SeenLine(s, nothing);
    SeenLine(s, pieces);
    SeenSplits(s, [nothing, pieces], [nothing]);
    SeenSplits(s, [nothing], [pieces]);
    assert [nothing] + [pieces] + [nothing] == TextLines(shown);
  }

  lemma {:induction false} FilesSeen(s: Seen, files: seq<string>)
    requires s.depth == 2
    ensures SeeLines(s, FileLines(files)) == s.(inner := s.inner + files, markup := s.markup + FileMarkup(files))
  {
    if files == [] {
      assert s.inner + files == s.inner && s.markup + FileMarkup(files) == s.markup;
    } else {
      var init, f := files[..|files| - 1], files[|files| - 1];
      FilesSeen(s, init);
      SeenSplits(s, FileLines(init), [FileLine(f)]);
      FileSeen(SeeLines(s, FileLines(init)), f);
      assert s.inner + init + [f] == s.inner + files;
      Regroup(s.markup, FileMarkup(init), [("file", f)]);
    }
  }

  lemma FileSeen(s: Seen, f: string)
    requires s.depth == 2
    ensures SeeLines(s, [FileLine(f)]) == s.(inner := s.inner + [f], markup := s.markup + [("file", f)])
  {
    SeenLine(s, FileLine(f));
    FoldSplits(See, s, [Inline("file", f)], [Item(Def, f)]);
    FoldOne(See, s, Inline("file", f));
    FoldOne(See, See(s, Inline("file", f)), Item(Def, f));
    assert [Inline("file", f)] + [Item(Def, f)] == FileLine(f);
  }

  lemma SectionSeen(env: Env, s: Seen, sec: ChangeLog.Section)
    requires s.depth == 1
    ensures SeeLines(s, SectionLines(env, sec))
         == s.(inner := s.inner + SectionItems(env, sec), markup := s.markup + FileMarkup(sec.files))
  {
    var shown := ShownLines(Shown(env, sec));
    if sec.files != [] {
      FilesListSeen(s, sec.files, Shown(env, sec));
    } else if Shown(env, sec) != "" {
      BulletListSeen(s, Shown(env, sec));
      assert s.markup + FileMarkup(sec.files) == s.markup;
    } else {
      assert s.inner + SectionItems(env, sec) == s.inner && s.markup + FileMarkup(sec.files) == s.markup;
    }
  }

  lemma FilesListSeen(s: Seen, files: seq<string>, shown: string)
    requires s.depth == 1
    ensures SeeLines(s, [[ListBegin("definitions")]] + FileLines(files) + ShownLines(shown) + [[ListEnd]])
         == s.(inner := s.inner + files, markup := s.markup + FileMarkup(files))
  {
    var a := [[ListBegin("definitions")]];
    SeenMacro(s, ListBegin("definitions"));
    var t := s.(depth := 2);
    FilesSeen(t, files);
    var u := t.(inner := s.inner + files, markup := s.markup + FileMarkup(files));
    ShownUnseen(u, shown);
    SeenMacro(u, ListEnd);
    SeenSplits(s, a + FileLines(files) + ShownLines(shown), [[ListEnd]]);
    SeenSplits(s, a + FileLines(files), ShownLines(shown));
    SeenSplits(s, a, FileLines(files));
  }

  lemma BulletListSeen(s: Seen, shown: string)
    requires s.depth == 1
    ensures SeeLines(s, [[ListBegin("bullet")], [Item(Bullet, "")]] + ShownLines(shown) + [[ListEnd]])
         == s.(inner := s.inner + [""])
  {
    var a := [[ListBegin("bullet")], [Item(Bullet, "")]];
    var t := s.(depth := 2);
    var u := t.(inner := s.inner + [""]);
    SeenMacro(s, ListBegin("bullet"));
    SeenMacro(t, Item(Bullet, ""));
    SeenSplits(s, [[ListBegin("bullet")]], [[Item(Bullet, "")]]);
    assert [[ListBegin("bullet")]] + [[Item(Bullet, "")]] == a;
    ShownUnseen(u, shown);
    SeenMacro(u, ListEnd);
    SeenSplits(s, a + ShownLines(shown), [[ListEnd]]);
    SeenSplits(s, a, ShownLines(shown));
  }

  lemma {:induction false} SectionsSeen(env: Env, s: Seen, ss: seq<ChangeLog.Section>)
    requires s.depth == 1
    ensures SeeLines(s, SectionsLines(env, ss))
         == s.(inner := s.inner + SectionsItems(env, ss), markup := s.markup + SectionsMarkup(ss))
  {
    if ss == [] {
      assert s.inner + [] == s.inner && s.markup + [] == s.markup;
    } else {
      var init, sec := ss[..|ss| - 1], ss[|ss| - 1];
      SectionsSeen(env, s, init);
      SeenSplits(s, SectionsLines(env, init), SectionLines(env, sec));
      SectionSeen(env, SeeLines(s, SectionsLines(env, init)), sec);
      Regroup(s.inner, SectionsItems(env, init), SectionItems(env, sec));
      Regroup(s.markup, SectionsMarkup(init), FileMarkup(sec.files));
    }
  }

  lemma HeadSeen(env: Env, s: Seen, e: Entry)
    requires s.depth == 1 && PlainAuthor(e.author)
    ensures SeeLines(s, EntryHead(env, e)) == s.(outer := s.outer + [Title(e)], markup := s.markup + [("emph", e.date)])
  {
    var emph, item := Inline("emph", e.date), Item(Def, Title(e));
    PlainAuthorKept(env.interp, e.author);
    assert EntryItem(env, e) == [emph] + [item];
    FoldSplits(See, s, [emph], [item]);
    FoldOne(See, s, emph);
    FoldOne(See, See(s, emph), item);
    SeenLine(s, EntryItem(env, e));
    var t := SeeLine(s, EntryItem(env, e));
    SeenMacro(t, Para);
    SeenSplits(s, [EntryItem(env, e)], [[Para]]);
    assert [EntryItem(env, e)] + [] == [EntryItem(env, e)];
  }

  lemma EntrySeen(env: Env, s: Seen, e: Entry)
    requires s.depth == 1 && PlainAuthor(e.author)
    ensures SeeLines(s, EntryLines(env, e))
         == Seen(1, s.outer + [Title(e)], s.inner + SectionsItems(env, e.sections),
                 s.markup + [("emph", e.date)] + SectionsMarkup(e.sections))
  {
    HeadSeen(env, s, e);
    var t := SeeLines(s, EntryHead(env, e));
    SectionsSeen(env, t, e.sections);
    SeenSplits(s, EntryHead(env, e), SectionsLines(env, e.sections));
    SeenSplits(s, EntryHead(env, e) + SectionsLines(env, e.sections), [[Para]]);
    SeenMacro(SeeLines(t, SectionsLines(env, e.sections)), Para);
  }

  /** What is seen once these entries are written. */
  function SeenEntries(env: Env, s: Seen, es: seq<Entry>): Seen {
    Seen(1, s.outer + Titles(es), s.inner + EntriesItems(env, es), s.markup + EntriesMarkup(es))
  }

  lemma {:induction false} EntriesSeen(env: Env, s: Seen, es: seq<Entry>)
    requires s.depth == 1 && PlainAuthors(es)
    ensures SeeLines(s, EntriesLines(env, es)) == SeenEntries(env, s, es)
  {
    if es == [] {
      assert s.outer + [] == s.outer && s.inner + [] == s.inner && s.markup + [] == s.markup;
    } else {
      var init, e := es[..|es| - 1], es[|es| - 1];
      EntriesSeen(env, s, init);
      SeenSplits(s, EntriesLines(env, init), EntryLines(env, e));
      EntryAdded(env, s, es);
    }
  }

  lemma EntryAdded(env: Env, s: Seen, es: seq<Entry>)
    requires es != [] && PlainAuthor(es[|es| - 1].author)
    ensures SeeLines(SeenEntries(env, s, es[..|es| - 1]), EntryLines(env, es[|es| - 1])) == SeenEntries(env, s, es)
  {
    var init, e := es[..|es| - 1], es[|es| - 1];
    EntrySeen(env, SeenEntries(env, s, init), e);
    Regroup(s.outer, Titles(init), [Title(e)]);
    Regroup(s.inner, EntriesItems(env, init), SectionsItems(env, e.sections));
    MarkupRegrouped(s.markup, EntriesMarkup(init), [("emph", e.date)], SectionsMarkup(e.sections));
  }

  lemma MarkupRegrouped<T>(a: seq<T>, b: seq<T>, c: seq<T>, d: seq<T>)
    ensures a + b + c + d == a + (b + c + d)
  {
  }

  // The document

  lemma {:induction false} HeadersSeen(s: Seen, headers: seq<(HeaderMacro, string)>)
    ensures SeeLines(s, HeaderLines(headers)) == s
  {
    if headers != [] {
      var init, h := headers[..|headers| - 1], headers[|headers| - 1];
      HeadersSeen(s, init);
      SeenSplits(s, HeaderLines(init), [[HeaderLine(h.0, h.1)]]);
      SeenMacro(s, HeaderLine(h.0, h.1));
    }
  }

  lemma FrontSeen(s: Seen, f: Front)
    ensures SeeLines(s, FrontLines(f)) == s.(depth := s.depth + 1)
  {
    var first, rest := ManpageBegin(f.title, f.section, f.version), [[Description], [ListBegin("definitions")]];
    SeenMacro(s, first);
    HeadersSeen(s, f.headers);
    SeenMacro(s, Description);
    SeenMacro(s, ListBegin("definitions"));
    SeenSplits(s, [[first]] + HeaderLines(f.headers), rest);
    SeenSplits(s, [[first]], HeaderLines(f.headers));
    SeenSplits(s, [[Description]], [[ListBegin("definitions")]]);
    assert [[Description]] + [[ListBegin("definitions")]] == rest;
  }

  /**
   The manpage of entries with plain authors: the items of its list are the dates and authors of the entries in their
   order; the items of the lists inside it are the files of their sections, in order, and a bullet for each text
   without files; the markup is the dates and the files; and all lists are closed in the end.
   */
  lemma ItemsWritten(env: Env, front: Front, es: seq<Entry>)
    requires PlainAuthors(es)
    ensures Fold(See, NOTHING, Written(env, front, es)) == Seen(0, Titles(es), EntriesItems(env, es), EntriesMarkup(es))
  {
    BodySeen(env, front, es);
    EndSeen(SeeLines(SeeLines(NOTHING, FrontLines(front)), EntriesLines(env, es)));
    PartsSeen(FrontLines(front), EntriesLines(env, es));
  }

  lemma BodySeen(env: Env, front: Front, es: seq<Entry>)
    requires PlainAuthors(es)
    ensures SeeLines(SeeLines(NOTHING, FrontLines(front)), EntriesLines(env, es))
         == Seen(1, Titles(es), EntriesItems(env, es), EntriesMarkup(es))
  {
    var s := Seen(1, [], [], []);
    FrontSeen(NOTHING, front);
    EntriesSeen(env, s, es);
    FromNothing(Titles(es));
    FromNothing(EntriesItems(env, es));
    FromNothing(EntriesMarkup(es));
  }

  lemma FromNothing<T>(a: seq<T>)
    ensures [] + a == a
  {
  }

  lemma EndSeen(s: Seen)
    ensures SeeLines(SeeLines(s, [[ListEnd]]), [[ManpageEnd]]) == s.(depth := s.depth - 1)
  {
    SeenMacro(s, ListEnd);
    SeenMacro(See(s, ListEnd), ManpageEnd);
  }

  lemma PartsSeen(first: seq<Line>, entries: seq<Line>)
    ensures Fold(See, NOTHING, Joined(first + entries + [[ListEnd]] + [[ManpageEnd]]))
         == SeeLines(SeeLines(SeeLines(SeeLines(NOTHING, first), entries), [[ListEnd]]), [[ManpageEnd]])
  {
    SeenJoined(NOTHING, first + entries + [[ListEnd]] + [[ManpageEnd]]);
    SeenSplits(NOTHING, first + entries + [[ListEnd]], [[ManpageEnd]]);
    SeenSplits(NOTHING, first + entries, [[ListEnd]]);
    SeenSplits(NOTHING, first, entries);
  }

  /** The header names the package and its version, and the module. */
  lemma FrontWritten(title: string, mod: string, version: string)
    ensures FrontLines(FrontOf(title, mod, version))
         == [[ManpageBegin(title + "-changelog", "n", version)], [HeaderLine(Titledesc, title + " ChangeLog")],
             [HeaderLine(Moddesc, mod)], [Description], [ListBegin("definitions")]]
  {
    FrontIs(FrontOf(title, mod, version), (Titledesc, title + " ChangeLog"), (Moddesc, mod));
  }

  // Texts

  /** The brackets of a text, in order. */
  function Brackets(text: string): string {
    if text == "" then ""
    else
      var c := text[|text| - 1];
      Brackets(text[..|text| - 1]) + if c == '[' || c == ']' then [c] else ""
  }

  /** The parts with the brackets put back between them. */
  function Woven(parts: seq<string>, brackets: string): string
    requires |parts| == |brackets| + 1
  {
    if brackets == "" then parts[0]
    else Woven(parts[..|brackets|], brackets[..|brackets| - 1]) + [brackets[|brackets| - 1]] + parts[|brackets|]
  }

  function TextsOf(l: Line): (r: seq<string>)
    requires forall m :: m in l ==> m.Text?
    ensures |r| == |l| && forall i :: 0 <= i < |l| ==> r[i] == l[i].text
  {
    if l == [] then []
    else
      assert l[|l| - 1] in l;
      TextsOf(l[..|l| - 1]) + [l[|l| - 1].text]
  }

  /** The texts are the text without its brackets, cut where they were. */
  predicate Cut(texts: seq<string>, text: string) {
    && |texts| == |Brackets(text)| + 1 && Woven(texts, Brackets(text)) == text
    && forall i :: 0 <= i < |texts| ==> '[' !in texts[i] && ']' !in texts[i]
  }

  lemma {:induction false} PiecesCut(text: string)
    ensures Cut(TextsOf(Pieces(text)), text)
  {
    if text != "" {
      var init, c := text[..|text| - 1], text[|text| - 1];
      PiecesCut(init);
      assert text == init + [c];
      if c == '[' || c == ']' {
        BracketCut(TextsOf(Pieces(init)), init, c);
        assert TextsOf(Pieces(text)) == TextsOf(Pieces(init)) + [""];
      } else {
        CharCut(TextsOf(Pieces(init)), init, c);
        var k := |Pieces(init)| - 1;
        assert TextsOf(Pieces(text)) == TextsOf(Pieces(init))[..k] + [TextsOf(Pieces(init))[k] + [c]];
      }
    }
  }

  lemma BracketCut(texts: seq<string>, text: string, c: char)
    requires Cut(texts, text) && (c == '[' || c == ']')
    ensures Cut(texts + [""], text + [c])
  {
    assert (text + [c])[..|text|] == text;
    var b := Brackets(text);
    assert Brackets(text + [c]) == b + [c];
    assert (texts + [""])[..|b| + 1] == texts && (b + [c])[..|b|] == b;
    assert Woven(texts + [""], b + [c]) == text + [c] + "";
  }

  lemma CharCut(texts: seq<string>, text: string, c: char)
    requires Cut(texts, text) && c != '[' && c != ']'
    ensures Cut(texts[..|texts| - 1] + [texts[|texts| - 1] + [c]], text + [c])
  {
    assert (text + [c])[..|text|] == text;
    var b, k := Brackets(text), |texts| - 1;
    assert Brackets(text + [c]) == b + "" == b;
    WovenLast(texts, b, [c]);
  }

  lemma WovenLast(parts: seq<string>, brackets: string, more: string)
    requires |parts| == |brackets| + 1
    ensures var k := |parts| - 1; Woven(parts[..k] + [parts[k] + more], brackets) == Woven(parts, brackets) + more
  {
    var k := |parts| - 1;
    if k > 0 {
      assert (parts[..k] + [parts[k] + more])[..k] == parts[..k];
      var front := Woven(parts[..k], brackets[..k - 1]) + [brackets[k - 1]];
      assert front + (parts[k] + more) == front + parts[k] + more;
    }
  }

  // The texts of the document

  /** A line of text stands for itself; other lines hold none. */
  function TextLine(l: Line): seq<Line> {
    if l != [] && forall m :: m in l ==> m.Text? then [l] else []
  }

  function TextLinesOf(lines: seq<Line>): seq<Line> {
    Collect(TextLine, lines)
  }

  /** The texts of sections as they are formatted, unless nothing is left of them. */
  function SectionTexts(env: Env, ss: seq<ChangeLog.Section>): seq<string> {
    if ss == [] then []
    else
      var s := ss[|ss| - 1];
      SectionTexts(env, ss[..|ss| - 1]) + if s.text != "" && env.adjust(s.text) != "" then [env.adjust(s.text)] else []
  }

  function EntryTexts(env: Env, es: seq<Entry>): seq<string> {
    if es == [] then [] else EntryTexts(env, es[..|es| - 1]) + SectionTexts(env, es[|es| - 1].sections)
  }

  function AllPieces(texts: seq<string>): (r: seq<Line>)
    ensures |r| == |texts| && forall i :: 0 <= i < |texts| ==> r[i] == Pieces(texts[i])
  {
    if texts == [] then [] else AllPieces(texts[..|texts| - 1]) + [Pieces(texts[|texts| - 1])]
  }

  lemma PiecesTogether(a: seq<string>, b: seq<string>)
    ensures AllPieces(a + b) == AllPieces(a) + AllPieces(b)
  {
    assert |AllPieces(a + b)| == |AllPieces(a) + AllPieces(b)|;
    assert forall i :: 0 <= i < |a + b| ==> AllPieces(a + b)[i] == (AllPieces(a) + AllPieces(b))[i];
  }

  lemma TextLinesSplit(a: seq<Line>, b: seq<Line>)
    ensures TextLinesOf(a + b) == TextLinesOf(a) + TextLinesOf(b)
  {
    CollectSplits(TextLine, a, b);
  }

  /** A line that does not hold text alone. */
  lemma NoTextLine(l: Line)
    requires l == [] || exists m :: m in l && !m.Text?
    ensures TextLinesOf([l]) == []
  {
    assert TextLine(l) == [];
    assert [l][..0] == [];
    assert TextLinesOf([l]) == TextLinesOf([]) + TextLine(l);
  }

  lemma NoTextMacro(m: Macro)
    requires !m.Text?
    ensures TextLinesOf([[m]]) == []
  {
    assert m in [m];
    NoTextLine([m]);
  }

  lemma ShownTextLines(shown: string)
    requires shown != ""
    ensures TextLinesOf(ShownLines(shown)) == [Pieces(shown)]
  {
    var nothing, pieces: Line := [], Pieces(shown);
    NoTextLine(nothing);
    assert TextLinesOf([pieces]) == [pieces] by {
      assert [pieces][..0] == [];
    }
    TextLinesSplit([nothing] + [pieces], [nothing]);
    TextLinesSplit([nothing], [pieces]);
    assert [nothing] + [pieces] + [nothing] == TextLines(shown);
  }

  lemma {:induction false} FileTextLines(files: seq<string>)
    ensures TextLinesOf(FileLines(files)) == []
  {
    if files != [] {
      FileTextLines(files[..|files| - 1]);
      var l := FileLine(files[|files| - 1]);
      assert l[1] in l;
      NoTextLine(l);
      TextLinesSplit(FileLines(files[..|files| - 1]), [l]);
    }
  }

  lemma SectionTextLines(env: Env, s: ChangeLog.Section)
    ensures TextLinesOf(SectionLines(env, s)) == if Shown(env, s) == "" then [] else [Pieces(Shown(env, s))]
  {
    var shown := ShownLines(Shown(env, s));
    if Shown(env, s) != "" {
      ShownTextLines(Shown(env, s));
    }
    NoTextMacro(ListEnd);
    if s.files != [] {
      var first := [[ListBegin("definitions")]];
      NoTextMacro(ListBegin("definitions"));
      FileTextLines(s.files);
      TextLinesSplit(first + FileLines(s.files) + shown, [[ListEnd]]);
      TextLinesSplit(first + FileLines(s.files), shown);
      TextLinesSplit(first, FileLines(s.files));
    } else if Shown(env, s) != "" {
      var first := [[ListBegin("bullet")]] + [[Item(Bullet, "")]];
      NoTextMacro(ListBegin("bullet"));
      NoTextMacro(Item(Bullet, ""));
      TextLinesSplit([[ListBegin("bullet")]], [[Item(Bullet, "")]]);
      TextLinesSplit(first + shown, [[ListEnd]]);
      TextLinesSplit(first, shown);
      assert first == [[ListBegin("bullet")], [Item(Bullet, "")]];
    }
  }

  lemma {:induction false} SectionsTextLines(env: Env, ss: seq<ChangeLog.Section>)
    ensures TextLinesOf(SectionsLines(env, ss)) == AllPieces(SectionTexts(env, ss))
  {
    if ss != [] {
      var init, s := ss[..|ss| - 1], ss[|ss| - 1];
      SectionsTextLines(env, init);
      SectionTextLines(env, s);
      TextLinesSplit(SectionsLines(env, init), SectionLines(env, s));
      var more := if s.text != "" && env.adjust(s.text) != "" then [env.adjust(s.text)] else [];
      PiecesTogether(SectionTexts(env, init), more);
      assert AllPieces(more) == TextLinesOf(SectionLines(env, s));
    }
  }

  lemma EntryTextLines(env: Env, e: Entry)
    ensures TextLinesOf(EntryLines(env, e)) == AllPieces(SectionTexts(env, e.sections))
  {
    var item := EntryItem(env, e);
    assert item[|item| - 1] in item;
    NoTextLine(item);
    NoTextMacro(Para);
    TextLinesSplit([item], [[Para]]);
    assert [item] + [] == [item];
    assert TextLinesOf(EntryHead(env, e)) == [];
    SectionsTextLines(env, e.sections);
    TextLinesSplit(EntryHead(env, e), SectionsLines(env, e.sections));
    TextLinesSplit(EntryHead(env, e) + SectionsLines(env, e.sections), [[Para]]);
  }

  lemma {:induction false} EntriesTextLines(env: Env, es: seq<Entry>)
    ensures TextLinesOf(EntriesLines(env, es)) == AllPieces(EntryTexts(env, es))
  {
    if es != [] {
      var init, e := es[..|es| - 1], es[|es| - 1];
      EntriesTextLines(env, init);
      EntryTextLines(env, e);
      TextLinesSplit(EntriesLines(env, init), EntryLines(env, e));
      PiecesTogether(EntryTexts(env, init), SectionTexts(env, e.sections));
    }
  }

  lemma {:induction false} FrontTextLines(f: Front)
    ensures TextLinesOf(FrontLines(f)) == []
  {
    var first, rest := ManpageBegin(f.title, f.section, f.version), [[Description]] + [[ListBegin("definitions")]];
    NoTextMacro(first);
    HeaderTextLines(f.headers);
    NoTextMacro(Description);
    NoTextMacro(ListBegin("definitions"));
    TextLinesSplit([[Description]], [[ListBegin("definitions")]]);
    TextLinesSplit([[first]] + HeaderLines(f.headers), rest);
    TextLinesSplit([[first]], HeaderLines(f.headers));
    assert rest == [[Description], [ListBegin("definitions")]];
  }

  lemma {:induction false} HeaderTextLines(headers: seq<(HeaderMacro, string)>)
    ensures TextLinesOf(HeaderLines(headers)) == []
  {
    if headers != [] {
      var init, h := headers[..|headers| - 1], headers[|headers| - 1];
      HeaderTextLines(init);
      NoTextMacro(HeaderLine(h.0, h.1));
      TextLinesSplit(HeaderLines(init), [[HeaderLine(h.0, h.1)]]);
    }
  }

  /**
   The lines of text in the manpage of any entries are the texts of their sections as they are formatted, in order,
   each cut at its brackets and nowhere else.
   */
  lemma TextsWritten(env: Env, front: Front, es: seq<Entry>)
    ensures var lines, texts := TextLinesOf(BodyLines(env, front, es) + [[ManpageEnd]]), EntryTexts(env, es);
            && |lines| == |texts|
            && forall i :: 0 <= i < |texts| ==> (forall m :: m in lines[i] ==> m.Text?) && Cut(TextsOf(lines[i]), texts[i])
  {
    BodyTextLines(env, front, es);
    AllCut(EntryTexts(env, es));
  }

  lemma BodyTextLines(env: Env, front: Front, es: seq<Entry>)
    ensures TextLinesOf(BodyLines(env, front, es) + [[ManpageEnd]]) == AllPieces(EntryTexts(env, es))
  {
    FrontTextLines(front);
    EntriesTextLines(env, es);
    NoTextMacro(ListEnd);
    NoTextMacro(ManpageEnd);
    OnlyEntries(FrontLines(front), EntriesLines(env, es), [[ListEnd]], [[ManpageEnd]]);
  }

  lemma OnlyEntries(a: seq<Line>, b: seq<Line>, c: seq<Line>, d: seq<Line>)
    requires TextLinesOf(a) == [] && TextLinesOf(c) == [] && TextLinesOf(d) == []
    ensures TextLinesOf(a + b + c + d) == TextLinesOf(b)
  {
    TextLinesSplit(a + b + c, d);
    TextLinesSplit(a + b, c);
    TextLinesSplit(a, b);
  }

  lemma AllCut(texts: seq<string>)
    ensures forall i :: 0 <= i < |texts| ==>
              (forall m :: m in AllPieces(texts)[i] ==> m.Text?) && Cut(TextsOf(AllPieces(texts)[i]), texts[i])
  {
    forall i | 0 <= i < |texts|
      ensures (forall m :: m in AllPieces(texts)[i] ==> m.Text?) && Cut(TextsOf(AllPieces(texts)[i]), texts[i])
    {
      PiecesCut(texts[i]);
    }
  }
}
