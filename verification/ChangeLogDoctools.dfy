/**
 The manpage generated from a change log, and when the manpage checker accepts it.

 A line of the generator's buffer is the macros it holds, in the order the expander runs them: a macro
 inside another one's argument comes first. Arguments are protected by list quoting and the brackets in texts by lb
 and rb; the author of an entry is not: QuotedArgument says what becomes of it.

 An author may leave its word without an end in its line. The expander then looks for the end of the macro in the
 lines that follow. Their own words lie inside brackets; what may close a word from outside are the texts of
 sections, whose double quotes are written as they are.
 */
module ChangeLogDoctools {
  import opened ChangeLog
  import opened Machines
  import opened ManpageGrammar
  import opened ManpageState
  import opened Outcomes
  import opened QuotedArgument

  type Line = seq<Macro>

  /**
   How texts are formatted (textutil::adjust), the interpreter that the checker runs in, and the lines as it runs them
   from an entry on whose author does not end its word, where something later may.
   */
  datatype Env = Env(adjust: string -> string, interp: Interp, taken: seq<Entry> -> seq<Line>)

  /** The text between brackets. The brackets themselves are written by lb and rb, which no checker sees. */
  function Pieces(text: string): (pieces: Line)
    ensures pieces != [] && forall m :: m in pieces ==> m.Text?
  {
    if text == "" then [Text("")]
    else
      var rest, c := Pieces(text[..|text| - 1]), text[|text| - 1];
      var k := |rest| - 1;
      assert rest[k] in rest;
      if c == '[' || c == ']' then rest + [Text("")] else rest[..k] + [Text(rest[k].text + [c])]
  }

  /** A file's item: the markup in its argument, then the item. */
  function FileLine(name: string): Line {
    [Inline("file", name), Item(Def, name)]
  }

  function FileLines(files: seq<string>): seq<Line> {
    if files == [] then []
    else FileLines(files[..|files| - 1]) + [FileLine(files[|files| - 1])]
  }

  function TextLines(text: string): seq<Line> {
    [[], Pieces(text), []]
  }

  /** The text as it is written: formatting may leave nothing of it. */
  function Shown(env: Env, s: Section): string {
    if s.text == "" then "" else env.adjust(s.text)
  }

  function ShownLines(shown: string): seq<Line> {
    if shown == "" then [] else TextLines(shown)
  }

  function SectionLines(env: Env, s: Section): seq<Line> {
    var shown := Shown(env, s);
    if s.files != [] then [[ListBegin("definitions")]] + FileLines(s.files) + ShownLines(shown) + [[ListEnd]]
    else if shown != "" then [[ListBegin("bullet")], [Item(Bullet, "")]] + ShownLines(shown) + [[ListEnd]]
    else []
  }

  function SectionsLines(env: Env, ss: seq<Section>): seq<Line> {
    if ss == [] then [] else SectionsLines(env, ss[..|ss| - 1]) + SectionLines(env, ss[|ss| - 1])
  }

  function EntryText(date: string, author: string): string {
    date + " -- " + author
  }

  /** The author's word ends at the quote that closes it, and its item in its line. */
  predicate Ended(env: Env, e: Entry) {
    Author(env.interp, e.author).end.AtQuote?
  }

  /** An entry's item: the markup of its date, what its author runs, then the item; or a macro without its end. */
  function EntryItem(env: Env, e: Entry): Line {
    if Ended(env, e) then [Inline("emph", e.date)] + Author(env.interp, e.author).macros + [EntryDef(env, e)]
    else [Unclosed(EntryText(e.date, e.author))]
  }

  function EntryDef(env: Env, e: Entry): Macro {
    Item(Def, EntryText(e.date, Author(env.interp, e.author).text))
  }

  function EntryHead(env: Env, e: Entry): seq<Line> {
    [EntryItem(env, e)] + if e.sections == [] then [] else [[Para]]
  }

  function EntryLines(env: Env, e: Entry): seq<Line> {
    EntryHead(env, e) + SectionsLines(env, e.sections) + [[Para]]
  }

  function EntriesLines(env: Env, es: seq<Entry>): seq<Line> {
    if es == [] then [] else EntriesLines(env, es[..|es| - 1]) + EntryLines(env, es[|es| - 1])
  }

  function FrontOf(title: string, mod: string, version: string): Front {
    Front(title + "-changelog", "n", version, [(Titledesc, title + " ChangeLog"), (Moddesc, mod)])
  }

  function FrontLines(f: Front): seq<Line> {
    [[ManpageBegin(f.title, f.section, f.version)]]
    + HeaderLines(f.headers) + [[Description], [ListBegin("definitions")]]
  }

  function HeaderLines(headers: seq<(HeaderMacro, string)>): seq<Line> {
    if headers == [] then []
    else
      var h := headers[|headers| - 1];
      HeaderLines(headers[..|headers| - 1]) + [[HeaderLine(h.0, h.1)]]
  }

  /** join $linebuffer \n, as the expander sees it: the newlines are text. */
  function Joined(lines: seq<Line>): Line {
    if lines == [] then []
    else if |lines| == 1 then lines[0]
    else Joined(lines[..|lines| - 1]) + [Text("\n")] + lines[|lines| - 1]
  }

  function BodyLines(env: Env, front: Front, es: seq<Entry>): seq<Line> {
    FrontLines(front) + EntriesLines(env, es) + [[ListEnd]]
  }

  /** The document, each line on its own. */
  function Written(env: Env, front: Front, es: seq<Entry>): Line {
    Joined(BodyLines(env, front, es) + [[ManpageEnd]])
  }

  // What the expander runs of it

  /** The first entry whose item does not end in its line. */
  function FirstUnended(env: Env, es: seq<Entry>): (k: nat)
    ensures k <= |es|
    ensures forall i :: 0 <= i < k ==> Ended(env, es[i])
    ensures k < |es| ==> !Ended(env, es[k])
  {
    if es == [] || !Ended(env, es[0]) then 0 else 1 + FirstUnended(env, es[1..])
  }

  /** A double quote, or a name in braces, which might hide the brackets around a quote. */
  predicate Closing(text: string) {
    QUOTE in text || exists i :: 0 < i < |text| && text[i] == '{' && text[i - 1] == DOLLAR
  }

  predicate ClosingEntry(env: Env, e: Entry) {
    !Simple(Escaped(e.author)) || exists s :: s in e.sections && Closing(Shown(env, s))
  }

  /** From these entries on something may end a word that goes on over the lines. */
  predicate Closable(env: Env, es: seq<Entry>) {
    exists e :: e in es && ClosingEntry(env, e)
  }

  /** No later line ends a word that an author leaves without an end. */
  predicate Settled(env: Env, es: seq<Entry>) {
    var k := FirstUnended(env, es);
    k < |es| ==> !Closable(env, es[k..])
  }

  function TakenLines(env: Env, front: Front, es: seq<Entry>): seq<Line> {
    var k := FirstUnended(env, es);
    FrontLines(front) + EntriesLines(env, es[..k]) + env.taken(es[k..])
  }

  function Generated(env: Env, front: Front, es: seq<Entry>): Line {
    if Settled(env, es) then Written(env, front, es) else Joined(TakenLines(env, front, es))
  }

  /** toDoctools: the line buffer, line by line. */
  method ToDoctools(env: Env, title: string, mod: string, version: string, entries: seq<Entry>)
    returns (doc: Line)
    ensures doc == Written(env, FrontOf(title, mod, version), entries)
  {
    var front := FrontOf(title, mod, version);
    var buffer: seq<Line> := [[ManpageBegin(title + "-changelog", "n", version)]];
    buffer := buffer + [[HeaderLine(Titledesc, title + " ChangeLog")]];
    buffer := buffer + [[HeaderLine(Moddesc, mod)]];
    buffer := buffer + [[Description]];
    buffer := buffer + [[ListBegin("definitions")]];
    FrontIs(front, (Titledesc, title + " ChangeLog"), (Moddesc, mod));
    var i := 0;
    while i < |entries|
      invariant 0 <= i <= |entries|
      invariant buffer == FrontLines(front) + EntriesLines(env, entries[..i])
    {
      var lines := EntryToLines(env, entries[i]);
      assert entries[..i + 1][..i] == entries[..i];
      Regroup(FrontLines(front), EntriesLines(env, entries[..i]), lines);
      buffer := buffer + lines;
      i := i + 1;
    }
    assert entries[..i] == entries;
    buffer := buffer + [[ListEnd]];
    buffer := buffer + [[ManpageEnd]];
    doc := Joined(buffer);
  }

  lemma FrontIs(f: Front, a: (HeaderMacro, string), b: (HeaderMacro, string))
    requires f.headers == [a, b]
    ensures FrontLines(f) == [[ManpageBegin(f.title, f.section, f.version)], [HeaderLine(a.0, a.1)], [HeaderLine(b.0, b.1)],
                              [Description], [ListBegin("definitions")]]
  {
    assert [a, b][..1] == [a] && [a][..0] == [];
    assert HeaderLines([a]) == [[HeaderLine(a.0, a.1)]];
  }

  method EntryToLines(env: Env, e: Entry) returns (buffer: seq<Line>)
    ensures buffer == EntryLines(env, e)
  {
    buffer := [EntryItem(env, e)];
    if |e.sections| > 0 {
      buffer := buffer + [[Para]];
    }
    var sections := SectionsToLines(env, e.sections);
    buffer := buffer + sections + [[Para]];
  }

  method SectionsToLines(env: Env, ss: seq<Section>) returns (buffer: seq<Line>)
    ensures buffer == SectionsLines(env, ss)
  {
    buffer := [];
    var j := 0;
    while j < |ss|
      invariant 0 <= j <= |ss|
      invariant buffer == SectionsLines(env, ss[..j])
    {
      var lines := SectionToLines(env, ss[j]);
      assert ss[..j + 1][..j] == ss[..j];
      buffer := buffer + lines;
      j := j + 1;
    }
    assert ss[..j] == ss;
  }

  method SectionToLines(env: Env, s: Section) returns (buffer: seq<Line>)
    ensures buffer == SectionLines(env, s)
  {
    buffer := [];
    var text := s.text;
    if text != "" {
      text := env.adjust(text);
    }
    if |s.files| > 0 {
      buffer := [[ListBegin("definitions")]];
      var k := 0;
      while k < |s.files|
        invariant 0 <= k <= |s.files|
        invariant buffer == [[ListBegin("definitions")]] + FileLines(s.files[..k])
      {
        assert s.files[..k + 1][..k] == s.files[..k];
        buffer := buffer + [FileLine(s.files[k])];
        k := k + 1;
      }
      assert s.files[..k] == s.files;
      if text != "" {
        buffer := buffer + TextLines(text);
      }
      buffer := buffer + [[ListEnd]];
    } else if text != "" {
      buffer := [[ListBegin("bullet")], [Item(Bullet, "")]] + TextLines(text) + [[ListEnd]];
    }
  }

  // The manpage that the document spells

  /** The pieces of a text that are not blank. */
  function TextNodes(pieces: Line): seq<Node> {
    if pieces == [] then []
    else
      var m := pieces[|pieces| - 1];
      TextNodes(pieces[..|pieces| - 1]) + if Noise(m) then [] else [Leaf(m)]
  }

  function FileNodes(files: seq<string>): seq<Node> {
    if files == [] then [] else FileNodes(files[..|files| - 1]) + [Leaf(Item(Def, files[|files| - 1]))]
  }

  function SectionNodes(env: Env, s: Section): seq<Node> {
    var text := TextNodes(Pieces(Shown(env, s)));
    if s.files != [] then [Listing("definitions", Definitions, FileNodes(s.files) + text)]
    else if Shown(env, s) != "" then [Listing("bullet", Itemized, [Leaf(Item(Bullet, ""))] + text)]
    else []
  }

  function SectionsNodes(env: Env, ss: seq<Section>): seq<Node> {
    if ss == [] then [] else SectionsNodes(env, ss[..|ss| - 1]) + SectionNodes(env, ss[|ss| - 1])
  }

  /** An entry: its item, a paragraph before the sections, the sections as lists, a paragraph after them. */
  function EntryNodes(env: Env, e: Entry): seq<Node> {
    [Leaf(EntryDef(env, e))]
    + (if e.sections == [] then [] else [Leaf(Para)])
    + SectionsNodes(env, e.sections) + [Leaf(Para)]
  }

  function EntriesNodes(env: Env, es: seq<Entry>): seq<Node> {
    if es == [] then [] else EntriesNodes(env, es[..|es| - 1]) + EntryNodes(env, es[|es| - 1])
  }

  function PageOf(env: Env, front: Front, es: seq<Entry>): Manpage {
    Manpage(front, [Listing("definitions", Definitions, EntriesNodes(env, es))])
  }

  // The page is well formed

  lemma {:induction false} TextNodesPlaced(pieces: Line, at: Place)
    requires forall m :: m in pieces ==> m.Text?
    ensures AllPlaced(TextNodes(pieces), at)
  {
    if pieces != [] {
      TextNodesPlaced(pieces[..|pieces| - 1], at);
      assert pieces[|pieces| - 1] in pieces;
    }
  }

  lemma {:induction false} FileNodesPlaced(files: seq<string>)
    ensures AllPlaced(FileNodes(files), In(Definitions)) && |FileNodes(files)| == |files|
  {
    if files != [] {
      FileNodesPlaced(files[..|files| - 1]);
    }
  }

  lemma PlacedTogether(a: seq<Node>, b: seq<Node>, at: Place)
    requires AllPlaced(a, at) && AllPlaced(b, at)
    ensures AllPlaced(a + b, at)
  {
  }

  lemma SectionNodesPlaced(env: Env, s: Section, text: seq<Node>)
    requires text == TextNodes(Pieces(Shown(env, s)))
    requires AllPlaced(text, In(Definitions)) && AllPlaced(text, In(Itemized))
    ensures AllPlaced(SectionNodes(env, s), In(Definitions))
  {
    FileNodesPlaced(s.files);
    PlacedTogether(FileNodes(s.files), text, In(Definitions));
    PlacedTogether([Leaf(Item(Bullet, ""))], text, In(Itemized));
    ListPlaced("definitions", Definitions, FileNodes(s.files) + text);
    ListPlaced("bullet", Itemized, [Leaf(Item(Bullet, ""))] + text);
  }

  lemma ListPlaced(what: string, kind: ListKind, nodes: seq<Node>)
    requires ListType(what) == Some(kind) && AllPlaced(nodes, In(kind))
    ensures AllPlaced([Listing(what, kind, nodes)], In(Definitions))
  {
  }

  lemma {:induction false} SectionsNodesPlaced(env: Env, ss: seq<Section>)
    ensures AllPlaced(SectionsNodes(env, ss), In(Definitions))
  {
    if ss != [] {
      SectionsNodesPlaced(env, ss[..|ss| - 1]);
      var pieces := Pieces(Shown(env, ss[|ss| - 1]));
      TextNodesPlaced(pieces, In(Definitions));
      TextNodesPlaced(pieces, In(Itemized));
      SectionNodesPlaced(env, ss[|ss| - 1], TextNodes(pieces));
    }
  }

  lemma {:induction false} EntriesNodesPlaced(env: Env, es: seq<Entry>)
    ensures AllPlaced(EntriesNodes(env, es), In(Definitions)) && EntryFirst(EntriesNodes(env, es))
  {
    if es != [] {
      EntriesNodesPlaced(env, es[..|es| - 1]);
      SectionsNodesPlaced(env, es[|es| - 1].sections);
      EntryNodesPlaced(env, es[|es| - 1]);
    }
  }

  lemma EntryNodesPlaced(env: Env, e: Entry)
    requires AllPlaced(SectionsNodes(env, e.sections), In(Definitions))
    ensures AllPlaced(EntryNodes(env, e), In(Definitions)) && IsEntry(EntryNodes(env, e)[0])
  {
    var head := [Leaf(EntryDef(env, e))] + (if e.sections == [] then [] else [Leaf(Para)]);
    assert AllPlaced(head, In(Definitions));
    PlacedTogether(head, SectionsNodes(env, e.sections), In(Definitions));
    PlacedTogether(head + SectionsNodes(env, e.sections), [Leaf(Para)], In(Definitions));
  }

  // The document spells the page

  function KeptLine(l: Line): Line {
    Strip(MANPAGE.noise, l)
  }

  /** The significant macros of all lines, end to end. */
  function Kept(lines: seq<Line>): Line {
    Collect(KeptLine, lines)
  }

  lemma KeptSplits(a: seq<Line>, b: seq<Line>)
    ensures Kept(a + b) == Kept(a) + Kept(b)
  {
    CollectSplits(KeptLine, a, b);
  }

  lemma KeptSnoc(lines: seq<Line>, l: Line)
    ensures Kept(lines + [l]) == Kept(lines) + KeptLine(l)
  {
    assert (lines + [l])[..|lines|] == lines;
  }

  lemma KeptSingle(l: Line)
    ensures Kept([l]) == KeptLine(l)
  {
    KeptSnoc([], l);
    assert [] + [l] == [l];
  }

  /** Newlines between lines are noise. */
  lemma {:induction false} JoinedKept(lines: seq<Line>)
    ensures Strip(MANPAGE.noise, Joined(lines)) == Kept(lines)
  {
    if |lines| == 1 {
      KeptSingle(lines[0]);
    } else if lines != [] {
      var init, l := lines[..|lines| - 1], lines[|lines| - 1];
      JoinedKept(init);
      StripSplits(MANPAGE.noise, Joined(init) + [Text("\n")], l);
    }
  }

  lemma KeptOne(m: Macro)
    ensures KeptLine([m]) == (if Noise(m) then [] else [m]) && Kept([[m]]) == KeptLine([m])
  {
    StripSnoc(MANPAGE.noise, [], m);
    assert [] + [m] == [m];
    KeptSingle([m]);
  }

  lemma {:induction false} MarkupStripped(doc: Line)
    requires forall m :: m in doc ==> m.Inline?
    ensures Strip(MANPAGE.noise, doc) == []
  {
    if doc != [] {
      MarkupStripped(doc[..|doc| - 1]);
    }
  }

  /** A line of markup and an item. */
  lemma KeptItem(markup: Line, item: Macro)
    requires (forall m :: m in markup ==> m.Inline?) && item.Item?
    ensures Kept([markup + [item]]) == [item]
  {
    MarkupStripped(markup);
    StripSnoc(MANPAGE.noise, markup, item);
    KeptSingle(markup + [item]);
  }

  lemma {:induction false} SpellNodesSplits(a: seq<Node>, b: seq<Node>)
    ensures SpellNodes(a + b) == SpellNodes(a) + SpellNodes(b)
    decreases |b|
  {
    if b == [] {
      assert a + b == a && SpellNodes(a) + [] == SpellNodes(a);
    } else {
      var init, n := b[..|b| - 1], b[|b| - 1];
      SpellNodesSplits(a, init);
      assert (a + b)[..|a + b| - 1] == a + init;
      Regroup(SpellNodes(a), SpellNodes(init), SpellNode(n));
    }
  }

  lemma SpellOne(n: Node)
    ensures SpellNodes([n]) == SpellNode(n)
  {
    assert [n][..0] == [];
  }

  lemma {:induction false} TextSpelled(pieces: Line)
    ensures SpellNodes(TextNodes(pieces)) == Strip(MANPAGE.noise, pieces)
  {
    if pieces != [] {
      var init, m := pieces[..|pieces| - 1], pieces[|pieces| - 1];
      TextSpelled(init);
      if Noise(m) {
        assert TextNodes(init) + [] == TextNodes(init);
      } else {
        SpellNodesSplits(TextNodes(init), [Leaf(m)]);
        SpellOne(Leaf(m));
      }
    }
  }

  lemma TextLinesKept(text: string)
    ensures Kept(TextLines(text)) == SpellNodes(TextNodes(Pieces(text)))
  {
    TextSpelled(Pieces(text));
    NothingKept();
    KeptSingle(Pieces(text));
    KeptThree([[]], [Pieces(text)], [[]]);
    TextLinesThree(Pieces(text));
  }

  lemma NothingKept()
    ensures Kept([[]]) == []
  {
    KeptSingle([]);
  }

  lemma TextLinesThree(pieces: Line)
    ensures [[]] + [pieces] + [[]] == [[], pieces, []]
  {
  }

  lemma {:induction false} FilesKept(files: seq<string>)
    ensures Kept(FileLines(files)) == SpellNodes(FileNodes(files))
  {
    if files != [] {
      var init, f := files[..|files| - 1], files[|files| - 1];
      FilesKept(init);
      KeptSplits(FileLines(init), [FileLine(f)]);
      KeptItem([Inline("file", f)], Item(Def, f));
      assert [Inline("file", f)] + [Item(Def, f)] == FileLine(f);
      SpellNodesSplits(FileNodes(init), [Leaf(Item(Def, f))]);
      SpellOne(Leaf(Item(Def, f)));
    }
  }

  /** A list around lines that spell nodes. */
  lemma ListKept(what: string, kind: ListKind, lines: seq<Line>, nodes: seq<Node>)
    requires Kept(lines) == SpellNodes(nodes)
    ensures Kept([[ListBegin(what)]] + lines + [[ListEnd]]) == SpellNodes([Listing(what, kind, nodes)])
  {
    KeptSplits([[ListBegin(what)]] + lines, [[ListEnd]]);
    KeptSplits([[ListBegin(what)]], lines);
    KeptOne(ListBegin(what));
    KeptOne(ListEnd);
    SpellOne(Listing(what, kind, nodes));
  }

  lemma {:induction false} SectionKept(env: Env, s: Section)
    ensures Kept(SectionLines(env, s)) == SpellNodes(SectionNodes(env, s))
  {
    var text, nodes := ShownLines(Shown(env, s)), TextNodes(Pieces(Shown(env, s)));
    TextLinesKept(Shown(env, s));
    assert Kept(text) == SpellNodes(nodes);
    if s.files != [] {
      FilesListKept(s.files, text, nodes);
    } else if Shown(env, s) != "" {
      BulletListKept("bullet", Itemized, Item(Bullet, ""), text, nodes);
    }
  }

  lemma FilesListKept(files: seq<string>, text: seq<Line>, nodes: seq<Node>)
    requires Kept(text) == SpellNodes(nodes)
    ensures Kept([[ListBegin("definitions")]] + FileLines(files) + text + [[ListEnd]])
         == SpellNodes([Listing("definitions", Definitions, FileNodes(files) + nodes)])
  {
    FilesKept(files);
    PartsKept(FileLines(files), FileNodes(files), text, nodes);
    ListKept("definitions", Definitions, FileLines(files) + text, FileNodes(files) + nodes);
    Regroup([[ListBegin("definitions")]], FileLines(files), text);
  }

  lemma BulletListKept(what: string, kind: ListKind, bullet: Macro, text: seq<Line>, nodes: seq<Node>)
    requires Kept(text) == SpellNodes(nodes) && !Noise(bullet)
    ensures Kept([[ListBegin(what)], [bullet]] + text + [[ListEnd]])
         == SpellNodes([Listing(what, kind, [Leaf(bullet)] + nodes)])
  {
    KeptOne(bullet);
    SpellOne(Leaf(bullet));
    PartsKept([[bullet]], [Leaf(bullet)], text, nodes);
    ListKept(what, kind, [[bullet]] + text, [Leaf(bullet)] + nodes);
    TwoFirst([ListBegin(what)], [bullet], text, [[ListEnd]]);
  }

  lemma TwoFirst<T>(a: T, b: T, c: seq<T>, d: seq<T>)
    ensures [a, b] + c + d == [a] + ([b] + c) + d
  {
  }

  lemma PartsKept(a: seq<Line>, x: seq<Node>, b: seq<Line>, y: seq<Node>)
    requires Kept(a) == SpellNodes(x) && Kept(b) == SpellNodes(y)
    ensures Kept(a + b) == SpellNodes(x + y)
  {
    KeptSplits(a, b);
    SpellNodesSplits(x, y);
  }

  lemma {:induction false} SectionsKept(env: Env, ss: seq<Section>)
    ensures Kept(SectionsLines(env, ss)) == SpellNodes(SectionsNodes(env, ss))
  {
    if ss != [] {
      var init, s := ss[..|ss| - 1], ss[|ss| - 1];
      SectionsKept(env, init);
      SectionKept(env, s);
      PartsKept(SectionsLines(env, init), SectionsNodes(env, init), SectionLines(env, s), SectionNodes(env, s));
    }
  }

  /** The author ends its word, and all that it runs is inline markup. */
  predicate MarkupOnly(env: Env, e: Entry) {
    Ended(env, e) && forall m :: m in Author(env.interp, e.author).macros ==> m.Inline?
  }

  predicate AllMarkup(env: Env, es: seq<Entry>) {
    forall i :: 0 <= i < |es| ==> MarkupOnly(env, es[i])
  }

  lemma ItemKept(env: Env, e: Entry)
    requires MarkupOnly(env, e)
    ensures Kept([EntryItem(env, e)]) == SpellNodes([Leaf(EntryDef(env, e))])
  {
    KeptItem([Inline("emph", e.date)] + Author(env.interp, e.author).macros, EntryDef(env, e));
    SpellOne(Leaf(EntryDef(env, e)));
  }

  /** A single line for a macro that is not noise. */
  lemma LeafKept(m: Macro)
    requires !Noise(m)
    ensures Kept([[m]]) == SpellNodes([Leaf(m)])
  {
    KeptOne(m);
    SpellOne(Leaf(m));
  }

  lemma EntryKept(env: Env, e: Entry)
    requires MarkupOnly(env, e)
    ensures Kept(EntryLines(env, e)) == SpellNodes(EntryNodes(env, e))
  {
    var item, leaf := [EntryItem(env, e)], [Leaf(EntryDef(env, e))];
    var before: seq<Line> := if e.sections == [] then [] else [[Para]];
    var para: seq<Node> := if e.sections == [] then [] else [Leaf(Para)];
    ItemKept(env, e);
    LeafKept(Para);
    assert Kept(before) == SpellNodes(para);
    SectionsKept(env, e.sections);
    FourKept(item, leaf, before, para, SectionsLines(env, e.sections), SectionsNodes(env, e.sections),
             [[Para]], [Leaf(Para)]);
    assert EntryLines(env, e) == item + before + SectionsLines(env, e.sections) + [[Para]];
  }

  lemma FourKept(a: seq<Line>, x: seq<Node>, b: seq<Line>, y: seq<Node>, c: seq<Line>, z: seq<Node>,
                 d: seq<Line>, w: seq<Node>)
    requires Kept(a) == SpellNodes(x) && Kept(b) == SpellNodes(y) && Kept(c) == SpellNodes(z) && Kept(d) == SpellNodes(w)
    ensures Kept(a + b + c + d) == SpellNodes(x + y + z + w)
  {
    PartsKept(a, x, b, y);
    PartsKept(a + b, x + y, c, z);
    PartsKept(a + b + c, x + y + z, d, w);
  }

  lemma {:induction false} EntriesKept(env: Env, es: seq<Entry>)
    requires AllMarkup(env, es)
    ensures Kept(EntriesLines(env, es)) == SpellNodes(EntriesNodes(env, es))
  {
    if es != [] {
      var init, e := es[..|es| - 1], es[|es| - 1];
      EntriesKept(env, init);
      EntryKept(env, e);
      PartsKept(EntriesLines(env, init), EntriesNodes(env, init), EntryLines(env, e), EntryNodes(env, e));
    }
  }

  lemma {:induction false} HeadersKept(headers: seq<(HeaderMacro, string)>)
    ensures Kept(HeaderLines(headers)) == SpellHeaders(headers)
  {
    if headers != [] {
      var h := headers[|headers| - 1];
      HeadersKept(headers[..|headers| - 1]);
      KeptSplits(HeaderLines(headers[..|headers| - 1]), [[HeaderLine(h.0, h.1)]]);
      KeptOne(HeaderLine(h.0, h.1));
    }
  }

  lemma KeptThree(a: seq<Line>, b: seq<Line>, c: seq<Line>)
    ensures Kept(a + b + c) == Kept(a) + Kept(b) + Kept(c)
  {
    KeptSplits(a + b, c);
    KeptSplits(a, b);
  }

  lemma FrontKept(f: Front)
    ensures Kept(HeadLines(f)) == SpellFront(f) + [Description]
  {
    var first := ManpageBegin(f.title, f.section, f.version);
    KeptThree([[first]], HeaderLines(f.headers), [[Description]]);
    HeadersKept(f.headers);
    KeptOne(first);
    KeptOne(Description);
  }

  lemma DocumentSpells(env: Env, front: Front, es: seq<Entry>)
    requires AllMarkup(env, es)
    ensures Generated(env, front, es) == Written(env, front, es)
    ensures Strip(MANPAGE.noise, Generated(env, front, es)) == Spell(PageOf(env, front, es))
  {
    var entries, nodes := EntriesLines(env, es), EntriesNodes(env, es);
    var list := EntryList(entries);
    EntriesKept(env, es);
    ListKept("definitions", Definitions, entries, nodes);
    PageKept(front, list, PageOf(env, front, es));
    BodyIs(front, entries);
    JoinedKept(HeadLines(front) + list + [[ManpageEnd]]);
  }

  function HeadLines(f: Front): seq<Line> {
    [[ManpageBegin(f.title, f.section, f.version)]] + HeaderLines(f.headers) + [[Description]]
  }

  function EntryList(entries: seq<Line>): seq<Line> {
    [[ListBegin("definitions")]] + entries + [[ListEnd]]
  }

  lemma PageKept(f: Front, body: seq<Line>, page: Manpage)
    requires page.front == f && Kept(body) == SpellNodes(page.body)
    ensures Kept(HeadLines(f) + body + [[ManpageEnd]]) == Spell(page)
  {
    KeptThree(HeadLines(f), body, [[ManpageEnd]]);
    FrontKept(f);
    KeptOne(ManpageEnd);
  }

  lemma BodyIs(f: Front, entries: seq<Line>)
    ensures FrontLines(f) + entries + [[ListEnd]] == HeadLines(f) + EntryList(entries)
  {
  }

  // Nothing comes after the end

  predicate NoEnd(lines: seq<Line>) {
    forall i :: 0 <= i < |lines| ==> ManpageEnd !in lines[i]
  }

  lemma {:induction false} JoinedNoEnd(lines: seq<Line>)
    requires NoEnd(lines)
    ensures ManpageEnd !in Joined(lines)
  {
    if |lines| > 1 {
      JoinedNoEnd(lines[..|lines| - 1]);
    }
  }

  lemma {:induction false} SectionsNoEnd(env: Env, ss: seq<Section>)
    ensures NoEnd(SectionsLines(env, ss))
  {
    if ss != [] {
      SectionsNoEnd(env, ss[..|ss| - 1]);
      SectionNoEnd(env, ss[|ss| - 1]);
    }
  }

  lemma SectionNoEnd(env: Env, s: Section)
    ensures NoEnd(SectionLines(env, s))
  {
    assert NoEnd(ShownLines(Shown(env, s)));
    FilesNoEnd(s.files);
  }

  lemma {:induction false} FilesNoEnd(files: seq<string>)
    ensures NoEnd(FileLines(files))
  {
    if files != [] {
      FilesNoEnd(files[..|files| - 1]);
    }
  }

  lemma {:induction false} EntriesNoEnd(env: Env, es: seq<Entry>)
    requires AllMarkup(env, es)
    ensures NoEnd(EntriesLines(env, es))
  {
    if es != [] {
      EntriesNoEnd(env, es[..|es| - 1]);
      EntryNoEnd(env, es[|es| - 1]);
    }
  }

  lemma EntryNoEnd(env: Env, e: Entry)
    requires MarkupOnly(env, e)
    ensures NoEnd(EntryLines(env, e))
  {
    var paras: seq<Line> := if e.sections == [] then [] else [[Para]];
    ItemNoEnd(env, e);
    NoEndTogether([EntryItem(env, e)], paras);
    SectionsNoEnd(env, e.sections);
    NoEndTogether(EntryHead(env, e), SectionsLines(env, e.sections));
    NoEndTogether(EntryHead(env, e) + SectionsLines(env, e.sections), [[Para]]);
  }

  lemma ItemNoEnd(env: Env, e: Entry)
    requires MarkupOnly(env, e)
    ensures NoEnd([EntryItem(env, e)])
  {
    assert ManpageEnd !in Author(env.interp, e.author).macros;
  }

  lemma {:induction false} HeadersNoEnd(headers: seq<(HeaderMacro, string)>)
    ensures NoEnd(HeaderLines(headers))
  {
    if headers != [] {
      HeadersNoEnd(headers[..|headers| - 1]);
    }
  }

  /** Entries whose authors run nothing but markup: the document spells their page, and the checker accepts it. */
  lemma MarkupAccepted(env: Env, front: Front, es: seq<Entry>)
    requires AllMarkup(env, es)
    ensures WellFormed(PageOf(env, front, es))
    ensures Strip(MANPAGE.noise, Generated(env, front, es)) == Spell(PageOf(env, front, es))
    ensures Accepts(Generated(env, front, es))
  {
    var doc, page := Generated(env, front, es), PageOf(env, front, es);
    EntriesNodesPlaced(env, es);
    assert WellPlaced(page.body[0], Top);
    DocumentSpells(env, front, es);
    GeneratedQuiet(env, front, es);
    assert IsManpage(doc);
    Language(doc);
  }

  lemma GeneratedQuiet(env: Env, front: Front, es: seq<Entry>)
    requires AllMarkup(env, es)
    ensures Quiet(MANPAGE, Generated(env, front, es))
  {
    FrontNoEnd(front);
    EntriesNoEnd(env, es);
    QuietBody(FrontLines(front), EntriesLines(env, es));
  }

  lemma FrontNoEnd(front: Front)
    ensures NoEnd(FrontLines(front)) && FrontLines(front) != []
  {
    HeadersNoEnd(front.headers);
  }

  lemma NoEndTogether(a: seq<Line>, b: seq<Line>)
    requires NoEnd(a) && NoEnd(b)
    ensures NoEnd(a + b)
  {
  }

  lemma QuietBody(first: seq<Line>, lines: seq<Line>)
    requires NoEnd(first) && NoEnd(lines)
    ensures Quiet(MANPAGE, Joined(first + lines + [[ListEnd]] + [[ManpageEnd]]))
  {
    NoEndTogether(first, lines);
    NoEndTogether(first + lines, [[ListEnd]]);
    QuietLines(first + lines + [[ListEnd]]);
  }

  lemma QuietLines(lines: seq<Line>)
    requires NoEnd(lines) && lines != []
    ensures Quiet(MANPAGE, Joined(lines + [[ManpageEnd]]))
  {
    JoinedNoEnd(lines);
    assert (lines + [[ManpageEnd]])[..|lines|] == lines;
  }

  /**
   For every list of entries without brackets, dollar signs and backslashes in the authors: each author reaches its
   item as it is, the document spells the page of the entries, and the checker accepts it.
   */
  lemma GeneratorAccepted(env: Env, front: Front, es: seq<Entry>)
    requires forall i :: 0 <= i < |es| ==> PlainAuthor(es[i].author)
    ensures forall i :: 0 <= i < |es| ==> EntryDef(env, es[i]) == Item(Def, es[i].date + " -- " + es[i].author)
    ensures WellFormed(PageOf(env, front, es))
    ensures Strip(MANPAGE.noise, Generated(env, front, es)) == Spell(PageOf(env, front, es))
    ensures Accepts(Generated(env, front, es))
  {
    forall i | 0 <= i < |es|
      ensures Author(env.interp, es[i].author) == Word([], es[i].author, AtQuote)
    {
      PlainAuthorKept(env.interp, es[i].author);
    }
    MarkupAccepted(env, front, es);
  }

  // Authors that the interpreter cannot evaluate

  lemma {:induction false} InJoined(lines: seq<Line>, i: nat, m: Macro)
    requires i < |lines| && m in lines[i]
    ensures m in Joined(lines)
  {
    if |lines| > 1 {
      var init, last := lines[..|lines| - 1], lines[|lines| - 1];
      if i < |init| {
        InJoined(init, i, m);
      }
      assert Joined(lines) == Joined(init) + [Text("\n")] + last;
    }
  }

  lemma {:induction false} EntryWritten(env: Env, es: seq<Entry>, i: nat)
    requires i < |es|
    ensures EntryItem(env, es[i]) in EntriesLines(env, es)
  {
    if i < |es| - 1 {
      EntryWritten(env, es[..|es| - 1], i);
    } else {
      assert EntryHead(env, es[i])[0] == EntryItem(env, es[i]);
      assert EntryLines(env, es[i])[0] == EntryItem(env, es[i]);
    }
  }

  /** No run gets past a macro that cannot be evaluated or has no end. */
  lemma FaultStops(doc: Line, m: Macro)
    requires m in doc && (m.Fault? || m.Unclosed?)
    ensures !Accepts(doc)
  {
    var i :| 0 <= i < |doc| && doc[i] == m;
    assert doc[..i + 1] == doc[..i] + [m];
    RunSnoc(Step, Initial, doc[..i], m);
    RunFails(Step, Initial, doc, i + 1);
  }

  lemma EntryStops(env: Env, before: seq<Line>, es: seq<Entry>, after: seq<Line>, i: nat, m: Macro)
    requires i < |es| && m in EntryItem(env, es[i]) && (m.Fault? || m.Unclosed?)
    ensures !Accepts(Joined(before + EntriesLines(env, es) + after))
  {
    var lines := before + EntriesLines(env, es) + after;
    EntryWritten(env, es, i);
    assert EntryItem(env, es[i]) in lines;
    var k :| 0 <= k < |lines| && lines[k] == EntryItem(env, es[i]);
    InJoined(lines, k, m);
    FaultStops(Joined(lines), m);
  }

  /**
   One author that the interpreter cannot evaluate makes the whole document fail, unless the item of an entry before
   it takes in its line.
   */
  lemma FaultRejected(env: Env, front: Front, es: seq<Entry>, i: nat)
    requires i < |es| && i <= FirstUnended(env, es) && Faulty(Author(env.interp, es[i].author))
    ensures !Accepts(Generated(env, front, es))
  {
    FaultWritten(env, es[i]);
    var m :| m in EntryItem(env, es[i]) && m.Fault?;
    if Settled(env, es) {
      WrittenStops(env, front, es, i, m);
    } else {
      TakenStops(env, front, es, i, m);
    }
  }

  lemma WrittenStops(env: Env, front: Front, es: seq<Entry>, i: nat, m: Macro)
    requires i < |es| && m in EntryItem(env, es[i]) && (m.Fault? || m.Unclosed?)
    ensures !Accepts(Written(env, front, es))
  {
    EntryStops(env, FrontLines(front), es, [[ListEnd]] + [[ManpageEnd]], i, m);
    Regroup(FrontLines(front) + EntriesLines(env, es), [[ListEnd]], [[ManpageEnd]]);
  }

  lemma TakenStops(env: Env, front: Front, es: seq<Entry>, i: nat, m: Macro)
    requires i < FirstUnended(env, es) && m in EntryItem(env, es[i]) && (m.Fault? || m.Unclosed?)
    ensures !Accepts(Joined(TakenLines(env, front, es)))
  {
    var k := FirstUnended(env, es);
    EntryStops(env, FrontLines(front), es[..k], env.taken(es[k..]), i, m);
  }

  lemma FaultWritten(env: Env, e: Entry)
    requires Faulty(Author(env.interp, e.author))
    ensures exists m :: m in EntryItem(env, e) && m.Fault?
  {
    var m :| m in Author(env.interp, e.author).macros && m.Fault?;
    assert m in EntryItem(env, e);
  }

  /** A word that nothing ends takes the rest of the document into its macro, and the macro has no end. */
  lemma UnendedRejected(env: Env, front: Front, es: seq<Entry>)
    requires FirstUnended(env, es) < |es| && Settled(env, es)
    ensures !Accepts(Generated(env, front, es))
  {
    var k := FirstUnended(env, es);
    WrittenStops(env, front, es, k, EntryItem(env, es[k])[0]);
  }

  /**
   Where authors run inline markup or fail, and no later line ends a word that an author leaves without an end: the
   document is accepted exactly when every author ends its word and none fails.
   */
  lemma AcceptedIff(env: Env, front: Front, es: seq<Entry>)
    requires forall i, m :: 0 <= i < |es| && m in Author(env.interp, es[i].author).macros ==> m.Inline? || m.Fault?
    requires Settled(env, es)
    ensures Accepts(Generated(env, front, es))
       <==> forall i :: 0 <= i < |es| ==> Ended(env, es[i]) && !Faulty(Author(env.interp, es[i].author))
  {
    if FirstUnended(env, es) < |es| {
      UnendedRejected(env, front, es);
    } else if i :| 0 <= i < |es| && Faulty(Author(env.interp, es[i].author)) {
      FaultRejected(env, front, es, i);
    } else {
      MarkupAccepted(env, front, es);
    }
  }

  lemma FaultyAlone(env: Env, front: Front, e: Entry)
    requires Faulty(Author(env.interp, e.author))
    ensures !Accepts(Generated(env, front, [e]))
  {
    FaultRejected(env, front, [e], 0);
  }

  /** An author with a word in brackets, where the word is no command of the interpreter. */
  lemma BracketedAuthor(env: Env, front: Front)
    requires env.interp.eval("x") == None
    ensures !Accepts(Generated(env, front, [Entry("2024-01-01", "Joe [x]", [])]))
  {
    BracketFails(env.interp, "Joe ", "x", "");
    assert "Joe " + ([LBRACKET] + "x" + [RBRACKET] + "") == "Joe [x]";
    FaultyAlone(env, front, Entry("2024-01-01", "Joe [x]", []));
  }

  lemma DollarAuthor(env: Env, front: Front)
    requires !env.interp.isSet("B")
    ensures !Accepts(Generated(env, front, [Entry("2024-01-01", "A$B", [])]))
  {
    UnsetFails(env.interp, "A", "B");
    assert "A" + ([DOLLAR] + "B") == "A$B";
    FaultyAlone(env, front, Entry("2024-01-01", "A$B", []));
  }

  /** One author that leaves its word without an end, among plain ones, and no later text that may close the word. */
  lemma UnendedAuthor(env: Env, front: Front, es: seq<Entry>, i: nat)
    requires i < |es| && !Ended(env, es[i]) && Simple(Escaped(es[i].author))
    requires forall j :: 0 <= j < |es| && j != i ==> PlainAuthor(es[j].author)
    requires forall j, s :: i <= j < |es| && s in es[j].sections ==> !Closing(Shown(env, s))
    ensures !Accepts(Generated(env, front, es))
  {
    forall j | 0 <= j < |es| && j != i
      ensures Ended(env, es[j]) && Simple(Escaped(es[j].author))
    {
      PlainAuthorKept(env.interp, es[j].author);
      SimpleFront(es[j].author, "");
      assert es[j].author + "" == es[j].author;
    }
    assert FirstUnended(env, es) == i;
    UnendedRejected(env, front, es);
  }

  /** A backslash at the end of an author. */
  lemma BackslashAuthor(env: Env, front: Front, es: seq<Entry>, i: nat, p: string)
    requires i < |es| && PlainAuthor(p) && es[i].author == p + [BACKSLASH]
    requires forall j :: 0 <= j < |es| && j != i ==> PlainAuthor(es[j].author)
    requires forall j, s :: i <= j < |es| && s in es[j].sections ==> !Closing(Shown(env, s))
    ensures !Accepts(Generated(env, front, es))
  {
    BackslashGoesOn(env.interp, p);
    UnendedAuthor(env, front, es, i);
  }

  /** A bracket in an author that nothing closes. */
  lemma OpenBracketAuthor(env: Env, front: Front, es: seq<Entry>, i: nat, p: string, w: string)
    requires i < |es| && PlainAuthor(p) && PlainChars(w) && es[i].author == p + ([LBRACKET] + w)
    requires forall j :: 0 <= j < |es| && j != i ==> PlainAuthor(es[j].author)
    requires forall j, s :: i <= j < |es| && s in es[j].sections ==> !Closing(Shown(env, s))
    ensures !Accepts(Generated(env, front, es))
  {
    BracketGoesOn(env.interp, p, w);
    UnendedAuthor(env, front, es, i);
  }

  // A later text that ends the word of an author

  const Ann := Entry("2024-01-03", "Ann", [])
  const Joe := Entry("2024-01-02", "Joe\\", [])
  const Bob := Entry("2024-01-01", "Bob", [ChangeLog.Section(["f"], "x\"; emph \\[")])

  /**
   Joe's item and the lines after it. Its word goes on through Bob's item up to the quote in the text of Bob's file,
   so what stands in brackets on the way is run before it. Then the text begins another command: its bracket is
   written as a backslash and the macro lb, and the bracket that closes lb closes Joe's macro.
   */
  function JoeTaken(word: string): seq<Line> {
    JoeOpen(word) + [[ListEnd], [ManpageEnd]]
  }

  function JoeOpen(word: string): seq<Line> {
    [[Inline("emph", Joe.date), Para, Inline("emph", Bob.date), BobItem(), Para, ListBegin("definitions"),
      Inline("file", "f"), Item(Def, "f"), Item(Def, word), Inline("emph", "[lb")],
     [], [ListEnd], [Para]]
  }

  function BobItem(): Macro {
    Item(Def, EntryText(Bob.date, Bob.author))
  }

  function JoeNodes(word: string): seq<Node> {
    [Leaf(Para), Leaf(BobItem()), Leaf(Para),
     Listing("definitions", Definitions, [Leaf(Item(Def, "f")), Leaf(Item(Def, word))]), Leaf(Para)]
  }

  lemma StripTwo(a: Macro, b: Macro)
    ensures KeptLine([a, b]) == (if Noise(a) then [] else [a]) + (if Noise(b) then [] else [b])
  {
    KeptOne(a);
    StripSnoc(MANPAGE.noise, [a], b);
    assert [a, b] == [a] + [b];
  }

  lemma JoeLineKept(word: string)
    ensures KeptLine(JoeOpen(word)[0])
         == [Para, BobItem(), Para, ListBegin("definitions"), Item(Def, "f"), Item(Def, word)]
  {
    var a, b := [Inline("emph", Joe.date), Para], [Inline("emph", Bob.date), BobItem()];
    var c, d := [Para, ListBegin("definitions")], [Inline("file", "f"), Item(Def, "f")];
    var e := [Item(Def, word), Inline("emph", "[lb")];
    StripTwo(a[0], a[1]);
    StripTwo(b[0], b[1]);
    StripTwo(c[0], c[1]);
    StripTwo(d[0], d[1]);
    StripTwo(e[0], e[1]);
    StripSplits(MANPAGE.noise, a + b + c + d, e);
    StripSplits(MANPAGE.noise, a + b + c, d);
    StripSplits(MANPAGE.noise, a + b, c);
    StripSplits(MANPAGE.noise, a, b);
    assert JoeOpen(word)[0] == a + b + c + d + e;
  }

  lemma JoeKept(word: string)
    ensures Kept(JoeOpen(word))
         == [Para, BobItem(), Para, ListBegin("definitions"), Item(Def, "f"), Item(Def, word), ListEnd, Para]
  {
    var first := JoeOpen(word)[0];
    JoeLineKept(word);
    KeptSingle(first);
    NothingKept();
    KeptOne(ListEnd);
    KeptOne(Para);
    KeptThree([first], [[]], [[ListEnd]]);
    KeptSplits([first] + [[]] + [[ListEnd]], [[Para]]);
    assert [first] + [[]] + [[ListEnd]] + [[Para]] == JoeOpen(word);
  }

  lemma JoeSpelled(word: string)
    ensures SpellNodes(JoeNodes(word))
         == [Para, BobItem(), Para, ListBegin("definitions"), Item(Def, "f"), Item(Def, word), ListEnd, Para]
  {
    var f, j := Leaf(Item(Def, "f")), Leaf(Item(Def, word));
    var list := Listing("definitions", Definitions, [f, j]);
    SpellTwo(f, j);
    assert SpellNode(list) == [ListBegin("definitions"), Item(Def, "f"), Item(Def, word), ListEnd];
    SpellTwo(Leaf(Para), Leaf(BobItem()));
    SpellTwo(Leaf(Para), list);
    SpellOne(Leaf(Para));
    SpellNodesSplits([Leaf(Para), Leaf(BobItem())], [Leaf(Para), list]);
    SpellNodesSplits([Leaf(Para), Leaf(BobItem())] + [Leaf(Para), list], [Leaf(Para)]);
    assert JoeNodes(word) == [Leaf(Para), Leaf(BobItem())] + [Leaf(Para), list] + [Leaf(Para)];
  }

  lemma SpellTwo(a: Node, b: Node)
    ensures SpellNodes([a, b]) == SpellNode(a) + SpellNode(b)
  {
    SpellNodesSplits([a], [b]);
    SpellOne(a);
    SpellOne(b);
    assert [a, b] == [a] + [b];
  }

  /** An entry whose word goes on, with a double quote in a text after it. */
  lemma QuoteAfter(env: Env, a: Entry, b: Entry, c: Entry, s: ChangeLog.Section)
    requires Ended(env, a) && !Ended(env, b) && s in c.sections && QUOTE in Shown(env, s)
    ensures FirstUnended(env, [a, b, c]) == 1 && !Settled(env, [a, b, c])
    ensures [a, b, c][..1] == [a] && [a, b, c][1..] == [b, c]
  {
    assert [a, b, c][0] == a && [a, b, c][1] == b;
    assert [a, b, c][1..] == [b, c];
    assert c in [b, c] && ClosingEntry(env, c);
  }

  lemma JoeGoesOn(env: Env)
    ensures Author(env.interp, Ann.author) == Word([], Ann.author, AtQuote) && !Ended(env, Joe)
  {
    PlainAuthorKept(env.interp, Ann.author);
    BackslashGoesOn(env.interp, "Joe");
    assert "Joe" + [BACKSLASH] == Joe.author;
  }

  lemma BobQuotes(env: Env)
    requires env.adjust(Bob.sections[0].text) == Bob.sections[0].text
    ensures QUOTE in Shown(env, Bob.sections[0])
  {
    assert Bob.sections[0].text[1] == QUOTE;
  }

  /** A document whose list holds the entry e and then lines that spell nodes. */
  lemma PageAfter(env: Env, front: Front, e: Entry, lines: seq<Line>, nodes: seq<Node>)
    requires MarkupOnly(env, e) && Kept(lines) == SpellNodes(nodes) && NoEnd(lines)
    requires AllPlaced(nodes, In(Definitions))
    ensures Accepts(Joined(FrontLines(front) + EntryLines(env, e) + (lines + [[ListEnd], [ManpageEnd]])))
  {
    var all := EntryLines(env, e) + lines;
    PageAfterKept(env, front, e, lines, nodes);
    PageAfterPlaced(env, e, nodes);
    PageAfterQuiet(env, front, e, lines);
    ListAccepted(Joined(FrontLines(front) + all + [[ListEnd]] + [[ManpageEnd]]), front, EntryNodes(env, e) + nodes);
    TailOfLines(FrontLines(front), EntryLines(env, e), lines, [ListEnd], [ManpageEnd]);
  }

  lemma TailOfLines<T>(a: seq<T>, b: seq<T>, c: seq<T>, x: T, y: T)
    ensures a + (b + c) + [x] + [y] == a + b + (c + [x, y])
  {
  }

  lemma ListAccepted(doc: Line, front: Front, nodes: seq<Node>)
    requires AllPlaced(nodes, In(Definitions)) && EntryFirst(nodes) && Quiet(MANPAGE, doc)
    requires Strip(MANPAGE.noise, doc) == Spell(Manpage(front, [Listing("definitions", Definitions, nodes)]))
    ensures Accepts(doc)
  {
    var page := Manpage(front, [Listing("definitions", Definitions, nodes)]);
    assert WellPlaced(page.body[0], Top);
    assert IsManpage(doc);
    Language(doc);
  }

  lemma PageAfterQuiet(env: Env, front: Front, e: Entry, lines: seq<Line>)
    requires MarkupOnly(env, e) && NoEnd(lines)
    ensures Quiet(MANPAGE, Joined(FrontLines(front) + (EntryLines(env, e) + lines) + [[ListEnd]] + [[ManpageEnd]]))
  {
    EntryNoEnd(env, e);
    NoEndTogether(EntryLines(env, e), lines);
    FrontNoEnd(front);
    QuietBody(FrontLines(front), EntryLines(env, e) + lines);
  }

  lemma PageAfterKept(env: Env, front: Front, e: Entry, lines: seq<Line>, nodes: seq<Node>)
    requires MarkupOnly(env, e) && Kept(lines) == SpellNodes(nodes)
    ensures Strip(MANPAGE.noise, Joined(FrontLines(front) + (EntryLines(env, e) + lines) + [[ListEnd]] + [[ManpageEnd]]))
         == Spell(Manpage(front, [Listing("definitions", Definitions, EntryNodes(env, e) + nodes)]))
  {
    var all, body := EntryLines(env, e) + lines, EntryNodes(env, e) + nodes;
    EntryKept(env, e);
    PartsKept(EntryLines(env, e), EntryNodes(env, e), lines, nodes);
    ListKept("definitions", Definitions, all, body);
    PageKept(front, EntryList(all), Manpage(front, [Listing("definitions", Definitions, body)]));
    BodyIs(front, all);
    JoinedKept(HeadLines(front) + EntryList(all) + [[ManpageEnd]]);
  }

  lemma PageAfterPlaced(env: Env, e: Entry, nodes: seq<Node>)
    requires AllPlaced(nodes, In(Definitions))
    ensures AllPlaced(EntryNodes(env, e) + nodes, In(Definitions)) && EntryFirst(EntryNodes(env, e) + nodes)
  {
    SectionsNodesPlaced(env, e.sections);
    EntryNodesPlaced(env, e);
    PlacedTogether(EntryNodes(env, e), nodes, In(Definitions));
  }

  /** Such a document is not settled, and it is accepted if Joe's word ends at the quote in the text. */
  lemma LaterQuoteAccepted(env: Env, front: Front, word: string)
    requires env.adjust(Bob.sections[0].text) == Bob.sections[0].text
    requires env.taken([Joe, Bob]) == JoeTaken(word)
    ensures !Settled(env, [Ann, Joe, Bob]) && Accepts(Generated(env, front, [Ann, Joe, Bob]))
  {
    JoeGoesOn(env);
    BobQuotes(env);
    QuoteAfter(env, Ann, Joe, Bob, Bob.sections[0]);
    AnnFirst(env, front);
    JoeKept(word);
    JoeSpelled(word);
    JoePlaced(word);
    PageAfter(env, front, Ann, JoeOpen(word), JoeNodes(word));
  }

  lemma AnnFirst(env: Env, front: Front)
    requires FirstUnended(env, [Ann, Joe, Bob]) == 1
    ensures TakenLines(env, front, [Ann, Joe, Bob]) == FrontLines(front) + EntryLines(env, Ann) + env.taken([Joe, Bob])
  {
    assert [Ann, Joe, Bob][..1] == [Ann] && [Ann, Joe, Bob][1..] == [Joe, Bob];
    assert [Ann][..0] == [];
    assert EntriesLines(env, [Ann]) == EntryLines(env, Ann);
  }

  lemma JoePlaced(word: string)
    ensures AllPlaced(JoeNodes(word), In(Definitions)) && NoEnd(JoeOpen(word))
  {
    assert WellPlaced(JoeNodes(word)[3], In(Definitions));
  }
}
