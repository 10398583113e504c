/**
 What the lines inside an entry of a ChangeLog give: the file of an item, the details in parentheses after its name,
 and its text.
 */
module ItemLines {
  import opened ChangeLog
  import opened Outcomes
  import opened TclText

  /** No colon with a blank or tab after it. */
  predicate NoMark(s: string) {
    forall i :: 0 <= i < |s| - 1 && s[i] == ':' ==> s[i + 1] != ' ' && s[i + 1] != '\t'
  }

  /** How a line inside an entry starts. */
  predicate Margin(w: string) {
    w != "" && AllSpace(w) && (w[0] == ' ' || w[0] == '\t')
  }

  /** A file name without parentheses and outer blanks. */
  predicate Name(f: string) {
    f != "" && '(' !in f && !IsSpace(f[0]) && !IsSpace(f[|f| - 1])
  }

  /** Details after a file name, each in parentheses. */
  function Details(ds: seq<string>): string {
    if ds == [] then "" else " (" + ds[0] + ")" + Details(ds[1..])
  }

  predicate Closed(ds: seq<string>) {
    forall i :: 0 <= i < |ds| ==> ')' !in ds[i]
  }

  // The colon after the name

  lemma {:induction false} MarkFound(line: string, k: nat, c: nat)
    requires c < k <= |line| && c + 1 < |line| && line[c] == ':' && (line[c + 1] == ' ' || line[c + 1] == '\t')
    requires NoMark(line[c + 1..])
    ensures LastColon(line, k) == c
  {
    if c < k - 1 {
      assert line[c + 1..][k - 1 - (c + 1)] == line[k - 1];
      assert k < |line| ==> line[c + 1..][k - (c + 1)] == line[k];
      MarkFound(line, k - 1, c);
    }
  }

  lemma {:induction false} MarkMissing(line: string, k: nat)
    requires k <= |line| && NoMark(line)
    ensures LastColon(line, k) == -1
  {
    if k > 0 {
      MarkMissing(line, k - 1);
    }
  }

  lemma NamedParts(name: string, text: string)
    requires name != "" && NoMark(text)
    ensures var line := "* " + name + ": " + text; IsItem(line) && ItemParts(line) == (name, text)
  {
    var line := "* " + name + ": " + text;
    var c := 2 + |name|;
    assert line[c + 1..] == " " + text;
    assert line[c] == ':' && line[c + 1] == ' ';
    MarkFound(line, |line|, c);
    assert line[2..c] == name && line[c + 2..] == text;
  }

  lemma BareParts(name: string)
    requires name != "" && NoMark(name)
    ensures var line := "* " + name + ":"; IsItem(line) && ItemParts(line) == (name, "")
  {
    var line := "* " + name + ":";
    MarkMissing(line, |line|);
    assert line[2..|line| - 1] == name && line[|line| - 1] == ':';
  }

  lemma NamelessParts(text: string)
    requires text != "" && NoMark(text) && text[|text| - 1] != ':'
    ensures var line := "* " + text; IsItem(line) && ItemParts(line) == ("", text)
  {
    var line := "* " + text;
    MarkMissing(line, |line|);
    assert line[2..] == text && line[|line| - 1] == text[|text| - 1];
  }

  // Trimmed lines

  lemma MarginOff(w: string, s: string)
    requires Margin(w) && s != "" && !IsSpace(s[0])
    ensures !IsHeader(w + s) && Trim(w + s) == TrimRight(s) && TrimRight(s) != "" && TrimRight(s)[0] == s[0]
  {
    TrimAfter(w, s);
    assert (w + s)[0] == w[0];
    TrimRightSplits(s);
  }

  /** An item line without its margin and the blanks after its text. */
  lemma ItemTrimmed(w: string, name: string, text: string)
    requires Margin(w) && name != ""
    ensures !IsHeader(w + ("* " + name + ": " + text))
    ensures Trim(w + ("* " + name + ": " + text))
         == if AllSpace(text) then "* " + name + ":" else "* " + name + ": " + TrimRight(text)
  {
    var head := "* " + name + ":";
    assert "* " + name + ": " + text == head + (" " + text);
    MarginOff(w, head + (" " + text));
    if AllSpace(text) {
      TrimRightOf(head, " " + text);
      assert !IsSpace(head[|head| - 1]);
    } else {
      assert head + (" " + text) == head + " " + text;
      TrimRightStops(head + " ", text);
      assert head + " " == "* " + name + ": ";
    }
  }

  // Details

  lemma DetailsEnd(ds: seq<string>)
    requires ds != []
    ensures Details(ds) != "" && Details(ds)[|Details(ds)| - 1] == ')'
  {
    if |ds| > 1 {
      DetailsEnd(ds[1..]);
    } else {
      assert Details(ds[1..]) == "";
    }
  }

  /** A detail in parentheses is cut out of a name. */
  lemma DetailCut(f: string, d: string, rest: string)
    requires '(' !in f && ')' !in d
    ensures '(' in f + " (" + d + ")" + rest
    ensures CutParen(f + " (" + d + ")" + rest) == (f + " " + rest, "(" + d + ")")
  {
    var name := f + " (" + d + ")" + rest;
    var p := |f| + 1;
    assert name[p] == '(' && name[..p] == f + " ";
    FirstAt('(', name, p);
    var tail := name[p..];
    assert tail == "(" + d + ")" + rest;
    assert tail[|d| + 1] == ')' && tail[..|d| + 1] == "(" + d;
    FirstAt(')', tail, |d| + 1);
    var q := |d| + 1;
    assert name[p..p + q + 1] == tail[..q + 1] == "(" + d + ")";
    assert name[p + q + 1..] == rest;
  }

  lemma FirstAt(c: char, s: string, k: nat)
    requires k < |s| && s[k] == c && c !in s[..k]
    ensures IndexOf(c, s) == k
  {
    assert s[..k + 1][k] == c && c in s;
    var i := IndexOf(c, s);
    assert forall j :: 0 <= j < k ==> s[..k][j] == s[j];
    assert forall j :: 0 <= j < i ==> s[..i][j] == s[j];
  }

  /** Cutting out all details leaves the name, and the details in their order. */
  lemma {:induction false} DetailsCut(f: string, w: string, ds: seq<string>, detail: string)
    requires Name(f) && AllSpace(w) && Closed(ds)
    ensures Unparen(if ds == [] then f else f + w + Details(ds), detail) == (f, detail + Details(ds))
    decreases |ds|
  {
    if ds == [] {
      NothingCut(f, detail);
    } else {
      var rest := Details(ds[1..]);
      DetailStep(f, w, ds[0], rest, detail);
      CutTrimmed(f, w + " ", ds[1..]);
      DetailsCut(f, w + " ", ds[1..], detail + (" (" + ds[0] + ")"));
      Joined(detail, " (" + ds[0] + ")", rest);
    }
  }

  lemma NothingCut(f: string, detail: string)
    requires '(' !in f
    ensures Unparen(f, detail) == (f, detail) && detail + Details([]) == detail
  {
  }

  lemma Joined(a: string, b: string, c: string)
    ensures a + (b + c) == a + b + c
  {
  }

  lemma DetailStep(f: string, w: string, d: string, rest: string, detail: string)
    requires Name(f) && AllSpace(w) && ')' !in d
    ensures Unparen(f + w + (" (" + d + ")" + rest), detail)
         == Unparen(Trim(f + (w + " ") + rest), detail + (" (" + d + ")"))
  {
    DetailShape(f, w, d, rest);
    UnparenStep(f + w + (" (" + d + ")" + rest), f + (w + " ") + rest, "(" + d + ")", detail);
    assert detail + [' '] + ("(" + d + ")") == detail + (" (" + d + ")");
  }

  lemma DetailShape(f: string, w: string, d: string, rest: string)
    requires Name(f) && AllSpace(w) && ')' !in d
    ensures var name := f + w + (" (" + d + ")" + rest);
            '(' in name && CutParen(name) == (f + (w + " ") + rest, "(" + d + ")")
  {
    NoParen(w);
    DetailCut(f + w, d, rest);
    FourParts(f + w, " (", d, ")", rest);
    Joined(f, w, " ");
  }

  lemma NoParen(w: string)
    requires AllSpace(w)
    ensures '(' !in w
  {
    assert forall i :: 0 <= i < |w| ==> w[i] != '(';
  }

  lemma FourParts(a: string, b: string, c: string, d: string, e: string)
    ensures a + (b + c + d + e) == a + b + c + d + e
  {
  }

  lemma UnparenStep(name: string, a: string, b: string, detail: string)
    requires '(' in name && CutParen(name) == (a, b)
    ensures Unparen(name, detail) == Unparen(Trim(a), detail + [' '] + b)
  {
  }

  lemma CutTrimmed(f: string, w: string, ds: seq<string>)
    requires Name(f) && AllSpace(w)
    ensures Trim(f + w + Details(ds)) == if ds == [] then f else f + w + Details(ds)
  {
    var name := f + w + Details(ds);
    if ds == [] {
      assert name == "" + f + w;
      TrimOf("", f, w);
      TrimFixed(f);
    } else {
      DetailsEnd(ds);
      assert name[0] == f[0] && name[|name| - 1] == ')';
      TrimFixed(name);
    }
  }

  // Lines

  /** The text of an item with details. */
  function TextOf(ds: seq<string>, text: string): string {
    if ds == [] then text else Details(ds) + " " + text
  }

  lemma ItemFed(v: Vars, raw: string, line: string, name: string, text: string)
    requires !IsHeader(raw) && Trim(raw) == line && IsItem(line) && ItemParts(line) == (name, text)
    ensures var cut := Unparen(name, "");
            Feed(v, raw) == v.(files := if cut.0 == "" then v.files else v.files + [cut.0],
                               comment := v.comment + (if cut.1 == "" then text else cut.1 + [' '] + text) + ['\n'])
  {
  }

  lemma MarkStays(text: string)
    requires NoMark(text)
    ensures NoMark(TrimRight(text)) && (TrimRight(text) == "" <==> AllSpace(text))
  {
    TrimRightSplits(text);
    assert TrimRight(text) == text[..|TrimRight(text)|];
  }

  /** The line of an item, trimmed, and its parts. */
  lemma ItemRead(w: string, name: string, text: string)
    requires Margin(w) && name != "" && NoMark(text) && (AllSpace(text) ==> NoMark(name))
    ensures var raw := w + ("* " + name + ": " + text);
            !IsHeader(raw) && IsItem(Trim(raw)) && ItemParts(Trim(raw)) == (name, TrimRight(text))
  {
    ItemTrimmed(w, name, text);
    MarkStays(text);
    if AllSpace(text) {
      BareParts(name);
    } else {
      NamedParts(name, TrimRight(text));
    }
  }

  /**
   An item with a file: the name, any details in parentheses, a colon and the text. The file joins those of the
   section, and the details and the text its comment.
   */
  lemma NamedItem(v: Vars, w: string, f: string, ds: seq<string>, text: string)
    requires Margin(w) && Name(f) && Closed(ds) && NoMark(text) && (AllSpace(text) ==> NoMark(f + Details(ds)))
    ensures Feed(v, w + ("* " + (f + Details(ds)) + ": " + text))
         == v.(files := v.files + [f], comment := v.comment + TextOf(ds, TrimRight(text)) + ['\n'])
  {
    var name := f + Details(ds);
    var raw := w + ("* " + name + ": " + text);
    ItemRead(w, name, text);
    ItemFed(v, raw, Trim(raw), name, TrimRight(text));
    NameCut(f, ds);
    if ds != [] {
      DetailsEnd(ds);
    }
  }

  lemma NameCut(f: string, ds: seq<string>)
    requires Name(f) && Closed(ds)
    ensures Unparen(f + Details(ds), "") == (f, Details(ds))
  {
    DetailsCut(f, "", ds, "");
    assert f + "" == f && "" + Details(ds) == Details(ds) && f + [] == f;
  }

  /** A parenthesis that is not closed takes the rest of the name. */
  lemma OpenDetail(v: Vars, w: string, f: string, d: string, text: string)
    requires Margin(w) && Name(f) && ')' !in d && NoMark(text) && !AllSpace(text)
    ensures Feed(v, w + ("* " + (f + " (" + d) + ": " + text))
         == v.(files := v.files + [f], comment := v.comment + (" (" + d + " " + TrimRight(text)) + ['\n'])
  {
    var name := f + " (" + d;
    var raw := w + ("* " + name + ": " + text);
    ItemRead(w, name, text);
    ItemFed(v, raw, Trim(raw), name, TrimRight(text));
    OpenCut(f, d);
    assert " (" + d + [' '] + TrimRight(text) == " (" + d + " " + TrimRight(text);
  }

  lemma OpenCut(f: string, d: string)
    requires Name(f) && ')' !in d
    ensures Unparen(f + " (" + d, "") == (f, " (" + d)
  {
    OpenShape(f, d);
    OneCut(f + " (" + d, f, "(" + d);
    OpenText(d);
  }

  lemma OpenText(d: string)
    ensures [' '] + ("(" + d) == " (" + d
  {
  }

  /** A name with one parenthesis in it. */
  lemma OneCut(name: string, f: string, b: string)
    requires Name(f) && '(' in name && CutParen(name) == (f + [' '], b)
    ensures Unparen(name, "") == (f, [' '] + b)
  {
    UnparenStep(name, f + [' '], b, "");
    NameTrimmed(f, [' ']);
    NothingCut(f, "" + [' '] + b);
    assert "" + [' '] + b == [' '] + b;
  }

  lemma NameTrimmed(f: string, w: string)
    requires Name(f) && AllSpace(w)
    ensures Trim(f + w) == f
  {
    assert f + w == "" + f + w;
    TrimOf("", f, w);
    TrimFixed(f);
  }

  lemma OpenShape(f: string, d: string)
    requires Name(f) && ')' !in d
    ensures var name := f + " (" + d; '(' in name && CutParen(name) == (f + " ", "(" + d)
  {
    var name := f + " (" + d;
    assert name[|f| + 1] == '(' && name[..|f| + 1] == f + " ";
    FirstAt('(', name, |f| + 1);
    assert name[|f| + 1..] == "(" + d;
  }

  /** An item without a colon adds its text and no file. */
  lemma NamelessItem(v: Vars, w: string, text: string)
    requires Margin(w) && NoMark(text) && text != "" && !IsSpace(text[|text| - 1]) && text[|text| - 1] != ':'
    ensures Feed(v, w + ("* " + text)) == v.(comment := v.comment + text + ['\n'])
  {
    var line := "* " + text;
    MarginOff(w, line);
    assert line[|line| - 1] == text[|text| - 1];
    NamelessParts(text);
    assert Unparen("", "") == ("", "");
  }

  /** Any other line that is not blank is text. */
  lemma TextLine(v: Vars, w: string, l: string)
    requires Margin(w) && l != "" && !IsSpace(l[0]) && !(l[0] == '*' && (|l| == 1 || l[1] == ' '))
    ensures Feed(v, w + l) == v.(comment := v.comment + TrimRight(l) + ['\n'])
  {
    MarginOff(w, l);
    TrimRightSplits(l);
  }

  /** A blank line ends the section, if one has begun. */
  lemma BlankLine(v: Vars, w: string)
    requires w == "" || Margin(w)
    ensures Feed(v, w)
         == if v.comment == "" && v.files == [] then v
            else v.(clist := v.clist + [Section(v.files, Trim(v.comment))], files := [], comment := "")
  {
    TrimEnds(w);
  }

  // Header lines

  /** Words with single blanks between them. */
  predicate Spaced(a: string) {
    a == "" || (&& !IsSpace(a[0]) && !IsSpace(a[|a| - 1])
                && forall i :: 0 <= i < |a| - 1 && IsSpace(a[i]) ==> a[i] == ' ' && !IsSpace(a[i + 1]))
  }

  lemma {:induction false} WordStops(s: string)
    ensures forall i :: 0 <= i < WordEnd(s) ==> !IsSpace(s[i])
    ensures WordEnd(s) < |s| ==> IsSpace(s[WordEnd(s)])
  {
    if s != "" && !IsSpace(s[0]) {
      WordStops(s[1..]);
    }
  }

  lemma WordsStep(s: string, t: string)
    requires TrimLeft(s) == t && t != ""
    ensures var k := WordEnd(t);
            Words(s) == if Words(t[k..]) == "" then t[..k] else t[..k] + [' '] + Words(t[k..])
  {
  }

  lemma SpacedRest(a: string, k: nat)
    requires Spaced(a) && 0 < k < |a| && IsSpace(a[k])
    ensures k + 1 < |a| && Spaced(a[k + 1..]) && a[k + 1..] != "" && [' '] + a[k + 1..] == a[k..]
    ensures a[..k] + [' '] + a[k + 1..] == a
  {
    var rest := a[k + 1..];
    assert a[k] == ' ' && rest[|rest| - 1] == a[|a| - 1];
  }

  /** The words of such a text come back as they are, whatever blanks come before. */
  lemma {:induction false} WordsOf(gap: string, a: string)
    requires AllSpace(gap) && Spaced(a)
    ensures Words(gap + a) == a
    decreases |a|
  {
    if a == "" {
      NoWords(gap);
    } else {
      WordStops(a);
      FirstWord(gap, a);
      if WordEnd(a) < |a| {
        SpacedRest(a, WordEnd(a));
        WordsOf([' '], a[WordEnd(a) + 1..]);
      }
    }
  }

  lemma NoWords(gap: string)
    requires AllSpace(gap)
    ensures Words(gap + "") == ""
  {
    TrimLeftOf(gap, "");
  }

  lemma FirstWord(gap: string, a: string)
    requires AllSpace(gap) && Spaced(a) && a != ""
    ensures var k := WordEnd(a);
            Words(gap + a) == if k == |a| then a
                              else if Words(a[k..]) == "" then a[..k]
                              else a[..k] + [' '] + Words(a[k..])
  {
    TrimLeftOf(gap, a);
    WordsStep(gap + a, a);
    if WordEnd(a) == |a| {
      assert a[|a|..] == "" && a[..|a|] == a;
      NoWords("");
      assert "" + "" == "";
    }
  }

  /** A header line: the entry before it, if there is one, is done; its date and author are those of the line. */
  lemma HeaderLine(v: Vars, date: string, gap: string, author: string)
    requires date != "" && (forall i :: 0 <= i < |date| ==> !IsSpace(date[i]))
    requires gap != "" && AllSpace(gap) && Spaced(author) && PlainChars(date + gap + author)
    ensures Feed(v, date + gap + author) == Following(v, date, author)
  {
    var line := date + gap + author;
    assert line[0] == date[0];
    assert line == date + (gap + author);
    WordEndIs(date, gap + author);
    assert line[..|date|] == date && line[|date|..] == gap + author;
    WordsOf(gap, author);
  }

  /** A line with characters that mean something in lists, but still a list. */
  lemma ListHeaderLine(v: Vars, line: string, date: string, author: string)
    requires line != "" && line[0] != ' ' && line[0] != '\t'
    requires !PlainChars(line) && v.asList(line) == Some((date, author))
    ensures Feed(v, line) == Following(v, Trim(date), Trim(author))
  {
  }

  /** A line that is no list is taken apart at its first blank. */
  lemma OddHeaderLine(v: Vars, date: string, author: string)
    requires date != "" && ' ' !in date && date[0] != '\t'
    requires !PlainChars(date + " " + author) && v.asList(date + " " + author) == None
    ensures Feed(v, date + " " + author) == Following(v, Trim(date), Trim(author))
  {
    var line := date + " " + author;
    assert line[0] == date[0] && date[0] in date;
    BlankAt(date, author);
    assert line[..|date| + 1] == "" + date + " " && line[|date|..] == " " + author;
    TrimOf("", date, " ");
    assert "" + date == date;
    TrimAfter(" ", author);
  }

  lemma {:induction false} BlankAt(date: string, rest: string)
    requires ' ' !in date
    ensures First(" ", date + " " + rest) == |date|
  {
    var s := date + " " + rest;
    if date == "" {
      assert " " <= s;
    } else {
      BlankAt(date[1..], rest);
      assert s[1..] == date[1..] + " " + rest && s[0] == date[0] && date[0] in date;
    }
  }

  /** The variables at the start of the next entry. */
  function Following(v: Vars, date: string, author: string): Vars {
    var done := if v.comment == "" && v.files == [] then v.clist else v.clist + [Section(v.files, Trim(v.comment))];
    Vars(if v.first then v.entries else v.entries + [Entry(v.date, v.author, done)],
         [], [], "", false, date, author, v.asList)
  }
}
