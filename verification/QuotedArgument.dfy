/**
 The author in an entry's item: a word in double quotes, which the interpreter of the checker substitutes.

 The generator writes a backslash before each double quote of the author, and nothing else is protected. So a
 bracket in an author runs a script, a dollar sign reads a variable, and a backslash changes what follows it. A
 backslash at the end of the author takes the closing quote of the word, which then goes on in the lines after it.
 */
module QuotedArgument {
  import opened ChangeLog
  import Machines
  import opened ManpageState
  import opened Outcomes
  import opened TclText

  const QUOTE := '\"'
  const BACKSLASH := '\\'
  const LBRACKET := '['
  const RBRACKET := ']'
  const DOLLAR := '$'

  /**
   What a bracket or a dollar sign makes of the text after it: nothing, macros that use up some of it, an error, or
   a script or name that does not end in the author.
   */
  datatype Answer = Literal | Ran(length: nat, macros: seq<Macro>) | Failed | Endless

  /**
   The interpreter: the macros a script runs, or None where it fails, as for an unknown command; whether a variable
   is set. Scripts and variables of an intricate form are read by parse.
   */
  datatype Interp = Interp(
    eval: string -> Option<seq<Macro>>, isSet: string -> bool, parse: (char, string) -> Answer)

  /** The string map: a backslash before each double quote, and before each backslash that has one after it already. */
  function Escaped(s: string): string {
    if s == "" then ""
    else if s[0] == QUOTE then [BACKSLASH, QUOTE] + Escaped(s[1..])
    else if s[0] == BACKSLASH && |s| >= 2 && s[1] == QUOTE then [BACKSLASH, BACKSLASH, BACKSLASH, QUOTE] + Escaped(s[2..])
    else [s[0]] + Escaped(s[1..])
  }

  predicate NameChar(c: char) {
    'a' <= c <= 'z' || 'A' <= c <= 'Z' || '0' <= c <= '9' || c == '_'
  }

  function NameEnd(s: string): (k: nat)
    ensures k <= |s|
  {
    if s == "" || !NameChar(s[0]) then 0 else 1 + NameEnd(s[1..])
  }

  /**
   A script without anything that could hide its closing bracket runs up to the first one. Without a bracket the
   closing quote of the word is part of the script.
   */
  function Bracket(ip: Interp, s: string): Answer {
    var k := IndexOf(RBRACKET, s);
    if !PlainChars(if k < 0 then s else s[..k]) then ip.parse(LBRACKET, s)
    else if k < 0 then Endless
    else match ip.eval(s[..k]) case Some(macros) => Ran(k + 1, macros) case None => Failed
  }

  /** A name of letters, digits and underscores is read; without one the dollar sign stands for itself. */
  function Dollar(ip: Interp, s: string): Answer {
    var k := NameEnd(s);
    if k < |s| && s[k] in {':', '(', '{'} then ip.parse(DOLLAR, s)
    else if k == 0 then Literal
    else if ip.isSet(s[..k]) then Ran(k, [])
    else Failed
  }

  /** Where a word ends: before the quote that was meant to close it, at that quote, or in later lines, if at all. */
  datatype End = Before | AtQuote | Beyond

  /** What substitution does: the macros it runs, the characters that it keeps, and where the word ends. */
  datatype Word = Word(macros: seq<Macro>, text: string, end: End)

  function Kept(c: char, w: Word): Word {
    w.(text := [c] + w.text)
  }

  /** An error. Wherever the word ends, nothing after it is evaluated. */
  function Broken(s: string): Word {
    Word([Fault(s)], "", AtQuote)
  }

  const Unended := Word([], "", Beyond)

  /**
   The rest of a word in double quotes, up to its closing quote, which comes after s. A backslash keeps the character
   after it; the control characters that some letters stand for are not told apart.
   */
  function Substituted(ip: Interp, s: string): Word
    decreases |s|
  {
    if s == "" then Word([], "", AtQuote)
    else if s[0] == BACKSLASH then
      if |s| == 1 then Unended else Kept(s[1], Substituted(ip, s[2..]))
    else if s[0] == QUOTE then Early(s[1..])
    else if s[0] != LBRACKET && s[0] != DOLLAR then Kept(s[0], Substituted(ip, s[1..]))
    else
      match if s[0] == LBRACKET then Bracket(ip, s[1..]) else Dollar(ip, s[1..])
      case Literal => Kept(s[0], Substituted(ip, s[1..]))
      case Failed => Broken(s)
      case Endless => Unended
      case Ran(length, macros) =>
        var after := if length < |s| then s[length + 1..] else "";
        var w := Substituted(ip, after);
        w.(macros := macros + w.macros)
  }

  /**
   After a quote that ends the word early: an error, unless a character follows that may stand there. Then more
   words, commands or text follow.
   */
  function Early(s: string): Word {
    if s != "" && MayFollow(s[0]) then Word([], "", Before) else Broken(s)
  }

  predicate MayFollow(c: char) {
    IsSpace(c) || c in {'\U{0B}', '\U{0C}', ';', BACKSLASH, RBRACKET}
  }

  /**
   A text whose reading needs neither parse nor what follows an early quote. Where its word goes on, it does so in
   quotes: at once after a backslash or a finished script, or in a word of the script that the closing quote opened.
   */
  predicate Simple(s: string)
    decreases |s|
  {
    if s == "" then true
    else if s[0] == BACKSLASH then |s| == 1 || Simple(s[2..])
    else if s[0] == QUOTE then false
    else if s[0] == LBRACKET then
      var k := IndexOf(RBRACKET, s[1..]);
      if k < 0 then PlainChars(s[1..]) else PlainChars(s[1..][..k]) && Simple(s[1..][k + 1..])
    else if s[0] == DOLLAR then
      var k := NameEnd(s[1..]);
      (k < |s| - 1 ==> s[1..][k] !in {':', '(', '{'}) && Simple(s[1..])
    else Simple(s[1..])
  }

  /** The author as the item gets it. */
  function Author(ip: Interp, author: string): Word {
    Substituted(ip, Escaped(author))
  }

  predicate PlainAuthor(s: string) {
    LBRACKET !in s && DOLLAR !in s && BACKSLASH !in s
  }

  lemma QuoteKept(ip: Interp, s: string)
    ensures Substituted(ip, [BACKSLASH, QUOTE] + s) == Kept(QUOTE, Substituted(ip, s))
  {
    assert ([BACKSLASH, QUOTE] + s)[2..] == s;
  }

  lemma CharKept(ip: Interp, c: char, s: string)
    requires c != QUOTE && c != LBRACKET && c != DOLLAR && c != BACKSLASH
    ensures Substituted(ip, [c] + s) == Kept(c, Substituted(ip, s))
  {
    assert ([c] + s)[1..] == s;
  }

  /** A plain character, be it a double quote, reaches the item. */
  lemma PlainFirst(ip: Interp, c: char, s: string)
    requires c != LBRACKET && c != DOLLAR && c != BACKSLASH
    ensures Author(ip, [c] + s) == Kept(c, Author(ip, s))
  {
    assert ([c] + s)[1..] == s;
    if c == QUOTE {
      QuoteKept(ip, Escaped(s));
    } else {
      CharKept(ip, c, Escaped(s));
    }
  }

  /** After a plain beginning, what follows in the author is substituted as if it stood alone. */
  lemma {:induction false} PlainFront(ip: Interp, p: string, s: string)
    requires PlainAuthor(p)
    ensures Author(ip, p + s) == Author(ip, s).(text := p + Author(ip, s).text)
  {
    if p == "" {
      assert p + s == s && p + Author(ip, s).text == Author(ip, s).text;
    } else {
      var c, rest := p[0], p[1..];
      assert p == [c] + rest && c in p;
      PlainFront(ip, rest, s);
      PlainFirst(ip, c, rest + s);
      Machines.Regroup([c], rest, s);
      Machines.Regroup([c], rest, Author(ip, s).text);
    }
  }

  /** Without brackets, dollar signs and backslashes the item gets the author as it is, double quotes included. */
  lemma PlainAuthorKept(ip: Interp, s: string)
    requires PlainAuthor(s)
    ensures Author(ip, s) == Word([], s, AtQuote)
  {
    PlainFront(ip, s, "");
    assert s + "" == s;
  }

  // Authors that no item takes

  predicate Faulty(w: Word) {
    w.end.AtQuote? && exists m :: m in w.macros && m.Fault?
  }

  lemma {:induction false} EscapedPlain(s: string)
    requires QUOTE !in s
    ensures Escaped(s) == s
  {
    if s != "" {
      EscapedPlain(s[1..]);
      assert s == [s[0]] + s[1..];
      assert |s| >= 2 ==> s[1] in s;
    }
  }

  lemma {:induction false} EscapedFront(p: string, s: string)
    requires QUOTE !in p && s != "" && s[0] != QUOTE
    ensures Escaped(p + s) == p + Escaped(s)
  {
    if p == "" {
      assert p + s == s;
    } else {
      var c, rest := p[0], p[1..];
      NoQuoteFirst(p, s);
      EscapedFront(rest, s);
      EscapedCons(c, rest + s);
      Machines.Regroup([c], rest, s);
      Machines.Regroup([c], rest, Escaped(s));
      assert p == [c] + rest;
    }
  }

  lemma NoQuoteFirst(p: string, s: string)
    requires QUOTE !in p && p != "" && s != "" && s[0] != QUOTE
    ensures p[0] != QUOTE && QUOTE !in p[1..] && (p[1..] + s)[0] != QUOTE
  {
    assert p[0] in p;
    assert |p| > 1 ==> p[1] in p;
  }

  lemma EscapedCons(c: char, s: string)
    requires c != QUOTE && (c != BACKSLASH || s == "" || s[0] != QUOTE)
    ensures Escaped([c] + s) == [c] + Escaped(s)
  {
    assert ([c] + s)[1..] == s;
  }

  lemma {:induction false} IndexOfFirst(c: char, w: string, s: string)
    requires c !in w
    ensures IndexOf(c, w + [c] + s) == |w|
  {
    var all := w + [c] + s;
    if w != "" {
      IndexOfFirst(c, w[1..], s);
      assert w == [w[0]] + w[1..] && all[1..] == w[1..] + [c] + s;
    }
  }

  /** A script in brackets that fails, as an unknown command does. */
  lemma BracketFails(ip: Interp, p: string, w: string, s: string)
    requires PlainAuthor(p) && PlainChars(w) && ip.eval(w) == None
    ensures Faulty(Author(ip, p + ([LBRACKET] + w + [RBRACKET] + s)))
  {
    var script := [LBRACKET] + w + [RBRACKET];
    PlainFront(ip, p, script + s);
    ScriptEscaped(script, s);
    BracketRead(ip, w, Escaped(s));
    assert Author(ip, p + (script + s)).macros[0].Fault?;
  }

  lemma BracketRead(ip: Interp, w: string, tail: string)
    requires PlainChars(w) && ip.eval(w) == None
    ensures Substituted(ip, [LBRACKET] + w + [RBRACKET] + tail) == Broken([LBRACKET] + w + [RBRACKET] + tail)
  {
    var all := [LBRACKET] + w + [RBRACKET] + tail;
    assert all[1..] == w + [RBRACKET] + tail;
    assert RBRACKET !in w by {
      assert forall i :: 0 <= i < |w| ==> w[i] != RBRACKET;
    }
    IndexOfFirst(RBRACKET, w, tail);
    assert (w + [RBRACKET] + tail)[..|w|] == w;
    assert Bracket(ip, all[1..]) == Failed;
  }

  /** Escaping after a script in brackets leaves the script as it is. */
  lemma ScriptEscaped(script: string, s: string)
    requires script != "" && QUOTE !in script && script[|script| - 1] != BACKSLASH
    ensures Escaped(script + s) == script + Escaped(s)
  {
    var init, c := script[..|script| - 1], script[|script| - 1];
    assert script == init + [c] && c in script;
    EscapedFront(init, [c] + s);
    EscapedCons(c, s);
    Machines.Regroup(init, [c], s);
    Machines.Regroup(init, [c], Escaped(s));
  }

  /** A variable that is not set. */
  lemma UnsetFails(ip: Interp, p: string, name: string)
    requires PlainAuthor(p) && VariableName(name) && !ip.isSet(name)
    ensures Faulty(Author(ip, p + ([DOLLAR] + name)))
  {
    var s := [DOLLAR] + name;
    PlainFront(ip, p, s);
    EscapedPlain(s);
    NameEndAll(name);
    assert s[1..] == name && name[..|name|] == name;
    assert Author(ip, s).macros[0].Fault?;
  }

  lemma {:induction false} NameEndAll(name: string)
    requires forall i :: 0 <= i < |name| ==> NameChar(name[i])
    ensures NameEnd(name) == |name|
  {
    if name != "" {
      NameEndAll(name[1..]);
    }
  }

  /** A backslash at the end takes the closing quote of the word. */
  lemma BackslashGoesOn(ip: Interp, p: string)
    requires PlainAuthor(p)
    ensures Author(ip, p + [BACKSLASH]) == Word([], p, Beyond) && Simple(Escaped(p + [BACKSLASH]))
  {
    assert Escaped([BACKSLASH]) == [BACKSLASH];
    PlainFront(ip, p, [BACKSLASH]);
    assert p + "" == p;
    SimpleFront(p, [BACKSLASH]);
  }

  /** So does a bracket that is not closed. */
  lemma BracketGoesOn(ip: Interp, p: string, w: string)
    requires PlainAuthor(p) && PlainChars(w)
    ensures Author(ip, p + ([LBRACKET] + w)) == Word([], p, Beyond) && Simple(Escaped(p + ([LBRACKET] + w)))
  {
    var s := [LBRACKET] + w;
    assert QUOTE !in s && RBRACKET !in w by {
      assert forall i :: 0 <= i < |w| ==> w[i] != QUOTE && w[i] != RBRACKET;
    }
    EscapedPlain(s);
    assert s[1..] == w;
    PlainFront(ip, p, s);
    assert p + "" == p;
    SimpleFront(p, s);
  }

  lemma {:induction false} SimpleFront(p: string, s: string)
    requires PlainAuthor(p) && Simple(Escaped(s))
    ensures Simple(Escaped(p + s))
  {
    if p == "" {
      assert p + s == s;
    } else {
      var c, rest := p[0], p[1..];
      assert p == [c] + rest && c in p;
      SimpleFront(rest, s);
      Machines.Regroup([c], rest, s);
      SimpleFirst(c, rest + s);
    }
  }

  lemma SimpleFirst(c: char, s: string)
    requires c != LBRACKET && c != DOLLAR && c != BACKSLASH && Simple(Escaped(s))
    ensures Simple(Escaped([c] + s))
  {
    assert ([c] + s)[1..] == s;
    if c == QUOTE {
      assert ([BACKSLASH, QUOTE] + Escaped(s))[2..] == Escaped(s);
    } else {
      assert ([c] + Escaped(s))[1..] == Escaped(s);
    }
  }

  predicate SameReading(ip: Interp, parse: (char, string) -> Answer, s: string) {
    Substituted(ip.(parse := parse), s) == Substituted(ip, s) && !Substituted(ip, s).end.Before?
  }

  /** A simple text means the same however intricate scripts and names are read, and does not end early. */
  lemma {:induction false} SimpleReading(ip: Interp, parse: (char, string) -> Answer, s: string)
    requires Simple(s)
    ensures SameReading(ip, parse, s)
    decreases |s|
  {
    if s == "" || s == [BACKSLASH] {
    } else if s[0] == BACKSLASH {
      SimpleReading(ip, parse, s[2..]);
    } else if s[0] == LBRACKET {
      var k := IndexOf(RBRACKET, s[1..]);
      if k >= 0 {
        SimpleReading(ip, parse, s[1..][k + 1..]);
      }
      ScriptReading(ip, parse, s);
    } else {
      SimpleReading(ip, parse, s[1..]);
      if s[0] == DOLLAR {
        var k := NameEnd(s[1..]);
        SimpleAfterName(s[1..], k);
        SimpleReading(ip, parse, s[1..][k..]);
        NameReading(ip, parse, s);
      }
    }
  }

  lemma ScriptReading(ip: Interp, parse: (char, string) -> Answer, s: string)
    requires s != "" && s[0] == LBRACKET && Simple(s)
    requires var k := IndexOf(RBRACKET, s[1..]);
               k >= 0 ==> SameReading(ip, parse, s[1..][k + 1..])
    ensures SameReading(ip, parse, s)
  {
    var k := IndexOf(RBRACKET, s[1..]);
    assert Bracket(ip.(parse := parse), s[1..]) == Bracket(ip, s[1..]);
    if k >= 0 {
      assert s[1..][k + 1..] == s[k + 2..];
    }
  }

  lemma NameReading(ip: Interp, parse: (char, string) -> Answer, s: string)
    requires s != "" && s[0] == DOLLAR && Simple(s)
    requires SameReading(ip, parse, s[1..]) && SameReading(ip, parse, s[1..][NameEnd(s[1..])..])
    ensures SameReading(ip, parse, s)
  {
    var k := NameEnd(s[1..]);
    NameAnswer(ip, s[1..]);
    NameAnswer(ip.(parse := parse), s[1..]);
    AnswerRead(ip, s);
    AnswerRead(ip.(parse := parse), s);
    assert s[1..][k..] == s[k + 1..];
  }

  /** What a dollar sign makes of a simple text after it. */
  lemma NameAnswer(ip: Interp, s: string)
    requires NameEnd(s) < |s| ==> s[NameEnd(s)] !in {':', '(', '{'}
    ensures var k := NameEnd(s);
            Dollar(ip, s) == if k == 0 then Literal else if ip.isSet(s[..k]) then Ran(k, []) else Failed
  {
  }

  /** How the word goes on after a dollar sign. */
  lemma AnswerRead(ip: Interp, s: string)
    requires s != "" && s[0] == DOLLAR
    requires match Dollar(ip, s[1..])
             case Literal => true
             case Ran(k, macros) => k < |s| && macros == []
             case Failed => true
             case Endless => false
    ensures Substituted(ip, s)
         == match Dollar(ip, s[1..])
            case Literal => Kept(DOLLAR, Substituted(ip, s[1..]))
            case Ran(k, _) => Substituted(ip, s[k + 1..])
            case _ => Broken(s)
  {
  }

  lemma {:induction false} SimpleAfterName(s: string, k: nat)
    requires Simple(s) && k <= NameEnd(s)
    ensures Simple(s[k..])
  {
    if k > 0 {
      SimpleAfterName(s[1..], k - 1);
      assert s[1..][k - 1..] == s[k..];
    } else {
      assert s[0..] == s;
    }
  }

  /** Two backslashes and a double quote: escaping makes them four and a quote that ends the word. */
  lemma TwoBackslashesFail(ip: Interp, p: string)
    requires PlainAuthor(p)
    ensures Faulty(Author(ip, p + [BACKSLASH, BACKSLASH, QUOTE]))
  {
    var s := [BACKSLASH, BACKSLASH, QUOTE];
    PlainFront(ip, p, s);
    assert s[1..] == [BACKSLASH, QUOTE] && [BACKSLASH, QUOTE][2..] == [];
    assert Escaped([BACKSLASH, QUOTE]) == [BACKSLASH, BACKSLASH, BACKSLASH, QUOTE];
    var e := [BACKSLASH, BACKSLASH, BACKSLASH, BACKSLASH, QUOTE];
    assert Escaped(s) == e;
    assert e[2..] == [BACKSLASH, BACKSLASH, QUOTE] && e[2..][2..] == [QUOTE] && [QUOTE][1..] == "";
    assert Substituted(ip, [QUOTE]) == Broken("");
    assert Substituted(ip, e[2..]) == Kept(BACKSLASH, Substituted(ip, [QUOTE]));
    assert Substituted(ip, e) == Kept(BACKSLASH, Substituted(ip, e[2..]));
    assert Author(ip, s).macros[0].Fault?;
  }

  // What authors run and read

  /** A script in brackets that the interpreter runs: its macros come before those of what follows. */
  lemma BracketRuns(ip: Interp, p: string, w: string, s: string, macros: seq<Macro>)
    requires PlainAuthor(p) && PlainChars(w) && ip.eval(w) == Some(macros)
    ensures var rest := Author(ip, s);
            Author(ip, p + ([LBRACKET] + w + [RBRACKET] + s)) == Word(macros + rest.macros, p + rest.text, rest.end)
  {
    var script := [LBRACKET] + w + [RBRACKET];
    PlainFront(ip, p, script + s);
    ScriptEscaped(script, s);
    ScriptRun(ip, w, Escaped(s), macros);
  }

  lemma ScriptRun(ip: Interp, w: string, tail: string, macros: seq<Macro>)
    requires PlainChars(w) && ip.eval(w) == Some(macros)
    ensures var rest := Substituted(ip, tail);
            Substituted(ip, [LBRACKET] + w + [RBRACKET] + tail) == rest.(macros := macros + rest.macros)
  {
    var all := [LBRACKET] + w + [RBRACKET] + tail;
    assert all[1..] == w + [RBRACKET] + tail;
    assert RBRACKET !in w by {
      assert forall i :: 0 <= i < |w| ==> w[i] != RBRACKET;
    }
    IndexOfFirst(RBRACKET, w, tail);
    assert (w + [RBRACKET] + tail)[..|w|] == w;
    assert Bracket(ip, all[1..]) == Ran(|w| + 1, macros);
    assert all[|w| + 2..] == tail;
  }

  predicate LetterOrDigit(c: char) {
    c == '_' || '0' <= c <= '9' || 'A' <= c <= 'Z' || 'a' <= c <= 'z'
  }

  predicate VariableName(name: string) {
    name != "" && forall i :: 0 <= i < |name| ==> LetterOrDigit(name[i])
  }

  /** No part of a variable's name, and nothing that would make it another one. */
  predicate AfterName(s: string) {
    s == "" || (!LetterOrDigit(s[0]) && s[0] != ':' && s[0] != '(' && s[0] != '{')
  }

  /** The name of a variable that is set is read up to the first character that cannot belong to it. */
  lemma VariableRead(ip: Interp, p: string, name: string, s: string)
    requires PlainAuthor(p) && VariableName(name) && ip.isSet(name)
    requires AfterName(s)
    ensures Author(ip, p + ([DOLLAR] + name + s)) == Author(ip, s).(text := p + Author(ip, s).text)
  {
    var script := [DOLLAR] + name;
    PlainFront(ip, p, script + s);
    ScriptEscaped(script, s);
    NameTaken(ip, name, Escaped(s));
  }

  lemma NameTaken(ip: Interp, name: string, tail: string)
    requires VariableName(name) && ip.isSet(name) && AfterName(tail)
    ensures Substituted(ip, [DOLLAR] + name + tail) == Substituted(ip, tail)
  {
    var all := [DOLLAR] + name + tail;
    assert all[1..] == name + tail;
    NameEndIs(name, tail);
    assert (name + tail)[..|name|] == name;
    assert Dollar(ip, all[1..]) == Ran(|name|, []);
    assert all[|name| + 1..] == tail;
  }

  lemma {:induction false} NameEndIs(name: string, tail: string)
    requires (forall i :: 0 <= i < |name| ==> NameChar(name[i])) && (tail == "" || !NameChar(tail[0]))
    ensures NameEnd(name + tail) == |name|
  {
    if name == "" {
      assert name + tail == tail;
    } else {
      NameEndIs(name[1..], tail);
      assert (name + tail)[1..] == name[1..] + tail;
    }
  }

  /** A double quote with a backslash before it is escaped together with the backslash, and both are kept. */
  lemma EscapedQuoteKept(ip: Interp, p: string, s: string)
    requires PlainAuthor(p)
    ensures Author(ip, p + ([BACKSLASH, QUOTE] + s))
         == Author(ip, s).(text := p + ([BACKSLASH, QUOTE] + Author(ip, s).text))
  {
    PlainFront(ip, p, [BACKSLASH, QUOTE] + s);
    EscapedPair(s);
    BackslashKept(ip, [BACKSLASH, QUOTE] + Escaped(s));
    QuoteKept(ip, Escaped(s));
    PairInFront(Author(ip, s).text);
  }

  lemma EscapedPair(s: string)
    ensures Escaped([BACKSLASH, QUOTE] + s) == [BACKSLASH, BACKSLASH] + ([BACKSLASH, QUOTE] + Escaped(s))
  {
    assert ([BACKSLASH, QUOTE] + s)[2..] == s;
  }

  lemma BackslashKept(ip: Interp, s: string)
    ensures Substituted(ip, [BACKSLASH, BACKSLASH] + s) == Kept(BACKSLASH, Substituted(ip, s))
  {
    assert ([BACKSLASH, BACKSLASH] + s)[2..] == s;
  }

  lemma PairInFront(s: string)
    ensures [BACKSLASH] + ([QUOTE] + s) == [BACKSLASH, QUOTE] + s
  {
  }

  /**
   Two backslashes and a double quote end the word. What follows must be able to stand there: white space, a semicolon,
   a backslash or a closing bracket begin something else, and anything else is an error.
   */
  lemma EarlyEnd(ip: Interp, p: string, c: char, s: string)
    requires PlainAuthor(p) && c != QUOTE && c != BACKSLASH
    ensures var word := Author(ip, p + ([BACKSLASH, BACKSLASH, QUOTE] + ([c] + s)));
            if c in " \t\n\r\U{0B}\U{0C};]" then word == Word([], p + [BACKSLASH, BACKSLASH], Before)
            else word.end == AtQuote && Faulty(word)
  {
    var tail := [c] + s;
    var all := [BACKSLASH, BACKSLASH, QUOTE] + tail;
    PlainFront(ip, p, all);
    assert all == [BACKSLASH] + ([BACKSLASH, QUOTE] + tail);
    EscapedTwo(tail);
    BackslashKept(ip, [BACKSLASH, BACKSLASH] + ([QUOTE] + Escaped(tail)));
    BackslashKept(ip, [QUOTE] + Escaped(tail));
    QuoteEnds(ip, c, s);
    assert [BACKSLASH] + ([BACKSLASH] + "") == [BACKSLASH, BACKSLASH];
  }

  lemma EscapedTwo(s: string)
    ensures Escaped([BACKSLASH, BACKSLASH, QUOTE] + s)
         == [BACKSLASH, BACKSLASH] + ([BACKSLASH, BACKSLASH] + ([QUOTE] + Escaped(s)))
  {
    var all := [BACKSLASH, BACKSLASH, QUOTE] + s;
    assert all[1..] == [BACKSLASH, QUOTE] + s;
    EscapedPair(s);
    assert Escaped(all) == [BACKSLASH] + Escaped([BACKSLASH, QUOTE] + s);
  }

  lemma QuoteEnds(ip: Interp, c: char, s: string)
    requires c != QUOTE && c != BACKSLASH
    ensures var word := Substituted(ip, [QUOTE] + Escaped([c] + s));
            if c in " \t\n\r\U{0B}\U{0C};]" then word == Word([], "", Before)
            else word.end == AtQuote && word.text == "" && Faulty(word)
  {
    EscapedCons(c, s);
    var e := Escaped([c] + s);
    assert ([QUOTE] + e)[1..] == e && e[0] == c;
    if !MayFollow(c) {
      assert Substituted(ip, [QUOTE] + e).macros[0].Fault?;
    }
  }
}
