/**
 The manpage checker: the globals of checker.tcl and the commands that change them.

 Control and Numbers are the two halves of the globals. ManpageState says what a macro does to the
 first, SectionNumbering what a heading does to the second; ManpageGrammar says which documents the
 passes accept.
 */
module ManpageChecker {
  import opened Machines
  import opened ManpageState
  import opened Outcomes
  import opened SectionNumbering

  /** The heading a macro defines, if it does: description counts as a section of its own. */
  function HeadingsOf(m: Macro): seq<SectionNumbering.Heading> {
    match m
    case Description => [SectionNumbering.Heading(SectionRank, "Description", "description")]
    case Section(title, id) => [SectionNumbering.Heading(SectionRank, title, id)]
    case Subsection(title, id) => [SectionNumbering.Heading(SubsectionRank, title, id)]
    case _ => []
  }

  function Headings(doc: seq<Macro>): seq<SectionNumbering.Heading> {
    Collect(HeadingsOf, doc)
  }

  predicate Begun(s: State) {
    s == Body || s == Example || s == Done
  }

  /** The description is the first heading of every document that gets as far as its body. */
  lemma {:induction false} DescriptionFirst(doc: seq<Macro>)
    requires Run(Step, Initial, doc).Success?
    ensures Rooted(Headings(doc))
    ensures Begun(Run(Step, Initial, doc).value.state) <==> Headings(doc) != []
  {
    if doc != [] {
      DescriptionFirst(doc[..|doc| - 1]);
    }
  }

  /** The physical ids the formatter gets in its last pass: those of the last heading with the same logical id. */
  ghost predicate Given(nm: Naming, hs: seq<SectionNumbering.Heading>, passes: nat, given: seq<PhysicalId>)
    requires Rooted(hs)
  {
    && |given| == |hs|
    && forall i :: 0 <= i < |hs| ==> given[i] == if passes == 1 then Counted(hs)[i] else Resolved(nm, hs, i)
  }

  class Checker {
    const nm: Naming
    var state: State
    var lstctx: seq<Context>
    var lstitem: bool
    var pass: nat
    var sect: map<string, PhysicalId>
    var sectt: map<string, string>
    var sectci: Option<string>
    var countersection: nat
    var countersubsection: nat

    function Control(): Config
      reads this
    {
      Config(state, lstctx, lstitem)
    }

    function Now(): Numbers
      reads this
    {
      Numbers(pass, sect, sectt, sectci, countersection, countersubsection)
    }

    /** Every id has a title, and once the body has begun there is a current section. */
    ghost predicate Valid()
      reads this
    {
      Titled(Now()) && (Begun(state) ==> sectci.Some?)
    }

    constructor (nm: Naming)
      ensures this.nm == nm && Valid() && Control() == Initial && sect == map[] && sectt == map[]
    {
      this.nm := nm;
      state, lstctx, lstitem := AtBegin, [], false;
      pass, sect, sectt, sectci, countersection, countersubsection := 1, map[], map[], None, 0, 0;
    }

    method Initialize(p: nat)
      modifies this
      ensures Control() == Initial && Now() == Begin(old(Now()), p)
    {
      state, lstctx, lstitem := AtBegin, [], false;
      if p == 1 {
        sect := map[];
      }
      pass, countersection, countersubsection := p, 0, 0;
    }

    method Complete() returns (r: Outcome)
      ensures r == Completion(Control())
    {
      if state == Done {
        r := if lstctx == [] then Ok else Error(EndOpenList);
      } else if state == Example {
        r := Error(EndOpenExample);
      } else {
        r := Error(EndOpenMp);
      }
    }

    method LPush(kind: ListKind)
      modifies this`lstctx
      ensures lstctx == [Context(kind, lstitem)] + old(lstctx)
    {
      lstctx := [Context(kind, lstitem)] + lstctx;
    }

    method LPop()
      requires lstctx != []
      modifies this`lstctx, this`lstitem
      ensures lstctx == old(lstctx)[1..] && lstitem == old(lstctx)[0].saved
    {
      lstitem := lstctx[0].saved;
      lstctx := lstctx[1..];
    }

    /** Files a heading under its logical id and finds the physical id to hand on. */
    method Sectdef(h: SectionNumbering.Heading) returns (r: Result<PhysicalId>)
      modifies this`sect, this`sectt, this`sectci, this`countersection, this`countersubsection
      ensures match Logical(nm, old(sectci), h)
              case None => r == Failure(MissingKey) && Now() == old(Now())
              case Some(key) =>
                && Now() == Record(old(Now()), h, key)
                && r == if key in sect then Success(sect[key]) else Failure(MissingKey)
    {
      var id := h.id;
      if |id| == 0 {
        if h.rank == SectionRank {
          id := nm.one(h.title);
        } else if sectci.None? {
          return Failure(MissingKey);
        } else {
          id := nm.two(sectci.value, h.title);
        }
      }
      if pass == 1 {
        if h.rank == SectionRank {
          countersection := countersection + 1;
          sect := sect[id := PhysicalId(h.rank, countersection)];
        } else {
          countersubsection := countersubsection + 1;
          sect := sect[id := PhysicalId(h.rank, countersubsection)];
        }
      }
      sectt := sectt[id := h.title];
      if h.rank == SectionRank {
        sectci := Some(id);
      }
      r := if id in sect then Success(sect[id]) else Failure(MissingKey);
    }

    method Headline(h: SectionNumbering.Heading) returns (r: Outcome, given: seq<PhysicalId>)
      requires Titled(Now()) && (h.rank.SectionRank? || sectci.Some?)
      modifies this`sect, this`sectt, this`sectci, this`countersection, this`countersubsection
      ensures match DefineAll(nm, Numbering(old(Now()), []), [h])
              case Success(g) => r == Ok && Now() == g.n && given == g.given
              case Failure(code) => r == Error(code) && given == []
      ensures Titled(Now()) && sectci.Some?
    {
      RunOne((g, h) => Define(nm, g, h), Numbering(Now(), []), h);
      var id := Sectdef(h);
      match id
      case Success(pid) => r, given := Ok, [pid];
      case Failure(code) => r, given := Error(code), [];
    }

    /** The text and the physical id that go to the formatter. No lookup of the command misses. */
    method Reference(id: string, title: string) returns (r: Outcome, text: string, pid: Option<PhysicalId>)
      requires Valid()
      ensures match Step(Control(), Sectref(id, title))
              case Failure(code) => r == Error(code)
              case Success(_) =>
                && r == Ok
                && exists fid :: Target(nm, Now(), id, fid) && Referred(Now(), id, title, fid, text, pid)
    {
      text, pid := "", None;
      if state != Body { return Error(Bodycmd), text, pid; }
      if lstctx != [] && !lstitem { return Error(Nolisthdr), text, pid; }
      var fid: Option<string>;
      if id in sect {
        fid := Some(id);
      } else if nm.one(id) in sect {
        fid := Some(nm.one(id));
      } else {
        var ic := set k | k in sect && nm.tail(id, k);
        if |ic| == 0 {
          fid := None;
        } else if |ic| == 1 {
          var k :| k in ic;
          fid := Some(k);
        } else if nm.two(sectci.value, id) in sect {
          fid := Some(nm.two(sectci.value, id));
        } else {
          var k :| k in ic;
          fid := Some(k);
        }
        assert ic == Candidates(nm, Now(), id);
      }
      pid := match fid case Some(f) => Some(sect[f]) case None => None;
      if title != "" {
        text := title;
      } else {
        text := match fid case Some(f) => sectt[f] case None => id;
      }
      assert Target(nm, Now(), id, fid) && Referred(Now(), id, title, fid, text, pid);
      r := Ok;
    }

    method PlainText(text: string) returns (r: Outcome)
      ensures r == match ManpageState.PlainText(Control(), text) case Success(_) => Ok case Failure(code) => Error(code)
    {
      if Blank(text) { return Ok; }
      if state != Body && state != Example { return Error(BodyOnly); }
      if lstctx != [] && !lstitem { return Error(Nolisttxt); }
      r := Ok;
    }

    /** The macro did to the globals what Step and Define say. */
    ghost predicate Did(c: Config, n: Numbers, m: Macro, r: Outcome, given: seq<PhysicalId>)
      reads this
    {
      match Step(c, m)
      case Failure(code) => r == Error(code) && Control() == c && Now() == n && given == []
      case Success(d) =>
        && Control() == d
        && match DefineAll(nm, Numbering(n, []), HeadingsOf(m))
           case Success(g) => r == Ok && Now() == g.n && given == g.given
           case Failure(code) => r == Error(code) && given == []
    }

    /** The macro did to the control globals what Step says, and nothing to the others. */
    ghost predicate Controlled(c: Config, m: Macro, r: Outcome)
      reads this
    {
      match Step(c, m)
      case Success(d) => r == Ok && Control() == d
      case Failure(code) => r == Error(code) && Control() == c
    }

    method BodyMacro(m: Macro) returns (r: Outcome)
      requires m.Para? || m.ListBegin? || m.ListEnd? || m.Item?
      modifies this`lstctx, this`lstitem
      ensures Controlled(old(Control()), m, r)
    {
      r := Ok;
      if state != Body { return Error(Bodycmd); }
      match m
      case Para =>
        if lstctx != [] && !lstitem { return Error(Nolisthdr); }
      case ListBegin(what) =>
        if lstctx != [] && !lstitem { return Error(Nolisthdr); }
        match ListType(what) {
          case None => return Error(Invalidlist);
          case Some(kind) => LPush(kind);
        }
      case ListEnd =>
        if lstctx == [] { return Error(Listcmd); }
        LPop();
      case Item(item, _) =>
        if lstctx == [] { return Error(Listcmd); }
        if lstctx[0].kind != ItemList(item) { return Error(ItemError(item)); }
        lstitem := true;
    }

    method ExampleMacro(m: Macro) returns (r: Outcome)
      requires m.ExampleBegin? || m.ExampleEnd? || m.CodeExample?
      modifies this`state
      ensures Controlled(old(Control()), m, r)
    {
      if m.ExampleEnd? {
        if state != Example { return Error(Examplecmd); }
        state := Body;
        return Ok;
      }
      if state != Body { return Error(Bodycmd); }
      if lstctx != [] && !lstitem { return Error(Nolisthdr); }
      state := Example;
      r := Ok;
      if m.CodeExample? {
        r := PlainText(m.code);
        state := Body;
      }
    }

    method FrameMacro(m: Macro) returns (r: Outcome)
      requires m.ManpageBegin? || m.HeaderLine? || m.ManpageEnd?
      modifies this`state
      ensures Controlled(old(Control()), m, r)
    {
      r := Ok;
      match m
      case ManpageBegin(_, _, _) =>
        if state != AtBegin { return Error(Mpbegin); }
        state := Header;
      case HeaderLine(_, _) =>
        if state != Header { return Error(Hdrcmd); }
      case ManpageEnd =>
        if state != Body { return Error(Bodycmd); }
        state := Done;
    }

    method TextMacro(m: Macro) returns (r: Outcome)
      requires m.SectrefExternal? || m.Inline? || m.Text? || m.Fault? || m.Unclosed?
      ensures Controlled(Control(), m, r)
    {
      r := Ok;
      match m
      case SectrefExternal(_) =>
        if state != Body { return Error(Bodycmd); }
        if lstctx != [] && !lstitem { return Error(Nolisthdr); }
      case Inline(_, _) =>
        if state == Done { return Error(Nodonecmd); }
      case Text(text) => r := PlainText(text);
      case Fault(_) => r := Error(TclError);
      case Unclosed(_) => r := Error(EndInMacro);
    }

    method HeadingMacro(m: Macro) returns (r: Outcome, given: seq<PhysicalId>)
      requires m.Description? || m.Section? || m.Subsection?
      requires Valid()
      modifies this`state, this`sect, this`sectt, this`sectci, this`countersection, this`countersubsection
      ensures Valid() && Did(old(Control()), old(Now()), m, r, given)
    {
      if m.Description? {
        if state != Header { return Error(Hdrcmd), []; }
        state := Body;
      } else {
        if state != Body { return Error(Bodycmd), []; }
        if lstctx != [] { return Error(Nolistcmd), []; }
      }
      r, given := Headline(HeadingsOf(m)[0]);
    }

    method Expand(m: Macro) returns (r: Outcome, given: seq<PhysicalId>)
      requires Valid()
      modifies this
      ensures Valid() && Did(old(Control()), old(Now()), m, r, given)
    {
      given := [];
      if m.Description? || m.Section? || m.Subsection? {
        r, given := HeadingMacro(m);
        return;
      }
      assert DefineAll(nm, Numbering(Now(), []), HeadingsOf(m)) == Success(Numbering(Now(), []));
      if m.ManpageBegin? || m.HeaderLine? || m.ManpageEnd? {
        r := FrameMacro(m);
      } else if m.Para? || m.ListBegin? || m.ListEnd? || m.Item? {
        r := BodyMacro(m);
      } else if m.ExampleBegin? || m.ExampleEnd? || m.CodeExample? {
        r := ExampleMacro(m);
      } else if m.Sectref? {
        var text, pid;
        r, text, pid := Reference(m.id, m.title);
      } else {
        r := TextMacro(m);
      }
    }

    /** One pass over a document: initialize, expand every macro up to the first error, complete. */
    method RunPass(p: nat, doc: seq<Macro>) returns (r: Outcome, given: seq<PhysicalId>)
      requires p == 1 || Titled(Now())
      modifies this
      ensures Valid()
      ensures r.Ok? <==> Accepts(doc) && Pass(nm, old(Now()), p, Headings(doc)).Success?
      ensures r.Ok? ==> Pass(nm, old(Now()), p, Headings(doc)) == Success(Numbering(Now(), given))
    {
      ghost var n := Now();
      Initialize(p);
      given := [];
      var i := 0;
      while i < |doc|
        invariant 0 <= i <= |doc| && Valid()
        invariant Run(Step, Initial, doc[..i]) == Success(Control())
        invariant Pass(nm, n, p, Headings(doc[..i])) == Success(Numbering(Now(), given))
      {
        ghost var before, ids := Now(), given;
        ControlOnward(doc, i);
        CollectAround(HeadingsOf, doc, i);
        HeadingOnward(nm, n, p, Headings(doc[..i]), HeadingsOf(doc[i]), Headings(doc[i + 1..]), before, ids);
        var more;
        r, more := Expand(doc[i]);
        if r.Error? {
          return;
        }
        assert ids + [] == ids;
        given := given + more;
        i := i + 1;
      }
      assert doc[..i] == doc;
      r := Complete();
    }

    /** All passes of a formatter over a document. */
    method Format(doc: seq<Macro>, passes: nat) returns (r: Outcome, given: seq<PhysicalId>)
      requires passes >= 1
      modifies this
      ensures r.Ok? <==> Accepts(doc)
      ensures r.Ok? ==> Rooted(Headings(doc)) && Given(nm, Headings(doc), passes, given)
    {
      ghost var hs := Headings(doc);
      r, given := RunPass(1, doc);
      if Accepts(doc) {
        DescriptionFirst(doc);
        FirstPass(nm, old(Now()), hs);
      }
      if r.Error? { return; }
      var n := 1;
      while n < passes
        invariant 1 <= n <= passes && Valid() && r.Ok?
        invariant LastWins(sect, Ids(nm, hs), Counted(hs))
        invariant Given(nm, hs, n, given)
      {
        n := n + 1;
        LaterPass(nm, Now(), n, hs);
        r, given := RunPass(n, doc);
      }
    }
  }

  /** The i-th macro of a pass, control: an error ends the run for the whole document. */
  lemma ControlOnward(doc: seq<Macro>, i: nat)
    requires i < |doc| && Run(Step, Initial, doc[..i]).Success?
    ensures Run(Step, Initial, doc[..i + 1]) == Step(Run(Step, Initial, doc[..i]).value, doc[i])
    ensures Step(Run(Step, Initial, doc[..i]).value, doc[i]).Failure? ==> !Accepts(doc)
  {
    assert doc[..i + 1] == doc[..i] + [doc[i]];
    RunSnoc(Step, Initial, doc[..i], doc[i]);
    if Run(Step, Initial, doc[..i + 1]).Failure? {
      RunFails(Step, Initial, doc, i + 1);
    }
  }

  /** The headings of the next macro: they extend the ids given, or a missing key ends the pass for the whole document. */
  lemma HeadingOnward(nm: Naming, n: Numbers, p: nat, hs: seq<SectionNumbering.Heading>,
                      more: seq<SectionNumbering.Heading>, rest: seq<SectionNumbering.Heading>,
                      now: Numbers, given: seq<PhysicalId>)
    requires Pass(nm, n, p, hs) == Success(Numbering(now, given))
    ensures match DefineAll(nm, Numbering(now, []), more)
            case Success(g) => Pass(nm, n, p, hs + more) == Success(Numbering(g.n, given + g.given))
            case Failure(_) => Pass(nm, n, p, hs + more + rest).Failure?
  {
    PassSplits(nm, n, p, hs, more);
    DefineAppends(nm, now, given, more);
    PassSplits(nm, n, p, hs + more, rest);
  }

  // Headings and references in a document

  /** Each macro in a document adds the heading it writes: that of the description, of a section or of a subsection. */
  lemma HeadingAdded(a: seq<Macro>, m: Macro, b: seq<Macro>)
    ensures Headings(a + [m] + b) == Headings(a) + Headings([m]) + Headings(b)
    ensures m.Description? ==> Headings([m]) == [SectionNumbering.Heading(SectionRank, "Description", "description")]
    ensures m.Section? ==> Headings([m]) == [SectionNumbering.Heading(SectionRank, m.title, m.id)]
    ensures m.Subsection? ==> Headings([m]) == [SectionNumbering.Heading(SubsectionRank, m.title, m.id)]
    ensures !m.Description? && !m.Section? && !m.Subsection? ==> Headings([m]) == []
  {
    CollectSplits(HeadingsOf, a + [m], b);
    CollectSplits(HeadingsOf, a, [m]);
    assert [m][..0] == [];
  }


  /** The numbers a document's second pass has before its i-th macro; n are those before its first pass. */
  ghost function SecondPassBefore(nm: Naming, n: Numbers, doc: seq<Macro>, i: nat): Numbers
    requires Accepts(doc) && i <= |doc|
  {
    DescriptionFirst(doc);
    HeadingsBefore(doc, i);
    SecondPassAt(nm, n, Headings(doc), |Headings(doc[..i])|)
  }

  lemma HeadingsBefore(doc: seq<Macro>, i: nat)
    requires i <= |doc|
    ensures |Headings(doc[..i])| <= |Headings(doc)| && Headings(doc)[..|Headings(doc[..i])|] == Headings(doc[..i])
  {
    CollectSplits(HeadingsOf, doc[..i], doc[i..]);
    assert doc[..i] + doc[i..] == doc;
  }

  /** RunPass reaches the i-th macro of the second pass with these numbers. */
  lemma SecondPassReaches(nm: Naming, n: Numbers, doc: seq<Macro>, i: nat)
    requires Accepts(doc) && i <= |doc|
    ensures Pass(nm, n, 1, Headings(doc)).Success?
    ensures var r := Pass(nm, Pass(nm, n, 1, Headings(doc)).value.n, 2, Headings(doc[..i]));
            r.Success? && r.value.n == SecondPassBefore(nm, n, doc, i)
  {
    DescriptionFirst(doc);
    HeadingsBefore(doc, i);
    var hs := Headings(doc);
    FirstPass(nm, n, hs);
    LaterPassUpTo(nm, Pass(nm, n, 1, hs).value.n, 2, hs, |Headings(doc[..i])|);
  }

  /**
   A reference anywhere in an accepted document, by the logical id of a heading of the document: in the second pass
   the formatter gets the physical id that this pass gives to the heading, and the text is the title given with the
   reference or, where ids are unique, that of the heading.
   */
  lemma ReferenceInDocument(nm: Naming, n: Numbers, doc: seq<Macro>, i: nat, j: nat,
                            fid: Option<string>, text: string, pid: Option<PhysicalId>)
    requires Accepts(doc) && i < |doc| && doc[i].Sectref? && j < |Headings(doc)| && Rooted(Headings(doc))
    requires Ids(nm, Headings(doc))[j] == doc[i].id
    requires Target(nm, SecondPassBefore(nm, n, doc, i), doc[i].id, fid)
    requires Referred(SecondPassBefore(nm, n, doc, i), doc[i].id, doc[i].title, fid, text, pid)
    ensures pid == Some(Resolved(nm, Headings(doc), j))
    ensures doc[i].title != "" ==> text == doc[i].title
    ensures doc[i].title == "" && Unique(Ids(nm, Headings(doc))) ==> text == Headings(doc)[j].title
  {
    var hs, k := Headings(doc), |Headings(doc[..i])|;
    HeadingsBefore(doc, i);
    ForwardReferences(nm, n, hs, k, j, fid);
    SecondPassHolds(nm, n, hs, k);
    if Unique(Ids(nm, hs)) {
      ForwardTitles(nm, n, hs, k, j);
    }
  }
}
