/**
 The language of the table-of-contents checker: trees of divisions, nested without bound.

 Partial is a tree under construction. Extend adds one macro to it, and each step of the
 automaton is one Extend; so the automaton accepts exactly the documents that spell a tree.
 */
module TocGrammar {
  import opened Machines
  import opened Outcomes
  import opened TocChecker

  datatype Div = Div(title: string, symfile: string, subs: seq<Div>, items: seq<Entry>)

  /** Either a series of entries or a series of divisions; neither series may be empty. */
  datatype Toc = Toc(name: string, title: string, items: seq<Entry>, divs: seq<Div>)

  predicate WellFormed(toc: Toc) {
    (toc.items == []) != (toc.divs == [])
  }

  function SpellItems(items: seq<Entry>): seq<Macro> {
    if items == [] then [] else SpellItems(items[..|items| - 1]) + [Item(items[|items| - 1])]
  }

  function SpellDiv(d: Div): seq<Macro>
    decreases d, 1
  {
    [DivisionStart(d.title, d.symfile)] + SpellDivs(d.subs) + SpellItems(d.items) + [DivisionEnd]
  }

  function SpellDivs(ds: seq<Div>): seq<Macro>
    decreases ds, 0
  {
    if ds == [] then [] else SpellDivs(ds[..|ds| - 1]) + SpellDiv(ds[|ds| - 1])
  }

  function SpellTop(name: string, title: string, items: seq<Entry>, divs: seq<Div>): seq<Macro> {
    [TocBegin(name, title)] + SpellItems(items) + SpellDivs(divs)
  }

  function Spell(toc: Toc): seq<Macro> {
    SpellTop(toc.name, toc.title, toc.items, toc.divs) + [TocEnd]
  }

  // Trees under construction

  datatype Frame = Frame(title: string, symfile: string, subs: seq<Div>, items: seq<Entry>)

  datatype Partial =
    | Start
    | Open(name: string, title: string, items: seq<Entry>, divs: seq<Div>, frames: seq<Frame>)
    | Whole(toc: Toc)

  predicate Sound(p: Partial) {
    match p
    case Start => true
    case Open(_, _, items, divs, frames) =>
      && (items != [] ==> divs == [] && frames == [])
      && forall i :: 0 <= i < |frames| - 1 ==> frames[i].items == []
    case Whole(toc) => WellFormed(toc)
  }

  function SpellFrame(f: Frame): seq<Macro> {
    [DivisionStart(f.title, f.symfile)] + SpellDivs(f.subs) + SpellItems(f.items)
  }

  function SpellFrames(frames: seq<Frame>): seq<Macro> {
    if frames == [] then [] else SpellFrames(frames[..|frames| - 1]) + SpellFrame(frames[|frames| - 1])
  }

  function SpellPartial(p: Partial): seq<Macro> {
    match p
    case Start => []
    case Open(name, title, items, divs, frames) => SpellTop(name, title, items, divs) + SpellFrames(frames)
    case Whole(toc) => Spell(toc)
  }

  /** A finished division joins the innermost open division, or else the top level. */
  function Close(p: Partial, d: Div): Partial
    requires p.Open?
  {
    if p.frames == [] then p.(divs := p.divs + [d])
    else
      var n := |p.frames| - 1;
      p.(frames := p.frames[..n] + [p.frames[n].(subs := p.frames[n].subs + [d])])
  }

  /** The tree grown by one macro, or a failure where no tree continues with that macro. */
  function Extend(p: Partial, m: Macro): Result<Partial> {
    match p
    case Start =>
      if m.TocBegin? then Success(Open(m.name, m.title, [], [], [])) else Failure(NoTree)
    case Whole(_) => Failure(NoTree)
    case Open(name, title, items, divs, frames) =>
      var n := |frames| - 1;
      match m
      case TocEnd =>
        if frames == [] && (items != [] || divs != []) then Success(Whole(Toc(name, title, items, divs)))
        else Failure(NoTree)
      case DivisionStart(t, s) =>
        if items == [] && (frames == [] || frames[n].items == []) then
          Success(p.(frames := frames + [Frame(t, s, [], [])]))
        else Failure(NoTree)
      case DivisionEnd =>
        if frames == [] then Failure(NoTree)
        else
          var f := frames[n];
          Success(Close(p.(frames := frames[..n]), Div(f.title, f.symfile, f.subs, f.items)))
      case Item(e) =>
        if frames != [] then Success(p.(frames := frames[..n] + [frames[n].(items := frames[n].items + [e])]))
        else if divs == [] then Success(p.(items := items + [e]))
        else Failure(NoTree)
      case _ => Failure(NoTree)
  }

  /** The configuration of the automaton that a partial tree stands for. */
  function ConfigOf(p: Partial): Config {
    match p
    case Start => Initial
    case Whole(_) => Config(Done, [])
    case Open(_, _, items, divs, frames) =>
      if frames == [] then Config(if items != [] then ItemSeries else if divs != [] then AtEnd else Contents, [])
      else Config(if frames[|frames| - 1].items == [] then DivSeries else DivItems, Saved(|frames|))
  }

  /** The states saved on the stack while depth divisions are open. */
  function Saved(depth: nat): (s: seq<State>)
    ensures |s| == depth
  {
    if depth == 0 then [] else Saved(depth - 1) + [if depth == 1 then AtEnd else DivSeries]
  }

  // The automaton and the tree, side by side

  /** Comments and plain text leave no trace in the tree. */
  predicate Noise(m: Macro) {
    m.Comment? || m.Text?
  }

  /** Plain text must be blank, wherever it stands; comments may stand anywhere before toc_end. */
  predicate Allowed(m: Macro, finished: bool) {
    (m.Text? ==> Blank(m.text)) && (m.Comment? ==> !finished)
  }

  const TOC := Pair(Step, Extend, ConfigOf, Start, p => Sound(p), (p: Partial) => p.Whole?,
                     p => SpellPartial(p), m => Noise(m), (m, f) => Allowed(m, f), (m: Macro) => m.TocEnd?)

  lemma StepIsExtend()
    ensures Simulates(TOC)
  {
    forall p: Partial, m: Macro | Sound(p)
      ensures Agree(TOC, p, m)
    {
      if !Noise(m) && Extend(p, m).Success? {
        ExtendSpells(p, m);
        ExtendSteps(p, m);
      }
    }
  }

  lemma ExtendSteps(p: Partial, m: Macro)
    requires Sound(p) && Extend(p, m).Success?
    ensures Sound(Extend(p, m).value)
    ensures Step(ConfigOf(p), m) == Success(ConfigOf(Extend(p, m).value))
  {
    if m.DivisionEnd? {
      assert Saved(|p.frames|)[..|p.frames| - 1] == Saved(|p.frames| - 1);
    }
  }

  /** Whatever is added to the innermost open division is spelled at the very end. */
  lemma LastFrameSpells(p: Partial, g: Frame, added: seq<Macro>)
    requires p.Open? && p.frames != [] && SpellFrame(g) == SpellFrame(p.frames[|p.frames| - 1]) + added
    ensures SpellPartial(p.(frames := p.frames[..|p.frames| - 1] + [g])) == SpellPartial(p) + added
  {
    var n := |p.frames| - 1;
    assert (p.frames[..n] + [g])[..n] == p.frames[..n];
    Regroup(SpellFrames(p.frames[..n]), SpellFrame(p.frames[n]), added);
    Regroup(SpellTop(p.name, p.title, p.items, p.divs), SpellFrames(p.frames), added);
  }

  /** A division that joins the tree is spelled after everything that was there. */
  lemma CloseSpells(p: Partial, d: Div)
    requires p.Open? && (p.frames != [] ==> p.frames[|p.frames| - 1].items == [])
    ensures SpellPartial(Close(p, d)) == SpellPartial(p) + SpellDiv(d)
  {
    if p.frames == [] {
      assert (p.divs + [d])[..|p.divs|] == p.divs;
      Regroup([TocBegin(p.name, p.title)] + SpellItems(p.items), SpellDivs(p.divs), SpellDiv(d));
    } else {
      var f := p.frames[|p.frames| - 1];
      assert (f.subs + [d])[..|f.subs|] == f.subs;
      Regroup([DivisionStart(f.title, f.symfile)], SpellDivs(f.subs), SpellDiv(d));
      LastFrameSpells(p, f.(subs := f.subs + [d]), SpellDiv(d));
    }
  }

  lemma ExtendSpells(p: Partial, m: Macro)
    requires Sound(p) && Extend(p, m).Success?
    ensures SpellPartial(Extend(p, m).value) == SpellPartial(p) + [m]
  {
    if p.Open? {
      Regroup(SpellTop(p.name, p.title, p.items, p.divs), [], []);
      match m
      case DivisionStart(t, s) => OpenSpells(p, Frame(t, s, [], []));
      case DivisionEnd =>
        var f := p.frames[|p.frames| - 1];
        CloseSpells(p.(frames := p.frames[..|p.frames| - 1]), Div(f.title, f.symfile, f.subs, f.items));
        EndSpells(p);
      case Item(e) =>
        ExtendItem(p, e);
        AddItemSpells(p, e);
      case _ =>
    }
  }

  lemma OpenSpells(p: Partial, f: Frame)
    requires p.Open? && f.subs == [] && f.items == []
    ensures SpellPartial(p.(frames := p.frames + [f])) == SpellPartial(p) + [DivisionStart(f.title, f.symfile)]
  {
    assert (p.frames + [f])[..|p.frames|] == p.frames;
    Regroup(SpellTop(p.name, p.title, p.items, p.divs), SpellFrames(p.frames), SpellFrame(f));
  }

  lemma EndSpells(p: Partial)
    requires p.Open? && p.frames != []
    ensures var f := p.frames[|p.frames| - 1];
            var d := Div(f.title, f.symfile, f.subs, f.items);
            SpellPartial(p.(frames := p.frames[..|p.frames| - 1])) + SpellDiv(d) == SpellPartial(p) + [DivisionEnd]
  {
    var f := p.frames[|p.frames| - 1];
    var top, outer := SpellTop(p.name, p.title, p.items, p.divs), SpellFrames(p.frames[..|p.frames| - 1]);
    assert top + outer + (SpellFrame(f) + [DivisionEnd]) == top + (outer + SpellFrame(f)) + [DivisionEnd];
  }

  /** Entries collect at the innermost open place. */
  function AddItems(p: Partial, items: seq<Entry>): Partial
    requires p.Open?
  {
    if p.frames == [] then p.(items := p.items + items)
    else
      var n := |p.frames| - 1;
      p.(frames := p.frames[..n] + [p.frames[n].(items := p.frames[n].items + items)])
  }

  lemma ExtendItem(p: Partial, e: Entry)
    requires p.Open?
    ensures Extend(p, Item(e)) == if p.frames == [] && p.divs != [] then Failure(NoTree) else Success(AddItems(p, [e]))
  {
  }

  /** No divisions and no open ones are spelled by nothing. */
  lemma NothingAfter(doc: seq<Macro>)
    ensures doc + SpellDivs([]) + SpellFrames([]) == doc
  {
  }

  lemma AddItemSpells(p: Partial, e: Entry)
    requires p.Open? && (p.frames == [] ==> p.divs == [])
    ensures SpellPartial(AddItems(p, [e])) == SpellPartial(p) + [Item(e)]
  {
    if p.frames == [] {
      var begin := [TocBegin(p.name, p.title)];
      NothingAfter(begin + SpellItems(p.items));
      NothingAfter(begin + SpellItems(p.items + [e]));
      Regroup(begin, SpellItems(p.items), [Item(e)]);
    } else {
      var f := p.frames[|p.frames| - 1];
      Regroup([DivisionStart(f.title, f.symfile)] + SpellDivs(f.subs), SpellItems(f.items), [Item(e)]);
      LastFrameSpells(p, f.(items := f.items + [e]), [Item(e)]);
    }
  }

  // Every tree is parsed back to itself

  predicate TakesDivs(p: Partial) {
    p.Open? && p.items == [] && (p.frames != [] ==> p.frames[|p.frames| - 1].items == [])
  }

  function CloseAll(p: Partial, ds: seq<Div>): Partial
    requires p.Open?
    ensures CloseAll(p, ds).Open? && |CloseAll(p, ds).frames| == |p.frames|
    ensures TakesDivs(p) ==> TakesDivs(CloseAll(p, ds))
  {
    if ds == [] then p else Close(CloseAll(p, ds[..|ds| - 1]), ds[|ds| - 1])
  }

  /** Attaching a series of divisions appends it, in order, to the series it joins. */
  lemma {:induction false} CloseAllAppends(p: Partial, ds: seq<Div>)
    requires p.Open?
    ensures p.frames == [] ==> CloseAll(p, ds) == p.(divs := p.divs + ds)
    ensures p.frames != [] ==>
              var n := |p.frames| - 1;
              CloseAll(p, ds) == p.(frames := p.frames[..n] + [p.frames[n].(subs := p.frames[n].subs + ds)])
  {
    if ds != [] {
      CloseAllAppends(p, ds[..|ds| - 1]);
      assert ds == ds[..|ds| - 1] + [ds[|ds| - 1]];
      if p.frames == [] {
        assert p.divs + ds == p.divs + ds[..|ds| - 1] + [ds[|ds| - 1]];
      } else {
        var n := |p.frames| - 1;
        assert p.frames[n].subs + ds == p.frames[n].subs + ds[..|ds| - 1] + [ds[|ds| - 1]];
      }
    } else {
      if p.frames == [] {
        assert p.divs + ds == p.divs;
      } else {
        var n := |p.frames| - 1;
        assert p.frames[n].subs + ds == p.frames[n].subs;
        assert p.frames == p.frames[..n] + [p.frames[n]];
      }
    }
  }

  lemma AddItemsSteps(p: Partial, items: seq<Entry>, e: Entry)
    requires p.Open?
    ensures AddItems(p, []) == p
    ensures AddItems(AddItems(p, items), [e]) == AddItems(p, items + [e])
  {
    if p.frames == [] {
      assert p.items + [] == p.items;
      assert p.items + items + [e] == p.items + (items + [e]);
    } else {
      var n := |p.frames| - 1;
      assert p.frames[n].items + [] == p.frames[n].items;
      assert p.frames[n].items + items + [e] == p.frames[n].items + (items + [e]);
      assert p.frames == p.frames[..n] + [p.frames[n]];
    }
  }

  lemma {:induction false} ParsesItems(p: Partial, items: seq<Entry>)
    requires p.Open?
    requires p.frames == [] ==> p.divs == []
    ensures Run(Extend, p, SpellItems(items)) == Success(AddItems(p, items))
  {
    if items == [] {
      AddItemsSteps(p, [], Entry("", "", ""));
    } else {
      var init, e := items[..|items| - 1], items[|items| - 1];
      ParsesItems(p, init);
      assert init + [e] == items;
      AddItemsSteps(p, init, e);
      ExtendItem(AddItems(p, init), e);
      RunSnoc(Extend, p, SpellItems(init), Item(e));
    }
  }

  lemma {:induction false} ParsesDiv(p: Partial, d: Div)
    requires TakesDivs(p)
    ensures Run(Extend, p, SpellDiv(d)) == Success(Close(p, d))
    decreases d, 1
  {
    var start := DivisionStart(d.title, d.symfile);
    var p1 := p.(frames := p.frames + [Frame(d.title, d.symfile, [], [])]);
    RunOne(Extend, p, start);
    ParsesDivs(p1, d.subs);
    RunSplits(Extend, p, [start], SpellDivs(d.subs));
    var p2 := CloseAll(p1, d.subs);
    FrameFilled(p, d);
    ParsesItems(p2, d.items);
    RunSplits(Extend, p, [start] + SpellDivs(d.subs), SpellItems(d.items));
    RunOne(Extend, AddItems(p2, d.items), DivisionEnd);
    RunSplits(Extend, p, [start] + SpellDivs(d.subs) + SpellItems(d.items), [DivisionEnd]);
  }

  /** Opening a division, filling it and closing it attaches it as a finished one. */
  lemma {:induction false} FrameFilled(p: Partial, d: Div)
    requires TakesDivs(p)
    ensures var p1 := p.(frames := p.frames + [Frame(d.title, d.symfile, [], [])]);
            Extend(AddItems(CloseAll(p1, d.subs), d.items), DivisionEnd) == Success(Close(p, d))
  {
    var p1 := p.(frames := p.frames + [Frame(d.title, d.symfile, [], [])]);
    var n := |p.frames|;
    CloseAllAppends(p1, d.subs);
    assert p1.frames[..n] == p.frames;
    assert [] + d.subs == d.subs && [] + d.items == d.items;
    var p3 := AddItems(CloseAll(p1, d.subs), d.items);
    assert p3.frames[n] == Frame(d.title, d.symfile, d.subs, d.items);
    assert p3.frames[..n] == p.frames;
  }

  lemma {:induction false} ParsesDivs(p: Partial, ds: seq<Div>)
    requires TakesDivs(p)
    ensures Run(Extend, p, SpellDivs(ds)) == Success(CloseAll(p, ds))
    decreases ds, 0
  {
    if ds != [] {
      var init, d := ds[..|ds| - 1], ds[|ds| - 1];
      ParsesDivs(p, init);
      ParsesDiv(CloseAll(p, init), d);
      RunSplits(Extend, p, SpellDivs(init), SpellDiv(d));
    }
  }

  /** Parsing the spelling of a tree gives that tree: no two trees share a spelling. */
  lemma ParsesToc(toc: Toc)
    requires WellFormed(toc)
    ensures Run(Extend, Start, Spell(toc)) == Success(Whole(toc))
  {
    var start := TocBegin(toc.name, toc.title);
    var p1 := Open(toc.name, toc.title, [], [], []);
    RunOne(Extend, Start, start);
    ParsesItems(p1, toc.items);
    assert [] + toc.items == toc.items;
    var p2 := p1.(items := toc.items);
    RunSplits(Extend, Start, [start], SpellItems(toc.items));
    var front := [start] + SpellItems(toc.items);
    var p3 := p2.(divs := toc.divs);
    if toc.divs == [] {
      assert front + SpellDivs(toc.divs) == front;
    } else {
      ParsesDivs(p2, toc.divs);
      CloseAllAppends(p2, toc.divs);
      assert [] + toc.divs == toc.divs;
      RunSplits(Extend, Start, front, SpellDivs(toc.divs));
    }
    assert Run(Extend, Start, front + SpellDivs(toc.divs)) == Success(p3);
    RunOne(Extend, p3, TocEnd);
    RunSplits(Extend, Start, front + SpellDivs(toc.divs), [TocEnd]);
  }

  // Main results

  ghost predicate IsTocDocument(doc: seq<Macro>) {
    Quiet(TOC, doc) && exists toc :: WellFormed(toc) && Strip(TOC.noise, doc) == Spell(toc)
  }

  /** The checker accepts exactly the documents that spell a table of contents. */
  lemma Language(doc: seq<Macro>)
    ensures Accepts(doc) <==> IsTocDocument(doc)
  {
    if Accepts(doc) {
      AcceptedSpells(doc);
    }
    if IsTocDocument(doc) {
      StepIsExtend();
      RunIsParse(TOC, doc);
      var toc :| WellFormed(toc) && Strip(TOC.noise, doc) == Spell(toc);
      ParsesToc(toc);
    }
  }

  lemma AcceptedSpells(doc: seq<Macro>)
    requires Accepts(doc)
    ensures IsTocDocument(doc)
  {
    StepIsExtend();
    RunIsParse(TOC, doc);
    var p := Parse(TOC, doc).value;
    assert WellFormed(p.toc) && Strip(TOC.noise, doc) == Spell(p.toc);
  }

  /** An accepted document has only one tree. */
  lemma Unambiguous(s: Toc, t: Toc)
    requires WellFormed(s) && WellFormed(t)
    requires Spell(s) == Spell(t)
    ensures s == t
  {
    ParsesToc(s);
    ParsesToc(t);
  }

  /** What every reachable configuration looks like. */
  ghost predicate Shape(c: Config) {
    && (forall i :: 0 <= i < |c.stack| ==> c.stack[i] == if i == 0 then AtEnd else DivSeries)
    && (c.state in {DivSeries, DivItems} <==> c.stack != [])
    && c.state !in {Division, NoState}
  }

  /** The stack holds end below div_series only, and is empty outside divisions: so done means no open division. */
  lemma {:induction false} ReachableShape(doc: seq<Macro>)
    requires Run(Step, Initial, doc).Success?
    ensures Shape(Run(Step, Initial, doc).value)
  {
    StepIsExtend();
    RunIsParse(TOC, doc);
    var p := Parse(TOC, doc).value;
    if p.Open? {
      SavedShape(|p.frames|);
    }
  }

  lemma {:induction false} SavedShape(depth: nat)
    ensures forall i :: 0 <= i < depth ==> Saved(depth)[i] == if i == 0 then AtEnd else DivSeries
  {
    if depth > 0 {
      SavedShape(depth - 1);
    }
  }
}
