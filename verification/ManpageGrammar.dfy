/**
 The language of the manpage checker: a header, then a body of text, examples, headings and nested lists.

 As for the table of contents, Extend grows a tree by one macro and each step of the checker is one
 Extend. Only an outermost list has to start with an item: that is all the checker enforces, because
 list_begin keeps the item flag of the list around it.
 */
module ManpageGrammar {
  import opened Machines
  import opened ManpageState
  import opened Outcomes

  /** A leaf is a macro that stands for itself: text, paragraph, reference, heading, item or code example. */
  datatype Node =
    | Leaf(macro: Macro)
    | ExampleBlock(texts: seq<string>)
    | Listing(what: string, kind: ListKind, nodes: seq<Node>)  // the word of its list_begin, and the type it names

  datatype Front = Front(title: string, section: string, version: string, headers: seq<(HeaderMacro, string)>)

  datatype Manpage = Manpage(front: Front, body: seq<Node>)

  /** Where a node stands: outside all lists, or directly inside a list of some kind. */
  datatype Place = Top | In(kind: ListKind)

  /** Where a leaf may stand: headings outside all lists, items inside a list of their own kind. */
  predicate LeafAt(m: Macro, at: Place) {
    match m
    case Text(text) => !Blank(text)
    case Para => true
    case Sectref(_, _) => true
    case SectrefExternal(_) => true
    case CodeExample(_) => true
    case Section(_, _) => at.Top?
    case Subsection(_, _) => at.Top?
    case Item(item, _) => at == In(ItemList(item))
    case _ => false
  }

  predicate IsEntry(n: Node) {
    n.Leaf? && n.macro.Item?
  }

  predicate WellPlaced(n: Node, at: Place) {
    match n
    case Leaf(m) => LeafAt(m, at)
    case ExampleBlock(texts) => NoBlanks(texts)
    case Listing(what, kind, nodes) =>
      && ListType(what) == Some(kind)
      && (forall i :: 0 <= i < |nodes| ==> WellPlaced(nodes[i], In(kind)))
      && (at.Top? ==> EntryFirst(nodes))
  }

  predicate NoBlanks(texts: seq<string>) {
    forall i :: 0 <= i < |texts| ==> !Blank(texts[i])
  }

  predicate AllPlaced(nodes: seq<Node>, at: Place) {
    forall i :: 0 <= i < |nodes| ==> WellPlaced(nodes[i], at)
  }

  predicate EntryFirst(nodes: seq<Node>) {
    nodes != [] ==> IsEntry(nodes[0])
  }

  predicate WellFormed(page: Manpage) {
    AllPlaced(page.body, Top)
  }

  function SpellTexts(texts: seq<string>): seq<Macro> {
    if texts == [] then [] else SpellTexts(texts[..|texts| - 1]) + [Text(texts[|texts| - 1])]
  }

  function SpellNode(n: Node): seq<Macro>
    decreases n, 1
  {
    match n
    case Leaf(m) => [m]
    case ExampleBlock(texts) => [ExampleBegin] + SpellTexts(texts) + [ExampleEnd]
    case Listing(what, kind, nodes) => [ListBegin(what)] + SpellNodes(nodes) + [ListEnd]
  }

  function SpellNodes(nodes: seq<Node>): seq<Macro>
    decreases nodes, 0
  {
    if nodes == [] then [] else SpellNodes(nodes[..|nodes| - 1]) + SpellNode(nodes[|nodes| - 1])
  }

  function SpellHeaders(headers: seq<(HeaderMacro, string)>): seq<Macro> {
    if headers == [] then []
    else
      var h := headers[|headers| - 1];
      SpellHeaders(headers[..|headers| - 1]) + [HeaderLine(h.0, h.1)]
  }

  function SpellFront(front: Front): seq<Macro> {
    [ManpageBegin(front.title, front.section, front.version)] + SpellHeaders(front.headers)
  }

  function Spell(page: Manpage): seq<Macro> {
    SpellFront(page.front) + [Description] + SpellNodes(page.body) + [ManpageEnd]
  }

  // Trees under construction

  datatype Frame = Frame(what: string, kind: ListKind, nodes: seq<Node>)

  datatype Phase = Running | Quoting(texts: seq<string>) | Ended

  /** The open lists are the frames, outermost first. manpage_end does not wait for them to be closed. */
  datatype Partial =
    | Start
    | Head(front: Front)
    | Open(front: Front, top: seq<Node>, frames: seq<Frame>, phase: Phase)

  /** Plain nodes and new lists may come now: no outermost list is waiting for its first item. */
  predicate Ready(p: Partial)
    requires p.Open?
  {
    |p.frames| == 1 ==> p.frames[0].nodes != []
  }

  function At(frames: seq<Frame>): Place {
    if frames == [] then Top else In(frames[|frames| - 1].kind)
  }

  predicate Sound(p: Partial) {
    p.Open? ==>
      && AllPlaced(p.top, Top)
      && (forall i :: 0 <= i < |p.frames| ==>
            && ListType(p.frames[i].what) == Some(p.frames[i].kind)
            && AllPlaced(p.frames[i].nodes, In(p.frames[i].kind)))
      && (p.frames != [] ==> EntryFirst(p.frames[0].nodes))
      && (|p.frames| > 1 ==> p.frames[0].nodes != [])
      && (p.phase.Quoting? ==> Ready(p) && NoBlanks(p.phase.texts))
  }

  function SpellFrames(frames: seq<Frame>): seq<Macro> {
    if frames == [] then []
    else
      var f := frames[|frames| - 1];
      SpellFrames(frames[..|frames| - 1]) + [ListBegin(f.what)] + SpellNodes(f.nodes)
  }

  function SpellPhase(phase: Phase): seq<Macro> {
    match phase
    case Running => []
    case Quoting(texts) => [ExampleBegin] + SpellTexts(texts)
    case Ended => [ManpageEnd]
  }

  function SpellPartial(p: Partial): seq<Macro> {
    match p
    case Start => []
    case Head(front) => SpellFront(front)
    case Open(front, top, frames, phase) => SpellOpen(front, top, frames) + SpellPhase(phase)
  }

  function SpellOpen(front: Front, top: seq<Node>, frames: seq<Frame>): seq<Macro> {
    SpellFront(front) + [Description] + SpellNodes(top) + SpellFrames(frames)
  }

  /** A finished node joins the innermost open list, or else the top level. */
  function Put(p: Partial, n: Node): Partial
    requires p.Open?
  {
    if p.frames == [] then p.(top := p.top + [n], phase := Running)
    else
      var k := |p.frames| - 1;
      p.(frames := p.frames[..k] + [p.frames[k].(nodes := p.frames[k].nodes + [n])], phase := Running)
  }

  /** The tree grown by one macro, or a failure where no tree continues with that macro. */
  function Extend(p: Partial, m: Macro): Result<Partial> {
    match p
    case Start =>
      if m.ManpageBegin? then Success(Head(Front(m.title, m.section, m.version, []))) else Failure(NoTree)
    case Head(front) =>
      if m.HeaderLine? then Success(Head(front.(headers := front.headers + [(m.header, m.text)])))
      else if m.Description? then Success(Open(front, [], [], Running))
      else Failure(NoTree)
    case Open(_, _, frames, phase) =>
      match phase
      case Ended => Failure(NoTree)
      case Quoting(texts) =>
        if m.Text? then Success(p.(phase := Quoting(texts + [m.text])))
        else if m.ExampleEnd? then Success(Put(p, ExampleBlock(texts)))
        else Failure(NoTree)
      case Running => ExtendBody(p, m)
  }

  predicate LeafFits(p: Partial, m: Macro)
    requires p.Open?
  {
    LeafAt(m, At(p.frames)) && (Ready(p) || m.Item?)
  }

  /** The innermost open list as a finished node, and the tree without it. */
  function Inner(p: Partial): Node
    requires p.Open? && p.frames != []
  {
    var f := p.frames[|p.frames| - 1];
    Listing(f.what, f.kind, f.nodes)
  }

  function Outer(p: Partial): Partial
    requires p.Open? && p.frames != []
  {
    p.(frames := p.frames[..|p.frames| - 1])
  }

  /** The tree with one more open list. */
  function Nest(p: Partial, what: string, kind: ListKind): Partial
    requires p.Open?
  {
    p.(frames := p.frames + [Frame(what, kind, [])])
  }

  function ExtendBody(p: Partial, m: Macro): Result<Partial>
    requires p.Open?
  {
    match m
    case ListBegin(what) =>
      (match ListType(what)
       case Some(kind) => if Ready(p) then Success(Nest(p, what, kind)) else Failure(NoTree)
       case None => Failure(NoTree))
    case ListEnd =>
      if p.frames == [] then Failure(NoTree)
      else Success(Put(Outer(p), Inner(p)))
    case ExampleBegin => if Ready(p) then Success(p.(phase := Quoting([]))) else Failure(NoTree)
    case ManpageEnd => Success(p.(phase := Ended))
    case _ => if LeafFits(p, m) then Success(Put(p, Leaf(m))) else Failure(NoTree)
  }

  /** Every list but the outermost was opened with the item flag set. */
  function Contexts(frames: seq<Frame>): seq<Context> {
    if frames == [] then []
    else [Context(frames[|frames| - 1].kind, |frames| > 1)] + Contexts(frames[..|frames| - 1])
  }

  function ConfigOf(p: Partial): Config {
    match p
    case Start => Initial
    case Head(_) => Config(Header, [], false)
    case Open(_, _, frames, phase) =>
      Config(match phase case Running => Body case Quoting(_) => Example case Ended => Done,
             Contexts(frames), frames != [] && Ready(p))
  }

  // The checker and the tree, side by side

  predicate Noise(m: Macro) {
    m.Inline? || (m.Text? && Blank(m.text))
  }

  /** Inline macros may stand anywhere before manpage_end, blank text anywhere at all. */
  predicate Allowed(m: Macro, finished: bool) {
    m.Inline? ==> !finished
  }

  predicate Whole(p: Partial) {
    p.Open? && p.phase.Ended?
  }

  const MANPAGE := Pair(Step, Extend, ConfigOf, Start, p => Sound(p), p => Whole(p),
                        p => SpellPartial(p), m => Noise(m), (m, f) => Allowed(m, f), (m: Macro) => m.ManpageEnd?)

  lemma StepIsExtend()
    ensures Simulates(MANPAGE)
  {
    forall p: Partial, m: Macro | Sound(p)
      ensures Agree(MANPAGE, p, m)
    {
      if Noise(m) {
        NoiseAgrees(p, m);
      } else {
        StepsAlike(p, m);
        AlikeAgrees(p, m);
      }
    }
  }

  lemma StepsAlike(p: Partial, m: Macro)
    requires Sound(p) && !Noise(m)
    ensures Alike(p, m)
  {
    if !p.Open? || p.phase.Ended? {
      OutsideSteps(p, m);
    } else if p.phase.Quoting? {
      QuotingSteps(p, m);
    } else if m.ListBegin? || m.ListEnd? {
      ListSteps(p, m);
    } else if m.ExampleBegin? || m.ManpageEnd? {
      PhaseSteps(p, m);
    } else {
      LeafSteps(p, m);
    }
  }

  lemma NoiseAgrees(p: Partial, m: Macro)
    requires Noise(m)
    ensures Agree(MANPAGE, p, m)
  {
    NoiseStays(p, m);
  }

  /** Before the body begins and after it ends. */
  lemma OutsideSteps(p: Partial, m: Macro)
    requires !Noise(m) && (!p.Open? || p.phase.Ended?)
    ensures Alike(p, m)
  {
  }

  lemma PhaseSteps(p: Partial, m: Macro)
    requires p.Open? && p.phase.Running? && (m.ExampleBegin? || m.ManpageEnd?)
    ensures Alike(p, m)
  {
  }

  /** The checker accepts the macro exactly when the tree can grow by it, and then stands where the larger tree puts it. */
  ghost predicate Alike(p: Partial, m: Macro) {
    match Extend(p, m)
    case Success(q) => Step(ConfigOf(p), m) == Success(ConfigOf(q))
    case Failure(_) => Step(ConfigOf(p), m).Failure?
  }

  lemma {:induction false} AlikeAgrees(p: Partial, m: Macro)
    requires Sound(p) && !Noise(m) && Alike(p, m)
    ensures Agree(MANPAGE, p, m)
  {
    if Extend(p, m).Success? {
      ExtendIsSound(p, m);
      ExtendSpells(p, m);
      ExtendEnds(p, m);
    }
  }

  lemma NoiseStays(p: Partial, m: Macro)
    requires Noise(m)
    ensures if Allowed(m, Whole(p)) then Step(ConfigOf(p), m) == Success(ConfigOf(p)) else Step(ConfigOf(p), m).Failure?
  {
  }

  lemma ExtendEnds(p: Partial, m: Macro)
    requires !Noise(m) && Extend(p, m).Success?
    ensures !Whole(p) && (Whole(Extend(p, m).value) <==> m.ManpageEnd?)
  {
  }

  lemma QuotingSteps(p: Partial, m: Macro)
    requires Sound(p) && !Noise(m) && p.Open? && p.phase.Quoting?
    ensures Alike(p, m)
  {
    QuotedSteps(ConfigOf(p), m);
    if m.ExampleEnd? {
      PutConfig(p, ExampleBlock(p.phase.texts));
    }
  }

  /** In an example text may come, and its end. */
  lemma QuotedSteps(c: Config, m: Macro)
    requires c.state == Example && !Waiting(c) && !Noise(m)
    ensures if m.Text? then Step(c, m) == Success(c)
            else if m.ExampleEnd? then Step(c, m) == Success(c.(state := Body))
            else Step(c, m).Failure?
  {
  }

  function PlaceOf(c: Config): Place {
    if c.lstctx == [] then Top else In(c.lstctx[0].kind)
  }

  /** In the body a leaf may come where LeafAt says, and sets the item flag if it is an item. */
  lemma BodySteps(c: Config, m: Macro)
    requires c.state == Body && !Noise(m)
    requires !m.ListBegin? && !m.ListEnd? && !m.ExampleBegin? && !m.ManpageEnd?
    ensures Step(c, m).Success? <==> LeafAt(m, PlaceOf(c)) && (Waiting(c) ==> m.Item?)
    ensures Step(c, m).Success? ==> Step(c, m) == Success(if m.Item? then c.(lstitem := true) else c)
  {
  }

  lemma {:induction false} ListSteps(p: Partial, m: Macro)
    requires Sound(p) && p.Open? && p.phase.Running? && (m.ListBegin? || m.ListEnd?)
    ensures Step(ConfigOf(p), m).Success? <==> ExtendBody(p, m).Success?
    ensures ExtendBody(p, m).Success? ==> Step(ConfigOf(p), m) == Success(ConfigOf(ExtendBody(p, m).value))
  {
    if m.ListBegin? {
      assert forall k :: Nest(p, m.what, k).frames[..|p.frames|] == p.frames;
    } else if p.frames != [] {
      PutConfig(Outer(p), Inner(p));
    }
  }

  lemma {:induction false} LeafSteps(p: Partial, m: Macro)
    requires Sound(p) && !Noise(m) && p.Open? && p.phase.Running?
    requires !m.ListBegin? && !m.ListEnd? && !m.ExampleBegin? && !m.ManpageEnd?
    ensures Alike(p, m)
  {
    BodySteps(ConfigOf(p), m);
    LeafPlace(p);
    assert Extend(p, m) == if LeafFits(p, m) then Success(Put(p, Leaf(m))) else Failure(NoTree);
    if LeafFits(p, m) {
      PutConfig(p, Leaf(m));
    }
  }

  /** Where a leaf may be put next, by the tree and by the configuration. */
  lemma LeafPlace(p: Partial)
    requires p.Open? && p.phase.Running?
    ensures var c := ConfigOf(p);
            && c.state == Body && PlaceOf(c) == At(p.frames) && (Waiting(c) <==> !Ready(p))
            && c == Config(Body, Contexts(p.frames), p.frames != [] && Ready(p))
  {
    RunningConfig(p);
  }

  /** Putting a node keeps the contexts, and afterwards the item flag is set in any open list. */
  lemma PutConfig(p: Partial, n: Node)
    requires p.Open?
    ensures ConfigOf(Put(p, n)) == Config(Body, Contexts(p.frames), p.frames != [])
  {
    RunningConfig(Put(p, n));
    if p.frames != [] {
      ContextsPut(p.frames, p.frames[|p.frames| - 1].nodes + [n]);
    }
  }

  lemma RunningConfig(p: Partial)
    requires p.Open? && p.phase.Running?
    ensures ConfigOf(p) == Config(Body, Contexts(p.frames), p.frames != [] && Ready(p))
  {
  }

  lemma ContextsPut(frames: seq<Frame>, nodes: seq<Node>)
    requires frames != []
    ensures var k := |frames| - 1; Contexts(frames[..k] + [frames[k].(nodes := nodes)]) == Contexts(frames)
  {
    var k := |frames| - 1;
    assert (frames[..k] + [frames[k].(nodes := nodes)])[..k] == frames[..k];
  }

  lemma {:induction false} ExtendIsSound(p: Partial, m: Macro)
    requires Sound(p) && !Noise(m) && Extend(p, m).Success?
    ensures Sound(Extend(p, m).value)
  {
    if p.Open? {
      if m.ListEnd? {
        PutIsSound(Outer(p), Inner(p));
      } else if p.phase.Quoting? {
        PutIsSound(p, ExampleBlock(p.phase.texts));
      } else if LeafFits(p, m) {
        PutIsSound(p, Leaf(m));
      }
    }
  }

  lemma PutIsSound(p: Partial, n: Node)
    requires Sound(p) && p.Open? && WellPlaced(n, At(p.frames)) && (Ready(p) || IsEntry(n))
    ensures Sound(Put(p, n))
  {
    if p.frames != [] {
      var k := |p.frames| - 1;
      assert Put(p, n).frames[k] == p.frames[k].(nodes := p.frames[k].nodes + [n]);
    }
  }

  lemma {:induction false} PutSpells(p: Partial, n: Node)
    requires p.Open?
    ensures SpellPartial(Put(p, n)) == SpellOpen(p.front, p.top, p.frames) + SpellNode(n)
  {
    var q := Put(p, n);
    var front := SpellFront(p.front) + [Description];
    if p.frames == [] {
      assert q.top[..|p.top|] == p.top;
      Regroup(front, SpellNodes(p.top), SpellNode(n));
    } else {
      PutSpellsFrames(p.frames, n, q.frames);
      Regroup(front + SpellNodes(p.top), SpellFrames(p.frames), SpellNode(n));
    }
  }

  lemma PutSpellsFrames(frames: seq<Frame>, n: Node, after: seq<Frame>)
    requires frames != []
    requires var k := |frames| - 1; after == frames[..k] + [frames[k].(nodes := frames[k].nodes + [n])]
    ensures SpellFrames(after) == SpellFrames(frames) + SpellNode(n)
  {
    var k := |frames| - 1;
    assert after[..k] == frames[..k];
    assert after[k].nodes[..|frames[k].nodes|] == frames[k].nodes;
    Regroup(SpellFrames(frames[..k]) + [ListBegin(frames[k].what)], SpellNodes(frames[k].nodes), SpellNode(n));
  }

  lemma NestSpells(p: Partial, what: string, kind: ListKind)
    requires p.Open? && p.phase.Running?
    ensures SpellPartial(Nest(p, what, kind)) == SpellPartial(p) + [ListBegin(what)]
  {
    assert Nest(p, what, kind).frames[..|p.frames|] == p.frames;
    assert SpellFrames(Nest(p, what, kind).frames) == SpellFrames(p.frames) + [ListBegin(what)] + [];
  }

  lemma {:induction false} OuterSpells(p: Partial)
    requires p.Open? && p.frames != []
    ensures SpellOpen(p.front, p.top, p.frames[..|p.frames| - 1]) + SpellNode(Inner(p))
         == SpellOpen(p.front, p.top, p.frames) + [ListEnd]
  {
    var f := p.frames[|p.frames| - 1];
    var front := SpellFront(p.front) + [Description] + SpellNodes(p.top);
    var outer := SpellFrames(p.frames[..|p.frames| - 1]);
    var inner := SpellNodes(f.nodes);
    assert front + (outer + [ListBegin(f.what)] + inner) + [ListEnd]
        == front + outer + ([ListBegin(f.what)] + inner + [ListEnd]);
  }

  lemma {:induction false} ExtendSpells(p: Partial, m: Macro)
    requires Sound(p) && !Noise(m) && Extend(p, m).Success?
    ensures SpellPartial(Extend(p, m).value) == SpellPartial(p) + [m]
  {
    match p
    case Start =>
    case Head(front) => HeadSpells(front, m);
    case Open(_, _, _, phase) =>
      if phase.Quoting? {
        QuoteSpells(p, m);
      } else {
        BodySpells(p, m);
      }
  }

  lemma {:induction false} BodySpells(p: Partial, m: Macro)
    requires p.Open? && p.phase.Running? && ExtendBody(p, m).Success?
    ensures SpellPartial(ExtendBody(p, m).value) == SpellPartial(p) + [m]
  {
    var before := SpellOpen(p.front, p.top, p.frames);
    assert SpellPartial(p) == before by {
      assert before + [] == before;
    }
    if m.ListBegin? {
      NestSpells(p, m.what, ListType(m.what).value);
    } else if m.ListEnd? {
      EndListSpells(p);
    } else if LeafFits(p, m) {
      PutSpells(p, Leaf(m));
    } else {
      PhaseSpells(before, m);
    }
  }

  lemma PhaseSpells(before: seq<Macro>, m: Macro)
    requires m.ExampleBegin? || m.ManpageEnd?
    ensures before + SpellPhase(if m.ExampleBegin? then Quoting([]) else Ended) == before + [m]
  {
  }

  lemma {:induction false} EndListSpells(p: Partial)
    requires p.Open? && p.frames != []
    ensures SpellPartial(Put(Outer(p), Inner(p))) == SpellOpen(p.front, p.top, p.frames) + [ListEnd]
  {
    PutSpells(Outer(p), Inner(p));
    OuterSpells(p);
  }

  lemma {:induction false} QuoteSpells(p: Partial, m: Macro)
    requires p.Open? && p.phase.Quoting? && Extend(p, m).Success?
    ensures SpellPartial(Extend(p, m).value) == SpellPartial(p) + [m]
  {
    var texts := p.phase.texts;
    var before := SpellOpen(p.front, p.top, p.frames);
    Regroup(before, [ExampleBegin] + SpellTexts(texts), [m]);
    if m.Text? {
      QuotedText(texts, m.text);
    } else {
      PutSpells(p, ExampleBlock(texts));
    }
  }

  lemma QuotedText(texts: seq<string>, t: string)
    ensures SpellPhase(Quoting(texts + [t])) == [ExampleBegin] + SpellTexts(texts) + [Text(t)]
  {
    assert (texts + [t])[..|texts|] == texts;
  }

  lemma HeadSpells(front: Front, m: Macro)
    requires Extend(Head(front), m).Success?
    ensures SpellPartial(Extend(Head(front), m).value) == SpellFront(front) + [m]
  {
    if m.HeaderLine? {
      var after := front.headers + [(m.header, m.text)];
      assert after[..|front.headers|] == front.headers;
    }
  }

  // Every well-formed page is parsed back to itself

  function PutAll(p: Partial, nodes: seq<Node>): Partial
    requires p.Open?
    ensures PutAll(p, nodes).Open? && |PutAll(p, nodes).frames| == |p.frames|
  {
    if nodes == [] then p else Put(PutAll(p, nodes[..|nodes| - 1]), nodes[|nodes| - 1])
  }

  lemma {:induction false} PutAllAppends(p: Partial, nodes: seq<Node>)
    requires p.Open? && p.phase.Running?
    ensures p.frames == [] ==> PutAll(p, nodes) == p.(top := p.top + nodes)
    ensures p.frames != [] ==>
              var k := |p.frames| - 1;
              PutAll(p, nodes) == p.(frames := p.frames[..k] + [p.frames[k].(nodes := p.frames[k].nodes + nodes)])
  {
    if nodes == [] {
      if p.frames == [] {
        assert p.top + nodes == p.top;
      } else {
        var k := |p.frames| - 1;
        assert p.frames[k].nodes + nodes == p.frames[k].nodes;
        assert p.frames == p.frames[..k] + [p.frames[k]];
      }
    } else {
      var init, n := nodes[..|nodes| - 1], nodes[|nodes| - 1];
      PutAllAppends(p, init);
      if p.frames == [] {
        assert p.top + nodes == p.top + init + [n];
      } else {
        var k := |p.frames| - 1;
        assert p.frames[k].nodes + nodes == p.frames[k].nodes + init + [n];
      }
    }
  }

  lemma {:induction false} ParsesTexts(p: Partial, texts: seq<string>)
    requires p.Open? && p.phase == Quoting([])
    ensures Run(Extend, p, SpellTexts(texts)) == Success(p.(phase := Quoting(texts)))
  {
    if texts != [] {
      var init, t := texts[..|texts| - 1], texts[|texts| - 1];
      assert init + [t] == texts && SpellTexts(texts) == SpellTexts(init) + [Text(t)];
      ParsesTexts(p, init);
      assert Extend(p.(phase := Quoting(init)), Text(t)) == Success(p.(phase := Quoting(init + [t])));
      RunSnoc(Extend, p, SpellTexts(init), Text(t));
    }
  }

  /** A node may come next: everything is in its place, and an item starts an outermost list. */
  predicate Fits(p: Partial, nodes: seq<Node>) {
    p.Open? && p.phase.Running? && AllPlaced(nodes, At(p.frames)) && (Ready(p) || EntryFirst(nodes))
  }

  lemma ParsesExample(p: Partial, texts: seq<string>)
    requires p.Open? && p.phase.Running? && Ready(p)
    ensures Run(Extend, p, SpellNode(ExampleBlock(texts))) == Success(Put(p, ExampleBlock(texts)))
  {
    RunOne(Extend, p, ExampleBegin);
    ParsesTexts(p.(phase := Quoting([])), texts);
    RunSplits(Extend, p, [ExampleBegin], SpellTexts(texts));
    RunSnoc(Extend, p, [ExampleBegin] + SpellTexts(texts), ExampleEnd);
  }

  lemma {:induction false} ParsesNode(p: Partial, n: Node)
    requires Fits(p, [n])
    ensures Run(Extend, p, SpellNode(n)) == Success(Put(p, n))
    decreases n, 1
  {
    assert WellPlaced([n][0], At(p.frames));
    match n
    case Leaf(m) => ParsesLeaf(p, m);
    case ExampleBlock(texts) => ParsesExample(p, texts);
    case Listing(what, kind, nodes) => ParsesListing(p, what, kind, nodes);
  }

  lemma {:induction false} ParsesListing(p: Partial, what: string, kind: ListKind, nodes: seq<Node>)
    requires p.Open? && p.phase.Running? && Ready(p) && ListType(what) == Some(kind) && Fits(Nest(p, what, kind), nodes)
    ensures Run(Extend, p, [ListBegin(what)] + SpellNodes(nodes) + [ListEnd])
         == Success(Put(p, Listing(what, kind, nodes)))
    decreases nodes, 1
  {
    var inner := Nest(p, what, kind);
    ParsesNodes(inner, nodes);
    ListFilled(p, what, kind, nodes);
    RunBetween(Extend, p, ListBegin(what), SpellNodes(nodes), ListEnd, inner, PutAll(inner, nodes));
  }

  lemma ParsesLeaf(p: Partial, m: Macro)
    requires p.Open? && p.phase.Running? && LeafFits(p, m)
    ensures Run(Extend, p, [m]) == Success(Put(p, Leaf(m)))
  {
    RunOne(Extend, p, m);
  }

  /** Opening a list, filling it and closing it puts it as a finished node. */
  lemma {:induction false} ListFilled(p: Partial, what: string, kind: ListKind, nodes: seq<Node>)
    requires p.Open? && p.phase.Running?
    ensures Extend(PutAll(Nest(p, what, kind), nodes), ListEnd) == Success(Put(p, Listing(what, kind, nodes)))
  {
    var inner := Nest(p, what, kind);
    var q := PutAll(inner, nodes);
    PutAllAppends(inner, nodes);
    assert inner.frames[..|p.frames|] == p.frames && [] + nodes == nodes;
    assert q.frames == p.frames + [Frame(what, kind, nodes)];
    assert q.frames[..|p.frames|] == p.frames;
  }

  lemma {:induction false} ParsesNodes(p: Partial, nodes: seq<Node>)
    requires Fits(p, nodes)
    ensures Run(Extend, p, SpellNodes(nodes)) == Success(PutAll(p, nodes))
    decreases nodes, 0
  {
    if nodes != [] {
      var init, n := nodes[..|nodes| - 1], nodes[|nodes| - 1];
      ParsesNodes(p, init);
      PutAllAppends(p, init);
      assert At(PutAll(p, init).frames) == At(p.frames);
      ParsesNode(PutAll(p, init), n);
      RunSplits(Extend, p, SpellNodes(init), SpellNode(n));
    }
  }

  lemma {:induction false} ParsesHeaders(front: Front, headers: seq<(HeaderMacro, string)>)
    requires front.headers == []
    ensures Run(Extend, Head(front), SpellHeaders(headers)) == Success(Head(front.(headers := headers)))
  {
    if headers != [] {
      var init, h := headers[..|headers| - 1], headers[|headers| - 1];
      ParsesHeaders(front, init);
      assert init + [h] == headers;
      RunSnoc(Extend, Head(front), SpellHeaders(init), HeaderLine(h.0, h.1));
      assert Extend(Head(front.(headers := init)), HeaderLine(h.0, h.1)) == Success(Head(front.(headers := headers)));
    }
  }

  lemma ParsesFront(f: Front)
    ensures Run(Extend, Start, SpellFront(f)) == Success(Head(f))
  {
    var first := ManpageBegin(f.title, f.section, f.version);
    RunOne(Extend, Start, first);
    ParsesHeaders(f.(headers := []), f.headers);
    RunSplits(Extend, Start, [first], SpellHeaders(f.headers));
  }

  lemma ParsesPage(page: Manpage)
    requires WellFormed(page)
    ensures Run(Extend, Start, Spell(page)) == Success(Open(page.front, page.body, [], Ended))
  {
    var front, body := SpellFront(page.front) + [Description], SpellNodes(page.body);
    ParsesHead(page.front);
    ParsesBody(page.front, page.body);
    assert Extend(Open(page.front, page.body, [], Running), ManpageEnd) == Success(Open(page.front, page.body, [], Ended));
    RunInTurn(Extend, Start, front, body, ManpageEnd);
  }

  lemma ParsesHead(f: Front)
    ensures Run(Extend, Start, SpellFront(f) + [Description]) == Success(Open(f, [], [], Running))
  {
    ParsesFront(f);
    RunSnoc(Extend, Start, SpellFront(f), Description);
  }

  lemma ParsesBody(front: Front, body: seq<Node>)
    requires AllPlaced(body, Top)
    ensures Run(Extend, Open(front, [], [], Running), SpellNodes(body)) == Success(Open(front, body, [], Running))
  {
    var p := Open(front, [], [], Running);
    ParsesNodes(p, body);
    PutAllAppends(p, body);
    assert [] + body == body;
  }

  // Main results

  ghost predicate IsManpage(doc: seq<Macro>) {
    Quiet(MANPAGE, doc) && exists page :: WellFormed(page) && Strip(MANPAGE.noise, doc) == Spell(page)
  }

  /** The checker accepts exactly the documents that spell a manpage. */
  lemma Language(doc: seq<Macro>)
    ensures Accepts(doc) <==> IsManpage(doc)
  {
    StepIsExtend();
    RunIsParse(MANPAGE, doc);
    if Accepts(doc) {
      var p := Parse(MANPAGE, doc).value;
      assert p.Open? && p.phase.Ended? && p.frames == [];
      var page := Manpage(p.front, p.top);
      assert SpellFrames(p.frames) == [];
      Regroup(SpellFront(p.front) + [Description] + SpellNodes(p.top), [], []);
      assert WellFormed(page);
    }
    if IsManpage(doc) {
      var page :| WellFormed(page) && Strip(MANPAGE.noise, doc) == Spell(page);
      ParsesPage(page);
    }
  }

  /** An accepted document has only one tree. */
  lemma Unambiguous(s: Manpage, t: Manpage)
    requires WellFormed(s) && WellFormed(t) && Spell(s) == Spell(t)
    ensures s == t
  {
    ParsesPage(s);
    ParsesPage(t);
  }

  /** The outermost list saved an unset flag, every other list a set one; two lists deep the flag is set. */
  ghost predicate Flags(c: Config) {
    && (forall i :: 0 <= i < |c.lstctx| ==> (c.lstctx[i].saved <==> i < |c.lstctx| - 1))
    && (|c.lstctx| >= 2 ==> c.lstitem)
    && (c.lstctx == [] ==> !c.lstitem)
  }

  lemma {:induction false} ReachableFlags(doc: seq<Macro>)
    requires Run(Step, Initial, doc).Success?
    ensures Flags(Run(Step, Initial, doc).value)
  {
    StepIsExtend();
    RunIsParse(MANPAGE, doc);
    var p := Parse(MANPAGE, doc).value;
    if p.Open? {
      ContextFlags(p.frames);
    }
  }

  lemma {:induction false} ContextFlags(frames: seq<Frame>)
    ensures var cs := Contexts(frames);
            |cs| == |frames| && forall i :: 0 <= i < |cs| ==> (cs[i].saved <==> i < |cs| - 1)
  {
    if frames != [] {
      ContextFlags(frames[..|frames| - 1]);
    }
  }

  /** A nested list need not start with an item: text directly after its list_begin is accepted. */
  lemma NestedListNeedsNoItem(text: string)
    requires !Blank(text)
    ensures var page := Manpage(Front("t", "n", "1", []),
                                [Listing("enum", Enumerated,
                                         [Leaf(Item(Enum, "")), Listing("enum", Enumerated, [Leaf(Text(text))])])]);
            WellFormed(page) && Run(Extend, Start, Spell(page)).Success?
  {
    var inner := Listing("enum", Enumerated, [Leaf(Text(text))]);
    assert WellPlaced(inner, In(Enumerated));
    var outer := Listing("enum", Enumerated, [Leaf(Item(Enum, "")), inner]);
    assert WellPlaced(outer, Top);
    ParsesPage(Manpage(Front("t", "n", "1", []), [outer]));
  }
}
