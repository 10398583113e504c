/**
 The control part of the manpage checker: document state and list contexts.

 A list_begin saves the item flag of the surrounding list together with the kind of the new list;
 it leaves the flag itself alone, so a nested list starts with the flag of the list around it.
 */
module ManpageState {
  import opened Machines
  import opened Outcomes

  datatype State = AtBegin | Header | Body | Example | Done

  datatype ListKind = Arguments | Commands | Definitions | Enumerated | Itemized | Options | Tkoptions

  datatype Context = Context(kind: ListKind, saved: bool)

  /** The list contexts, innermost first, and whether an item was seen. */
  datatype Config = Config(state: State, lstctx: seq<Context>, lstitem: bool)

  const Initial := Config(AtBegin, [], false)

  datatype HeaderMacro = Moddesc | Titledesc | Copyright | Require

  // Def stands for def and its four deprecated spellings, Bullet for item and bullet.
  datatype ItemMacro = Def | Call | ArgDef | CmdDef | OptDef | TkoptionDef | Bullet | Enum

  datatype Macro =
    | ManpageBegin(title: string, section: string, version: string)
    | HeaderLine(header: HeaderMacro, text: string)
    | Description
    | Section(title: string, id: string)
    | Subsection(title: string, id: string)
    | Para
    | ListBegin(what: string)
    | ListEnd
    | Item(item: ItemMacro, text: string)
    | ExampleBegin
    | ExampleEnd
    | CodeExample(code: string)
    | Sectref(id: string, title: string)
    | SectrefExternal(title: string)
    | ManpageEnd
    | Inline(name: string, text: string)  // see_also, keywords, comment, usage and the inline markup
    | Text(text: string)
    | Fault(source: string)  // a piece of a macro that the interpreter cannot evaluate
    | Unclosed(source: string)  // a macro that has no end before that of the document

  /** The list type a list_begin names, by its full name or a short or singular form; None for any other word. */
  function ListType(what: string): Option<ListKind> {
    match what
    case "arguments" => Some(Arguments)
    case "arg" => Some(Arguments)
    case "args" => Some(Arguments)
    case "commands" => Some(Commands)
    case "cmd" => Some(Commands)
    case "cmds" => Some(Commands)
    case "definitions" => Some(Definitions)
    case "enumerated" => Some(Enumerated)
    case "enum" => Some(Enumerated)
    case "itemized" => Some(Itemized)
    case "bullet" => Some(Itemized)
    case "item" => Some(Itemized)
    case "options" => Some(Options)
    case "opt" => Some(Options)
    case "opts" => Some(Options)
    case "tkoptions" => Some(Tkoptions)
    case "tkoption" => Some(Tkoptions)
    case _ => None
  }

  /** The list type an item macro insists on. */
  function ItemList(item: ItemMacro): ListKind {
    match item
    case Def => Definitions
    case Call => Definitions
    case ArgDef => Arguments
    case CmdDef => Commands
    case OptDef => Options
    case TkoptionDef => Tkoptions
    case Bullet => Itemized
    case Enum => Enumerated
  }

  /** Its complaint when the innermost list is of another type. */
  function ItemError(item: ItemMacro): Code {
    match item
    case Def => Deflist
    case Call => Deflist
    case ArgDef => ArgList
    case CmdDef => CmdList
    case OptDef => OptList
    case TkoptionDef => TkoptionList
    case Bullet => Bulletlist
    case Enum => Enumlist
  }

  /** A list is open and its first item has not come yet. */
  predicate Waiting(c: Config) {
    c.lstctx != [] && !c.lstitem
  }

  function InHeader(c: Config, after: State): Result<Config> {
    if c.state != Header then Failure(Hdrcmd) else Success(c.(state := after))
  }

  function InBody(c: Config, waiting: Code): Result<Config> {
    if c.state != Body then Failure(Bodycmd)
    else if Waiting(c) then Failure(waiting)
    else Success(c)
  }

  function PlainText(c: Config, text: string): Result<Config> {
    if Blank(text) then Success(c)
    else if c.state != Body && c.state != Example then Failure(BodyOnly)
    else if Waiting(c) then Failure(Nolisttxt)
    else Success(c)
  }

  function BeginExample(c: Config): Result<Config> {
    match InBody(c, Nolisthdr)
    case Success(d) => Success(d.(state := Example))
    case Failure(code) => Failure(code)
  }

  function EndExample(c: Config): Result<Config> {
    if c.state != Example then Failure(Examplecmd) else Success(c.(state := Body))
  }

  function BeginList(c: Config, what: string): Result<Config> {
    match InBody(c, Nolisthdr)
    case Failure(code) => Failure(code)
    case Success(d) =>
      match ListType(what)
      case None => Failure(Invalidlist)
      case Some(kind) => Success(d.(lstctx := [Context(kind, d.lstitem)] + d.lstctx))
  }

  function EndList(c: Config): Result<Config> {
    if c.state != Body then Failure(Bodycmd)
    else if c.lstctx == [] then Failure(Listcmd)
    else Success(c.(lstctx := c.lstctx[1..], lstitem := c.lstctx[0].saved))
  }

  function AddItem(c: Config, item: ItemMacro): Result<Config> {
    if c.state != Body then Failure(Bodycmd)
    else if c.lstctx == [] then Failure(Listcmd)
    else if c.lstctx[0].kind != ItemList(item) then Failure(ItemError(item))
    else Success(c.(lstitem := true))
  }

  /** What a macro does to the control part; a failure leaves it as it was. */
  function Step(c: Config, m: Macro): Result<Config> {
    match m
    case ManpageBegin(_, _, _) => if c.state != AtBegin then Failure(Mpbegin) else Success(c.(state := Header))
    case HeaderLine(_, _) => InHeader(c, Header)
    case Description => InHeader(c, Body)
    case ManpageEnd => if c.state != Body then Failure(Bodycmd) else Success(c.(state := Done))
    case Section(_, _) => Heading(c)
    case Subsection(_, _) => Heading(c)
    case Para => InBody(c, Nolisthdr)
    case ListBegin(what) => BeginList(c, what)
    case ListEnd => EndList(c)
    case Item(item, _) => AddItem(c, item)
    case ExampleBegin => BeginExample(c)
    case ExampleEnd => EndExample(c)
    case CodeExample(code) => WholeExample(c, code)
    case Sectref(_, _) => InBody(c, Nolisthdr)
    case SectrefExternal(_) => InBody(c, Nolisthdr)
    case Inline(_, _) => if c.state == Done then Failure(Nodonecmd) else Success(c)
    case Text(text) => PlainText(c, text)
    case Fault(_) => Failure(TclError)
    case Unclosed(_) => Failure(EndInMacro)
  }

  function Heading(c: Config): Result<Config> {
    if c.state != Body then Failure(Bodycmd)
    else if c.lstctx != [] then Failure(Nolistcmd)
    else Success(c)
  }

  /** example runs example_begin, plain_text and example_end in turn. */
  function WholeExample(c: Config, code: string): Result<Config> {
    match BeginExample(c)
    case Failure(e) => Failure(e)
    case Success(d) =>
      match PlainText(d, code)
      case Failure(e) => Failure(e)
      case Success(e) => EndExample(e)
  }

  /** The message code of ck_complete, or none. */
  function Completion(c: Config): Outcome {
    if c.state == Done then (if c.lstctx == [] then Ok else Error(EndOpenList))
    else if c.state == Example then Error(EndOpenExample)
    else Error(EndOpenMp)
  }

  predicate Accepts(doc: seq<Macro>) {
    var r := Run(Step, Initial, doc);
    r.Success? && Completion(r.value) == Ok
  }

  // Bracketing of lists

  function Nesting(doc: seq<Macro>): int {
    if doc == [] then 0
    else
      var m := doc[|doc| - 1];
      Nesting(doc[..|doc| - 1]) + if m.ListBegin? then 1 else if m.ListEnd? then -1 else 0
  }

  /** No list_end of the sequence reaches a list opened before it. */
  predicate Inward(doc: seq<Macro>) {
    forall i :: 0 <= i <= |doc| ==> Nesting(doc[..i]) >= 0
  }

  lemma StepContexts(c: Config, m: Macro)
    requires Step(c, m).Success?
    ensures var d := Step(c, m).value;
            if m.ListBegin? then d.lstctx != [] && d.lstctx[1..] == c.lstctx
            else if m.ListEnd? then c.lstctx != [] && d.lstctx == c.lstctx[1..]
            else d.lstctx == c.lstctx
  {
  }

  lemma {:induction false} InwardKeepsContexts(c: Config, doc: seq<Macro>)
    requires Inward(doc) && Run(Step, c, doc).Success?
    ensures var d := Run(Step, c, doc).value;
            Nesting(doc) >= 0 && |d.lstctx| == |c.lstctx| + Nesting(doc) && d.lstctx[Nesting(doc)..] == c.lstctx
  {
    assert doc[..|doc|] == doc;
    if doc != [] {
      var init := doc[..|doc| - 1];
      forall i | 0 <= i <= |init|
        ensures Nesting(init[..i]) >= 0
      {
        assert init[..i] == doc[..i];
      }
      InwardKeepsContexts(c, init);
      StepContexts(Run(Step, c, init).value, doc[|doc| - 1]);
    }
  }

  /** From a list_begin to its list_end, whatever happens between: contexts and item flag come back. */
  lemma ListIsFrame(c: Config, what: string, inner: seq<Macro>)
    requires Inward(inner) && Nesting(inner) == 0
    requires Run(Step, c, [ListBegin(what)] + inner + [ListEnd]).Success?
    ensures var d := Run(Step, c, [ListBegin(what)] + inner + [ListEnd]).value;
            d.lstctx == c.lstctx && d.lstitem == c.lstitem
  {
    RunSnoc(Step, c, [ListBegin(what)] + inner, ListEnd);
    RunSplits(Step, c, [ListBegin(what)], inner);
    RunOne(Step, c, ListBegin(what));
    InwardKeepsContexts(Step(c, ListBegin(what)).value, inner);
  }

  // What lists and errors look like from outside

  /** The words of list_begin that open a list for an item macro. */
  predicate FitsWord(item: ItemMacro, w: string) {
    match item
    case Def => w == "definitions"
    case Call => w == "definitions"
    case ArgDef => w == "arguments" || w == "arg" || w == "args"
    case CmdDef => w == "commands" || w == "cmd" || w == "cmds"
    case OptDef => w == "options" || w == "opt" || w == "opts"
    case TkoptionDef => w == "tkoptions" || w == "tkoption"
    case Bullet => w == "itemized" || w == "bullet" || w == "item"
    case Enum => w == "enumerated" || w == "enum"
  }

  lemma WordFits(w: string, item: ItemMacro)
    ensures ListType(w) == Some(ItemList(item)) <==> FitsWord(item, w)
  {
  }

  lemma WordKnown(w: string)
    ensures ListType(w).Some? <==> exists item :: FitsWord(item, w)
  {
    WordFits(w, Def);
    WordFits(w, ArgDef);
    WordFits(w, CmdDef);
    WordFits(w, OptDef);
    WordFits(w, TkoptionDef);
    WordFits(w, Bullet);
    WordFits(w, Enum);
    if item :| FitsWord(item, w) {
      WordFits(w, item);
    }
  }

  /** A list may begin where text may, with the words for some item macro and no others. */
  lemma ListWords(c: Config, w: string)
    requires c.state == Body && (c.lstctx == [] || c.lstitem)
    ensures Step(c, ListBegin(w)).Success? <==> exists item :: FitsWord(item, w)
    ensures Step(c, ListBegin(w)).Failure? ==> Step(c, ListBegin(w)) == Failure(Invalidlist)
  {
    WordKnown(w);
  }

  /** In a list, after whatever it held so far, an item is taken in the body exactly if it fits the word of the list. */
  lemma ItemsByWord(c: Config, w: string, inner: seq<Macro>, item: ItemMacro, text: string)
    requires Inward(inner) && Nesting(inner) == 0
    requires Run(Step, c, [ListBegin(w)] + inner).Success?
    ensures var d := Run(Step, c, [ListBegin(w)] + inner).value;
            Step(d, Item(item, text)).Success? <==> d.state == Body && FitsWord(item, w)
  {
    RunSplits(Step, c, [ListBegin(w)], inner);
    RunOne(Step, c, ListBegin(w));
    var inside := Step(c, ListBegin(w)).value;
    InwardKeepsContexts(inside, inner);
    WordFits(w, item);
  }

  /** The complaint of an item macro about a list of another type. */
  lemma ItemRefused(c: Config, w: string, item: ItemMacro, text: string)
    requires Step(c, ListBegin(w)).Success? && !FitsWord(item, w)
    ensures Step(Step(c, ListBegin(w)).value, Item(item, text))
         == Failure(match item
                    case Def => Deflist
                    case Call => Deflist
                    case ArgDef => ArgList
                    case CmdDef => CmdList
                    case OptDef => OptList
                    case TkoptionDef => TkoptionList
                    case Bullet => Bulletlist
                    case Enum => Enumlist)
  {
    WordFits(w, item);
  }

  predicate BodyOnlyMacro(m: Macro) {
    m.ManpageEnd? || m.Section? || m.Subsection? || m.ListEnd? || m.Item? || NotBeforeItem(m)
  }

  /** What may not come between a list_begin and its first item. */
  predicate NotBeforeItem(m: Macro) {
    m.Para? || m.ListBegin? || m.ExampleBegin? || m.CodeExample? || m.Sectref? || m.SectrefExternal?
  }

  /** The first test that fails decides the error: the state, then the lists. */
  lemma Refusals(c: Config, m: Macro)
    ensures m.ManpageBegin? && c.state != AtBegin ==> Step(c, m) == Failure(Mpbegin)
    ensures (m.HeaderLine? || m.Description?) && c.state != Header ==> Step(c, m) == Failure(Hdrcmd)
    ensures BodyOnlyMacro(m) && c.state != Body ==> Step(c, m) == Failure(Bodycmd)
    ensures (m.Section? || m.Subsection?) && c.state == Body && c.lstctx != [] ==> Step(c, m) == Failure(Nolistcmd)
    ensures (m.ListEnd? || m.Item?) && c.state == Body && c.lstctx == [] ==> Step(c, m) == Failure(Listcmd)
    ensures NotBeforeItem(m) && c.state == Body && c.lstctx != [] && !c.lstitem ==> Step(c, m) == Failure(Nolisthdr)
    ensures m.ExampleEnd? && c.state != Example ==> Step(c, m) == Failure(Examplecmd)
    ensures m.Inline? && c.state == Done ==> Step(c, m) == Failure(Nodonecmd)
  {
  }

  /** Text of blanks, tabs and newlines passes everywhere; any other character makes it text. */
  lemma TextPasses(c: Config, text: string)
    ensures Step(c, Text(text))
         == if (forall i :: 0 <= i < |text| ==> text[i] == ' ' || text[i] == '\t' || text[i] == '\n') then Success(c)
            else if c.state == Body || c.state == Example then
              (if c.lstctx != [] && !c.lstitem then Failure(Nolisttxt) else Success(c))
            else Failure(BodyOnly)
  {
  }

  /** A document is accepted if and only if it runs without an error, to its end and out of all lists. */
  lemma Endings(doc: seq<Macro>)
    ensures var r := Run(Step, Initial, doc);
            && (Accepts(doc) <==> r.Success? && r.value.state == Done && r.value.lstctx == [])
            && (r.Success? && !Accepts(doc) ==>
                  Completion(r.value) == Error(if r.value.state == Done then EndOpenList
                                               else if r.value.state == Example then EndOpenExample
                                               else EndOpenMp))
  {
  }
}
