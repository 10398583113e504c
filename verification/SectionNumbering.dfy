/**
 Section ids in the manpage checker: logical ids, physical ids, and what the passes agree on.

 How Tcl writes a list as a string, and which array keys a glob pattern matches, are parameters
 (Naming): the results hold for every choice of them.
 */
module SectionNumbering {
  import opened Machines
  import opened Outcomes

  /**
   one(a) is [list $a], two(a, b) is [list $a $b], and tail(b, k) says whether the glob pattern
   [list * $b] matches the array key k.
   */
  datatype Naming = Naming(one: string -> string, two: (string, string) -> string, tail: (string, string) -> bool)

  datatype Rank = SectionRank | SubsectionRank

  datatype Heading = Heading(rank: Rank, title: string, id: string)

  /** section7 or subsection7, as handed to the formatter. */
  datatype PhysicalId = PhysicalId(rank: Rank, number: nat)

  /** The globals pass, sect, sectt, sectci, and the two counters. */
  datatype Numbers = Numbers(
    pass: nat, sect: map<string, PhysicalId>, sectt: map<string, string>, sectci: Option<string>,
    sections: nat, subsections: nat)

  /** ck_initialize: only the first pass forgets the ids, and no pass forgets the titles. */
  function Begin(n: Numbers, pass: nat): Numbers {
    n.(pass := pass, sect := if pass == 1 then map[] else n.sect, sections := 0, subsections := 0)
  }

  function Logical(nm: Naming, current: Option<string>, h: Heading): Option<string> {
    if h.id != "" then Some(h.id)
    else if h.rank.SectionRank? then Some(nm.one(h.title))
    else match current case Some(ci) => Some(nm.two(ci, h.title)) case None => None
  }

  function Counter(n: Numbers, rank: Rank): nat {
    if rank.SectionRank? then n.sections else n.subsections
  }

  function Tick(n: Numbers, rank: Rank): Numbers {
    if rank.SectionRank? then n.(sections := n.sections + 1) else n.(subsections := n.subsections + 1)
  }

  /** Everything Sectdef writes before it reads sect. */
  function Record(n: Numbers, h: Heading, key: string): Numbers {
    var m := if n.pass == 1
             then Tick(n.(sect := n.sect[key := PhysicalId(h.rank, Counter(n, h.rank) + 1)]), h.rank)
             else n;
    m.(sectt := m.sectt[key := h.title], sectci := if h.rank.SectionRank? then Some(key) else m.sectci)
  }

  /** The numbers so far, with the physical ids that went to the formatter in this pass. */
  datatype Numbering = Numbering(n: Numbers, given: seq<PhysicalId>)

  function Define(nm: Naming, g: Numbering, h: Heading): Result<Numbering> {
    match Logical(nm, g.n.sectci, h)
    case None => Failure(MissingKey)
    case Some(key) =>
      var m := Record(g.n, h, key);
      if key in m.sect then Success(Numbering(m, g.given + [m.sect[key]])) else Failure(MissingKey)
  }

  function DefineAll(nm: Naming, g: Numbering, hs: seq<Heading>): Result<Numbering> {
    Run((g, h) => Define(nm, g, h), g, hs)
  }

  /** All headings of a document, in one pass. */
  function Pass(nm: Naming, n: Numbers, pass: nat, hs: seq<Heading>): Result<Numbering> {
    DefineAll(nm, Numbering(Begin(n, pass), []), hs)
  }

  lemma PassSnoc(nm: Naming, n: Numbers, pass: nat, hs: seq<Heading>, h: Heading)
    ensures Pass(nm, n, pass, hs + [h])
         == match Pass(nm, n, pass, hs) case Success(g) => Define(nm, g, h) case Failure(code) => Failure(code)
  {
    RunSnoc((g, h) => Define(nm, g, h), Numbering(Begin(n, pass), []), hs, h);
  }

  lemma PassSplits(nm: Naming, n: Numbers, pass: nat, a: seq<Heading>, b: seq<Heading>)
    ensures Pass(nm, n, pass, a + b)
         == match Pass(nm, n, pass, a) case Success(g) => DefineAll(nm, g, b) case Failure(code) => Failure(code)
  {
    RunSplits((g, h) => Define(nm, g, h), Numbering(Begin(n, pass), []), a, b);
  }

  /** The ids already given do not matter to the ids still to come. */
  lemma {:induction false} DefineAppends(nm: Naming, now: Numbers, given: seq<PhysicalId>, hs: seq<Heading>)
    ensures DefineAll(nm, Numbering(now, given), hs)
         == match DefineAll(nm, Numbering(now, []), hs)
            case Success(g) => Success(Numbering(g.n, given + g.given))
            case Failure(code) => Failure(code)
  {
    if hs == [] {
      assert given + [] == given;
    } else {
      DefineAppends(nm, now, given, hs[..|hs| - 1]);
      if DefineAll(nm, Numbering(now, []), hs[..|hs| - 1]).Success? {
        var more := DefineAll(nm, Numbering(now, []), hs[..|hs| - 1]).value.given;
        assert forall id :: given + (more + [id]) == given + more + [id];
      }
    }
  }

  // Logical ids depend on the document alone

  /** The logical id of the section a heading would belong to, after all the given headings. */
  function Current(nm: Naming, before: Option<string>, hs: seq<Heading>): Option<string> {
    if hs == [] then before
    else
      var h := hs[|hs| - 1];
      var c := Current(nm, before, hs[..|hs| - 1]);
      if h.rank.SectionRank? then Logical(nm, c, h) else c
  }

  /** A document begins with the heading of its description, which is a section. */
  predicate Rooted(hs: seq<Heading>) {
    hs != [] ==> hs[0].rank.SectionRank?
  }

  lemma {:induction false} CurrentKnown(nm: Naming, before: Option<string>, hs: seq<Heading>)
    requires Rooted(hs) && hs != []
    ensures Current(nm, before, hs).Some? && Current(nm, before, hs) == Current(nm, None, hs)
  {
    var init := hs[..|hs| - 1];
    if init != [] {
      CurrentKnown(nm, before, init);
    }
  }

  /** The logical ids of a document, heading by heading. */
  function Ids(nm: Naming, hs: seq<Heading>): (ids: seq<string>)
    requires Rooted(hs)
    ensures |ids| == |hs|
  {
    if hs == [] then []
    else
      var init, h := hs[..|hs| - 1], hs[|hs| - 1];
      if init != [] then
        CurrentKnown(nm, None, init);
        Ids(nm, init) + [Logical(nm, Current(nm, None, init), h).value]
      else [Logical(nm, None, h).value]
  }

  function Count(hs: seq<Heading>, rank: Rank): nat {
    if hs == [] then 0 else Count(hs[..|hs| - 1], rank) + if hs[|hs| - 1].rank == rank then 1 else 0
  }

  /** Where an id occurs for the last time. */
  function Last(ids: seq<string>, id: string): (i: nat)
    requires id in ids
    ensures i < |ids| && ids[i] == id && id !in ids[i + 1..]
  {
    if ids[|ids| - 1] == id then |ids| - 1
    else
      assert ids == ids[..|ids| - 1] + [ids[|ids| - 1]];
      var i := Last(ids[..|ids| - 1], id);
      assert ids[i + 1..] == ids[..|ids| - 1][i + 1..] + [ids[|ids| - 1]];
      i
  }

  // The first pass

  /** The physical ids of the first pass: headings are counted by rank. */
  function Counted(hs: seq<Heading>): (given: seq<PhysicalId>)
    ensures |given| == |hs|
  {
    if hs == [] then []
    else Counted(hs[..|hs| - 1]) + [PhysicalId(hs[|hs| - 1].rank, Count(hs, hs[|hs| - 1].rank))]
  }

  /** The map is base with these ids added or replaced, each by the value of its last occurrence. */
  ghost predicate Overrides<V>(m: map<string, V>, base: map<string, V>, ids: seq<string>, values: seq<V>)
    requires |ids| == |values|
  {
    && (forall id :: id in m <==> id in ids || id in base)
    && (forall id :: id in ids ==> m[id] == values[Last(ids, id)])
    && (forall id :: id in m && id !in ids ==> m[id] == base[id])
  }

  /** The map holds exactly these ids, each with the value of its last occurrence. */
  ghost predicate LastWins(sect: map<string, PhysicalId>, ids: seq<string>, values: seq<PhysicalId>)
    requires |ids| == |values|
  {
    Overrides(sect, map[], ids, values)
  }

  lemma OverridesSnoc<V>(m: map<string, V>, base: map<string, V>, ids: seq<string>, values: seq<V>, key: string, v: V)
    requires |ids| == |values| && Overrides(m, base, ids, values)
    ensures Overrides(m[key := v], base, ids + [key], values + [v])
  {
    assert (ids + [key])[..|ids|] == ids;
    forall id | id in ids && id != key
      ensures Last(ids + [key], id) == Last(ids, id)
    {
    }
  }

  ghost predicate FirstPassDone(nm: Naming, n: Numbers, hs: seq<Heading>)
    requires Rooted(hs)
  {
    var ids := Ids(nm, hs);
    && n.pass == 1
    && n.sections == Count(hs, SectionRank) && n.subsections == Count(hs, SubsectionRank)
    && LastWins(n.sect, ids, Counted(hs))
    && (hs != [] ==> n.sectci == Current(nm, None, hs))
  }

  /** The first pass never misses a key, and keeps for each logical id the number of its last heading. */
  lemma {:induction false} FirstPass(nm: Naming, n: Numbers, hs: seq<Heading>)
    requires Rooted(hs)
    ensures Pass(nm, n, 1, hs).Success?
    ensures var g := Pass(nm, n, 1, hs).value; g.given == Counted(hs) && FirstPassDone(nm, g.n, hs)
  {
    if hs != [] {
      var init, h := hs[..|hs| - 1], hs[|hs| - 1];
      assert init + [h] == hs;
      FirstPass(nm, n, init);
      PassSnoc(nm, n, 1, init, h);
      FirstPassStep(nm, Pass(nm, n, 1, init).value, init, h);
    }
  }

  lemma FirstPassStep(nm: Naming, g: Numbering, hs: seq<Heading>, h: Heading)
    requires Rooted(hs) && Rooted(hs + [h]) && g.given == Counted(hs) && FirstPassDone(nm, g.n, hs)
    ensures Define(nm, g, h).Success?
    ensures var d := Define(nm, g, h).value; d.given == Counted(hs + [h]) && FirstPassDone(nm, d.n, hs + [h])
  {
    IdsSnoc(nm, hs, h);
    var key := Logical(nm, Current(nm, None, hs), h).value;
    if hs == [] {
      assert Logical(nm, g.n.sectci, h) == Some(key);
    }
    var pid := PhysicalId(h.rank, Counter(g.n, h.rank) + 1);
    OverridesSnoc(g.n.sect, map[], Ids(nm, hs), Counted(hs), key, pid);
    CountedSnoc(hs, h);
    FirstDefine(nm, g, h, key);
  }

  lemma CountedSnoc(hs: seq<Heading>, h: Heading)
    ensures Counted(hs + [h]) == Counted(hs) + [PhysicalId(h.rank, Count(hs, h.rank) + 1)]
    ensures forall rank :: Count(hs + [h], rank) == Count(hs, rank) + if rank == h.rank then 1 else 0
  {
    assert (hs + [h])[..|hs|] == hs;
  }

  /** A heading in the first pass. */
  lemma FirstDefine(nm: Naming, g: Numbering, h: Heading, key: string)
    requires g.n.pass == 1 && Logical(nm, g.n.sectci, h) == Some(key)
    ensures var pid := PhysicalId(h.rank, Counter(g.n, h.rank) + 1);
            var r := Define(nm, g, h);
            && r.Success? && r.value.given == g.given + [pid] && r.value.n.pass == 1
            && r.value.n.sect == g.n.sect[key := pid]
            && r.value.n.sectci == (if h.rank.SectionRank? then Some(key) else g.n.sectci)
            && r.value.n.sections == g.n.sections + (if h.rank.SectionRank? then 1 else 0)
            && r.value.n.subsections == g.n.subsections + (if h.rank.SectionRank? then 0 else 1)
  {
  }

  lemma IdsSnoc(nm: Naming, hs: seq<Heading>, h: Heading)
    requires Rooted(hs + [h]) && Rooted(hs)
    ensures Logical(nm, Current(nm, None, hs), h).Some?
    ensures Ids(nm, hs + [h]) == Ids(nm, hs) + [Logical(nm, Current(nm, None, hs), h).value]
    ensures Current(nm, None, hs + [h])
         == if h.rank.SectionRank? then Logical(nm, Current(nm, None, hs), h) else Current(nm, None, hs)
  {
    assert (hs + [h])[..|hs|] == hs;
    if hs != [] {
      CurrentKnown(nm, None, hs);
    }
  }

  lemma {:induction false} CountGrows(hs: seq<Heading>, i: nat, rank: Rank)
    requires i <= |hs|
    ensures Count(hs[..i], rank) <= Count(hs, rank)
  {
    if i < |hs| {
      CountGrows(hs[..|hs| - 1], i, rank);
      assert hs[..|hs| - 1][..i] == hs[..i];
    } else {
      assert hs[..i] == hs;
    }
  }

  lemma {:induction false} CountedAt(hs: seq<Heading>, i: nat)
    requires i < |hs|
    ensures Counted(hs)[i] == PhysicalId(hs[i].rank, Count(hs[..i + 1], hs[i].rank))
  {
    if i == |hs| - 1 {
      assert hs[..i + 1] == hs;
    } else {
      CountedAt(hs[..|hs| - 1], i);
      assert hs[..|hs| - 1][..i + 1] == hs[..i + 1];
    }
  }

  /** No two headings get the same physical id in the first pass. */
  lemma CountedDistinct(hs: seq<Heading>, i: nat, j: nat)
    requires i < j < |hs|
    ensures Counted(hs)[i] != Counted(hs)[j]
  {
    CountedAt(hs, i);
    CountedAt(hs, j);
    if hs[i].rank == hs[j].rank {
      CountGrows(hs[..j], i + 1, hs[i].rank);
      assert hs[..j][..i + 1] == hs[..i + 1];
      assert hs[..j + 1][..j] == hs[..j];
    }
  }

  // Later passes

  /** What the first pass gave to the last heading with the same logical id. */
  function Resolved(nm: Naming, hs: seq<Heading>, i: nat): PhysicalId
    requires Rooted(hs) && i < |hs|
  {
    var ids := Ids(nm, hs);
    assert ids[i] in ids;
    Counted(hs)[Last(ids, ids[i])]
  }

  lemma {:induction false} IdsPrefix(nm: Naming, hs: seq<Heading>, i: nat)
    requires Rooted(hs) && i <= |hs|
    ensures Ids(nm, hs[..i]) == Ids(nm, hs)[..i]
  {
    if i == |hs| {
      assert hs[..i] == hs;
    } else {
      var init := hs[..|hs| - 1];
      IdsPrefix(nm, init, i);
      assert init[..i] == hs[..i];
      assert Ids(nm, hs)[..i] == Ids(nm, init)[..i];
    }
  }

  /** Where a later pass stands after the first k headings. */
  ghost predicate LaterDone(nm: Naming, n: Numbers, pass: nat, hs: seq<Heading>, k: nat, g: Numbering)
    requires Rooted(hs) && k <= |hs|
  {
    && g.n.sect == n.sect && g.n.pass == pass
    && (k > 0 ==> g.n.sectci == Current(nm, None, hs[..k]))
    && |g.given| == k
    && (forall i :: 0 <= i < k ==> Ids(nm, hs)[i] in n.sect && g.given[i] == n.sect[Ids(nm, hs)[i]])
  }

  /** A later pass over the same document up to its k-th heading: nothing is missing, sect stays. */
  lemma {:induction false} LaterPassUpTo(nm: Naming, n: Numbers, pass: nat, hs: seq<Heading>, k: nat)
    requires Rooted(hs) && pass > 1 && k <= |hs|
    requires forall id :: id in Ids(nm, hs) ==> id in n.sect
    ensures var r := Pass(nm, n, pass, hs[..k]); r.Success? && LaterDone(nm, n, pass, hs, k, r.value)
  {
    if k > 0 {
      LaterPassUpTo(nm, n, pass, hs, k - 1);
      assert hs[..k] == hs[..k - 1] + [hs[k - 1]];
      PassSnoc(nm, n, pass, hs[..k - 1], hs[k - 1]);
      LaterStep(nm, n, pass, hs, k - 1, Pass(nm, n, pass, hs[..k - 1]).value);
    }
  }

  lemma LaterStep(nm: Naming, n: Numbers, pass: nat, hs: seq<Heading>, k: nat, g: Numbering)
    requires Rooted(hs) && pass > 1 && k < |hs|
    requires forall id :: id in Ids(nm, hs) ==> id in n.sect
    requires LaterDone(nm, n, pass, hs, k, g)
    ensures Define(nm, g, hs[k]).Success? && LaterDone(nm, n, pass, hs, k + 1, Define(nm, g, hs[k]).value)
  {
    assert hs[..k + 1] == hs[..k] + [hs[k]];
    IdsPrefix(nm, hs, k + 1);
    IdsSnoc(nm, hs[..k], hs[k]);
    var key := Logical(nm, Current(nm, None, hs[..k]), hs[k]).value;
    assert Ids(nm, hs)[k] == Ids(nm, hs[..k + 1])[k] == key;
    if k == 0 {
      assert Logical(nm, g.n.sectci, hs[k]) == Some(key);
    }
  }

  /** A later pass, from the ids that a first pass over the same document left. */
  lemma LaterPass(nm: Naming, n: Numbers, pass: nat, hs: seq<Heading>)
    requires Rooted(hs) && pass > 1 && LastWins(n.sect, Ids(nm, hs), Counted(hs))
    ensures Pass(nm, n, pass, hs).Success?
    ensures var g := Pass(nm, n, pass, hs).value;
            && g.n.sect == n.sect && |g.given| == |hs|
            && forall i :: 0 <= i < |hs| ==> g.given[i] == Resolved(nm, hs, i)
  {
    LaterPassUpTo(nm, n, pass, hs, |hs|);
    assert hs[..|hs|] == hs;
  }

  /**
   Two passes over one document. No lookup is missing, the ids of the first pass are pairwise
   distinct, each heading of the second pass gets what the first pass gave to the last heading
   with its logical id, and so the passes agree exactly when the logical ids are unique.
   */
  lemma TwoPasses(nm: Naming, n: Numbers, hs: seq<Heading>)
    requires Rooted(hs)
    ensures Pass(nm, n, 1, hs).Success? && Pass(nm, Pass(nm, n, 1, hs).value.n, 2, hs).Success?
    ensures var first := Pass(nm, n, 1, hs).value;
            var second := Pass(nm, first.n, 2, hs).value;
            var ids := Ids(nm, hs);
            && |first.given| == |second.given| == |hs|
            && (forall i, j :: 0 <= i < j < |hs| ==> first.given[i] != first.given[j])
            && (forall i :: 0 <= i < |hs| ==> ids[i] in ids && second.given[i] == first.given[Last(ids, ids[i])])
            && (first.given == second.given <==> Unique(ids))
  {
    FirstPass(nm, n, hs);
    var first := Pass(nm, n, 1, hs).value;
    LaterPass(nm, first.n, 2, hs);
    var second := Pass(nm, first.n, 2, hs).value;
    forall i, j | 0 <= i < j < |hs|
      ensures first.given[i] != first.given[j]
    {
      CountedDistinct(hs, i, j);
    }
    AgreeWhenUnique(Ids(nm, hs), first.given, second.given);
  }

  lemma {:induction false} AgreeWhenUnique(ids: seq<string>, first: seq<PhysicalId>, second: seq<PhysicalId>)
    requires |ids| == |first| == |second|
    requires forall i, j :: 0 <= i < j < |first| ==> first[i] != first[j]
    requires forall i :: 0 <= i < |ids| ==> ids[i] in ids && second[i] == first[Last(ids, ids[i])]
    ensures first == second <==> Unique(ids)
  {
    if first == second {
      forall i, j | 0 <= i < j < |ids|
        ensures ids[i] != ids[j]
      {
        assert ids[i + 1..][j - i - 1] == ids[j];
        assert first[i] == first[Last(ids, ids[i])];
      }
    } else {
      var i :| 0 <= i < |ids| && first[i] != second[i];
      assert ids[Last(ids, ids[i])] == ids[i];
    }
  }

  ghost predicate Unique(ids: seq<string>) {
    forall i, j :: 0 <= i < j < |ids| ==> ids[i] != ids[j]
  }

  // References

  predicate Titled(n: Numbers) {
    forall id :: id in n.sect ==> id in n.sectt
  }

  /** Every heading leaves a title for every id; so a reference that finds an id finds a title. */
  lemma {:induction false} PassTitled(nm: Naming, n: Numbers, pass: nat, hs: seq<Heading>)
    requires pass == 1 || Titled(n)
    requires Pass(nm, n, pass, hs).Success?
    ensures Titled(Pass(nm, n, pass, hs).value.n)
  {
    if hs != [] {
      var init, h := hs[..|hs| - 1], hs[|hs| - 1];
      assert init + [h] == hs;
      PassSnoc(nm, n, pass, init, h);
      PassTitled(nm, n, pass, init);
    }
  }

  function Titles(hs: seq<Heading>): (titles: seq<string>)
    ensures |titles| == |hs| && forall i :: 0 <= i < |hs| ==> titles[i] == hs[i].title
  {
    if hs == [] then [] else Titles(hs[..|hs| - 1]) + [hs[|hs| - 1].title]
  }

  ghost predicate TitlesDone(nm: Naming, n: Numbers, hs: seq<Heading>, m: Numbers)
    requires Rooted(hs)
  {
    && Overrides(m.sectt, n.sectt, Ids(nm, hs), Titles(hs))
    && (hs != [] ==> m.sectci == Current(nm, None, hs))
  }

  /** Any pass leaves for each logical id of the document the title of its last heading, and other titles as they were. */
  lemma {:induction false} PassTitles(nm: Naming, n: Numbers, pass: nat, hs: seq<Heading>)
    requires Rooted(hs) && Pass(nm, n, pass, hs).Success?
    ensures TitlesDone(nm, n, hs, Pass(nm, n, pass, hs).value.n)
  {
    if hs != [] {
      var init, h := hs[..|hs| - 1], hs[|hs| - 1];
      assert init + [h] == hs;
      PassSnoc(nm, n, pass, init, h);
      PassTitles(nm, n, pass, init);
      TitlesStep(nm, n, init, Pass(nm, n, pass, init).value, h);
    }
  }

  lemma {:induction false} TitlesStep(nm: Naming, n: Numbers, hs: seq<Heading>, g: Numbering, h: Heading)
    requires Rooted(hs) && Rooted(hs + [h]) && TitlesDone(nm, n, hs, g.n) && Define(nm, g, h).Success?
    ensures TitlesDone(nm, n, hs + [h], Define(nm, g, h).value.n)
  {
    IdsSnoc(nm, hs, h);
    var key := Logical(nm, Current(nm, None, hs), h).value;
    if hs == [] {
      assert Logical(nm, g.n.sectci, h) == Some(key);
    }
    OverridesSnoc(g.n.sectt, n.sectt, Ids(nm, hs), Titles(hs), key, h.title);
    assert (hs + [h])[..|hs|] == hs;
  }

  function Candidates(nm: Naming, n: Numbers, id: string): set<string> {
    set k | k in n.sect && nm.tail(id, k)
  }

  /** The full ids a reference may be resolved to: one of several when the code picks any of the matches. */
  predicate Target(nm: Naming, n: Numbers, id: string, fid: Option<string>) {
    if id in n.sect then fid == Some(id)
    else if nm.one(id) in n.sect then fid == Some(nm.one(id))
    else if Candidates(nm, n, id) == {} then fid == None
    else if |Candidates(nm, n, id)| > 1 && n.sectci.Some? && nm.two(n.sectci.value, id) in n.sect then
      fid == Some(nm.two(n.sectci.value, id))
    else fid.Some? && fid.value in Candidates(nm, n, id)
  }

  /** The text and the physical id handed to the formatter for a reference to fid. */
  predicate Referred(n: Numbers, id: string, title: string, fid: Option<string>, text: string, pid: Option<PhysicalId>) {
    match fid
    case None => pid == None && text == if title == "" then id else title
    case Some(f) =>
      && f in n.sect && pid == Some(n.sect[f])
      && (title != "" ==> text == title)
      && (title == "" ==> f in n.sectt && text == n.sectt[f])
  }

  /** The numbers in the second pass over a document, after its first k headings. */
  ghost function SecondPassAt(nm: Naming, n: Numbers, hs: seq<Heading>, k: nat): Numbers
    requires Rooted(hs) && k <= |hs|
  {
    FirstPass(nm, n, hs);
    LaterPassUpTo(nm, Pass(nm, n, 1, hs).value.n, 2, hs, k);
    Pass(nm, Pass(nm, n, 1, hs).value.n, 2, hs[..k]).value.n
  }

  /** At any point of the second pass sect is as the first pass left it, and the current section that of the last heading. */
  lemma SecondPassHolds(nm: Naming, n: Numbers, hs: seq<Heading>, k: nat)
    requires Rooted(hs) && k <= |hs|
    ensures LastWins(SecondPassAt(nm, n, hs, k).sect, Ids(nm, hs), Counted(hs))
    ensures k > 0 ==> SecondPassAt(nm, n, hs, k).sectci == Current(nm, None, hs[..k])
  {
    FirstPass(nm, n, hs);
    LaterPassUpTo(nm, Pass(nm, n, 1, hs).value.n, 2, hs, k);
  }

  /**
   In the second pass, at any point of the document, a reference by logical id leads to the physical
   id the pass gives to every heading with that logical id, whether that heading came already or not.
   */
  lemma ForwardReferences(nm: Naming, n: Numbers, hs: seq<Heading>, k: nat, i: nat, fid: Option<string>)
    requires Rooted(hs) && k <= |hs| && i < |hs|
    requires Target(nm, SecondPassAt(nm, n, hs, k), Ids(nm, hs)[i], fid)
    ensures var here := SecondPassAt(nm, n, hs, k);
            fid.Some? && fid.value in here.sect && here.sect[fid.value] == Resolved(nm, hs, i)
  {
    SecondPassHolds(nm, n, hs, k);
  }

  /** At any point of the second pass, a reference without a text of its own gets the title of its heading. */
  lemma ForwardTitles(nm: Naming, n: Numbers, hs: seq<Heading>, k: nat, i: nat)
    requires Rooted(hs) && k <= |hs| && i < |hs| && Unique(Ids(nm, hs))
    ensures var here := SecondPassAt(nm, n, hs, k);
            Ids(nm, hs)[i] in here.sectt && here.sectt[Ids(nm, hs)[i]] == hs[i].title
  {
    var first := SecondPassTitles(nm, n, hs, k);
    TitleOfUnique(first, SecondPassAt(nm, n, hs, k).sectt, n.sectt, Ids(nm, hs), Titles(hs), k, i);
  }

  lemma SecondPassTitles(nm: Naming, n: Numbers, hs: seq<Heading>, k: nat) returns (first: map<string, string>)
    requires Rooted(hs) && k <= |hs|
    ensures Overrides(first, n.sectt, Ids(nm, hs), Titles(hs))
    ensures Overrides(SecondPassAt(nm, n, hs, k).sectt, first, Ids(nm, hs)[..k], Titles(hs)[..k])
  {
    FirstPass(nm, n, hs);
    LaterPassUpTo(nm, Pass(nm, n, 1, hs).value.n, 2, hs, k);
    first := Pass(nm, n, 1, hs).value.n.sectt;
    PassTitles(nm, n, 1, hs);
    PrefixTitles(nm, Pass(nm, n, 1, hs).value.n, 2, hs, k);
  }

  lemma PrefixTitles(nm: Naming, n: Numbers, pass: nat, hs: seq<Heading>, k: nat)
    requires Rooted(hs) && k <= |hs| && Pass(nm, n, pass, hs[..k]).Success?
    ensures Overrides(Pass(nm, n, pass, hs[..k]).value.n.sectt, n.sectt, Ids(nm, hs)[..k], Titles(hs)[..k])
  {
    PassTitles(nm, n, pass, hs[..k]);
    IdsPrefix(nm, hs, k);
    assert Titles(hs[..k]) == Titles(hs)[..k];
  }

  /** Unique ids, written whole and then again up to k: each keeps its own value. */
  lemma TitleOfUnique(first: map<string, string>, here: map<string, string>, base: map<string, string>,
                      ids: seq<string>, titles: seq<string>, k: nat, i: nat)
    requires |ids| == |titles| && k <= |ids| && i < |ids| && Unique(ids)
    requires Overrides(first, base, ids, titles) && Overrides(here, first, ids[..k], titles[..k])
    ensures ids[i] in here && here[ids[i]] == titles[i]
  {
    assert ids[i] in ids && Last(ids, ids[i]) == i;
    if i < k {
      assert ids[..k][i] == ids[i];
      assert Last(ids[..k], ids[i]) == i;
    }
  }

  // Titles of earlier documents

  /** After a first pass, the ids are those with titles exactly when all earlier titles belong to ids of the document. */
  lemma SameKeysIff(nm: Naming, n: Numbers, hs: seq<Heading>)
    requires Rooted(hs)
    ensures Pass(nm, n, 1, hs).Success?
    ensures var m := Pass(nm, n, 1, hs).value.n;
            m.sect.Keys == m.sectt.Keys <==> forall id :: id in n.sectt ==> id in Ids(nm, hs)
  {
    FirstPass(nm, n, hs);
    PassTitles(nm, n, 1, hs);
    var m := Pass(nm, n, 1, hs).value.n;
    if forall id :: id in n.sectt ==> id in Ids(nm, hs) {
      assert forall id :: id in m.sect.Keys <==> id in m.sectt.Keys;
    }
    if m.sect.Keys == m.sectt.Keys {
      forall id | id in n.sectt
        ensures id in Ids(nm, hs)
      {
        assert id in m.sectt.Keys;
      }
    }
  }

  /** An id of one document that the next one does not have: its title stays, without an id. */
  lemma TitleStays(nm: Naming, n: Numbers, hs: seq<Heading>, next: seq<Heading>, id: string)
    requires Rooted(hs) && Rooted(next) && id in Ids(nm, hs) && id !in Ids(nm, next)
    ensures Pass(nm, n, 1, hs).Success? && Pass(nm, Pass(nm, n, 1, hs).value.n, 1, next).Success?
    ensures var m := Pass(nm, Pass(nm, n, 1, hs).value.n, 1, next).value.n; id in m.sectt && id !in m.sect
  {
    FirstPass(nm, n, hs);
    PassTitles(nm, n, 1, hs);
    FirstPass(nm, Pass(nm, n, 1, hs).value.n, next);
    PassTitles(nm, Pass(nm, n, 1, hs).value.n, 1, next);
  }

  const DESCRIBED := Heading(SectionRank, "Description", "description")

  /** A document with one section, and then one without any: the section's title is left. */
  lemma StaleTitle(nm: Naming, n: Numbers)
    ensures var hs, next := [DESCRIBED, Heading(SectionRank, "Usage", "usage")], [DESCRIBED];
            && Pass(nm, n, 1, hs).Success? && Pass(nm, Pass(nm, n, 1, hs).value.n, 1, next).Success?
            && var m := Pass(nm, Pass(nm, n, 1, hs).value.n, 1, next).value.n;
               "usage" in m.sectt && "usage" !in m.sect
  {
    var usage := Heading(SectionRank, "Usage", "usage");
    IdsSnoc(nm, [], DESCRIBED);
    assert [] + [DESCRIBED] == [DESCRIBED];
    IdsSnoc(nm, [DESCRIBED], usage);
    assert [DESCRIBED] + [usage] == [DESCRIBED, usage];
    assert Ids(nm, [DESCRIBED]) == ["description"];
    assert Ids(nm, [DESCRIBED, usage]) == ["description", "usage"];
    assert "usage"[0] != "description"[0];
    TitleStays(nm, n, [DESCRIBED, usage], [DESCRIBED], "usage");
  }

  /**
   A subsection of the current section is found by its title, even when other sections have one of the same
   title, unless the title is itself an id or the title of a section.
   */
  lemma CurrentSectionPreferred(nm: Naming, n: Numbers, title: string, fid: Option<string>)
    requires n.sectci.Some? && nm.two(n.sectci.value, title) in n.sect
    requires title !in n.sect && nm.one(title) !in n.sect
    requires nm.tail(title, nm.two(n.sectci.value, title))
    requires Target(nm, n, title, fid)
    ensures fid == Some(nm.two(n.sectci.value, title))
  {
    var key := nm.two(n.sectci.value, title);
    var cs := Candidates(nm, n, title);
    assert key in cs;
    if |cs| <= 1 {
      assert |cs - {key}| == |cs| - 1;
      assert cs == {key};
    }
  }

  // Ids and references in terms of the headings

  /** j is the last section heading before k. */
  predicate SectionBefore(hs: seq<Heading>, j: nat, k: nat) {
    && j < k <= |hs| && hs[j].rank.SectionRank?
    && forall m :: j < m < k ==> hs[m].rank.SubsectionRank?
  }

  lemma {:induction false} SectionFound(hs: seq<Heading>, k: nat) returns (j: nat)
    requires Rooted(hs) && 0 < k <= |hs|
    ensures SectionBefore(hs, j, k)
  {
    j := k - 1;
    if hs[k - 1].rank.SubsectionRank? {
      j := SectionFound(hs, k - 1);
    }
  }

  /** The current section is the last one before. */
  lemma {:induction false} CurrentIs(nm: Naming, hs: seq<Heading>, j: nat, k: nat)
    requires Rooted(hs) && SectionBefore(hs, j, k)
    ensures Current(nm, None, hs[..k]) == Some(Ids(nm, hs)[j])
  {
    var init, h := hs[..k - 1], hs[k - 1];
    assert hs[..k] == init + [h];
    IdsSnoc(nm, init, h);
    if j < k - 1 {
      CurrentIs(nm, hs, j, k - 1);
    } else {
      IdsPrefix(nm, hs, k);
      assert Ids(nm, hs)[..k][j] == Ids(nm, hs)[j];
    }
  }

  /**
   The logical id of every heading: its own, if it has one; for a section the list of its title; for a subsection the
   list of the id of the last section before it and of its title.
   */
  lemma IdIs(nm: Naming, hs: seq<Heading>, i: nat)
    requires Rooted(hs) && i < |hs|
    ensures hs[i].id != "" ==> Ids(nm, hs)[i] == hs[i].id
    ensures hs[i].id == "" && hs[i].rank.SectionRank? ==> Ids(nm, hs)[i] == nm.one(hs[i].title)
    ensures hs[i].id == "" && hs[i].rank.SubsectionRank? ==>
              exists j: nat :: SectionBefore(hs, j, i) && Ids(nm, hs)[i] == nm.two(Ids(nm, hs)[j], hs[i].title)
  {
    assert hs[..i + 1] == hs[..i] + [hs[i]];
    IdsSnoc(nm, hs[..i], hs[i]);
    IdsPrefix(nm, hs, i + 1);
    assert Ids(nm, hs)[..i + 1][i] == Ids(nm, hs)[i];
    if i > 0 {
      var j := SectionFound(hs, i);
      CurrentIs(nm, hs, j, i);
    }
  }

  /** There is only one such section. */
  lemma SubsectionId(nm: Naming, hs: seq<Heading>, i: nat, j: nat)
    requires Rooted(hs) && i < |hs| && hs[i].id == "" && hs[i].rank.SubsectionRank? && SectionBefore(hs, j, i)
    ensures Ids(nm, hs)[i] == nm.two(Ids(nm, hs)[j], hs[i].title)
  {
    IdIs(nm, hs, i);
    var m: nat :| SectionBefore(hs, m, i) && Ids(nm, hs)[i] == nm.two(Ids(nm, hs)[m], hs[i].title);
    assert m == j;
  }

  /**
   At any point of the second pass, a reference by the title of a subsection without an id of its own, from the same
   section, leads to that subsection, whatever sections and subsections come before or after, unless the title is an
   id itself or that of a section. Of the naming it is assumed that the pattern of the title matches the id of the
   subsection.
   */
  lemma CurrentSectionReference(nm: Naming, n: Numbers, hs: seq<Heading>, k: nat, i: nat, j: nat, fid: Option<string>)
    requires Rooted(hs) && i < |hs| && hs[i].id == "" && hs[i].rank.SubsectionRank?
    requires SectionBefore(hs, j, i) && SectionBefore(hs, j, k)
    requires nm.tail(hs[i].title, nm.two(Ids(nm, hs)[j], hs[i].title))
    requires hs[i].title !in Ids(nm, hs) && nm.one(hs[i].title) !in Ids(nm, hs)
    requires Target(nm, SecondPassAt(nm, n, hs, k), hs[i].title, fid)
    ensures var here := SecondPassAt(nm, n, hs, k);
            && fid == Some(nm.two(Ids(nm, hs)[j], hs[i].title))
            && fid.value in here.sect && here.sect[fid.value] == Resolved(nm, hs, i)
  {
    SecondPassHolds(nm, n, hs, k);
    SubsectionId(nm, hs, i, j);
    CurrentIs(nm, hs, j, k);
    assert Ids(nm, hs)[i] in Ids(nm, hs);
    CurrentSectionPreferred(nm, SecondPassAt(nm, n, hs, k), hs[i].title, fid);
  }

  /** A reference by the title of a section without an id of its own, from anywhere, unless the title is an id. */
  lemma SectionTitleReference(nm: Naming, n: Numbers, hs: seq<Heading>, k: nat, i: nat, fid: Option<string>)
    requires Rooted(hs) && k <= |hs| && i < |hs| && hs[i].id == "" && hs[i].rank.SectionRank?
    requires hs[i].title !in Ids(nm, hs)
    requires Target(nm, SecondPassAt(nm, n, hs, k), hs[i].title, fid)
    ensures var here := SecondPassAt(nm, n, hs, k);
            && fid == Some(nm.one(hs[i].title))
            && fid.value in here.sect && here.sect[fid.value] == Resolved(nm, hs, i)
  {
    SecondPassHolds(nm, n, hs, k);
    IdIs(nm, hs, i);
    assert Ids(nm, hs)[i] in Ids(nm, hs);
  }

  /**
   A reference by what is neither an id nor the title of a section leads nowhere where no id matches its pattern, and
   otherwise to an id that matches; of the naming it is assumed that the pattern matches the keys that end in the text.
   */
  lemma PatternReference(nm: Naming, n: Numbers, hs: seq<Heading>, k: nat, id: string, fid: Option<string>)
    requires Rooted(hs) && k <= |hs| && id !in Ids(nm, hs) && nm.one(id) !in Ids(nm, hs)
    requires forall a :: nm.tail(id, nm.two(a, id))
    requires Target(nm, SecondPassAt(nm, n, hs, k), id, fid)
    ensures match fid
            case None => forall key :: key in Ids(nm, hs) ==> !nm.tail(id, key)
            case Some(key) => key in Ids(nm, hs) && nm.tail(id, key)
  {
    SecondPassHolds(nm, n, hs, k);
    var here := SecondPassAt(nm, n, hs, k);
    NoCandidate(nm, here, id);
    assert forall key :: key in here.sect <==> key in Ids(nm, hs);
  }

  lemma NoCandidate(nm: Naming, n: Numbers, id: string)
    ensures Candidates(nm, n, id) == {} <==> forall key :: key in n.sect ==> !nm.tail(id, key)
  {
    if key :| key in n.sect && nm.tail(id, key) {
      assert key in Candidates(nm, n, id);
    }
  }
}
