/**
 Merging scanned change logs: entries of one day come together, days in decreasing order.

 The array of merge is indexed by date and author joined with a comma, so two days whose joined
 names coincide are taken for one. Merging keeps every day exactly when that does not happen.
 */
module ChangeLogMerge {
  import opened ChangeLog
  import opened Sorting
  import Machines
  import CvsLog

  type Day = (string, string)

  function KeyOf(e: Entry): Day {
    (e.date, e.author)
  }

  /** How array elements are named. Only merge itself joins with a comma; the rest holds for any naming. */
  type Naming = Day -> string

  function Name(d: Day): string {
    CvsLog.DayKey(d)
  }

  /** The variables res and tmp of merge. */
  datatype Pool = Pool(res: seq<Day>, tmp: map<string, seq<Section>>)

  const NOTHING := Pool([], map[])

  function Absorb(nm: Naming, p: Pool, e: Entry): Pool {
    var name := nm(KeyOf(e));
    if name !in p.tmp then Pool(p.res + [KeyOf(e)], p.tmp[name := e.sections])
    else p.(tmp := p.tmp[name := p.tmp[name] + e.sections])
  }

  function AbsorbAll(nm: Naming, p: Pool, es: seq<Entry>): Pool {
    if es == [] then p else Absorb(nm, AbsorbAll(nm, p, es[..|es| - 1]), es[|es| - 1])
  }

  function Listed(nm: Naming, tmp: map<string, seq<Section>>, days: seq<Day>): (r: seq<Entry>)
    requires forall i :: 0 <= i < |days| ==> nm(days[i]) in tmp
    ensures |r| == |days|
    ensures forall i :: 0 <= i < |r| ==> r[i] == Entry(days[i].0, days[i].1, tmp[nm(days[i])])
  {
    if days == [] then []
    else
      var d := days[|days| - 1];
      Listed(nm, tmp, days[..|days| - 1]) + [Entry(d.0, d.1, tmp[nm(d)])]
  }

  /** Every day listed has its sections, every array element belongs to a day listed, and no two listed share one. */
  ghost predicate Sound(nm: Naming, p: Pool) {
    && (forall i :: 0 <= i < |p.res| ==> nm(p.res[i]) in p.tmp)
    && (forall n :: n in p.tmp ==> exists i :: 0 <= i < |p.res| && nm(p.res[i]) == n)
    && (forall i, j :: 0 <= i < j < |p.res| ==> nm(p.res[i]) != nm(p.res[j]))
  }

  lemma AbsorbSound(nm: Naming, p: Pool, e: Entry)
    requires Sound(nm, p)
    ensures Sound(nm, Absorb(nm, p, e))
  {
    var q := Absorb(nm, p, e);
    assert forall i :: 0 <= i < |p.res| ==> q.res[i] == p.res[i];
    if nm(KeyOf(e)) !in p.tmp {
      assert q.res[|p.res|] == KeyOf(e);
    }
  }

  lemma {:induction false} AbsorbAllSound(nm: Naming, p: Pool, es: seq<Entry>)
    requires Sound(nm, p)
    ensures Sound(nm, AbsorbAll(nm, p, es))
  {
    if es != [] {
      AbsorbAllSound(nm, p, es[..|es| - 1]);
      AbsorbSound(nm, AbsorbAll(nm, p, es[..|es| - 1]), es[|es| - 1]);
    }
  }

  lemma SortedNamed(nm: Naming, p: Pool, le: (Day, Day) -> bool)
    requires Sound(nm, p) && TotalOrder(le)
    ensures forall i :: 0 <= i < |SortUnique(p.res, Down(le))| ==> nm(SortUnique(p.res, Down(le))[i]) in p.tmp
  {
    Sorts(p.res, Down(le));
    forall i | 0 <= i < |SortUnique(p.res, Down(le))|
      ensures nm(SortUnique(p.res, Down(le))[i]) in p.tmp
    {
      assert SortUnique(p.res, Down(le))[i] in p.res;
    }
  }

  /** All entries pooled and listed. The days of a pool are distinct, so sorting them needs no -unique. */
  ghost function Pooled(nm: Naming, es: seq<Entry>, le: (Day, Day) -> bool): seq<Entry>
    requires TotalOrder(le)
  {
    AbsorbAllSound(nm, NOTHING, es);
    SortedNamed(nm, AbsorbAll(nm, NOTHING, es), le);
    Listed(nm, AbsorbAll(nm, NOTHING, es).tmp, SortUnique(AbsorbAll(nm, NOTHING, es).res, Down(le)))
  }

  function Flat(logs: seq<seq<Entry>>): seq<Entry> {
    if logs == [] then [] else Flat(logs[..|logs| - 1]) + logs[|logs| - 1]
  }

  /** merge: nothing of nothing, a single log as it is, several pooled. */
  ghost function Merged(logs: seq<seq<Entry>>, le: (Day, Day) -> bool): seq<Entry>
    requires TotalOrder(le)
  {
    if |logs| == 0 then [] else if |logs| == 1 then logs[0] else Pooled(Name, Flat(logs), le)
  }

  method Merge(logs: seq<seq<Entry>>, le: (Day, Day) -> bool) returns (result: seq<Entry>)
    requires TotalOrder(le)
    ensures result == Merged(logs, le)
  {
    if |logs| == 0 { return []; }
    if |logs| == 1 { return logs[0]; }
    var res, tmp := MergeUp(logs);
    AbsorbAllSound(Name, NOTHING, Flat(logs));
    SortedNamed(Name, Pool(res, tmp), le);
    result := ListAll(SortUnique(res, Down(le)), tmp);
  }

  /** The second half of merge: the entries of the array, in the order of the given days. */
  method ListAll(days: seq<Day>, tmp: map<string, seq<Section>>) returns (result: seq<Entry>)
    requires forall i :: 0 <= i < |days| ==> Name(days[i]) in tmp
    ensures result == Listed(Name, tmp, days)
  {
    result := [];
    var i := 0;
    while i < |days|
      invariant 0 <= i <= |days|
      invariant result == Listed(Name, tmp, days[..i])
    {
      assert days[..i + 1][..i] == days[..i];
      result := result + [Entry(days[i].0, days[i].1, tmp[Name(days[i])])];
      i := i + 1;
    }
    assert days[..i] == days;
  }

  /** The first half of merge: all entries of all logs into the array. */
  method MergeUp(logs: seq<seq<Entry>>) returns (res: seq<Day>, tmp: map<string, seq<Section>>)
    ensures Pool(res, tmp) == AbsorbAll(Name, NOTHING, Flat(logs))
  {
    res, tmp := [], map[];
    var i := 0;
    while i < |logs|
      invariant 0 <= i <= |logs|
      invariant Pool(res, tmp) == AbsorbAll(Name, NOTHING, Flat(logs[..i]))
    {
      var j := 0;
      assert Flat(logs[..i]) + logs[i][..0] == Flat(logs[..i]);
      while j < |logs[i]|
        invariant 0 <= j <= |logs[i]|
        invariant Pool(res, tmp) == AbsorbAll(Name, NOTHING, Flat(logs[..i]) + logs[i][..j])
      {
        AbsorbOnward(Flat(logs[..i]), logs[i], j);
        res, tmp := MergeEntry(res, tmp, logs[i][j]);
        j := j + 1;
      }
      assert j == |logs[i]| && logs[i][..j] == logs[i];
      assert logs[..i + 1][..i] == logs[..i];
      i := i + 1;
    }
    assert logs[..i] == logs;
  }

  lemma AbsorbOnward(es: seq<Entry>, log: seq<Entry>, j: nat)
    requires j < |log|
    ensures AbsorbAll(Name, NOTHING, es + log[..j + 1])
         == Absorb(Name, AbsorbAll(Name, NOTHING, es + log[..j]), log[j])
  {
    AbsorbSnoc(Name, NOTHING, es + log[..j], log[j]);
    OneMore(es, log, j);
  }

  lemma OneMore<T>(a: seq<T>, b: seq<T>, j: nat)
    requires j < |b|
    ensures a + b[..j] + [b[j]] == a + b[..j + 1]
  {
  }

  /** One entry: a new array element, or its sections appended one by one. */
  method MergeEntry(res: seq<Day>, tmp: map<string, seq<Section>>, e: Entry)
    returns (res': seq<Day>, tmp': map<string, seq<Section>>)
    ensures Pool(res', tmp') == Absorb(Name, Pool(res, tmp), e)
  {
    var name := Name(KeyOf(e));
    res', tmp' := res, tmp;
    if name !in tmp {
      res' := res + [KeyOf(e)];
      tmp' := tmp[name := e.sections];
    } else {
      var k := 0;
      assert tmp[name] + e.sections[..0] == tmp[name];
      while k < |e.sections|
        invariant 0 <= k <= |e.sections|
        invariant tmp' == tmp[name := tmp[name] + e.sections[..k]]
      {
        assert tmp[name] + e.sections[..k] + [e.sections[k]] == tmp[name] + e.sections[..k + 1];
        tmp' := tmp'[name := tmp'[name] + [e.sections[k]]];
        k := k + 1;
      }
      assert e.sections[..k] == e.sections;
    }
  }

  lemma AbsorbSnoc(nm: Naming, p: Pool, es: seq<Entry>, e: Entry)
    ensures AbsorbAll(nm, p, es + [e]) == Absorb(nm, AbsorbAll(nm, p, es), e)
  {
    assert (es + [e])[..|es|] == es;
  }

  // What merging keeps

  /** All sections of a day, in the order of its entries. */
  function SectionsFor(es: seq<Entry>, d: Day): seq<Section> {
    if es == [] then []
    else
      var e := es[|es| - 1];
      SectionsFor(es[..|es| - 1], d) + if KeyOf(e) == d then e.sections else []
  }

  predicate Mentions(es: seq<Entry>, d: Day) {
    exists i :: 0 <= i < |es| && KeyOf(es[i]) == d
  }

  /** No two different days have the same name. */
  predicate NoClash(nm: Naming, es: seq<Entry>) {
    forall i, j :: 0 <= i < |es| && 0 <= j < |es| && nm(KeyOf(es[i])) == nm(KeyOf(es[j])) ==> KeyOf(es[i]) == KeyOf(es[j])
  }

  predicate CommaFreeDates(es: seq<Entry>) {
    forall i :: 0 <= i < |es| ==> CvsLog.NoComma(es[i].date)
  }

  lemma CommaFreeNoClash(es: seq<Entry>)
    requires CommaFreeDates(es)
    ensures NoClash(Name, es)
  {
    forall i, j | 0 <= i < |es| && 0 <= j < |es| && Name(KeyOf(es[i])) == Name(KeyOf(es[j]))
      ensures KeyOf(es[i]) == KeyOf(es[j])
    {
      CvsLog.JoinInjective(es[i].date, es[i].author, es[j].date, es[j].author);
    }
  }

  /** The pool holds the days mentioned, and for each of them its sections. */
  ghost predicate Holds(nm: Naming, p: Pool, es: seq<Entry>) {
    && (forall d :: d in p.res <==> Mentions(es, d))
    && (forall d :: d in p.res ==> nm(d) in p.tmp && p.tmp[nm(d)] == SectionsFor(es, d))
    && (forall n :: n in p.tmp ==> exists d :: d in p.res && nm(d) == n)
  }

  lemma {:induction false} AbsorbAllHolds(nm: Naming, es: seq<Entry>)
    requires NoClash(nm, es)
    ensures Holds(nm, AbsorbAll(nm, NOTHING, es), es)
  {
    if es != [] {
      var init, e := es[..|es| - 1], es[|es| - 1];
      assert es == init + [e];
      assert forall i :: 0 <= i < |init| ==> init[i] == es[i];
      AbsorbAllHolds(nm, init);
      AbsorbHolds(nm, AbsorbAll(nm, NOTHING, init), init, e);
    }
  }

  lemma MentionsSnoc(es: seq<Entry>, e: Entry, d: Day)
    ensures Mentions(es + [e], d) <==> Mentions(es, d) || KeyOf(e) == d
    ensures SectionsFor(es + [e], d) == SectionsFor(es, d) + if KeyOf(e) == d then e.sections else []
  {
    assert (es + [e])[..|es|] == es && (es + [e])[|es|] == e;
    assert forall i :: 0 <= i < |es| ==> (es + [e])[i] == es[i];
  }

  lemma {:induction false} NotMentioned(es: seq<Entry>, d: Day)
    requires !Mentions(es, d)
    ensures SectionsFor(es, d) == []
  {
    if es != [] {
      assert KeyOf(es[|es| - 1]) != d;
      NotMentioned(es[..|es| - 1], d);
    }
  }

  lemma AbsorbHolds(nm: Naming, p: Pool, es: seq<Entry>, e: Entry)
    requires Holds(nm, p, es) && NoClash(nm, es + [e])
    ensures Holds(nm, Absorb(nm, p, e), es + [e])
  {
    var all, k := es + [e], KeyOf(e);
    forall d
      ensures Mentions(all, d) <==> Mentions(es, d) || k == d
      ensures SectionsFor(all, d) == SectionsFor(es, d) + if k == d then e.sections else []
    {
      MentionsSnoc(es, e, d);
    }
    forall d | Mentions(es, d) && nm(d) == nm(k)
      ensures d == k
    {
      SameNameSameDay(nm, es, e, d);
    }
    if nm(k) in p.tmp {
      var d :| d in p.res && nm(d) == nm(k);
      assert Mentions(es, d);
      AbsorbOld(nm, p, es, e);
    } else {
      assert k !in p.res;
      NotMentioned(es, k);
      AbsorbNew(nm, p, es, e);
    }
  }

  lemma SameNameSameDay(nm: Naming, es: seq<Entry>, e: Entry, d: Day)
    requires NoClash(nm, es + [e]) && Mentions(es, d) && nm(d) == nm(KeyOf(e))
    ensures d == KeyOf(e)
  {
    var all := es + [e];
    var i :| 0 <= i < |es| && KeyOf(es[i]) == d;
    assert all[i] == es[i] && all[|es|] == e;
  }

  /** What the day mentioned last adds to the sections of each day. */
  ghost predicate Adds(es: seq<Entry>, e: Entry) {
    && (forall d :: Mentions(es + [e], d) <==> Mentions(es, d) || KeyOf(e) == d)
    && (forall d :: SectionsFor(es + [e], d) == SectionsFor(es, d) + if KeyOf(e) == d then e.sections else [])
  }

  lemma AbsorbOld(nm: Naming, p: Pool, es: seq<Entry>, e: Entry)
    requires Holds(nm, p, es) && Adds(es, e) && KeyOf(e) in p.res
    requires forall d :: d in p.res && nm(d) == nm(KeyOf(e)) ==> d == KeyOf(e)
    ensures Holds(nm, Absorb(nm, p, e), es + [e])
  {
    var q := Absorb(nm, p, e);
    forall d | d in q.res
      ensures nm(d) in q.tmp && q.tmp[nm(d)] == SectionsFor(es + [e], d)
    {
      assert d != KeyOf(e) ==> SectionsFor(es, d) + [] == SectionsFor(es, d);
    }
  }

  lemma AbsorbNew(nm: Naming, p: Pool, es: seq<Entry>, e: Entry)
    requires Holds(nm, p, es) && Adds(es, e) && nm(KeyOf(e)) !in p.tmp && SectionsFor(es, KeyOf(e)) == []
    ensures Holds(nm, Absorb(nm, p, e), es + [e])
  {
    var q, k := Absorb(nm, p, e), KeyOf(e);
    assert q == Pool(p.res + [k], p.tmp[nm(k) := e.sections]);
    assert forall d :: d in q.res <==> d in p.res || d == k;
    forall d | d in q.res
      ensures nm(d) in q.tmp && q.tmp[nm(d)] == SectionsFor(es + [e], d)
    {
      AbsorbNewAt(nm, p, es, e, d);
    }
    forall n | n in q.tmp
      ensures exists d :: d in q.res && nm(d) == n
    {
      var d :| (d in p.res || d == k) && nm(d) == n;
      assert d in q.res;
    }
  }

  /** The sections of one day after a new element came. */
  lemma AbsorbNewAt(nm: Naming, p: Pool, es: seq<Entry>, e: Entry, d: Day)
    requires nm(KeyOf(e)) !in p.tmp && SectionsFor(es, KeyOf(e)) == []
    requires SectionsFor(es + [e], d) == SectionsFor(es, d) + if KeyOf(e) == d then e.sections else []
    requires d == KeyOf(e) || (nm(d) in p.tmp && p.tmp[nm(d)] == SectionsFor(es, d))
    ensures var tmp := p.tmp[nm(KeyOf(e)) := e.sections]; nm(d) in tmp && tmp[nm(d)] == SectionsFor(es + [e], d)
  {
    if d == KeyOf(e) {
      assert [] + e.sections == e.sections;
    } else {
      assert SectionsFor(es, d) + [] == SectionsFor(es, d);
    }
  }

  /** What pooling gives: the days mentioned, each once, in decreasing order, with all their sections. */
  ghost predicate Flattens(result: seq<Entry>, es: seq<Entry>, le: (Day, Day) -> bool) {
    && (forall i, j :: 0 <= i < j < |result| ==>
          KeyOf(result[i]) != KeyOf(result[j]) && le(KeyOf(result[j]), KeyOf(result[i])))
    && (forall d :: Mentions(result, d) <==> Mentions(es, d))
    && (forall i :: 0 <= i < |result| ==> result[i].sections == SectionsFor(es, KeyOf(result[i])))
  }

  /** The days of a pooled list are those of the pool, sorted, and each carries its array element. */
  lemma PooledKeys(nm: Naming, es: seq<Entry>, le: (Day, Day) -> bool)
    requires TotalOrder(le)
    ensures Sound(nm, AbsorbAll(nm, NOTHING, es)) && StrictlySorted(Keys(Pooled(nm, es, le)), Down(le))
    ensures forall d :: Mentions(Pooled(nm, es, le), d) <==> d in AbsorbAll(nm, NOTHING, es).res
    ensures forall i :: 0 <= i < |Pooled(nm, es, le)| ==>
              var e := Pooled(nm, es, le)[i];
              nm(KeyOf(e)) in AbsorbAll(nm, NOTHING, es).tmp
              && e.sections == AbsorbAll(nm, NOTHING, es).tmp[nm(KeyOf(e))]
  {
    AbsorbAllSound(nm, NOTHING, es);
    PooledDays(nm, es, le);
    PooledElements(nm, es, le);
    var res := AbsorbAll(nm, NOTHING, es).res;
    forall d
      ensures Mentions(Pooled(nm, es, le), d) <==> d in res
    {
      KeysMention(Pooled(nm, es, le), d);
    }
  }

  lemma PooledElements(nm: Naming, es: seq<Entry>, le: (Day, Day) -> bool)
    requires TotalOrder(le)
    ensures forall i :: 0 <= i < |Pooled(nm, es, le)| ==>
              var e := Pooled(nm, es, le)[i];
              nm(KeyOf(e)) in AbsorbAll(nm, NOTHING, es).tmp
              && e.sections == AbsorbAll(nm, NOTHING, es).tmp[nm(KeyOf(e))]
  {
    AbsorbAllSound(nm, NOTHING, es);
    SortedNamed(nm, AbsorbAll(nm, NOTHING, es), le);
  }

  lemma PooledDays(nm: Naming, es: seq<Entry>, le: (Day, Day) -> bool)
    requires TotalOrder(le)
    ensures var res := AbsorbAll(nm, NOTHING, es).res;
            && Keys(Pooled(nm, es, le)) == SortUnique(res, Down(le)) && StrictlySorted(SortUnique(res, Down(le)), Down(le))
            && forall d :: d in SortUnique(res, Down(le)) <==> d in res
  {
    AbsorbAllSound(nm, NOTHING, es);
    SortedNamed(nm, AbsorbAll(nm, NOTHING, es), le);
    Sorts(AbsorbAll(nm, NOTHING, es).res, Down(le));
  }

  lemma PooledFlattens(nm: Naming, es: seq<Entry>, le: (Day, Day) -> bool)
    requires TotalOrder(le) && NoClash(nm, es)
    ensures Flattens(Pooled(nm, es, le), es, le)
  {
    var p, result := AbsorbAll(nm, NOTHING, es), Pooled(nm, es, le);
    AbsorbAllHolds(nm, es);
    PooledKeys(nm, es, le);
    forall i, j | 0 <= i < j < |result|
      ensures KeyOf(result[i]) != KeyOf(result[j]) && le(KeyOf(result[j]), KeyOf(result[i]))
    {
      assert Keys(result)[i] == KeyOf(result[i]) && Keys(result)[j] == KeyOf(result[j]);
    }
    forall i | 0 <= i < |result|
      ensures result[i].sections == SectionsFor(es, KeyOf(result[i]))
    {
      assert Mentions(result, KeyOf(result[i]));
    }
  }

  /** The two laws pin the result down. */
  lemma FlattensOnce(r: seq<Entry>, s: seq<Entry>, es: seq<Entry>, le: (Day, Day) -> bool)
    requires TotalOrder(le) && Flattens(r, es, le) && Flattens(s, es, le)
    ensures r == s
  {
    var a, b := Keys(r), Keys(s);
    forall d
      ensures d in a <==> d in b
    {
      KeysMention(r, d);
      KeysMention(s, d);
      assert Mentions(r, d) <==> Mentions(es, d);
      assert Mentions(s, d) <==> Mentions(es, d);
    }
    SortedIsUnique(a, b, Down(le));
    assert |r| == |a| == |b| == |s|;
    forall i | 0 <= i < |r|
      ensures r[i] == s[i]
    {
      assert KeyOf(r[i]) == a[i] == b[i] == KeyOf(s[i]);
    }
  }

  function Keys(es: seq<Entry>): (r: seq<Day>)
    ensures |r| == |es|
    ensures forall i :: 0 <= i < |es| ==> r[i] == KeyOf(es[i])
  {
    if es == [] then [] else Keys(es[..|es| - 1]) + [KeyOf(es[|es| - 1])]
  }

  lemma KeysMention(es: seq<Entry>, d: Day)
    ensures d in Keys(es) <==> Mentions(es, d)
  {
    if d in Keys(es) {
      var i :| 0 <= i < |es| && Keys(es)[i] == d;
      assert KeyOf(es[i]) == d;
    }
  }

  /** Fewer logs are left as they are. */
  lemma MergeFew(log: seq<Entry>, le: (Day, Day) -> bool)
    requires TotalOrder(le)
    ensures Merged([], le) == [] && Merged([log], le) == log
  {
  }

  /** Merging two or more logs flattens them. */
  lemma MergeFlattens(logs: seq<seq<Entry>>, le: (Day, Day) -> bool)
    requires |logs| >= 2 && TotalOrder(le) && NoClash(Name, Flat(logs))
    ensures Flattens(Merged(logs, le), Flat(logs), le)
  {
    PooledFlattens(Name, Flat(logs), le);
  }

  /** Every day of two or more merged logs is in the result exactly when no two of them share a name. */
  lemma DaysKeptIff(logs: seq<seq<Entry>>, le: (Day, Day) -> bool)
    requires |logs| >= 2 && TotalOrder(le)
    ensures (forall d :: Mentions(Flat(logs), d) ==> Mentions(Merged(logs, le), d)) <==> NoClash(Name, Flat(logs))
  {
    var es, result := Flat(logs), Merged(logs, le);
    if NoClash(Name, es) {
      PooledFlattens(Name, es, le);
    } else {
      var i, j :| 0 <= i < |es| && 0 <= j < |es| && Name(KeyOf(es[i])) == Name(KeyOf(es[j])) && KeyOf(es[i]) != KeyOf(es[j]);
      assert Mentions(es, KeyOf(es[i])) && Mentions(es, KeyOf(es[j]));
      NotBoth(Name, es, le, KeyOf(es[i]), KeyOf(es[j]));
    }
  }

  /** Two logs with one entry each, whose days have the same name: the second day's sections are listed under the first. */
  lemma ClashMerged(a: Entry, b: Entry, le: (Day, Day) -> bool)
    requires TotalOrder(le) && Name(KeyOf(a)) == Name(KeyOf(b))
    ensures Merged([[a], [b]], le) == [Entry(a.date, a.author, a.sections + b.sections)]
  {
    var es, d := [a, b], KeyOf(a);
    assert [[a], [b]][..1] == [[a]] && [[a]][..0] == [];
    assert Flat([[a]]) == [a];
    assert Flat([[a], [b]]) == es;
    assert es[..1] == [a] && [a][..0] == [];
    assert AbsorbAll(Name, NOTHING, [a]) == Pool([d], map[Name(d) := a.sections]);
    var p := AbsorbAll(Name, NOTHING, es);
    assert p.res == [d] && Name(d) in p.tmp && p.tmp[Name(d)] == a.sections + b.sections;
    assert SortUnique(p.res, Down(le)) == [d] by {
      assert [d][..0] == [];
    }
    assert [d][..0] == [];
  }

  /** Commas in dates and authors can make that happen. */
  lemma DayLost(x: seq<Section>, y: seq<Section>, le: (Day, Day) -> bool)
    requires TotalOrder(le)
    ensures Merged([[Entry("a", "b,c", x)], [Entry("a,b", "c", y)]], le) == [Entry("a", "b,c", x + y)]
  {
    assert CvsLog.DayKey(("a", "b,c")) == CvsLog.DayKey(("a,b", "c"));
    ClashMerged(Entry("a", "b,c", x), Entry("a,b", "c", y), le);
  }

  lemma NotBoth(nm: Naming, es: seq<Entry>, le: (Day, Day) -> bool, d: Day, e: Day)
    requires TotalOrder(le) && nm(d) == nm(e) && d != e
    ensures !Mentions(Pooled(nm, es, le), d) || !Mentions(Pooled(nm, es, le), e)
  {
    var p := AbsorbAll(nm, NOTHING, es);
    PooledKeys(nm, es, le);
    if d in p.res && e in p.res {
      NamesApart(nm, p, d, e);
    }
  }

  lemma NamesApart(nm: Naming, p: Pool, d: Day, e: Day)
    requires Sound(nm, p) && d in p.res && e in p.res && nm(d) == nm(e)
    ensures d == e
  {
    var i :| 0 <= i < |p.res| && p.res[i] == d;
    var j :| 0 <= j < |p.res| && p.res[j] == e;
    assert i == j;
  }

  // Associativity

  lemma {:induction false} SectionsForSplits(a: seq<Entry>, b: seq<Entry>, d: Day)
    ensures SectionsFor(a + b, d) == SectionsFor(a, d) + SectionsFor(b, d)
    ensures Mentions(a + b, d) <==> Mentions(a, d) || Mentions(b, d)
    decreases b
  {
    if b == [] {
      assert a + b == a && SectionsFor(a, d) + [] == SectionsFor(a, d);
    } else {
      var init, e := b[..|b| - 1], b[|b| - 1];
      SectionsForSplits(a, init, d);
      MentionsAfter(a, b, d);
      MentionsSnoc(init, e, d);
      assert init + [e] == b;
      var last := if KeyOf(e) == d then e.sections else [];
      Machines.Regroup(SectionsFor(a, d), SectionsFor(init, d), last);
    }
  }

  /** The last entry of two lists in a row. */
  lemma MentionsAfter(a: seq<Entry>, b: seq<Entry>, d: Day)
    requires b != []
    ensures var init, e := b[..|b| - 1], b[|b| - 1];
            && (Mentions(a + b, d) <==> Mentions(a + init, d) || KeyOf(e) == d)
            && SectionsFor(a + b, d) == SectionsFor(a + init, d) + if KeyOf(e) == d then e.sections else []
  {
    var init, e := b[..|b| - 1], b[|b| - 1];
    assert a + b == a + init + [e];
    MentionsSnoc(a + init, e, d);
  }

  /** In a list that mentions no day twice, the sections of a day are those of its only entry. */
  lemma {:induction false} SectionsOfOnly(es: seq<Entry>, i: nat)
    requires i < |es| && forall a, b :: 0 <= a < b < |es| ==> KeyOf(es[a]) != KeyOf(es[b])
    ensures SectionsFor(es, KeyOf(es[i])) == es[i].sections
  {
    var init, e := es[..|es| - 1], es[|es| - 1];
    if i == |es| - 1 {
      assert forall a :: 0 <= a < |init| ==> init[a] == es[a];
      NotMentioned(init, KeyOf(e));
    } else {
      assert KeyOf(es[i]) != KeyOf(e);
      SectionsOfOnly(init, i);
    }
  }

  /** A flattened list stands for the list it came from, wherever it is put. */
  lemma FlattenedStandsFor(result: seq<Entry>, es: seq<Entry>, le: (Day, Day) -> bool, d: Day)
    requires Flattens(result, es, le)
    ensures SectionsFor(result, d) == SectionsFor(es, d) && (Mentions(result, d) <==> Mentions(es, d))
  {
    assert Mentions(result, d) <==> Mentions(es, d);
    if Mentions(result, d) {
      var i :| 0 <= i < |result| && KeyOf(result[i]) == d;
      SectionsOfOnly(result, i);
    } else {
      NotMentioned(result, d);
      NotMentioned(es, d);
    }
  }

  /** Pooling lists that stand for each other gives the same. */
  lemma PooledAlike(nm: Naming, a: seq<Entry>, b: seq<Entry>, le: (Day, Day) -> bool)
    requires TotalOrder(le) && NoClash(nm, b)
    requires forall d :: SectionsFor(a, d) == SectionsFor(b, d) && (Mentions(a, d) <==> Mentions(b, d))
    ensures NoClash(nm, a) && Pooled(nm, a, le) == Pooled(nm, b, le)
  {
    forall i, j | 0 <= i < |a| && 0 <= j < |a| && nm(KeyOf(a[i])) == nm(KeyOf(a[j]))
      ensures KeyOf(a[i]) == KeyOf(a[j])
    {
      assert Mentions(a, KeyOf(a[i])) && Mentions(a, KeyOf(a[j]));
      assert Mentions(b, KeyOf(a[i])) && Mentions(b, KeyOf(a[j]));
      var x :| 0 <= x < |b| && KeyOf(b[x]) == KeyOf(a[i]);
      var y :| 0 <= y < |b| && KeyOf(b[y]) == KeyOf(a[j]);
    }
    PooledFlattens(nm, a, le);
    PooledFlattens(nm, b, le);
    assert Flattens(Pooled(nm, a, le), b, le) by {
      assert forall d :: Mentions(Pooled(nm, a, le), d) <==> Mentions(a, d);
    }
    FlattensOnce(Pooled(nm, a, le), Pooled(nm, b, le), b, le);
  }

  lemma FlatOf(a: seq<Entry>, b: seq<Entry>, c: seq<Entry>)
    ensures Flat([a, b]) == a + b
    ensures Flat([a, b, c]) == a + b + c
  {
    assert [a, b, c][..2] == [a, b] && [a, b][..1] == [a] && [a][..0] == [];
    assert Flat([a]) == [] + a;
  }

  lemma NoClashParts(nm: Naming, a: seq<Entry>, b: seq<Entry>)
    requires NoClash(nm, a + b)
    ensures NoClash(nm, a) && NoClash(nm, b)
  {
    assert forall i :: 0 <= i < |a| ==> (a + b)[i] == a[i];
    assert forall i :: 0 <= i < |b| ==> (a + b)[|a| + i] == b[i];
  }

  /** Merging in two steps, from either side, is merging at once. */
  lemma MergeAssociates(a: seq<Entry>, b: seq<Entry>, c: seq<Entry>, le: (Day, Day) -> bool)
    requires TotalOrder(le) && NoClash(Name, a + b + c)
    ensures Merged([Merged([a, b], le), c], le) == Merged([a, b, c], le)
    ensures Merged([a, Merged([b, c], le)], le) == Merged([a, b, c], le)
  {
    FlatOf(a, b, c);
    FlatOf(b, c, []);
    assert a + b + c == a + (b + c);
    NoClashParts(Name, a + b, c);
    NoClashParts(Name, a, b + c);
    var ab, bc := Pooled(Name, a + b, le), Pooled(Name, b + c, le);
    FlatOf(ab, c, []);
    FlatOf(a, bc, []);
    PooledFlattens(Name, a + b, le);
    PooledFlattens(Name, b + c, le);
    forall d
      ensures SectionsFor(ab + c, d) == SectionsFor(a + b + c, d) && (Mentions(ab + c, d) <==> Mentions(a + b + c, d))
      ensures SectionsFor(a + bc, d) == SectionsFor(a + b + c, d) && (Mentions(a + bc, d) <==> Mentions(a + b + c, d))
    {
      FlattenedStandsFor(ab, a + b, le, d);
      FlattenedStandsFor(bc, b + c, le, d);
      SectionsForSplits(ab, c, d);
      SectionsForSplits(a + b, c, d);
      SectionsForSplits(a, bc, d);
      SectionsForSplits(a, b + c, d);
    }
    PooledAlike(Name, ab + c, a + b + c, le);
    PooledAlike(Name, a + bc, a + b + c, le);
  }
}
