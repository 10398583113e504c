/**
 Bitmaps of arbitrary size: the bit macros, on an array of words, against a plain set of indices.

 A word is the sequence of its 64 bits, lowest first, as where _LP64 is defined, and the bitwise operators work
 bit by bit.
 */
module Bitmap {

  type Word = seq<bool>

  const BT_NBIPUL: nat := 64

  function Or(a: Word, b: Word): (r: Word)
    requires |a| == |b|
    ensures |r| == |a| && forall k :: 0 <= k < |a| ==> r[k] == (a[k] || b[k])
  {
    if a == [] then [] else [a[0] || b[0]] + Or(a[1..], b[1..])
  }

  function And(a: Word, b: Word): (r: Word)
    requires |a| == |b|
    ensures |r| == |a| && forall k :: 0 <= k < |a| ==> r[k] == (a[k] && b[k])
  {
    if a == [] then [] else [a[0] && b[0]] + And(a[1..], b[1..])
  }

  function Not(a: Word): (r: Word)
    ensures |r| == |a| && forall k :: 0 <= k < |a| ==> r[k] == !a[k]
  {
    if a == [] then [] else [!a[0]] + Not(a[1..])
  }

  predicate NonZero(w: Word) {
    exists k :: 0 <= k < |w| && w[k]
  }

  /** 1UL shifted left, in a word of the given width. */
  function OneShifted(width: nat, n: nat): (r: Word)
    ensures |r| == width && forall k :: 0 <= k < width ==> r[k] == (k == n)
  {
    if width == 0 then [] else OneShifted(width - 1, n) + [width - 1 == n]
  }

  /** BT_BIW: the bit in its word. */
  function Biw(bitindex: nat): (r: Word)
    ensures |r| == BT_NBIPUL
  {
    OneShifted(BT_NBIPUL, bitindex % BT_NBIPUL)
  }

  predicate InMap(words: seq<Word>, i: nat)
  {
    i / BT_NBIPUL < |words| && |words[i / BT_NBIPUL]| == BT_NBIPUL
  }

  predicate WellSized(words: seq<Word>) {
    forall k :: 0 <= k < |words| ==> |words[k]| == BT_NBIPUL
  }

  /** BT_TEST */
  predicate Test(words: seq<Word>, i: nat)
    requires InMap(words, i)
  {
    NonZero(And(words[i / BT_NBIPUL], Biw(i)))
  }

  function WithSet(words: seq<Word>, i: nat): (r: seq<Word>)
    requires InMap(words, i)
  {
    words[i / BT_NBIPUL := Or(words[i / BT_NBIPUL], Biw(i))]
  }

  function WithClear(words: seq<Word>, i: nat): (r: seq<Word>)
    requires InMap(words, i)
  {
    words[i / BT_NBIPUL := And(words[i / BT_NBIPUL], Not(Biw(i)))]
  }

  /** The indices that a map holds. */
  ghost function Members(words: seq<Word>): iset<nat>
  {
    iset i: nat | InMap(words, i) && Test(words, i)
  }

  lemma TestIsBit(words: seq<Word>, i: nat)
    requires InMap(words, i)
    ensures Test(words, i) <==> words[i / BT_NBIPUL][i % BT_NBIPUL]
  {
    var w, m := words[i / BT_NBIPUL], Biw(i);
    assert And(w, m)[i % BT_NBIPUL] == w[i % BT_NBIPUL];
  }

  /** Setting or clearing a bit decides that bit, and no other one in any word. */
  lemma OnlyOneBit(words: seq<Word>, i: nat, j: nat)
    requires InMap(words, i) && InMap(words, j)
    ensures InMap(WithSet(words, i), j) && InMap(WithClear(words, i), j)
    ensures Test(WithSet(words, i), j) <==> j == i || Test(words, j)
    ensures Test(WithClear(words, i), j) <==> j != i && Test(words, j)
  {
    TestIsBit(words, j);
    TestIsBit(WithSet(words, i), j);
    TestIsBit(WithClear(words, i), j);
    if i / BT_NBIPUL == j / BT_NBIPUL && i % BT_NBIPUL == j % BT_NBIPUL {
    }
  }

  lemma SetAdds(words: seq<Word>, i: nat)
    requires InMap(words, i)
    ensures Members(WithSet(words, i)) == Members(words) + iset{i}
    ensures Members(WithClear(words, i)) == Members(words) - iset{i}
  {
    forall j: nat
      ensures j in Members(WithSet(words, i)) <==> j == i || j in Members(words)
      ensures j in Members(WithClear(words, i)) <==> j != i && j in Members(words)
    {
      if InMap(words, j) {
        OnlyOneBit(words, i, j);
      }
    }
  }

  // Runs of operations

  datatype Op = Set(i: nat) | Clear(i: nat)

  predicate AllInMap(words: seq<Word>, ops: seq<Op>)
  {
    WellSized(words) && forall k :: 0 <= k < |ops| ==> ops[k].i / BT_NBIPUL < |words|
  }

  function After(words: seq<Word>, ops: seq<Op>): (r: seq<Word>)
    requires AllInMap(words, ops)
    ensures |r| == |words| && WellSized(r)
  {
    if ops == [] then words
    else
      var before := After(words, ops[..|ops| - 1]);
      var op := ops[|ops| - 1];
      if op.Set? then WithSet(before, op.i) else WithClear(before, op.i)
  }

  /** What the operations do to a plain set of indices. */
  ghost function Reference(s: iset<nat>, ops: seq<Op>): iset<nat> {
    if ops == [] then s
    else
      var before := Reference(s, ops[..|ops| - 1]);
      var op := ops[|ops| - 1];
      if op.Set? then before + iset{op.i} else before - iset{op.i}
  }

  /** A map after any operations is the set after the same operations. */
  lemma {:induction false} RefinesSet(words: seq<Word>, ops: seq<Op>)
    requires AllInMap(words, ops)
    ensures Members(After(words, ops)) == Reference(Members(words), ops)
  {
    if ops != [] {
      RefinesSet(words, ops[..|ops| - 1]);
      SetAdds(After(words, ops[..|ops| - 1]), ops[|ops| - 1].i);
    }
  }

  /** The macros in place. */
  class Map {
    const bitmap: array<Word>

    constructor (bitmap: array<Word>)
      ensures this.bitmap == bitmap
    {
      this.bitmap := bitmap;
    }

    ghost predicate Covers(i: nat)
      reads bitmap
    {
      InMap(bitmap[..], i)
    }

    method TestBit(i: nat) returns (b: bool)
      requires Covers(i)
      ensures b <==> i in Members(bitmap[..])
    {
      b := NonZero(And(bitmap[i / BT_NBIPUL], Biw(i)));
    }

    method SetBit(i: nat)
      requires Covers(i)
      modifies bitmap
      ensures bitmap[..] == WithSet(old(bitmap[..]), i)
      ensures Members(bitmap[..]) == Members(old(bitmap[..])) + iset{i}
    {
      SetAdds(bitmap[..], i);
      ghost var before := bitmap[..];
      bitmap[i / BT_NBIPUL] := Or(bitmap[i / BT_NBIPUL], Biw(i));
      assert bitmap[..] == WithSet(before, i);
    }

    method ClearBit(i: nat)
      requires Covers(i)
      modifies bitmap
      ensures bitmap[..] == WithClear(old(bitmap[..]), i)
      ensures Members(bitmap[..]) == Members(old(bitmap[..])) - iset{i}
    {
      SetAdds(bitmap[..], i);
      ghost var before := bitmap[..];
      bitmap[i / BT_NBIPUL] := And(bitmap[i / BT_NBIPUL], Not(Biw(i)));
      assert bitmap[..] == WithClear(before, i);
    }
  }

  // Sizes

  /** BT_BITOUL: so many words for nbits bits. */
  function Bitoul(nbits: nat): nat
  {
    (nbits + BT_NBIPUL - 1) / BT_NBIPUL
  }

  /** k words hold every index below nbits exactly when k is at least BT_BITOUL(nbits). */
  lemma BitoulIsLeast(nbits: nat, k: nat)
    ensures (forall i: nat :: i < nbits ==> i / BT_NBIPUL < k) <==> Bitoul(nbits) <= k
  {
    if Bitoul(nbits) > k {
      assert BT_NBIPUL * k < nbits && (BT_NBIPUL * k) / BT_NBIPUL == k;
    }
  }
}
