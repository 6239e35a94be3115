/**
 * A statement laid out slot by slot: a fixed number of grammar slots, each
 * holding at most one clause, concatenated in slot order. Nothing here knows
 * what a clause is; the element type and its slot function are parameters.
 */
module Layout {

  /** The number of grammar slots (slots are `0 .. SlotCount - 1`). */
  const SlotCount: nat := 12

  /** A part of a statement: nothing, or one element of slot `k`. */
  predicate InSlot<T>(slot: T -> nat, part: seq<T>, k: nat) {
    |part| <= 1 && (|part| == 1 ==> slot(part[0]) == k)
  }

  /** Every part `part(k)` fits slot `k`. */
  ghost predicate Slotted<T>(slot: T -> nat, part: nat -> seq<T>) {
    forall k: nat :: InSlot(slot, part(k), k)
  }

  /** The parts of slots `from ..`, one after another. */
  function Assemble<T>(part: nat -> seq<T>, from: nat): seq<T>
    decreases SlotCount - from
  {
    if from >= SlotCount then [] else part(from) + Assemble(part, from + 1)
  }

  /** Slots strictly increase along the list, so no slot holds two elements. */
  predicate Ordered<T>(slot: T -> nat, cs: seq<T>) {
    forall i, j :: 0 <= i < j < |cs| ==> slot(cs[i]) < slot(cs[j])
  }

  /** An element is in an assembled list exactly when it is in the part of its own slot. */
  lemma {:induction false} AssembleMember<T>(slot: T -> nat, part: nat -> seq<T>, from: nat, c: T)
    requires Slotted(slot, part)
    ensures c in Assemble(part, from) <==> from <= slot(c) < SlotCount && c in part(slot(c))
    decreases SlotCount - from
  {
    if from < SlotCount {
      AssembleMember(slot, part, from + 1, c);
      assert InSlot(slot, part(from), from);
    }
  }

  /** Every element assembled from slots `from ..` has a slot of at least `from`. */
  lemma AssembleAbove<T>(slot: T -> nat, part: nat -> seq<T>, from: nat)
    requires Slotted(slot, part)
    ensures forall j | 0 <= j < |Assemble(part, from)| :: slot(Assemble(part, from)[j]) >= from
  {
    var cs := Assemble(part, from);
    forall j | 0 <= j < |cs| ensures slot(cs[j]) >= from {
      assert cs[j] in cs;
      AssembleMember(slot, part, from, cs[j]);
    }
  }

  /** An element of slot `k` in front of an ordered list whose slots all exceed `k` keeps it ordered. */
  lemma PrependOrdered<T>(slot: T -> nat, p: seq<T>, rest: seq<T>, k: nat)
    requires InSlot(slot, p, k) && Ordered(slot, rest)
    requires forall j | 0 <= j < |rest| :: slot(rest[j]) > k
    ensures Ordered(slot, p + rest)
  {
    var cs := p + rest;
    forall i, j | 0 <= i < j < |cs| ensures slot(cs[i]) < slot(cs[j]) {
      assert cs[j] == rest[j - |p|];
      if i < |p| {
        assert cs[i] == p[0];
      } else {
        assert cs[i] == rest[i - |p|];
      }
    }
  }

  /** Assembling slot by slot puts the elements in slot order. */
  lemma {:induction false} AssembleOrdered<T>(slot: T -> nat, part: nat -> seq<T>, from: nat)
    requires Slotted(slot, part)
    ensures Ordered(slot, Assemble(part, from))
    decreases SlotCount - from
  {
    if from < SlotCount {
      AssembleOrdered(slot, part, from + 1);
      AssembleAbove(slot, part, from + 1);
      assert InSlot(slot, part(from), from);
      PrependOrdered(slot, part(from), Assemble(part, from + 1), from);
    }
  }

  /** Where an element falls within an ordered list, read off its slot. */
  lemma OrderedPlacement<T>(slot: T -> nat, cs: seq<T>, i: int, j: int)
    requires Ordered(slot, cs) && 0 <= i < |cs| && 0 <= j < |cs|
    ensures slot(cs[i]) < slot(cs[j]) ==> i < j
    ensures slot(cs[i]) == slot(cs[j]) ==> i == j
  {
    if i < j {
      assert slot(cs[i]) < slot(cs[j]);
    } else if j < i {
      assert slot(cs[j]) < slot(cs[i]);
    }
  }

  /** Slots are natural numbers that strictly increase, so the element at index `i` has slot at least `i`. */
  lemma {:induction false} OrderedSlotBound<T>(slot: T -> nat, cs: seq<T>, i: nat)
    requires Ordered(slot, cs) && i < |cs|
    ensures slot(cs[i]) >= i
  {
    if i > 0 {
      OrderedSlotBound(slot, cs, i - 1);
      assert slot(cs[i - 1]) < slot(cs[i]);
    }
  }

  /** Parts that agree on every slot from `from` on assemble to the same list. */
  lemma {:induction false} AssembleAgree<T>(p1: nat -> seq<T>, p2: nat -> seq<T>, from: nat)
    requires forall k: nat :: from <= k < SlotCount ==> p1(k) == p2(k)
    ensures Assemble(p1, from) == Assemble(p2, from)
    decreases SlotCount - from
  {
    if from < SlotCount {
      AssembleAgree(p1, p2, from + 1);
    }
  }

  /** The assembled list written out slot by slot. */
  lemma AssembleUnrolled<T>(part: nat -> seq<T>)
    ensures Assemble(part, 0) == part(0) + part(1) + part(2) + part(3) + part(4) + part(5)
                                 + part(6) + part(7) + part(8) + part(9) + part(10) + part(11)
  {
    var a11 := Assemble(part, 11);
    assert a11 == part(11) + Assemble(part, 12);
    assert a11 == part(11);
    var a10 := Assemble(part, 10);
    assert a10 == part(10) + a11;
    var a9 := Assemble(part, 9);
    assert a9 == part(9) + a10;
    var a8 := Assemble(part, 8);
    assert a8 == part(8) + a9;
    var a7 := Assemble(part, 7);
    assert a7 == part(7) + a8;
    var a6 := Assemble(part, 6);
    assert a6 == part(6) + a7;
    var a5 := Assemble(part, 5);
    assert a5 == part(5) + a6;
    var a4 := Assemble(part, 4);
    assert a4 == part(4) + a5;
    var a3 := Assemble(part, 3);
    assert a3 == part(3) + a4;
    var a2 := Assemble(part, 2);
    assert a2 == part(2) + a3;
    var a1 := Assemble(part, 1);
    assert a1 == part(1) + a2;
    assert Assemble(part, 0) == part(0) + a1;
  }
}
