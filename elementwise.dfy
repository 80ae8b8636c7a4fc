/**
 The arithmetic that a Vector performs on its elements, stated on plain
 sequences: the three element-wise operators (`+`, `-`, `*` and their
 compound forms) and the dot product, both as the left-to-right fold the
 vector computes and as the textbook sum it is meant to be.
 Elements are mathematical reals; IEEE-754 rounding is not modelled.
 */
module Elementwise {

  /** Which of the three element-wise operators is applied. */
  datatype Op = Plus | Minus | Times

  function Apply(op: Op, x: real, y: real): real
  {
    match op
    case Plus => x + y
    case Minus => x - y
    case Times => x * y
  }

  /** The sequence whose i-th element is `a[i] op b[i]`. */
  function ElementWise(op: Op, a: seq<real>, b: seq<real>): (r: seq<real>)
    requires |a| == |b|
    ensures |r| == |a|
    ensures forall i :: 0 <= i < |r| ==> r[i] == Apply(op, a[i], b[i])
  {
    if |a| == 0 then [] else [Apply(op, a[0], b[0])] + ElementWise(op, a[1..], b[1..])
  }

  /** The fold `sum + a[i] * b[i]`, taken from left to right starting at `sum`. */
  function Accumulate(sum: real, a: seq<real>, b: seq<real>): real
    requires |a| == |b|
    decreases |a|
  {
    if |a| == 0 then sum else Accumulate(sum + a[0] * b[0], a[1..], b[1..])
  }

  /** The inner product, the sum over all i of `a[i] * b[i]`. */
  function InnerProduct(a: seq<real>, b: seq<real>): real
    requires |a| == |b|
  {
    if |a| == 0 then 0.0 else a[0] * b[0] + InnerProduct(a[1..], b[1..])
  }

  /** The sum of all elements of `s`. */
  function Total(s: seq<real>): real
  {
    if |s| == 0 then 0.0 else s[0] + Total(s[1..])
  }

  /** The left fold from any starting value adds that value to the inner product. */
  lemma {:induction false} AccumulateIsInnerProduct(sum: real, a: seq<real>, b: seq<real>)
    requires |a| == |b|
    ensures Accumulate(sum, a, b) == sum + InnerProduct(a, b)
    decreases |a|
  {
    if |a| > 0 {
      AccumulateIsInnerProduct(sum + a[0] * b[0], a[1..], b[1..]);
    }
  }

  /** The dot product does not depend on the order of its operands. */
  lemma {:induction false} InnerProductCommutes(a: seq<real>, b: seq<real>)
    requires |a| == |b|
    ensures InnerProduct(a, b) == InnerProduct(b, a)
  {
    if |a| > 0 {
      InnerProductCommutes(a[1..], b[1..]);
    }
  }

  /** The dot product distributes over element-wise addition. */
  lemma {:induction false} InnerProductDistributes(a: seq<real>, c: seq<real>, b: seq<real>)
    requires |a| == |c| == |b|
    ensures InnerProduct(ElementWise(Plus, a, c), b) == InnerProduct(a, b) + InnerProduct(c, b)
  {
    if |a| > 0 {
      var s := ElementWise(Plus, a, c);
      assert s[1..] == ElementWise(Plus, a[1..], c[1..]);
      InnerProductDistributes(a[1..], c[1..], b[1..]);
      assert (a[0] + c[0]) * b[0] == a[0] * b[0] + c[0] * b[0];
    }
  }

  /** The dot product is the sum of the element-wise product. */
  lemma {:induction false} InnerProductIsTotalOfProduct(a: seq<real>, b: seq<real>)
    requires |a| == |b|
    ensures InnerProduct(a, b) == Total(ElementWise(Times, a, b))
  {
    if |a| > 0 {
      var p := ElementWise(Times, a, b);
      assert p[1..] == ElementWise(Times, a[1..], b[1..]);
      InnerProductIsTotalOfProduct(a[1..], b[1..]);
    }
  }

  /** Subtracting `b` undoes adding `b`: `(a + b) - b == a`. */
  lemma SubtractUndoesAdd(a: seq<real>, b: seq<real>)
    requires |a| == |b|
    ensures ElementWise(Minus, ElementWise(Plus, a, b), b) == a
  {
  }

  /** Element-wise addition and multiplication do not depend on the order of their operands. */
  lemma ElementWiseCommutes(op: Op, a: seq<real>, b: seq<real>)
    requires |a| == |b|
    requires op != Minus
    ensures ElementWise(op, a, b) == ElementWise(op, b, a)
  {
  }
}
