/**
 A fixed-length vector of reals that owns its backing buffer. The state is
 the length `rows` and the buffer `data`; a vector with no storage is one
 whose buffer has length 0.
 */
module Vectors {
  import opened Elementwise
  import opened TextFormat

  /** A fresh buffer of `n` elements, each equal to `v`. */
  method Allocate(n: nat, v: real) returns (a: array<real>)
    ensures fresh(a) && a.Length == n
    ensures forall i :: 0 <= i < n ==> a[i] == v
  {
    a := new real[n];
    for i := 0 to n
      invariant forall j :: 0 <= j < i ==> a[j] == v
    {
      a[i] := v;
    }
  }

  /** A fresh buffer holding the elements of `src`, in order. */
  method Duplicate(src: array<real>) returns (a: array<real>)
    ensures fresh(a) && a[..] == src[..]
  {
    a := new real[src.Length];
    for i := 0 to src.Length
      invariant forall j :: 0 <= j < i ==> a[j] == src[j]
    {
      a[i] := src[i];
    }
  }

  /** A place in a buffer, as a pointer returned by `begin()` and `end()`. */
  datatype Position = Position(buffer: array<real>, offset: nat)

  /** The elements from `first` up to, and not including, `last`. */
  ghost function Span(first: Position, last: Position): seq<real>
    requires first.buffer == last.buffer && first.offset <= last.offset <= last.buffer.Length
    reads first.buffer
  {
    first.buffer[first.offset..last.offset]
  }

  class Vector {
    var rows: nat
    var data: array<real>

    /** The buffer holds exactly `rows` elements. */
    ghost predicate Valid()
      reads this
    {
      data.Length == rows
    }

    /** The elements of the vector, in index order. */
    ghost function Contents(): (s: seq<real>)
      reads this, data
      requires Valid()
      ensures |s| == rows
    {
      data[..]
    }

    /** `Vector(rows, initValue)`: `rows` elements, all equal to `initValue`. */
    constructor Filled(rows: nat, initValue: real)
      ensures Valid() && fresh(data)
      ensures this.rows == rows
      ensures forall i :: 0 <= i < rows ==> data[i] == initValue
    {
      var buffer := Allocate(rows, initValue);
      this.rows := rows;
      data := buffer;
    }

    /** `Vector(rows)`: `rows` elements, all zero. */
    constructor Zero(rows: nat)
      ensures Valid() && fresh(data)
      ensures this.rows == rows
      ensures forall i :: 0 <= i < rows ==> data[i] == 0.0
    {
      var buffer := Allocate(rows, 0.0);
      this.rows := rows;
      data := buffer;
    }

    /** `Vector{...}`: the elements of the list, in order. */
    constructor FromList(l: seq<real>)
      ensures Valid() && fresh(data)
      ensures rows == |l| && Contents() == l
    {
      var buffer := new real[|l|];
      for i := 0 to |l|
        invariant forall j :: 0 <= j < i ==> buffer[j] == l[j]
      {
        buffer[i] := l[i];
      }
      rows := |l|;
      data := buffer;
    }

    /** Copy construction: equal to `other`, in a buffer of its own. */
    constructor Copy(other: Vector)
      requires other.Valid()
      ensures Valid() && fresh(data)
      ensures rows == other.rows && Contents() == other.Contents()
    {
      var buffer := Duplicate(other.data);
      rows := other.rows;
      data := buffer;
    }

    /** Move construction: takes over the buffer of `other` and leaves `other` empty. */
    constructor Move(other: Vector)
      requires other.Valid()
      modifies other
      ensures Valid() && other.Valid()
      ensures rows == old(other.rows) && data == old(other.data)
      ensures Contents() == old(other.Contents())
      ensures other.rows == 0 && other.Contents() == []
    {
      rows := other.rows;
      data := other.data;
      new;
      other.rows := 0;
      other.data := new real[0];
    }

    /** Copy assignment: becomes equal to `other` in a buffer of its own; self-assignment changes nothing. */
    method AssignCopy(other: Vector)
      requires Valid() && other.Valid()
      modifies this
      ensures Valid() && other.Valid()
      ensures rows == old(other.rows) && Contents() == old(other.Contents())
      ensures other.Contents() == old(other.Contents())
      ensures other == this ==> data == old(data)
      ensures other != this ==> fresh(data)
    {
      if this != other {
        rows := other.rows;
        data := Duplicate(other.data);
      }
    }

    /** Move assignment: takes over the buffer of `other` and empties it; self-move changes nothing. */
    method AssignMove(other: Vector)
      requires Valid() && other.Valid()
      modifies this, other
      ensures Valid() && other.Valid()
      ensures Contents() == old(other.Contents())
      ensures other == this ==> rows == old(rows) && data == old(data)
      ensures other != this ==> rows == old(other.rows) && data == old(other.data)
      ensures other != this ==> other.rows == 0 && other.Contents() == []
    {
      if this != other {
        rows := other.rows;
        data := other.data;
        other.rows := 0;
        other.data := new real[0];
      }
    }

    /** `==`: equal lengths and equal elements at every index. */
    method Equals(b: Vector) returns (eq: bool)
      requires Valid() && b.Valid()
      ensures eq <==> rows == b.rows && forall i :: 0 <= i < rows ==> data[i] == b.data[i]
      ensures eq <==> Contents() == b.Contents()
    {
      if rows != b.rows {
        return false;
      }
      for i := 0 to rows
        invariant forall j :: 0 <= j < i ==> data[j] == b.data[j]
      {
        if data[i] != b.data[i] {
          assert Contents()[i] != b.Contents()[i];
          return false;
        }
      }
      assert Contents() == b.Contents();
      return true;
    }

    /** `!=`: the negation of `==`. */
    method NotEquals(b: Vector) returns (ne: bool)
      requires Valid() && b.Valid()
      ensures ne <==> Contents() != b.Contents()
    {
      var eq := Equals(b);
      ne := !eq;
    }

    /**
     The loop shared by `+=`, `-=` and `*=`: replaces each element by
     `data[i] op b.data[i]`. `b` may be this vector itself.
     */
    method ApplyInPlace(op: Op, b: Vector)
      requires Valid() && b.Valid() && rows == b.rows
      modifies data
      ensures Valid()
      ensures Contents() == ElementWise(op, old(Contents()), old(b.Contents()))
      ensures b.data != data ==> b.Contents() == old(b.Contents())
    {
      for i := 0 to rows
        invariant forall j :: 0 <= j < i ==> data[j] == Apply(op, old(data[j]), old(b.data[j]))
        invariant forall j :: i <= j < rows ==> data[j] == old(data[j]) && b.data[j] == old(b.data[j])
        invariant b.data != data ==> forall j :: 0 <= j < rows ==> b.data[j] == old(b.data[j])
      {
        data[i] := Apply(op, data[i], b.data[i]);
      }
    }

    /** `+=` */
    method AddAssign(b: Vector)
      requires Valid() && b.Valid() && rows == b.rows
      modifies data
      ensures Valid()
      ensures Contents() == ElementWise(Plus, old(Contents()), old(b.Contents()))
      ensures b.data != data ==> b.Contents() == old(b.Contents())
    {
      ApplyInPlace(Plus, b);
    }

    /** `-=` */
    method SubtractAssign(b: Vector)
      requires Valid() && b.Valid() && rows == b.rows
      modifies data
      ensures Valid()
      ensures Contents() == ElementWise(Minus, old(Contents()), old(b.Contents()))
      ensures b.data != data ==> b.Contents() == old(b.Contents())
    {
      ApplyInPlace(Minus, b);
    }

    /** `*=` */
    method MultiplyAssign(b: Vector)
      requires Valid() && b.Valid() && rows == b.rows
      modifies data
      ensures Valid()
      ensures Contents() == ElementWise(Times, old(Contents()), old(b.Contents()))
      ensures b.data != data ==> b.Contents() == old(b.Contents())
    {
      ApplyInPlace(Times, b);
    }

    /** `+`: a new vector holding the sum; neither operand changes. */
    method Add(b: Vector) returns (r: Vector)
      requires Valid() && b.Valid() && rows == b.rows
      ensures fresh(r) && fresh(r.data) && r.Valid()
      ensures r.Contents() == ElementWise(Plus, Contents(), b.Contents())
      ensures Contents() == old(Contents()) && b.Contents() == old(b.Contents())
    {
      r := new Vector.Copy(this);
      r.AddAssign(b);
    }

    /** `-`: a new vector holding the difference; neither operand changes. */
    method Subtract(b: Vector) returns (r: Vector)
      requires Valid() && b.Valid() && rows == b.rows
      ensures fresh(r) && fresh(r.data) && r.Valid()
      ensures r.Contents() == ElementWise(Minus, Contents(), b.Contents())
      ensures Contents() == old(Contents()) && b.Contents() == old(b.Contents())
    {
      r := new Vector.Copy(this);
      r.SubtractAssign(b);
    }

    /** `*`: a new vector holding the element-wise product; neither operand changes. */
    method Multiply(b: Vector) returns (r: Vector)
      requires Valid() && b.Valid() && rows == b.rows
      ensures fresh(r) && fresh(r.data) && r.Valid()
      ensures r.Contents() == ElementWise(Times, Contents(), b.Contents())
      ensures Contents() == old(Contents()) && b.Contents() == old(b.Contents())
    {
      r := new Vector.Copy(this);
      r.MultiplyAssign(b);
    }

    /** `dot`: the left-to-right fold of `sum + a[i] * b[i]` from 0, which is the inner product. */
    method Dot(b: Vector) returns (r: real)
      requires Valid() && b.Valid() && rows == b.rows
      ensures r == Accumulate(0.0, Contents(), b.Contents())
      ensures r == InnerProduct(Contents(), b.Contents())
    {
      ghost var a, c := Contents(), b.Contents();
      r := 0.0;
      for i := 0 to rows
        invariant Accumulate(r, a[i..], c[i..]) == Accumulate(0.0, a, c)
      {
        assert a[i..][1..] == a[i + 1..] && c[i..][1..] == c[i + 1..];
        r := r + data[i] * b.data[i];
      }
      AccumulateIsInnerProduct(0.0, a, c);
    }

    /** `size()` */
    function Size(): (n: nat)
      reads this, data
      requires Valid()
      ensures n == |Contents()|
    {
      rows
    }

    /** `begin()`: the start of the vector's own buffer. */
    function Begin(): (p: Position)
      reads this
      ensures p.buffer == data && p.offset == 0
    {
      Position(data, 0)
    }

    /** `end()`: `size()` positions past `begin()`, in the same buffer. */
    function End(): (p: Position)
      reads this, data
      requires Valid()
      ensures p.buffer == Begin().buffer && p.offset == Begin().offset + Size()
    {
      Position(data, rows)
    }

    /** The range from `begin()` to `end()` is the whole vector. */
    lemma BeginToEnd()
      requires Valid()
      ensures |Span(Begin(), End())| == Size()
      ensures Span(Begin(), End()) == Contents()
    {
    }

    /** A range-based traversal from `begin()` to `end()`: visits every element once, in index order. */
    method Traverse() returns (s: seq<real>)
      requires Valid()
      ensures s == Contents()
    {
      s := [];
      var it, last := Begin(), End();
      while it != last
        invariant it.buffer == data && it.offset <= rows
        invariant s == data[..it.offset]
        decreases rows - it.offset
      {
        s := s + [it.buffer[it.offset]];
        it := Position(it.buffer, it.offset + 1);
      }
    }

    /** `operator<<`: appends the elements to `out`, one separator between consecutive elements. */
    method Write(out: seq<Piece>) returns (written: seq<Piece>)
      requires Valid()
      ensures written == out + Render(Contents())
    {
      written := out;
      for i := 0 to rows
        invariant written == out + Render(data[..i]) + (if 0 < i < rows then [Separator] else [])
      {
        assert data[..i + 1][..i] == data[..i];
        written := written + [Number(data[i])];
        if i + 1 < rows {
          written := written + [Separator];
        }
      }
      assert data[..rows] == data[..];
    }

    /**
     `operator>>`: collects values from `input` as `Collect` describes. With
     no value collected the read fails (`ok` is false, the exception of the
     source) and the vector keeps its length and elements; otherwise the
     vector becomes exactly the collected values, in a new buffer. `rest` is
     what remains of the input and `failbit` is the stream's failed state.
     */
    method Read(input: seq<Scan>) returns (ok: bool, rest: seq<Scan>, failbit: bool)
      requires Valid()
      modifies this
      ensures Valid()
      ensures rest == input[|Collect(input).values|..] && failbit == Collect(input).failed
      ensures ok <==> Collect(input).values != []
      ensures ok ==> fresh(data) && Contents() == Collect(input).values
      ensures !ok ==> rows == old(rows) && data == old(data) && Contents() == old(Contents())
    {
      var temp;
      temp, failbit := ReadValues(input);
      rest := input[|temp|..];
      if |temp| == 0 {
        ok := false;
        return;
      }
      ok := true;
      var buffer := new real[|temp|];
      for k := 0 to |temp|
        invariant forall j :: 0 <= j < k ==> buffer[j] == temp[j]
      {
        buffer[k] := temp[k];
      }
      rows := |temp|;
      data := buffer;
    }
  }

  /**
   The collecting loop of `operator>>`: extracts values while extractions
   succeed, and stops right after a value followed by '\n'.
   */
  method ReadValues(input: seq<Scan>) returns (values: seq<real>, failbit: bool)
    ensures Collected(values, failbit) == Collect(input)
  {
    values := [];
    var i := 0;
    failbit := false;
    assert input[0..] == input;
    while true
      invariant i == |values| <= |input|
      invariant Collect(input) == Collected(values + Collect(input[i..]).values, Collect(input[i..]).failed)
      decreases |input| - i
    {
      CollectAt(input, i);
      if i == |input| || input[i].Failed? {
        failbit := true;
        break;
      }
      var value, newline := input[i].value, input[i].newlineNext;
      ghost var next := Collect(input[i + 1..]);
      assert values + ([value] + next.values) == (values + [value]) + next.values;
      values := values + [value];
      i := i + 1;
      if newline {
        break;
      }
    }
  }

  /** `swap(a, b)`: exchanges the lengths and the buffers of `a` and `b`. */
  method Swap(a: Vector, b: Vector)
    requires a.Valid() && b.Valid()
    modifies a, b
    ensures a.Valid() && b.Valid()
    ensures a.rows == old(b.rows) && a.data == old(b.data)
    ensures b.rows == old(a.rows) && b.data == old(a.data)
    ensures a.Contents() == old(b.Contents()) && b.Contents() == old(a.Contents())
  {
    var r := a.rows;
    a.rows := b.rows;
    b.rows := r;
    var d := a.data;
    a.data := b.data;
    b.data := d;
  }

  /** A client in the manner of the demonstration program: what callers can conclude from the contracts alone. */
  method DemoArithmetic()
  {
    var a := new Vector.FromList([1.0, 2.0, 3.0]);
    var b := new Vector.FromList([4.0, 5.0, 6.0]);

    var sum := a.Add(b);
    assert sum.Contents() == [5.0, 7.0, 9.0];
    var diff := a.Subtract(b);
    assert diff.Contents() == [-3.0, -3.0, -3.0];
    var prod := a.Multiply(b);
    assert prod.Contents() == [4.0, 10.0, 18.0];
    assert a.Contents() == [1.0, 2.0, 3.0] && b.Contents() == [4.0, 5.0, 6.0];

    var d := a.Dot(b);
    assert d == 32.0;

    var copy := new Vector.Copy(a);
    copy.AddAssign(b);
    assert a.Contents() == [1.0, 2.0, 3.0];

    var moved := new Vector.Move(b);
    assert moved.Contents() == [4.0, 5.0, 6.0] && b.Size() == 0;

    var same := a.Equals(a);
    assert same;
    var differ := a.NotEquals(moved);
    assert differ;
  }

  /** Writing and reading, as callers see them. */
  method DemoText()
  {
    var a := new Vector.FromList([1.0, 2.0, 3.0]);
    var text := a.Write([]);
    assert text == [Number(1.0), Separator, Number(2.0), Separator, Number(3.0)];

    var ok, rest, failbit := a.Read([Failed]);
    assert !ok && a.Contents() == [1.0, 2.0, 3.0];
    ok, rest, failbit := a.Read([Parsed(7.0, false), Parsed(8.0, true), Parsed(9.0, true)]);
    assert ok && !failbit && a.Contents() == [7.0, 8.0] && rest == [Parsed(9.0, true)];
  }
}
