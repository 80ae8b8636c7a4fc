/**
 The text format of a Vector, with the formatting and parsing of single
 numbers abstracted away.

 Writing produces a sequence of pieces: each element as a `Number`, with one
 `Separator` (the string " ") between consecutive elements.

 Reading consumes a sequence of scan results. Each one is what one
 `stream >> value` extraction yields: either a parsed number, together with
 whether the character right after it (what `peek()` returns) is '\n', or a
 failed extraction. The end of the sequence stands for the end of the stream,
 where every further extraction fails.
 */
module TextFormat {

  datatype Piece = Number(value: real) | Separator

  /** The pieces written for the elements `s`: numbers at even positions, separators at odd ones. */
  function Render(s: seq<real>): (r: seq<Piece>)
    ensures |r| == if |s| == 0 then 0 else 2 * |s| - 1
    ensures forall k :: 0 <= k < |r| ==> r[k] == if k % 2 == 0 then Number(s[k / 2]) else Separator
    decreases |s|
  {
    if |s| == 0 then []
    else if |s| == 1 then [Number(s[0])]
    else Render(s[..|s| - 1]) + [Separator, Number(s[|s| - 1])]
  }

  /** The numbers among the pieces `p`, in order. */
  function Numbers(p: seq<Piece>): seq<real>
  {
    if |p| == 0 then []
    else match p[0]
      case Number(x) => [x] + Numbers(p[1..])
      case Separator => Numbers(p[1..])
  }

  lemma {:induction false} NumbersAppend(p: seq<Piece>, q: seq<Piece>)
    ensures Numbers(p + q) == Numbers(p) + Numbers(q)
  {
    if |p| == 0 {
      assert p + q == q;
    } else {
      assert (p + q)[1..] == p[1..] + q;
      NumbersAppend(p[1..], q);
    }
  }

  /** The numbers written for a vector are exactly its elements, in order. */
  lemma {:induction false} NumbersOfRender(s: seq<real>)
    ensures Numbers(Render(s)) == s
    decreases |s|
  {
    if |s| == 1 {
      assert Render(s) == [Number(s[0])];
      assert Numbers([Number(s[0])]) == [s[0]] + Numbers([]);
    } else if |s| > 1 {
      var init := s[..|s| - 1];
      NumbersOfRender(init);
      NumbersAppend(Render(init), [Separator, Number(s[|s| - 1])]);
      assert Numbers([Separator, Number(s[|s| - 1])]) == [s[|s| - 1]] by {
        assert [Separator, Number(s[|s| - 1])][1..] == [Number(s[|s| - 1])];
        assert Numbers([Number(s[|s| - 1])]) == [s[|s| - 1]] + Numbers([]);
      }
      assert init + [s[|s| - 1]] == s;
    }
  }

  /** One `stream >> value` extraction. */
  datatype Scan = Parsed(value: real, newlineNext: bool) | Failed

  /** The values one read collects, and whether the stream is left in the failed state. */
  datatype Collected = Collected(values: seq<real>, failed: bool)

  /** Collects values until an extraction fails or until a value is followed directly by '\n'. */
  function Collect(input: seq<Scan>): (c: Collected)
    ensures |c.values| <= |input|
    decreases |input|
  {
    if |input| == 0 then Collected([], true)
    else match input[0]
      case Failed => Collected([], true)
      case Parsed(v, newline) =>
        if newline then Collected([v], false)
        else
          var c := Collect(input[1..]);
          Collected([v] + c.values, c.failed)
  }

  /**
   What `Collect` returns, completely characterised: the values are the
   leading parsed scans in order, only the last of them may be followed by
   '\n', and a read that stops without that newline (in particular one that
   collects nothing) leaves the stream failed, at the end of the input or at
   a failed scan.
   */
  lemma {:induction false} CollectCharacterized(input: seq<Scan>)
    ensures var c := Collect(input);
      (forall j :: 0 <= j < |c.values| - 1 ==> input[j] == Parsed(c.values[j], false)) &&
      (c.values != [] ==> input[|c.values| - 1] == Parsed(c.values[|c.values| - 1], !c.failed)) &&
      (c.values == [] ==> c.failed) &&
      (c.failed ==> |c.values| == |input| || input[|c.values|] == Failed)
    decreases |input|
  {
    if |input| > 0 && input[0].Parsed? && !input[0].newlineNext {
      CollectCharacterized(input[1..]);
    }
  }

  /** One step of `Collect`, from the scan at `i` onwards. */
  lemma CollectAt(input: seq<Scan>, i: nat)
    requires i <= |input|
    ensures i == |input| ==> Collect(input[i..]) == Collected([], true)
    ensures i < |input| && input[i].Failed? ==> Collect(input[i..]) == Collected([], true)
    ensures i < |input| && input[i].Parsed? && input[i].newlineNext ==>
      Collect(input[i..]) == Collected([input[i].value], false)
    ensures i < |input| && input[i].Parsed? && !input[i].newlineNext ==>
      Collect(input[i..]) ==
      Collected([input[i].value] + Collect(input[i + 1..]).values, Collect(input[i + 1..]).failed)
  {
    if i < |input| {
      assert input[i..][0] == input[i];
      assert input[i..][1..] == input[i + 1..];
    }
  }
}
