/** Index vectors of the variant generator, read as mixed-radix numerals: digit j
    ranges over 0..lens[j] and the last digit varies fastest. */
module MixedRadix {
  import opened Arithmetic

  function Combinations(lens: seq<nat>): nat {
    if lens == [] then 1 else lens[0] * Combinations(lens[1..])
  }

  ghost predicate InRange(ix: seq<nat>, lens: seq<nat>) {
    |ix| == |lens| && forall j :: 0 <= j < |ix| ==> ix[j] < lens[j]
  }

  function Value(ix: seq<nat>, lens: seq<nat>): nat
    requires |ix| == |lens|
  {
    if ix == [] then 0 else ix[0] * Combinations(lens[1..]) + Value(ix[1..], lens[1..])
  }

  /** The i-th index vector in counting order. */
  function Digits(lens: seq<nat>, i: nat): (ix: seq<nat>)
    requires i < Combinations(lens)
    ensures InRange(ix, lens)
    ensures Value(ix, lens) == i
  {
    if lens == [] then [] else
      var w := Combinations(lens[1..]);
      DivModBounds(i, lens[0], w);
      [i / w] + Digits(lens[1..], i % w)
  }

  ghost predicate LexLess(a: seq<nat>, b: seq<nat>)
    requires |a| == |b|
  {
    a != [] && (a[0] < b[0] || (a[0] == b[0] && LexLess(a[1..], b[1..])))
  }

  /** The first digit in which the vectors differ decides. */
  lemma {:induction false} LexLessIff(a: seq<nat>, b: seq<nat>)
    requires |a| == |b|
    ensures LexLess(a, b) <==> exists k :: 0 <= k < |a| && a[..k] == b[..k] && a[k] < b[k]
  {
    if a != [] {
      LexLessIff(a[1..], b[1..]);
      if LexLess(a, b) {
        if a[0] < b[0] {
          assert a[..0] == b[..0];
        } else {
          var k :| 0 <= k < |a| - 1 && a[1..][..k] == b[1..][..k] && a[1..][k] < b[1..][k];
          assert a[..k + 1] == [a[0]] + a[1..][..k] && b[..k + 1] == [b[0]] + b[1..][..k];
          assert a[k + 1] < b[k + 1];
        }
      }
      if k :| 0 <= k < |a| && a[..k] == b[..k] && a[k] < b[k] {
        if k > 0 {
          assert a[0] == a[..k][0] == b[..k][0] == b[0];
          assert a[1..][..k - 1] == a[..k][1..] == b[..k][1..] == b[1..][..k - 1];
          assert a[1..][k - 1] < b[1..][k - 1];
        }
      }
    }
  }

  lemma DivModBounds(i: nat, n: nat, w: nat)
    requires w > 0 && i < n * w
    ensures 0 <= i / w < n && 0 <= i % w < w
    ensures i == (i / w) * w + i % w
  {
  }

  lemma {:induction false} ValueBound(ix: seq<nat>, lens: seq<nat>)
    requires InRange(ix, lens)
    ensures Value(ix, lens) < Combinations(lens)
  {
    if ix != [] {
      var w := Combinations(lens[1..]);
      ValueBound(ix[1..], lens[1..]);
      HigherPlaceDecides(ix[0], lens[0], w, Value(ix[1..], lens[1..]), 0);
    }
  }

  /** Value is strictly monotone from the lexicographic order to the order of the naturals. */
  lemma {:induction false} LexIsValueOrder(a: seq<nat>, b: seq<nat>, lens: seq<nat>)
    requires InRange(a, lens) && InRange(b, lens)
    ensures LexLess(a, b) <==> Value(a, lens) < Value(b, lens)
    ensures Value(a, lens) == Value(b, lens) <==> a == b
  {
    if a != [] {
      var w, r, s := Combinations(lens[1..]), Value(a[1..], lens[1..]), Value(b[1..], lens[1..]);
      ValueBound(a[1..], lens[1..]);
      ValueBound(b[1..], lens[1..]);
      if a[0] < b[0] {
        HigherPlaceDecides(a[0], b[0], w, r, s);
      } else if b[0] < a[0] {
        HigherPlaceDecides(b[0], a[0], w, s, r);
      } else {
        LexIsValueOrder(a[1..], b[1..], lens[1..]);
        assert a == [a[0]] + a[1..] && b == [b[0]] + b[1..];
      }
    }
  }

  /** Digits and Value are inverse on the in-range vectors. */
  lemma DigitsOfValue(ix: seq<nat>, lens: seq<nat>)
    requires InRange(ix, lens)
    ensures Value(ix, lens) < Combinations(lens)
    ensures Digits(lens, Value(ix, lens)) == ix
  {
    ValueBound(ix, lens);
    LexIsValueOrder(Digits(lens, Value(ix, lens)), ix, lens);
  }

  /** Counting through Digits meets every in-range vector exactly once, in lexicographic order. */
  lemma CountingEnumerates(lens: seq<nat>)
    ensures forall ix :: InRange(ix, lens) ==>
      Value(ix, lens) < Combinations(lens) && Digits(lens, Value(ix, lens)) == ix
    ensures forall i, j :: 0 <= i < j < Combinations(lens) ==> LexLess(Digits(lens, i), Digits(lens, j))
  {
    forall ix | InRange(ix, lens)
      ensures Value(ix, lens) < Combinations(lens) && Digits(lens, Value(ix, lens)) == ix
    {
      DigitsOfValue(ix, lens);
    }
    forall i, j | 0 <= i < j < Combinations(lens)
      ensures LexLess(Digits(lens, i), Digits(lens, j))
    {
      LexIsValueOrder(Digits(lens, i), Digits(lens, j), lens);
    }
  }

  /** Replacing digit j trades the old digit's share of the value for the new one's. */
  lemma {:induction false} ValueUpdate(ix: seq<nat>, lens: seq<nat>, j: nat, d: nat)
    requires |ix| == |lens| && j < |ix|
    ensures Value(ix[j := d], lens) + ix[j] * Combinations(lens[j + 1..])
         == Value(ix, lens) + d * Combinations(lens[j + 1..])
  {
    if j == 0 {
      assert ix[0 := d][1..] == ix[1..];
    } else {
      assert ix[j := d][1..] == ix[1..][j - 1 := d];
      assert lens[1..][j..] == lens[j + 1..];
      ValueUpdate(ix[1..], lens[1..], j - 1, d);
    }
  }

  /** Raising a digit adds the weight of its place. */
  lemma RaiseDigit(ix: seq<nat>, lens: seq<nat>, j: nat)
    requires |ix| == |lens| && j < |ix|
    ensures Value(ix[j := ix[j] + 1], lens) == Value(ix, lens) + Combinations(lens[j + 1..])
  {
    ValueUpdate(ix, lens, j, ix[j] + 1);
    MulSucc(ix[j], Combinations(lens[j + 1..]));
  }

  /** Wrapping a full digit hands its carry to the next higher place. */
  lemma WrapDigit(ix: seq<nat>, lens: seq<nat>, j: nat)
    requires |ix| == |lens| && j < |ix| && ix[j] + 1 == lens[j]
    ensures Value(ix[j := 0], lens) + Combinations(lens[j..]) == Value(ix, lens) + Combinations(lens[j + 1..])
  {
    ValueUpdate(ix, lens, j, 0);
    assert lens[j..][1..] == lens[j + 1..];
    MulSucc(ix[j], Combinations(lens[j + 1..]));
  }

  lemma {:induction false} ZerosHaveValueZero(ix: seq<nat>, lens: seq<nat>)
    requires |ix| == |lens| && forall j :: 0 <= j < |ix| ==> ix[j] == 0
    ensures Value(ix, lens) == 0
  {
    if ix != [] {
      ZerosHaveValueZero(ix[1..], lens[1..]);
    }
  }

  lemma {:induction false} CombinationsZero(lens: seq<nat>)
    ensures Combinations(lens) == 0 <==> exists j :: 0 <= j < |lens| && lens[j] == 0
  {
    if lens != [] {
      CombinationsZero(lens[1..]);
      if Combinations(lens[1..]) == 0 {
        var j :| 0 <= j < |lens[1..]| && lens[1..][j] == 0;
        assert lens[j + 1] == 0;
      } else {
        assert forall j :: 1 <= j < |lens| ==> lens[j] == lens[1..][j - 1];
        assert lens[0] != 0 ==> lens[0] * Combinations(lens[1..]) > 0;
      }
    }
  }
}
