/** The index arithmetic of the player screen: Kotlin's remainder, the wrap-around
    used for channel changes and guide browsing, and the advance on a player error. */
module ChannelIndex {

  /** Kotlin's `%` on Int with a positive divisor: truncated toward zero, so the
      remainder has the sign of the dividend (Dafny's `%` is Euclidean). The
      screens only divide non-negative numbers; the negative branch is there
      for completeness. */
  function Rem(a: int, n: int): (r: int)
    requires n > 0
    ensures a >= 0 ==> 0 <= r < n && r == Residue(a, n)
    ensures a < 0 ==> -n < r <= 0 && r == -Residue(-a, n)
  {
    NonNegModIsResidue(if a >= 0 then a else -a, n);
    if a >= 0 then a % n else -((-a) % n)
  }

  /** On a non-negative dividend Dafny's `%` is the residue. */
  lemma {:induction false} NonNegModIsResidue(a: int, n: int)
    requires n > 0 && a >= 0
    ensures a % n == Residue(a, n)
    decreases a
  {
    if a < n {
      ModUnique(a, n, 0, a);
    } else {
      NonNegModIsResidue(a - n, n);
      var q, r := (a - n) / n, (a - n) % n;
      MulSucc(q, n);
      assert n * (q + 1) == n * q + n;
      ModUnique(a, n, q + 1, r);
    }
  }

  lemma {:induction false} MulAtLeast(n: int, k: int)
    requires n > 0 && k >= 1
    ensures n * k >= n
    decreases k
  {
    if k > 1 {
      MulAtLeast(n, k - 1);
      assert n * k == n * (k - 1) + n;
    }
  }

  /** A division with a remainder in [0, n) is the Euclidean one. */
  lemma ModUnique(a: int, n: int, q: int, r: int)
    requires n > 0 && a == n * q + r && 0 <= r < n
    ensures a % n == r && a / n == q
  {
    var q0, r0 := a / n, a % n;
    assert n * q - n * q0 == n * (q - q0);
    if q > q0 {
      MulAtLeast(n, q - q0);
    } else if q < q0 {
      assert n * q0 - n * q == n * (q0 - q);
      MulAtLeast(n, q0 - q);
    }
  }

  /** The only increments the player passes to a channel change. */
  predicate IsStep(d: int) {
    d == 1 || d == -1
  }

  /** `(i + d + n) % n`, the wrap used by changeChannel and by guide UP: for an
      index in range it moves one place, from the last index to the first and
      from the first to the last. */
  function Wrap(i: int, d: int, n: int): (r: int)
    requires 0 <= i < n && IsStep(d)
    ensures 0 <= r < n
    ensures r == if i + d == n then 0 else if i + d < 0 then n - 1 else i + d
  {
    RemOfShifted(i + d, n);
    Rem(i + d + n, n)
  }

  lemma RemOfShifted(a: int, n: int)
    requires n > 0 && -1 <= a <= n
    ensures Rem(a + n, n) == if a == n then 0 else if a < 0 then n - 1 else a
    ensures a < n ==> Rem(a + 1, n) == if a + 1 == n then 0 else a + 1
  {
    if a == n {
      ModUnique(a + n, n, 2, 0);
    } else if a < 0 {
      ModUnique(a + n, n, 0, n - 1);
    } else {
      ModUnique(a + n, n, 1, a);
    }
    if a + 1 == n {
      ModUnique(a + 1, n, 1, 0);
    } else if a + 1 < n {
      ModUnique(a + 1, n, 0, a + 1);
    }
  }

  /** `(i + 1) % n`, the guide DOWN move and the advance of moveToNextChannel:
      it is the same move as a +1 wrap, and it lands on 0 exactly from the last index. */
  function NextIndex(i: int, n: int): (r: int)
    requires 0 <= i < n
    ensures r == Wrap(i, 1, n)
    ensures r == 0 <==> i == n - 1
  {
    RemOfShifted(i, n);
    Rem(i + 1, n)
  }

  predicate AllSteps(ds: seq<int>) {
    forall k :: 0 <= k < |ds| ==> IsStep(ds[k])
  }

  function Sum(ds: seq<int>): (total: int) {
    if ds == [] then 0 else ds[0] + Sum(ds[1..])
  }

  /** The index reached from i by applying the channel changes ds in order. */
  function Steps(i: int, ds: seq<int>, n: int): (r: int)
    requires 0 <= i < n && AllSteps(ds)
    ensures 0 <= r < n
    decreases |ds|
  {
    if ds == [] then i else Steps(Wrap(i, ds[0], n), ds[1..], n)
  }

  function Ones(k: nat): (ds: seq<int>)
    ensures |ds| == k && AllSteps(ds)
    ensures forall j :: 0 <= j < k ==> ds[j] == 1
  {
    seq(k, _ => 1)
  }

  /** The mathematical residue of a modulo n, in [0, n), defined by repeated
      addition or subtraction of n. */
  function Residue(a: int, n: int): (r: int)
    requires n > 0
    ensures 0 <= r < n
    ensures 0 <= a < n ==> r == a
    decreases if a < 0 then n - a else a
  {
    if a < 0 then Residue(a + n, n) else if a >= n then Residue(a - n, n) else a
  }

  /** Adding or removing n does not change the residue. */
  lemma ResiduePeriodic(a: int, n: int)
    requires n > 0
    ensures Residue(a + n, n) == Residue(a, n)
  {
  }

  lemma {:induction false} ResidueShift(a: int, k: int, n: int)
    requires n > 0
    ensures Residue(a + k * n, n) == Residue(a, n)
    decreases if k < 0 then -k else k
  {
    if k > 0 {
      var b := a + (k - 1) * n;
      ResidueShift(a, k - 1, n);
      MulSucc(k - 1, n);
      ResiduePeriodic(b, n);
    } else if k < 0 {
      var b := a + k * n;
      ResidueShift(a, k + 1, n);
      MulSucc(k, n);
      ResiduePeriodic(b, n);
    }
  }

  lemma MulSucc(k: int, n: int)
    ensures (k + 1) * n == k * n + n
  {
  }

  /** Any run of channel changes lands on the residue of the start plus the sum
      of the increments: the order of the changes does not matter. */
  lemma {:induction false} StepsClosedForm(i: int, ds: seq<int>, n: int)
    requires 0 <= i < n && AllSteps(ds)
    ensures Steps(i, ds, n) == Residue(i + Sum(ds), n)
    decreases |ds|
  {
    if ds != [] {
      var d, rest := ds[0], ds[1..];
      var j := Wrap(i, d, n);
      StepsClosedForm(j, rest, n);
      var a := i + Sum(ds);
      assert a == i + d + Sum(rest);
      if i + d == n {
        ResiduePeriodic(j + Sum(rest), n);
      } else if i + d < 0 {
        ResiduePeriodic(a, n);
      }
    }
  }

  lemma {:induction false} SumOnes(k: nat)
    ensures Sum(Ones(k)) == k
  {
    if k > 0 {
      assert Ones(k)[1..] == Ones(k - 1);
      SumOnes(k - 1);
    }
  }

  /** Channel changes whose increments add up to a multiple of the list length
      come back to the starting index. */
  lemma ReturnsWhenSumIsMultiple(i: int, ds: seq<int>, n: int, k: int)
    requires 0 <= i < n && AllSteps(ds) && Sum(ds) == k * n
    ensures Steps(i, ds, n) == i
  {
    StepsClosedForm(i, ds, n);
    ResidueShift(i, k, n);
  }

  /** n consecutive +1 changes on a list of n channels come back to the start. */
  lemma FullCycleReturns(i: int, n: int)
    requires 0 <= i < n
    ensures Steps(i, Ones(n), n) == i
  {
    SumOnes(n);
    ReturnsWhenSumIsMultiple(i, Ones(n), n, 1);
  }

  /** A +1 change undone by a -1 change, and the other way round. */
  lemma StepThenBack(i: int, d: int, n: int)
    requires 0 <= i < n && IsStep(d)
    ensures Wrap(Wrap(i, d, n), -d, n) == i
  {
  }

  /** Successive player errors from index i visit i+1, ..., n-1 and the
      (n - i)-th one lands on 0, the index at which the player pauses. */
  lemma {:induction false} ErrorRun(i: int, j: nat, n: int)
    requires 0 <= i < n && j <= n - i
    ensures Steps(i, Ones(j), n) == if j == n - i then 0 else i + j
  {
    StepsClosedForm(i, Ones(j), n);
    SumOnes(j);
    if j == n - i {
      ResiduePeriodic(0, n);
    }
  }
}
