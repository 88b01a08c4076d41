/** The CRC register over the two-element field: bit `i` of a register is the coefficient
    of x^(15 - i), and adding registers is a bitwise exclusive-or. */
module ShiftRegister {
  type Register = r: seq<bool> | |r| == 16
    witness
    [false, false, false, false,
     false, false, false, false,
     false, false, false, false,
     false, false, false, false]

  const ZERO: Register :=
    [false, false, false, false,
     false, false, false, false,
     false, false, false, false,
     false, false, false, false]

  const ONES: Register :=
    [true, true, true, true,
     true, true, true, true,
     true, true, true, true,
     true, true, true, true]

  /** x^12 + x^5 + 1, the low part of the generator 0x1021. */
  predicate Tap(i: nat) { i == 3 || i == 10 || i == 15 }

  function Step(r: Register): Register {
    seq(16, i requires 0 <= i < 16 => (if i < 15 then r[i + 1] else false) != (r[0] && Tap(i)))
  }

  function StepN(r: Register, n: nat): Register
    decreases n
  {
    if n == 0 then r else StepN(Step(r), n - 1)
  }

  function Plus(x: Register, y: Register): Register {
    seq(16, i requires 0 <= i < 16 => x[i] != y[i])
  }

  /** The register that a first bit `b` adds. */
  function Top(b: bool): Register {
    seq(16, i => b && i == 0)
  }

  function Feed(r: Register, bits: seq<bool>): Register
    decreases |bits|
  {
    if bits == [] then r else Feed(Step(Plus(r, Top(bits[0]))), bits[1..])
  }

  // ------------------------------------------------ the register is linear and never forgets

  lemma StepLinear(x: Register, y: Register)
    ensures Step(Plus(x, y)) == Plus(Step(x), Step(y))
  {
  }

  lemma StepKernel(x: Register)
    requires Step(x) == ZERO
    ensures x == ZERO
  {
    assert !x[0] by { assert !Step(x)[15]; }
    forall j | 0 <= j < 16
      ensures !x[j]
    {
      if j > 0 { assert !Step(x)[j - 1]; } else { assert !Step(x)[15]; }
    }
  }

  lemma {:induction false} StepNLinear(x: Register, y: Register, n: nat)
    ensures StepN(Plus(x, y), n) == Plus(StepN(x, n), StepN(y, n))
    decreases n
  {
    if n > 0 {
      StepLinear(x, y);
      StepNLinear(Step(x), Step(y), n - 1);
    }
  }

  /** Turning the register loses nothing: only the empty register ever becomes empty. */
  lemma {:induction false} StepNKernel(x: Register, n: nat)
    requires StepN(x, n) == ZERO
    ensures x == ZERO
    decreases n
  {
    if n > 0 {
      StepNKernel(Step(x), n - 1);
      StepKernel(x);
    }
  }

  function Xor(a: seq<bool>, b: seq<bool>): (e: seq<bool>)
    requires |a| == |b|
    ensures |e| == |a|
  {
    seq(|a|, i requires 0 <= i < |a| => a[i] != b[i])
  }

  /** Two streams leave registers that differ by what their difference leaves. */
  lemma {:induction false} FeedLinear(x: Register, y: Register, a: seq<bool>, b: seq<bool>)
    requires |a| == |b|
    ensures Plus(Feed(x, a), Feed(y, b)) == Feed(Plus(x, y), Xor(a, b))
    decreases |a|
  {
    if a != [] {
      var x', y' := Plus(x, Top(a[0])), Plus(y, Top(b[0]));
      StepLinear(x', y');
      FeedLinear(Step(x'), Step(y'), a[1..], b[1..]);
      assert Plus(x', y') == Plus(Plus(x, y), Top(Xor(a, b)[0]));
      assert Xor(a, b)[1..] == Xor(a[1..], b[1..]);
    }
  }

  lemma {:induction false} FeedAppend(r: Register, a: seq<bool>, b: seq<bool>)
    ensures Feed(r, a + b) == Feed(Feed(r, a), b)
    decreases |a|
  {
    if a == [] {
      assert a + b == b;
    } else {
      assert (a + b)[1..] == a[1..] + b;
      FeedAppend(Step(Plus(r, Top(a[0]))), a[1..], b);
    }
  }

  /** Up to sixteen bits as the register content they add, the first bit on top. */
  function Pad(bits: seq<bool>): Register
    requires |bits| <= 16
  {
    bits + seq(16 - |bits|, _ => false)
  }

  /** Feeding up to sixteen bits one by one is adding them all at once and then turning. */
  lemma {:induction false} FeedPad(r: Register, bits: seq<bool>)
    requires |bits| <= 16
    ensures Feed(r, bits) == StepN(Plus(r, Pad(bits)), |bits|)
    decreases |bits|
  {
    if bits == [] {
      assert Plus(r, Pad(bits)) == r;
    } else {
      var r', tail := Plus(r, Top(bits[0])), Pad(bits[1..]);
      FeedPad(Step(r'), bits[1..]);
      assert Step(Plus(r, Pad(bits))) == Plus(Step(r'), tail) by {
        var s := Plus(r, Pad(bits));
        assert forall i :: 0 <= i < 15 ==> s[i + 1] == (r'[i + 1] != tail[i]);
        assert s[0] == r'[0];
      }
    }
  }

  lemma FeedWindow(error: seq<bool>, p: nat, q: nat)
    requires p <= q <= |error| && q <= p + 16
    requires forall i :: 0 <= i < |error| && error[i] ==> p <= i < q
    ensures Feed(ZERO, error) == StepN(StepN(Pad(error[p..q]), q - p), |error| - q)
  {
    var before, window, after := error[..p], error[p..q], error[q..];
    assert error == before + (window + after);
    FeedAppend(ZERO, before, window + after);
    FeedAppend(ZERO, window, after);
    FeedZeros(ZERO, before);
    StepNZero(p);
    FeedPad(ZERO, window);
    assert Plus(ZERO, Pad(window)) == Pad(window);
    FeedZeros(Feed(ZERO, window), after);
  }

  /** The burst theorem on bits: a non-zero pattern confined to sixteen consecutive
      positions always leaves a non-zero register. */
  lemma {:induction false} BurstLeavesTrace(error: seq<bool>, p: nat)
    requires p <= |error|
    requires exists i :: 0 <= i < |error| && error[i]
    requires forall i :: 0 <= i < |error| && error[i] ==> p <= i < p + 16
    ensures Feed(ZERO, error) != ZERO
  {
    hide StepN, Feed;
    var q := if p + 16 <= |error| then p + 16 else |error|;
    FeedWindow(error, p, q);
    var i :| 0 <= i < |error| && error[i];
    var window := Pad(error[p..q]);
    assert window[i - p];
    if Feed(ZERO, error) == ZERO {
      StepNKernel(StepN(window, q - p), |error| - q);
      StepNKernel(window, q - p);
    }
  }

  lemma {:induction false} FeedZeros(r: Register, bits: seq<bool>)
    requires forall i :: 0 <= i < |bits| ==> !bits[i]
    ensures Feed(r, bits) == StepN(r, |bits|)
    decreases |bits|
  {
    if bits != [] {
      assert Plus(r, Top(bits[0])) == r;
      FeedZeros(Step(r), bits[1..]);
    }
  }

  lemma {:induction false} StepNZero(n: nat)
    ensures StepN(ZERO, n) == ZERO
    decreases n
  {
    if n > 0 {
      EmptyStaysEmpty();
      hide Step;
      StepNZero(n - 1);
    }
  }

  lemma EmptyStaysEmpty()
    ensures Step(ZERO) == ZERO
  {
  }

  lemma {:induction false} StepNAppend(r: Register, m: nat, n: nat)
    ensures StepN(r, m + n) == StepN(StepN(r, m), n)
    decreases m
  {
    if m > 0 {
      StepNAppend(Step(r), m - 1, n);
    }
  }

  /** While no bit falls out of the top, turning the register only shifts it. */
  lemma {:induction false} FreeShift(r: Register, k: nat)
    requires k <= 16
    requires forall i :: 0 <= i < k ==> !r[i]
    ensures StepN(r, k) == r[k..] + seq(k, _ => false)
    decreases k
  {
    if k > 0 {
      assert Step(r) == r[1..] + [false];
      FreeShift(Step(r), k - 1);
    }
  }

  // ------------------------------------------------------------------------------ parity

  /** Whether an odd number of bits is set. */
  function Parity(bits: seq<bool>): bool
    decreases |bits|
  {
    bits != [] && bits[0] != Parity(bits[1..])
  }

  lemma {:induction false} ParityAppend(a: seq<bool>, b: seq<bool>)
    ensures Parity(a + b) == (Parity(a) != Parity(b))
    decreases |a|
  {
    if a == [] {
      assert a + b == b;
    } else {
      assert (a + b)[1..] == a[1..] + b;
      ParityAppend(a[1..], b);
    }
  }

  lemma {:induction false} ParityXor(a: seq<bool>, b: seq<bool>)
    requires |a| == |b|
    ensures Parity(Xor(a, b)) == (Parity(a) != Parity(b))
    decreases |a|
  {
    if a != [] {
      assert Xor(a, b)[1..] == Xor(a[1..], b[1..]);
      ParityXor(a[1..], b[1..]);
    }
  }

  lemma PlusParity(x: Register, y: Register)
    ensures Parity(Plus(x, y)) == (Parity(x) != Parity(y))
  {
    assert Plus(x, y) == Xor(x, y);
    ParityXor(x, y);
  }

  lemma {:induction false} QuietParity(bits: seq<bool>)
    requires forall i :: 0 <= i < |bits| ==> !bits[i]
    ensures !Parity(bits)
    decreases |bits|
  {
    if bits != [] {
      QuietParity(bits[1..]);
    }
  }

  lemma ZeroParity()
    ensures !Parity(ZERO)
  {
    QuietParity(ZERO);
  }

  lemma {:induction false} OneBitParity(bits: seq<bool>, p: nat)
    requires p < |bits| && forall i :: 0 <= i < |bits| && i != p ==> !bits[i]
    ensures Parity(bits) == bits[p]
    decreases |bits|
  {
    if p == 0 {
      QuietParity(bits[1..]);
    } else {
      OneBitParity(bits[1..], p - 1);
    }
  }

  /** The generator without its leading term has three terms, the leading term makes four:
      a turn moves no parity. */
  lemma StepParity(r: Register)
    ensures Parity(Step(r)) == Parity(r)
  {
    var (b, shifted) := (r[0], r[1..] + [false]);
    var t3, t10, t15 := seq(16, i => b && i == 3), seq(16, i => b && i == 10), seq(16, i => b && i == 15);
    OneBitParity(t3, 3);
    OneBitParity(t10, 10);
    OneBitParity(t15, 15);
    ParityXor(t3, t10);
    ParityXor(Xor(t3, t10), t15);
    ParityXor(shifted, Xor(Xor(t3, t10), t15));
    assert Step(r) == Xor(shifted, Xor(Xor(t3, t10), t15));
    ParityAppend(r[1..], [false]);
    assert Parity([false]) == (false != Parity([]));
  }

  /** The register's parity is that of all bits fed into it. */
  lemma {:induction false} FeedParity(r: Register, bits: seq<bool>)
    ensures Parity(Feed(r, bits)) == (Parity(r) != Parity(bits))
    decreases |bits|
  {
    if bits != [] {
      var r' := Plus(r, Top(bits[0]));
      PlusParity(r, Top(bits[0]));
      OneBitParity(Top(bits[0]), 0);
      StepParity(r');
      hide Step, Plus, Top;
      FeedParity(Step(r'), bits[1..]);
    }
  }
}
