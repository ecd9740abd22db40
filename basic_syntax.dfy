/** The helper functions of the Go basic-syntax tutorial
    (1-Basic-Syntax/main.go): small arithmetic functions on Go's `int`,
    a function taking a function, two summing loops, a write through a
    pointer, and removing one element of a slice in place. */
module BasicSyntax {
  import opened GoInt
  import Customer

  // ---------------------------------------------------------------------
  // Arithmetic helpers. Every `+` and `-` on `int` wraps around.

  /** `sum1`: adds two local constants. */
  function Sum1(): (r: Int)
    ensures r == 15
  {
    10 + 5
  }

  /** `sum2` and `add`: Go's wrapping `a + b`. */
  function Add(a: Int, b: Int): (r: Int)
    ensures MinInt <= a + b <= MaxInt ==> r == a + b
    ensures (a + b - r) % Modulus == 0
  {
    Wrap(a + b)
  }

  /** `sub`: Go's wrapping `a - b`. */
  function Sub(a: Int, b: Int): (r: Int)
    ensures MinInt <= a - b <= MaxInt ==> r == a - b
    ensures (a - b - r) % Modulus == 0
  {
    Wrap(a - b)
  }

  /** `sum2(a2, b2)` is the same addition as `add`. */
  function Sum2(a: Int, b: Int): (r: Int)
    ensures r == Add(a, b)
  {
    Wrap(a + b)
  }

  /** `sum3`: three results, the sum, the string "Hello" and `true`. */
  function Sum3(a: Int, b: Int): (r: (Int, string, bool))
    ensures r.0 == Sum2(a, b)
    ensures r.1 == "Hello" && r.2
  {
    (Wrap(a + b), "Hello", true)
  }

  /** Subtracting what was added gives back the original value, even when
      the addition overflowed. */
  lemma SubUndoesAdd(a: Int, b: Int)
    ensures Sub(Add(a, b), b) == a
  {
    WrapAddLeft(a + b, -(b as int));
  }

  /** `cal`: applies its argument to (50, 10). The tutorial prints the
      result; here it is returned. */
  function Cal(f: (Int, Int) -> Int): (r: Int)
  {
    f(50, 10)
  }

  /** The values `cal` prints for `add`, `sub`, the doubling literal `f3`
      and the negating literal passed inline. The comment next to the last
      call says 120; the code computes -120. */
  lemma CalPrintedValues()
    ensures Cal(Add) == 60
    ensures Cal(Sub) == 40
    ensures Cal((a: Int, b: Int) => Wrap(a + a + b + b)) == 120
    ensures Cal((a: Int, b: Int) => Wrap(-(a as int) - a - b - b)) == -120
  {
  }

  // ---------------------------------------------------------------------
  // Summing loops.

  /** The exact sum of a sequence, the reference for the loops. */
  function Sum(s: seq<int>): (r: int)
  {
    if s == [] then 0 else Sum(s[..|s| - 1]) + s[|s| - 1]
  }

  lemma SumSnoc(s: seq<int>, i: nat)
    requires i < |s|
    ensures Sum(s[..i + 1]) == Sum(s[..i]) + s[i]
  {
    assert s[..i + 1][..i] == s[..i];
  }

  /** The exact sum of a concatenation is the sum of the parts. */
  lemma {:induction false} SumAppend(s: seq<int>, t: seq<int>)
    ensures Sum(s + t) == Sum(s) + Sum(t)
    decreases |t|
  {
    if t == [] {
      assert s + t == s;
    } else {
      var u := t[..|t| - 1];
      assert (s + t)[..|s + t| - 1] == s + u;
      assert t[..|t| - 1] == u;
      SumAppend(s, u);
    }
  }

  /** `sumElement1`: `s += v` for each element. The result is the exact sum
      wrapped to 64 bits, which is the exact sum whenever that fits; an
      empty slice gives 0. */
  method SumElement1(a: seq<Int>) returns (s: Int)
    ensures s == Wrap(Sum(a))
    ensures MinInt <= Sum(a) <= MaxInt ==> s == Sum(a)
    ensures a == [] ==> s == 0
  {
    s := 0;
    var i := 0;
    while i < |a|
      invariant 0 <= i <= |a|
      invariant s == Wrap(Sum(a[..i]))
    {
      SumSnoc(a, i);
      WrapAddLeft(Sum(a[..i]), a[i]);
      s := Wrap(s + a[i]);
      i := i + 1;
    }
    assert a[..i] == a;
  }

  /** `sumElement2`: the same loop over variadic arguments, which Go passes
      as a slice. */
  method SumElement2(a: seq<Int>) returns (s: Int)
    ensures s == Wrap(Sum(a))
    ensures MinInt <= Sum(a) <= MaxInt ==> s == Sum(a)
    ensures a == [] ==> s == 0
  {
    s := 0;
    for i := 0 to |a|
      invariant s == Wrap(Sum(a[..i]))
    {
      SumSnoc(a, i);
      WrapAddLeft(Sum(a[..i]), a[i]);
      s := Wrap(s + a[i]);
    }
    assert a[..|a|] == a;
  }

  /** The sums the tutorial prints. */
  method SumElementDemo() returns (ans1: Int, ans2: Int)
    ensures ans1 == 600 && ans2 == 15000
  {
    assert Sum([100, 200, 300]) == 600 by {
      assert [100, 200, 300][..2] == [100, 200];
      assert [100, 200][..1] == [100];
      assert [100][..0] == [];
    }
    ans1 := SumElement1([100, 200, 300]);
    var xs: seq<Int> := [1000, 2000, 3000, 4000, 5000];
    assert Sum(xs) == 15000 by {
      SumAppend([1000, 2000], [3000, 4000, 5000]);
      assert [1000, 2000] + [3000, 4000, 5000] == xs;
      assert [1000, 2000][..1] == [1000];
      assert [1000][..0] == [];
      assert [3000, 4000, 5000][..2] == [3000, 4000];
      assert [3000, 4000][..1] == [3000];
      assert [3000][..0] == [];
    }
    ans2 := SumElement2(xs);
  }

  // ---------------------------------------------------------------------
  // Pointers.

  /** A Go `int` variable whose address is taken. */
  class IntVar {
    var value: Int

    constructor (v: Int)
      ensures value == v
    {
      value := v;
    }
  }

  /** `sumPointer`: stores 10 + 20 in the pointee and returns nothing. */
  method SumPointer(result: IntVar)
    modifies result
    ensures result.value == 30
  {
    var a: Int := 10;
    var b: Int := 20;
    result.value := Wrap(a + b);
  }

  /** `var5` starts at 0 and reads 30 after `sumPointer(&var5)`; another
      variable is left alone. */
  method SumPointerDemo() returns (var5: Int, other: Int)
    ensures var5 == 30 && other == 0
  {
    var v := new IntVar(0);
    var w := new IntVar(0);
    SumPointer(v);
    var5 := v.value;
    other := w.value;
  }

  // ---------------------------------------------------------------------
  // Removing one element of a slice: `append(s[:k], s[k+1:]...)`.

  /** The intended value: the sequence without its element at `k`. */
  function Removed(s: seq<Int>, k: nat): (r: seq<Int>)
    requires k < |s|
  {
    s[..k] + s[k + 1..]
  }

  /** Removing keeps the order of the other elements, shifts the tail one
      place left and drops exactly one occurrence of `s[k]`. */
  lemma RemovedElements(s: seq<Int>, k: nat)
    requires k < |s|
    ensures |Removed(s, k)| == |s| - 1
    ensures forall j :: 0 <= j < k ==> Removed(s, k)[j] == s[j]
    ensures forall j :: k <= j < |s| - 1 ==> Removed(s, k)[j] == s[j + 1]
    ensures multiset(Removed(s, k)) + multiset{s[k]} == multiset(s)
  {
    assert s == s[..k] + [s[k]] + s[k + 1..];
  }

  /** `append(s[:k], s[k+1:]...)` where `s` owns the whole array: the
      append fits in the capacity of `s[:k]`, so it copies the tail one place
      left inside the same backing array. The new slice is the first `n`
      elements; the last element of the array keeps its old value. */
  method RemoveAt(a: array<Int>, k: nat) returns (n: nat)
    requires k < a.Length
    modifies a
    ensures n == a.Length - 1
    ensures a[..n] == Removed(old(a[..]), k)
    ensures a[n] == old(a[a.Length - 1])
  {
    n := a.Length - 1;
    var i := k;
    while i < n
      invariant k <= i <= n
      invariant a[..k] == old(a[..k])
      invariant forall j :: k <= j < i ==> a[j] == old(a[j + 1])
      invariant forall j :: i <= j < a.Length ==> a[j] == old(a[j])
    {
      a[i] := a[i + 1];
      i := i + 1;
    }
    assert a[..n] == a[..k] + a[k..n];
    assert a[k..n] == old(a[..])[k + 1..];
  }

  /** The tutorial's removal of index 4: the new slice reads
      [10 20 30 40 60 70 80 90] and the shared backing array now ends in
      two 90s. */
  method SliceRemovalDemo() returns (slice3: seq<Int>, backing: seq<Int>)
    ensures slice3 == [10, 20, 30, 40, 60, 70, 80, 90]
    ensures backing == [10, 20, 30, 40, 60, 70, 80, 90, 90]
  {
    var a := new Int[9] [10, 20, 30, 40, 50, 60, 70, 80, 90];
    var before := a[..];
    var n := RemoveAt(a, 4);
    assert before[..4] + before[5..] == [10, 20, 30, 40, 60, 70, 80, 90];
    slice3 := a[..n];
    backing := a[..];
    assert backing == slice3 + [a[n]];
  }

  // ---------------------------------------------------------------------
  // Getter and setter.

  /** `struct3 := customer.Person{}; struct3.SetName("Pasakorn")`: the
      getter then returns the new name and the age keeps its zero value. */
  method GetterSetterDemo() returns (name: string, age: Int)
    ensures name == "Pasakorn" && age == 0
  {
    var struct3 := new Customer.Person();
    struct3.SetName("Pasakorn");
    name := struct3.GetName();
    age := struct3.GetAge();
  }
}
