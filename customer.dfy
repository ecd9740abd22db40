/** The `customer` package of the Go basic-syntax tutorial
    (1-Basic-Syntax/customer/a.go): an exported multiplication and a
    `Person` whose unexported fields are reached through getters and setters. */
module Customer {
  import opened GoInt

  /** The exported package variable. */
  const Name: string := "Customer"

  /** `a * b` on Go's `int`: the exact product when it fits, otherwise the
      product wrapped around modulo 2^64. */
  function Multi(a: Int, b: Int): (r: Int)
    ensures MinInt <= a * b <= MaxInt ==> r == a * b
    ensures (a * b - r) % Modulus == 0
  {
    Wrap(a * b)
  }

  /** The value the tutorial prints for `Multi(5, 5)`. */
  lemma MultiPrintedValue()
    ensures Multi(5, 5) == 25
  {
  }

  /** A `Person` with private `name` and `age`. Getters have value receivers
      and so are functions that only read; setters have pointer receivers and
      so are methods that modify the object. */
  class Person {
    var name: string
    var age: Int

    /** `Person{}`: both fields at their zero values. */
    constructor ()
      ensures name == "" && age == 0
    {
      name := "";
      age := 0;
    }

    function GetName(): string
      reads this
    {
      name
    }

    function GetAge(): Int
      reads this
    {
      age
    }

    /** After `SetName(n)`, `GetName()` returns `n`; the age is untouched. */
    method SetName(n: string)
      modifies this
      ensures GetName() == n
      ensures GetAge() == old(GetAge())
    {
      name := n;
    }

    /** After `SetAge(a)`, `GetAge()` returns `a`; the name is untouched. */
    method SetAge(a: Int)
      modifies this
      ensures GetAge() == a
      ensures GetName() == old(GetName())
    {
      age := a;
    }
  }
}
