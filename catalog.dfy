/** The compiled-in element catalog and the two element-cycling buttons. */
module Catalog {

  /** A catalog entry. The display colour is rendering data and is not modelled. */
  datatype Element = Element(name: string, symbol: string, atomicNumber: int)

  const ELEMENTS: seq<Element> := [
    Element("Hydrogen", "H", 1),
    Element("Helium", "He", 2),
    Element("Lithium", "Li", 3),
    Element("Beryllium", "Be", 4),
    Element("Boron", "B", 5),
    Element("Carbon", "C", 6),
    Element("Nitrogen", "N", 7),
    Element("Oxygen", "O", 8),
    Element("Sodium", "Na", 11),
    Element("Chlorine", "Cl", 17)
  ]

  /** C++ `%` on `int`: the quotient truncates toward zero, so the remainder takes the sign of the dividend. */
  function CppRem(a: int, b: int): (r: int)
    requires b > 0
    ensures a >= 0 ==> 0 <= r < b
    ensures a < 0 ==> -b < r <= 0
  {
    if a >= 0 then a % b else -((-a) % b)
  }

  /** `CppRem` is the remainder of the quotient truncated toward zero. */
  lemma CppRemCongruent(a: int, b: int)
    requires b > 0
    ensures a == (if a >= 0 then a / b else -((-a) / b)) * b + CppRem(a, b)
  {
  }

  /** The "Element >" button: `(selectedElement + 1) % size`. */
  function NextElement(i: int): (r: int)
    ensures 0 <= i < |ELEMENTS| ==> 0 <= r < |ELEMENTS|
    ensures 0 <= i < |ELEMENTS| ==> r == if i == |ELEMENTS| - 1 then 0 else i + 1
  {
    CppRem(i + 1, |ELEMENTS|)
  }

  /** The "< Element" button: `(selectedElement - 1 + size) % size`. */
  function PreviousElement(i: int): (r: int)
    ensures 0 <= i < |ELEMENTS| ==> 0 <= r < |ELEMENTS|
    ensures 0 <= i < |ELEMENTS| ==> r == if i == 0 then |ELEMENTS| - 1 else i - 1
  {
    CppRem(i - 1 + |ELEMENTS|, |ELEMENTS|)
  }

  /** The two buttons undo each other on every index in range. */
  lemma CyclingInverse(i: int)
    requires 0 <= i < |ELEMENTS|
    ensures PreviousElement(NextElement(i)) == i
    ensures NextElement(PreviousElement(i)) == i
  {
  }
}
