/**
 Rectangles and squares (solid/03_liskov_substitution_principle.py).

 `Square` is a subclass of `Rectangle` in the original. Dafny classes do not
 inherit, so one class `Rectangle` stands for both, and the constant
 `square` records which constructor built the object, the way the object's
 class picks the property setters at run time. A client written against
 the rectangle contract (`UseIt`) can then be handed either kind, as in the
 original. This is where the substitution breaks: setting the height of a
 square also changes its width.
 */
module LiskovSubstitution {

  class Rectangle {
    /** True for instances of the `Square` subclass. */
    const square: bool
    var width: int
    var height: int

    /** A square keeps its sides equal. */
    ghost predicate Valid()
      reads this
    {
      square ==> width == height
    }

    /** The `area` property. */
    function Area(): (a: int)
      reads this
    {
      width * height
    }

    /** `Rectangle(w, h)` */
    constructor (w: int, h: int)
      ensures Valid() && !square
      ensures width == w && height == h
    {
      square := false;
      width := w;
      height := h;
    }

    /** `Square(size)` */
    constructor Square(size: int)
      ensures Valid() && square
      ensures width == size && height == size
    {
      square := true;
      width := size;
      height := size;
    }

    /** The `width` setter: a rectangle leaves its height alone, a square follows. */
    method SetWidth(value: int)
      requires Valid()
      modifies this
      ensures Valid()
      ensures width == value
      ensures height == if square then value else old(height)
      ensures height == old(height) <==> !square || old(height) == value
    {
      if square {
        width, height := value, value;
      } else {
        width := value;
      }
    }

    /** The `height` setter: a rectangle leaves its width alone, a square follows. */
    method SetHeight(value: int)
      requires Valid()
      modifies this
      ensures Valid()
      ensures height == value
      ensures width == if square then value else old(width)
      ensures width == old(width) <==> !square || old(width) == value
    {
      if square {
        width, height := value, value;
      } else {
        height := value;
      }
    }
  }

  /**
   `use_it`: set the height to 10 and compare the area with what the
   rectangle contract predicts, the old width times 10. The two agree on every
   plain rectangle, and on a square only when its side was already 10.
   */
  method UseIt(rc: Rectangle) returns (expected: int, area: int)
    requires rc.Valid()
    modifies rc
    ensures rc.Valid()
    ensures rc.height == 10
    ensures rc.width == if rc.square then 10 else old(rc.width)
    ensures expected == old(rc.width) * 10
    ensures area == rc.Area()
    ensures area == if rc.square then 100 else old(rc.width) * 10
    ensures area == expected <==> !rc.square || old(rc.width) == 10
  {
    var w := rc.width;
    rc.SetHeight(10);
    expected := w * 10;
    area := rc.Area();
  }

  /**
   The demonstration: `Rectangle(2, 3)` meets the expectation (20 and 20),
   `Square(5)` does not (50 expected, 100 obtained).
   */
  method Demo() returns (rectExpected: int, rectArea: int, squareExpected: int, squareArea: int)
    ensures rectExpected == 20 && rectArea == 20
    ensures squareExpected == 50 && squareArea == 100
  {
    var rectangle := new Rectangle(2, 3);
    rectExpected, rectArea := UseIt(rectangle);
    var sq := new Rectangle.Square(5);
    squareExpected, squareArea := UseIt(sq);
  }
}
