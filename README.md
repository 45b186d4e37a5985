# SOLID teaching examples in Dafny

This project models three small object-oriented examples and proves what they
promise.

- **Product filtering** (`open_closed.dfy`, module `OpenClosed`). Products are
  records of a name, a `Color` and a `Size`.
  - The hard-coded filters of `ProductFilter` are modelled. So is
    `BetterFilter.filter`, the one generic filter driven by a specification.
  - The specification classes (`ColorSpecification`, `SizeSpecification`,
    `AndSpecification`, built with `&`) become one closed datatype `Spec`.
    `Satisfied` evaluates a `Spec` against a product.
  - Every filter is a loop that collects the matches, like the source's `for`
    loops with `yield`. Each loop is proved equal to the pure function
    `Filtered`.
  - For `Filtered`, the model proves that it keeps every satisfying item and no
    other item, and that the result keeps the input's order. It also proves
    that `a & b` filters like `a` followed by `b`.
- **Journal** (`single_responsibility.dfy`, module `SingleResponsibility`).
  - A class with a list of entries and a counter that only grows.
  - Each entry is stored as `"<n>: <text>"`. The model reads the number back
    from an entry (`EntryNumber`) and proves that this returns the number the
    entry was written with.
  - The class invariant: entry numbers increase along the list and lie in
    `1..count`. From it the model proves that there are never more entries
    than `count`, and that no number is handed out twice.
  - The rendering (`__str__`) of a non-empty journal is proved reversible:
    splitting it at newlines gives the entries back, as long as no entry
    contains a newline. An empty journal renders as `""`.
- **Rectangle and square** (`liskov_substitution.dfy`, module
  `LiskovSubstitution`).
  - A single class `Rectangle` stands for both Python classes. Its constant
    `square` records whether the object was built as a `Square`. That choice
    selects the setter behaviour, just as the subclass overrides do in Python.
  - `UseIt` is the client `use_it`. It is proved to meet its expectation
    exactly when the object is a plain rectangle or a square of side 10.
  - On the demonstration inputs, `Rectangle(2, 3)` gives 20 as expected, while
    `Square(5)` gives 100 where 50 was expected.

## Model

| member | source | states |
|---|---|---|
| `OpenClosed.ColorSpecMeaning` | solid/02_open_close_principle.py:77-78 | a colour specification holds of an item iff the item has that colour |
| `OpenClosed.SizeSpecMeaning` | solid/02_open_close_principle.py:85-86 | a size specification holds of an item iff the item has that size |
| `OpenClosed.EmptyAndSatisfiedByAll` | solid/02_open_close_principle.py:93-94 | a conjunction of no specifications holds of every item (`all` of nothing is true) |
| `OpenClosed.And` | solid/02_open_close_principle.py:62-63 | `a & b` holds of an item iff both `a` and `b` hold of it |
| `OpenClosed.AndAssociative` | solid/02_open_close_principle.py:62-63 | `(a & b) & c` and `a & (b & c)` hold of the same items |
| `OpenClosed.AndCommutative` | solid/02_open_close_principle.py:62-63 | `a & b` and `b & a` hold of the same items |
| `OpenClosed.FilteredConcat` | solid/02_open_close_principle.py:99-102 | filtering a concatenation is concatenating the filtered parts: each item is judged on its own, in input order |
| `OpenClosed.FilteredCounts` | solid/02_open_close_principle.py:99-102 | the result holds each satisfying item exactly as often as the input does and holds no other item; an item is in the result iff it is in the input and satisfies the specification; an empty input gives an empty result |
| `OpenClosed.FilteredIsSubsequence` | solid/02_open_close_principle.py:99-102 | the result is the input with some positions left out, with the kept items in their original order |
| `OpenClosed.FilteredAnd` | solid/02_open_close_principle.py:89-102 | filtering by `a & b` is the same as filtering by `a` and then filtering that result by `b`, and the same the other way round: conjunction is an order-preserving intersection |
| `OpenClosed.FilteredIdempotent` | solid/02_open_close_principle.py:97-102 | filtering an already filtered list by the same specification changes nothing |
| `OpenClosed.FilterByColor` | solid/02_open_close_principle.py:38-41 | the hard-coded colour scan returns the same list as the generic filter with `ColorSpec(color)` |
| `OpenClosed.FilterBySize` | solid/02_open_close_principle.py:44-47 | the hard-coded size scan returns the same list as the generic filter with `SizeSpec(size)` |
| `OpenClosed.FilterBySizeAndColor` | solid/02_open_close_principle.py:50-53 | the hard-coded size-and-colour scan returns the same list as the generic filter with `ColorSpec(color) & SizeSpec(size)`, and the same list as the size filter applied to the colour filter's output |
| `OpenClosed.Filter` | solid/02_open_close_principle.py:97-102 | `BetterFilter.filter`'s loop returns exactly the specification's filter of the input |
| `OpenClosed.Demo` | solid/02_open_close_principle.py:105-130 | on apple, tree and house: green gives apple and tree (by both approaches), large gives tree and house, blue and large gives house |
| `SingleResponsibility.Decimal` | solid/01_single_responsibility_principle.py:14 | the number in an entry is written as a non-empty string of decimal digits with no leading zero |
| `SingleResponsibility.DecimalRoundTrip` | solid/01_single_responsibility_principle.py:14 | reading back the digits written for a number gives that number |
| `SingleResponsibility.EntryNumberOfFormat` | solid/01_single_responsibility_principle.py:14 | an entry formatted as `"<n>: <text>"` reads back as number `n`, whatever the text |
| `SingleResponsibility.NumberingBoundsLength` | solid/01_single_responsibility_principle.py:13-17 | entries whose numbers increase strictly and lie in `1..count` number at most `count`, so the entry list is never longer than the counter |
| `SingleResponsibility.NumberedAfterRemoval` | solid/01_single_responsibility_principle.py:16-17 | deleting any one entry leaves numbers that still increase strictly and lie in `1..count` |
| `SingleResponsibility.Journal.constructor` | solid/01_single_responsibility_principle.py:8-10 | a new journal has no entries and a counter of 0 |
| `SingleResponsibility.Journal.AddEntry` | solid/01_single_responsibility_principle.py:12-14 | the counter grows by exactly one; exactly one entry `"<new count>: <text>"` is appended and earlier entries are unchanged; the new number is larger than every stored number; the numbering invariant is kept |
| `SingleResponsibility.Journal.RemoveEntry` | solid/01_single_responsibility_principle.py:16-17 | exactly the entry at the position is removed (a negative position counts from the end); the others keep their order; the counter is unchanged; the numbering invariant is kept |
| `SingleResponsibility.SplitJoin` | solid/01_single_responsibility_principle.py:19-20 | for a non-empty journal in which no entry contains a newline, splitting the rendered text at newlines gives back exactly the entries |
| `SingleResponsibility.JoinEmpty` | solid/01_single_responsibility_principle.py:19-20 | a journal with no entries renders as the empty string |
| `SingleResponsibility.JoinAppend` | solid/01_single_responsibility_principle.py:19-20 | rendering puts one newline between consecutive entries and none after the last |
| `SingleResponsibility.DemoRendering` | solid/01_single_responsibility_principle.py:37-40 | the two demonstration entries render as `"1: Hello World!!\n2: Hello Python!!"` |
| `SingleResponsibility.Demo` | solid/01_single_responsibility_principle.py:36-40 | a new journal, after the two demonstration adds, renders as `"1: Hello World!!\n2: Hello Python!!"` |
| `LiskovSubstitution.Rectangle.constructor` | solid/03_liskov_substitution_principle.py:8-10 | `Rectangle(w, h)` stores width `w` and height `h` and is not a square |
| `LiskovSubstitution.Rectangle.Square` | solid/03_liskov_substitution_principle.py:44-45 | `Square(s)` starts with width and height both `s` |
| `LiskovSubstitution.Rectangle.SetWidth` | solid/03_liskov_substitution_principle.py:16-18 | the width becomes the value. A rectangle's height is unchanged, while the `Square` override (lines 47-49) sets the height too. The height stays the same iff the object is not a square or already had that height. The square invariant is kept |
| `LiskovSubstitution.Rectangle.SetHeight` | solid/03_liskov_substitution_principle.py:24-26 | the height becomes the value. A rectangle's width is unchanged, while the `Square` override (lines 51-53) sets the width too. The width stays the same iff the object is not a square or already had that width. The square invariant is kept |
| `LiskovSubstitution.UseIt` | solid/03_liskov_substitution_principle.py:36-40 | afterwards the height is 10, and the width is 10 for a square and unchanged for a rectangle. Expected is the old width times 10. The area is width times height after that: the old width times 10 for a rectangle, 100 for a square. The two agree iff the object is not a square or its side was 10 |
| `LiskovSubstitution.Demo` | solid/03_liskov_substitution_principle.py:56-63 | `Rectangle(2, 3)` expects 20 and gets 20; `Square(5)` expects 50 and gets 100 |

These members are definitions, used by the members above, and the lemmas
above state their properties:

- `LiskovSubstitution.Rectangle.Area` (solid/03_liskov_substitution_principle.py:28-30): `width * height`, used by `UseIt`.
- `OpenClosed.Satisfied` (solid/02_open_close_principle.py:73-94): `is_satisfied` of the three specification classes.
- `OpenClosed.Filtered` (solid/02_open_close_principle.py:99-102): what `BetterFilter.filter` yields, which all four scans are proved equal to.
- `SingleResponsibility.FormatEntry` (solid/01_single_responsibility_principle.py:14): the f-string `"{count}: {text}"`.
- `SingleResponsibility.Join` (solid/01_single_responsibility_principle.py:20): `"\n".join(entries)`.
- `SingleResponsibility.Journal.Render` (solid/01_single_responsibility_principle.py:19-20): `__str__`, which is `Join` of the entries.

## Left out

- `PersistenceManager.save_to_file` and the demonstration's read-back of the file (solid/01_single_responsibility_principle.py:29-33, 42-46): file I/O with no logic.
- All printing, including the message in `use_it`: the model returns the computed `expected` and `area` values instead.
- `Rectangle.__str__`: cosmetic formatting.
- The abstract stubs `Specification.is_satisfied` and `Filter.filter`, which return `None`: the closed `Spec` datatype and the concrete filter replace the inheritance hierarchy. Because specifications are typed, a specification cannot name an attribute that a product lacks, so there is no attribute-lookup error.
- Generators: each filter returns its finished list rather than yielding items lazily.
- `Enum` machinery, including the numeric values 1 to 3 of the enum members: colours and sizes are plain datatype constructors.
- Object identity: products are compared by value, so two products with equal fields count as the same item in the counting statement of `FilteredCounts`.
- Widths, heights and the numbers in journal entries are unbounded integers. Non-integer sizes are not modelled, so `int(w * 10)` is just `w * 10`.
- Inheritance: the class a rectangle belongs to is the constant `square`. A client cannot add a new subclass.
- `SingleResponsibility.Journal.RemoveEntry`: a position outside `-len..len-1` makes `del` raise `IndexError`. The model requires a valid position rather than modelling the exception.
- `SingleResponsibility.SplitJoin`: it requires a non-empty list of entries, none containing a newline. An empty journal renders as `""`, which splits into one empty piece rather than no entries. An entry text containing a newline cannot be told apart from two entries after rendering.
