/**
 Product filtering, first with hard-coded scans and then with composable
 specifications (solid/02_open_close_principle.py).

 The Python specification classes form an open inheritance hierarchy; here
 they are a closed sum type `Spec`, evaluated by `Satisfied`. Every filter is
 a loop that accumulates the matches in order, and is proved equal to the
 pure function `Filtered`, about which the order, membership and conjunction
 properties are proved once.
 */
module OpenClosed {

  datatype Color = Red | Green | Blue

  datatype Size = Small | Medium | Large

  datatype Product = Product(name: string, color: Color, size: Size)

  /** The specification classes: one variant per concrete subclass. */
  datatype Spec =
    | ColorSpec(color: Color)
    | SizeSpec(size: Size)
    | AndSpec(args: seq<Spec>)

  /** `is_satisfied`; a conjunction holds iff every constituent holds. */
  predicate Satisfied(spec: Spec, item: Product)
  {
    match spec
    case ColorSpec(c) => item.color == c
    case SizeSpec(s) => item.size == s
    case AndSpec(args) => forall i | 0 <= i < |args| :: Satisfied(args[i], item)
  }

  /** The `&` operator: the conjunction of exactly two specifications. */
  function And(a: Spec, b: Spec): (r: Spec)
    ensures forall x :: Satisfied(r, x) <==> Satisfied(a, x) && Satisfied(b, x)
  {
    var r := AndSpec([a, b]);
    assert r.args[0] == a && r.args[1] == b;
    r
  }

  /** The items of `items` that satisfy `spec`, in their original order. */
  function Filtered(items: seq<Product>, spec: Spec): (r: seq<Product>)
  {
    if items == [] then []
    else (if Satisfied(spec, items[0]) then [items[0]] else []) + Filtered(items[1..], spec)
  }

  /** `r` is obtained from `s` by keeping the positions listed in `idx`, which increase. */
  ghost predicate IsSubsequenceAt(r: seq<Product>, s: seq<Product>, idx: seq<int>)
  {
    && |idx| == |r|
    && (forall k | 0 <= k < |idx| :: 0 <= idx[k] < |s| && s[idx[k]] == r[k])
    && (forall k, l | 0 <= k < l < |idx| :: idx[k] < idx[l])
  }

  ghost predicate IsSubsequence(r: seq<Product>, s: seq<Product>)
  {
    exists idx :: IsSubsequenceAt(r, s, idx)
  }

  // ---------------------------------------------------------------------
  // Properties of specifications

  lemma ColorSpecMeaning(c: Color, x: Product)
    ensures Satisfied(ColorSpec(c), x) <==> x.color == c
  {
  }

  lemma SizeSpecMeaning(s: Size, x: Product)
    ensures Satisfied(SizeSpec(s), x) <==> x.size == s
  {
  }

  /** A conjunction of no specifications is satisfied by every item. */
  lemma EmptyAndSatisfiedByAll(x: Product)
    ensures Satisfied(AndSpec([]), x)
  {
  }

  /** Nesting `&` either way gives the same answer on every item. */
  lemma AndAssociative(a: Spec, b: Spec, c: Spec, x: Product)
    ensures Satisfied(And(And(a, b), c), x) <==> Satisfied(And(a, And(b, c)), x)
  {
  }

  /** The order of the two operands of `&` does not change the answer. */
  lemma AndCommutative(a: Spec, b: Spec, x: Product)
    ensures Satisfied(And(a, b), x) <==> Satisfied(And(b, a), x)
  {
  }

  // ---------------------------------------------------------------------
  // Properties of the filter function

  /** Filtering distributes over concatenation: each item is judged on its own. */
  lemma {:induction false} FilteredConcat(a: seq<Product>, b: seq<Product>, spec: Spec)
    ensures Filtered(a + b, spec) == Filtered(a, spec) + Filtered(b, spec)
  {
    if a == [] {
      assert a + b == b;
    } else {
      var head := if Satisfied(spec, a[0]) then [a[0]] else [];
      assert (a + b)[0] == a[0];
      assert (a + b)[1..] == a[1..] + b;
      assert Filtered(a + b, spec) == head + Filtered(a[1..] + b, spec);
      assert Filtered(a, spec) == head + Filtered(a[1..], spec);
      FilteredConcat(a[1..], b, spec);
    }
  }

  /**
   Every occurrence of a satisfying item is kept and no other item is: the
   result holds each item exactly as often as `items` does when it satisfies
   `spec`, and not at all otherwise. An empty input gives an empty output.
   */
  lemma {:induction false} FilteredCounts(items: seq<Product>, spec: Spec)
    ensures forall x :: multiset(Filtered(items, spec))[x] ==
                        if Satisfied(spec, x) then multiset(items)[x] else 0
    ensures forall x :: x in Filtered(items, spec) <==> x in items && Satisfied(spec, x)
    ensures items == [] ==> Filtered(items, spec) == []
  {
    if items != [] {
      FilteredCounts(items[1..], spec);
      assert items == [items[0]] + items[1..];
      assert multiset(items) == multiset([items[0]]) + multiset(items[1..]);
    }
    forall x ensures x in Filtered(items, spec) <==> x in items && Satisfied(spec, x) {
      assert x in Filtered(items, spec) <==> multiset(Filtered(items, spec))[x] > 0;
      assert x in items <==> multiset(items)[x] > 0;
    }
  }

  /** Every position of `idx` moved one place to the right. */
  function Shift(idx: seq<int>): (r: seq<int>)
  {
    seq(|idx|, k requires 0 <= k < |idx| => idx[k] + 1)
  }

  lemma SubsequenceSkip(x: Product, r: seq<Product>, s: seq<Product>, idx: seq<int>)
    requires IsSubsequenceAt(r, s, idx)
    ensures IsSubsequenceAt(r, [x] + s, Shift(idx))
  {
    var s' := [x] + s;
    forall k | 0 <= k < |idx| ensures s'[Shift(idx)[k]] == r[k] {
      assert s'[idx[k] + 1] == s[idx[k]];
    }
  }

  lemma SubsequenceKeep(x: Product, r: seq<Product>, s: seq<Product>, idx: seq<int>)
    requires IsSubsequenceAt(r, s, idx)
    ensures IsSubsequenceAt([x] + r, [x] + s, [0] + Shift(idx))
  {
    SubsequenceSkip(x, r, s, idx);
    var idx' := [0] + Shift(idx);
    var r' := [x] + r;
    forall k | 0 < k < |idx'| ensures 0 < idx'[k] && ([x] + s)[idx'[k]] == r'[k] {
      assert idx'[k] == Shift(idx)[k - 1];
    }
  }

  /** The result keeps the relative order of the input. */
  lemma {:induction false} FilteredIsSubsequence(items: seq<Product>, spec: Spec)
    ensures IsSubsequence(Filtered(items, spec), items)
  {
    if items == [] {
      assert IsSubsequenceAt([], items, []);
    } else {
      var x, tail := items[0], items[1..];
      assert items == [x] + tail;
      var rest := Filtered(tail, spec);
      FilteredIsSubsequence(tail, spec);
      var idx :| IsSubsequenceAt(rest, tail, idx);
      if Satisfied(spec, x) {
        assert Filtered(items, spec) == [x] + rest;
        SubsequenceKeep(x, rest, tail, idx);
      } else {
        assert Filtered(items, spec) == rest;
        SubsequenceSkip(x, rest, tail, idx);
      }
    }
  }

  /**
   Filtering by `a & b` is the order-preserving intersection of the two
   filters: filter by `a`, then filter what is left by `b`, in either order.
   */
  lemma {:induction false} FilteredAnd(items: seq<Product>, a: Spec, b: Spec)
    ensures Filtered(items, And(a, b)) == Filtered(Filtered(items, a), b)
    ensures Filtered(items, And(a, b)) == Filtered(Filtered(items, b), a)
  {
    if items != [] {
      var x := items[0];
      FilteredAnd(items[1..], a, b);
      var head := if Satisfied(a, x) then [x] else [];
      FilteredConcat(head, Filtered(items[1..], a), b);
      var head' := if Satisfied(b, x) then [x] else [];
      FilteredConcat(head', Filtered(items[1..], b), a);
    }
  }

  /** Filtering twice by the same specification changes nothing. */
  lemma {:induction false} FilteredIdempotent(items: seq<Product>, spec: Spec)
    ensures Filtered(Filtered(items, spec), spec) == Filtered(items, spec)
  {
    if items != [] {
      FilteredIdempotent(items[1..], spec);
      var head := if Satisfied(spec, items[0]) then [items[0]] else [];
      FilteredConcat(head, Filtered(items[1..], spec), spec);
    }
  }

  // ---------------------------------------------------------------------
  // The scans

  /** `ProductFilter.filter_by_color`: the same as filtering by `ColorSpec(color)`. */
  method FilterByColor(items: seq<Product>, color: Color) returns (r: seq<Product>)
    ensures r == Filtered(items, ColorSpec(color))
  {
    r := [];
    for i := 0 to |items|
      invariant r == Filtered(items[..i], ColorSpec(color))
    {
      var p := items[i];
      FilteredConcat(items[..i], [p], ColorSpec(color));
      assert items[..i + 1] == items[..i] + [p];
      if p.color == color {
        r := r + [p];
      }
    }
    assert items[..|items|] == items;
  }

  /** `ProductFilter.filter_by_size`: the same as filtering by `SizeSpec(size)`. */
  method FilterBySize(items: seq<Product>, size: Size) returns (r: seq<Product>)
    ensures r == Filtered(items, SizeSpec(size))
  {
    r := [];
    for i := 0 to |items|
      invariant r == Filtered(items[..i], SizeSpec(size))
    {
      var p := items[i];
      FilteredConcat(items[..i], [p], SizeSpec(size));
      assert items[..i + 1] == items[..i] + [p];
      if p.size == size {
        r := r + [p];
      }
    }
    assert items[..|items|] == items;
  }

  /**
   `ProductFilter.filter_by_size_and_color`: the same as filtering by
   `ColorSpec(color) & SizeSpec(size)`, and so (by `FilteredAnd`) the same as
   filtering the output of `FilterByColor` by size.
   */
  method FilterBySizeAndColor(items: seq<Product>, color: Color, size: Size) returns (r: seq<Product>)
    ensures r == Filtered(items, And(ColorSpec(color), SizeSpec(size)))
    ensures r == Filtered(Filtered(items, ColorSpec(color)), SizeSpec(size))
  {
    r := [];
    for i := 0 to |items|
      invariant r == Filtered(items[..i], And(ColorSpec(color), SizeSpec(size)))
    {
      var p := items[i];
      FilteredConcat(items[..i], [p], And(ColorSpec(color), SizeSpec(size)));
      assert items[..i + 1] == items[..i] + [p];
      if p.size == size && p.color == color {
        r := r + [p];
      }
    }
    assert items[..|items|] == items;
    FilteredAnd(items, ColorSpec(color), SizeSpec(size));
  }

  /** `BetterFilter.filter`: one scan for every specification. */
  method Filter(items: seq<Product>, spec: Spec) returns (r: seq<Product>)
    ensures r == Filtered(items, spec)
  {
    r := [];
    for i := 0 to |items|
      invariant r == Filtered(items[..i], spec)
    {
      var item := items[i];
      FilteredConcat(items[..i], [item], spec);
      assert items[..i + 1] == items[..i] + [item];
      if Satisfied(spec, item) {
        r := r + [item];
      }
    }
    assert items[..|items|] == items;
  }

  // ---------------------------------------------------------------------
  // The demonstration products

  const Apple := Product("apple", Green, Small)
  const Tree := Product("tree", Green, Large)
  const House := Product("house", Blue, Large)

  /** Filtering the demonstration products judges each of the three in turn. */
  lemma FilteredDemoProducts(spec: Spec)
    ensures Filtered([Apple, Tree, House], spec) ==
            (if Satisfied(spec, Apple) then [Apple] else []) +
            (if Satisfied(spec, Tree) then [Tree] else []) +
            (if Satisfied(spec, House) then [House] else [])
  {
    var products := [Apple, Tree, House];
    assert products == [Apple] + [Tree] + [House];
    FilteredConcat([Apple] + [Tree], [House], spec);
    FilteredConcat([Apple], [Tree], spec);
    assert [House][1..] == [] && [Tree][1..] == [] && [Apple][1..] == [];
  }

  /** The four filters the demonstration runs, with the results they print. */
  method Demo() returns (greenOld: seq<Product>, green: seq<Product>, large: seq<Product>, blueLarge: seq<Product>)
    ensures greenOld == [Apple, Tree]
    ensures green == [Apple, Tree]
    ensures large == [Tree, House]
    ensures blueLarge == [House]
  {
    var products := [Apple, Tree, House];
    var blueAndLarge := And(ColorSpec(Blue), SizeSpec(Large));
    FilteredDemoProducts(ColorSpec(Green));
    FilteredDemoProducts(SizeSpec(Large));
    FilteredDemoProducts(blueAndLarge);
    greenOld := FilterByColor(products, Green);
    green := Filter(products, ColorSpec(Green));
    large := Filter(products, SizeSpec(Large));
    blueLarge := Filter(products, blueAndLarge);
  }
}
