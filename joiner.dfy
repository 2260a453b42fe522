/**
  `cx`: flatten a nested list of class values to any depth, keep the truthy
  leaves, and join them with single spaces.
*/
module Joiner {
  import opened JsValues

  /** `classes.flat(Infinity)`: every leaf, left to right. */
  function Flatten(classes: seq<ClassValue>): seq<Scalar>
    decreases classes
  {
    if classes == [] then [] else Leaves(classes[0]) + Flatten(classes[1..])
  }

  function Leaves(c: ClassValue): seq<Scalar>
    decreases c
  {
    match c
    case Leaf(x) => [x]
    case Nested(items) => Flatten(items)
  }

  /** `.filter(Boolean)` */
  function KeepTruthy(xs: seq<Scalar>): (r: seq<Scalar>)
    ensures |r| <= |xs|
    ensures forall i :: 0 <= i < |r| ==> IsTruthy(r[i])
  {
    if xs == [] then []
    else (if IsTruthy(xs[0]) then [xs[0]] else []) + KeepTruthy(xs[1..])
  }

  /** The text `join` writes for each element. */
  function Texts(xs: seq<Scalar>): seq<string> {
    seq(|xs|, i requires 0 <= i < |xs| => ElementText(Leaf(xs[i])))
  }

  /** `cx(...classes)` */
  function Cx(classes: seq<ClassValue>): string {
    Join(" ", Texts(KeepTruthy(Flatten(classes))))
  }

  /** Two already joined class strings written one after the other, with one space between them when both are non-empty. */
  function SpaceJoin(a: string, b: string): string {
    if a == "" then b else if b == "" then a else a + " " + b
  }

  /**
    A structural reading of `cx` that never builds the flat list: a truthy leaf is
    its text, a falsy leaf is nothing, and a list is its members' texts space-joined.
  */
  function Render(c: ClassValue): string
    decreases c
  {
    match c
    case Leaf(x) => if IsTruthy(x) then ElementText(c) else ""
    case Nested(items) => RenderAll(items)
  }

  function RenderAll(cs: seq<ClassValue>): string
    decreases cs
  {
    if cs == [] then "" else SpaceJoin(Render(cs[0]), RenderAll(cs[1..]))
  }

  /** The structural rendering of a non-empty argument list: the first argument, then the rest. */
  lemma RenderAllCons(a: ClassValue, rest: seq<ClassValue>)
    ensures RenderAll([a] + rest) == SpaceJoin(Render(a), RenderAll(rest))
  {
    assert ([a] + rest)[0] == a;
    assert ([a] + rest)[1..] == rest;
  }

  lemma RenderAllOne(a: ClassValue)
    ensures RenderAll([a]) == Render(a)
  {
    RenderAllCons(a, []);
    assert [a] + [] == [a];
  }

  lemma RenderAllTwo(a: ClassValue, b: ClassValue)
    ensures RenderAll([a, b]) == SpaceJoin(Render(a), Render(b))
  {
    RenderAllCons(a, [b]);
    assert [a] + [b] == [a, b];
    RenderAllOne(b);
  }

  lemma RenderAllFive(a: ClassValue, b: ClassValue, c: ClassValue, d: ClassValue, e: ClassValue)
    ensures RenderAll([a, b, c, d, e]) ==
      SpaceJoin(Render(a), SpaceJoin(Render(b), SpaceJoin(Render(c), SpaceJoin(Render(d), Render(e)))))
  {
    RenderAllTwo(d, e);
    RenderAllCons(c, [d, e]);
    assert [c] + [d, e] == [c, d, e];
    RenderAllCons(b, [c, d, e]);
    assert [b] + [c, d, e] == [b, c, d, e];
    RenderAllCons(a, [b, c, d, e]);
    assert [a] + [b, c, d, e] == [a, b, c, d, e];
  }

  lemma {:induction false} FlattenAppend(xs: seq<ClassValue>, ys: seq<ClassValue>)
    ensures Flatten(xs + ys) == Flatten(xs) + Flatten(ys)
  {
    if xs == [] {
      assert xs + ys == ys;
    } else {
      calc {
        Flatten(xs + ys);
        { assert (xs + ys)[0] == xs[0]; assert (xs + ys)[1..] == xs[1..] + ys; }
        Leaves(xs[0]) + Flatten(xs[1..] + ys);
        { FlattenAppend(xs[1..], ys); }
        Leaves(xs[0]) + (Flatten(xs[1..]) + Flatten(ys));
        (Leaves(xs[0]) + Flatten(xs[1..])) + Flatten(ys);
      }
    }
  }

  lemma {:induction false} KeepTruthyAppend(xs: seq<Scalar>, ys: seq<Scalar>)
    ensures KeepTruthy(xs + ys) == KeepTruthy(xs) + KeepTruthy(ys)
  {
    if xs == [] {
      assert xs + ys == ys;
    } else {
      var head := if IsTruthy(xs[0]) then [xs[0]] else [];
      calc {
        KeepTruthy(xs + ys);
        { assert (xs + ys)[0] == xs[0]; assert (xs + ys)[1..] == xs[1..] + ys; }
        head + KeepTruthy(xs[1..] + ys);
        { KeepTruthyAppend(xs[1..], ys); }
        head + (KeepTruthy(xs[1..]) + KeepTruthy(ys));
        (head + KeepTruthy(xs[1..])) + KeepTruthy(ys);
      }
    }
  }

  /** The filter keeps exactly the truthy leaves; `KeepTruthyAppend` shows it keeps their order. */
  lemma {:induction false} KeepTruthyIsFilter(xs: seq<Scalar>)
    ensures forall x :: x in KeepTruthy(xs) <==> x in xs && IsTruthy(x)
  {
    if xs != [] {
      KeepTruthyIsFilter(xs[1..]);
      assert xs == [xs[0]] + xs[1..];
    }
  }

  lemma {:induction false} JoinAppend(sep: string, ws1: seq<string>, ws2: seq<string>)
    requires ws1 != [] && ws2 != []
    ensures Join(sep, ws1 + ws2) == Join(sep, ws1) + sep + Join(sep, ws2)
  {
    if |ws1| == 1 {
      assert (ws1 + ws2)[1..] == ws2;
    } else {
      assert (ws1 + ws2)[1..] == ws1[1..] + ws2;
      JoinAppend(sep, ws1[1..], ws2);
    }
  }

  /** Joining words that are all non-empty gives the empty string only for no words. */
  lemma {:induction false} JoinEmptyIff(sep: string, ws: seq<string>)
    requires forall i :: 0 <= i < |ws| ==> ws[i] != ""
    ensures Join(sep, ws) == "" <==> ws == []
  {
    if |ws| > 1 {
      assert |Join(sep, ws)| >= |ws[0]|;
    }
  }

  /** Every text written for a surviving leaf is non-empty. */
  lemma SurvivorTextsNonEmpty(xs: seq<Scalar>)
    ensures forall i :: 0 <= i < |Texts(KeepTruthy(xs))| ==> Texts(KeepTruthy(xs))[i] != ""
  {
    var kept := KeepTruthy(xs);
    KeepTruthyIsFilter(xs);
    forall i | 0 <= i < |kept| ensures Texts(kept)[i] != "" {
      assert kept[i] in kept;
    }
  }

  /** `cx` is empty exactly when no leaf, at any depth, is truthy. */
  lemma CxEmptyIff(classes: seq<ClassValue>)
    ensures Cx(classes) == "" <==> forall x :: x in Flatten(classes) ==> !IsTruthy(x)
  {
    var flat := Flatten(classes);
    SurvivorTextsNonEmpty(flat);
    JoinEmptyIff(" ", Texts(KeepTruthy(flat)));
    KeepTruthyIsFilter(flat);
    if KeepTruthy(flat) != [] {
      assert KeepTruthy(flat)[0] in KeepTruthy(flat);
    }
  }

  /** Joining two lists of non-empty words with spaces is space-joining their two joins. */
  lemma JoinSpaceAppend(ws1: seq<string>, ws2: seq<string>)
    requires forall i :: 0 <= i < |ws1| ==> ws1[i] != ""
    requires forall i :: 0 <= i < |ws2| ==> ws2[i] != ""
    ensures Join(" ", ws1 + ws2) == SpaceJoin(Join(" ", ws1), Join(" ", ws2))
  {
    JoinEmptyIff(" ", ws1);
    JoinEmptyIff(" ", ws2);
    if ws1 == [] {
      assert ws1 + ws2 == ws2;
    } else if ws2 == [] {
      assert ws1 + ws2 == ws1;
    } else {
      JoinAppend(" ", ws1, ws2);
    }
  }

  lemma TextsAppend(xs: seq<Scalar>, ys: seq<Scalar>)
    ensures Texts(xs + ys) == Texts(xs) + Texts(ys)
  {
  }

  /** Joining two argument lists is joining their results: `cx` is a homomorphism onto space-joined strings. */
  lemma CxAppend(xs: seq<ClassValue>, ys: seq<ClassValue>)
    ensures Cx(xs + ys) == SpaceJoin(Cx(xs), Cx(ys))
  {
    FlattenAppend(xs, ys);
    var kx, ky := KeepTruthy(Flatten(xs)), KeepTruthy(Flatten(ys));
    KeepTruthyAppend(Flatten(xs), Flatten(ys));
    TextsAppend(kx, ky);
    SurvivorTextsNonEmpty(Flatten(xs));
    SurvivorTextsNonEmpty(Flatten(ys));
    JoinSpaceAppend(Texts(kx), Texts(ky));
  }

  /** An array argument contributes exactly what its elements would as separate arguments. */
  lemma CxNested(items: seq<ClassValue>)
    ensures Cx([Nested(items)]) == Cx(items)
  {
    assert [Nested(items)][1..] == [];
    assert Flatten([Nested(items)]) == Flatten(items) + [];
    assert Flatten(items) + [] == Flatten(items);
  }

  /** One primitive argument is its text when truthy and nothing otherwise. */
  lemma CxLeaf(x: Scalar)
    ensures Cx([Leaf(x)]) == if IsTruthy(x) then ElementText(Leaf(x)) else ""
  {
    assert [Leaf(x)][1..] == [];
    assert Flatten([Leaf(x)]) == [x];
    assert [x][1..] == [];
    var kept := KeepTruthy([x]);
    assert KeepTruthy([x][1..]) == [];
    assert kept == (if IsTruthy(x) then [x] else []);
    if IsTruthy(x) {
      assert Texts(kept) == [ElementText(Leaf(x))];
    } else {
      assert Texts(kept) == [];
    }
  }

  /** The flatten-filter-join pipeline agrees with the structural reading, for every input. */
  lemma {:induction false} CxIsRenderAll(classes: seq<ClassValue>)
    ensures Cx(classes) == RenderAll(classes)
    decreases classes
  {
    if classes != [] {
      var c := classes[0];
      assert classes == [c] + classes[1..];
      CxAppend([c], classes[1..]);
      CxIsRender(c);
      CxIsRenderAll(classes[1..]);
    }
  }

  lemma {:induction false} CxIsRender(c: ClassValue)
    ensures Cx([c]) == Render(c)
    decreases c
  {
    match c
    case Leaf(x) => CxLeaf(x);
    case Nested(items) =>
      CxNested(items);
      CxIsRenderAll(items);
  }

  /** A falsy primitive dropped anywhere into the arguments changes nothing. */
  lemma CxIgnoresFalsy(xs: seq<ClassValue>, ys: seq<ClassValue>, x: Scalar)
    requires !IsTruthy(x)
    ensures Cx(xs + [Leaf(x)] + ys) == Cx(xs + ys)
  {
    CxAppend(xs + [Leaf(x)], ys);
    CxAppend(xs, [Leaf(x)]);
    CxLeaf(x);
    CxAppend(xs, ys);
  }

  /** A falsy primitive inside an array argument is dropped too, as it is at the top level. */
  lemma CxIgnoresNestedFalsy(xs: seq<ClassValue>, ys: seq<ClassValue>, zs: seq<ClassValue>, ws: seq<ClassValue>, x: Scalar)
    requires !IsTruthy(x)
    ensures Cx(xs + [Nested(ys + [Leaf(x)] + zs)] + ws) == Cx(xs + [Nested(ys + zs)] + ws)
  {
    var inner, pruned := Nested(ys + [Leaf(x)] + zs), Nested(ys + zs);
    CxAppend(xs + [inner], ws);
    CxAppend(xs, [inner]);
    CxAppend(xs + [pruned], ws);
    CxAppend(xs, [pruned]);
    CxNested(ys + [Leaf(x)] + zs);
    CxNested(ys + zs);
    CxIgnoresFalsy(ys, zs, x);
  }

  lemma CxOfNothing()
    ensures Cx([]) == ""
  {
  }

  /** `cx("a", null, "b", false, "c")` is `"a b c"`. */
  lemma CxDropsFalsyExample()
    ensures Cx([Leaf(Str("a")), Leaf(Null), Leaf(Str("b")), Leaf(Bool(false)), Leaf(Str("c"))]) == "a b c"
  {
    var args := [Leaf(Str("a")), Leaf(Null), Leaf(Str("b")), Leaf(Bool(false)), Leaf(Str("c"))];
    CxIsRenderAll(args);
  }

  /** `cx("a", ["b", ["c", null], "d"])` is `"a b c d"`. */
  lemma CxFlattensExample()
    ensures Cx([Leaf(Str("a")), Nested([Leaf(Str("b")), Nested([Leaf(Str("c")), Leaf(Null)]), Leaf(Str("d"))])]) == "a b c d"
  {
    var args := [Leaf(Str("a")), Nested([Leaf(Str("b")), Nested([Leaf(Str("c")), Leaf(Null)]), Leaf(Str("d"))])];
    CxIsRenderAll(args);
  }
}
