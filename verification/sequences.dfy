/**
 * Sequence helpers shared by the other modules: the element-by-element loop
 * of the batch operations, and where the fields of a separator-joined text sit.
 */
module Sequences {

  /** Applies `f` to every element of `xs`, keeping the order. */
  method MapSeq<A, B>(f: A -> B, xs: seq<A>) returns (ys: seq<B>)
    ensures |ys| == |xs|
    ensures forall i :: 0 <= i < |xs| ==> ys[i] == f(xs[i])
  {
    ys := [];
    var i := 0;
    while i < |xs|
      invariant 0 <= i <= |xs|
      invariant |ys| == i
      invariant forall j :: 0 <= j < i ==> ys[j] == f(xs[j])
    {
      ys := ys + [f(xs[i])];
      i := i + 1;
    }
  }

  /** Where each of four `sep`-joined fields sits in the joined sequence. */
  lemma JoinLayout<T>(a: seq<T>, b: seq<T>, c: seq<T>, d: seq<T>, sep: T)
    ensures var text := a + [sep] + b + [sep] + c + [sep] + d;
      && |text| == |a| + |b| + |c| + |d| + 3
      && text[..|a|] == a
      && text[|a|] == sep
      && text[|a| + 1..|a| + 1 + |b|] == b
      && text[|a| + 1 + |b|] == sep
      && text[|a| + 2 + |b|..|a| + 2 + |b| + |c|] == c
      && text[|a| + 2 + |b| + |c|] == sep
      && text[|a| + 3 + |b| + |c|..] == d
  {
    var rest := [sep] + b + [sep] + c + [sep] + d;
    var text := a + [sep] + b + [sep] + c + [sep] + d;
    assert text == a + rest;
    assert text[|a|..] == rest;
    var rest2 := [sep] + c + [sep] + d;
    assert rest == [sep] + b + rest2;
    assert rest[1 + |b|..] == rest2;
    var rest3 := [sep] + d;
    assert rest2 == [sep] + c + rest3;
    assert rest2[1 + |c|..] == rest3;
  }

}
