/** Keeping the results of the elements a partial function accepts, in order:
    the shape of a loop that appends what each element yields and skips the
    rest. */
module FilterMap {
  import opened Wrappers

  function Yield<A, B>(f: A -> Option<B>, x: A): (r: seq<B>)
    ensures |r| <= 1
  {
    match f(x)
    case Some(y) => [y]
    case None => []
  }

  /** The results `f` gives on `xs`, in the order of `xs`, skipping `None`. */
  function Kept<A, B>(f: A -> Option<B>, xs: seq<A>): (r: seq<B>)
    ensures |r| <= |xs|
  {
    if xs == [] then [] else Yield(f, xs[0]) + Kept(f, xs[1..])
  }

  /** Elements are handled independently and in order. */
  lemma {:induction false} KeptAppend<A, B>(f: A -> Option<B>, a: seq<A>, b: seq<A>)
    ensures Kept(f, a + b) == Kept(f, a) + Kept(f, b)
  {
    if a == [] {
      assert a + b == b;
    } else {
      assert (a + b)[1..] == a[1..] + b;
      KeptAppend(f, a[1..], b);
    }
  }

  lemma TakeSucc<A>(xs: seq<A>, i: nat)
    requires i < |xs|
    ensures xs[..i + 1] == xs[..i] + [xs[i]]
  {
  }

  /** Appending one element appends what it yields. */
  lemma KeptSnoc<A, B>(f: A -> Option<B>, xs: seq<A>, x: A)
    ensures Kept(f, xs + [x]) == Kept(f, xs) + (if f(x).Some? then [f(x).value] else [])
  {
    KeptAppend(f, xs, [x]);
    assert [x][1..] == [];
  }

  /** An accepted element's result sits right after the results of the
      accepted elements before it. */
  lemma KeptPosition<A, B>(f: A -> Option<B>, xs: seq<A>, i: nat)
    requires i < |xs| && f(xs[i]).Some?
    ensures |Kept(f, xs[..i])| < |Kept(f, xs)|
    ensures Kept(f, xs)[|Kept(f, xs[..i])|] == f(xs[i]).value
  {
    var rest := [xs[i]] + xs[i + 1..];
    assert xs == xs[..i] + rest;
    KeptAppend(f, xs[..i], rest);
    assert rest[1..] == xs[i + 1..];
    assert Kept(f, rest) == [f(xs[i]).value] + Kept(f, xs[i + 1..]);
  }

  /** Results keep the order of the accepted elements. */
  lemma KeptInOrder<A, B>(f: A -> Option<B>, xs: seq<A>, i: nat, j: nat)
    requires i < j <= |xs| && f(xs[i]).Some?
    ensures |Kept(f, xs[..i])| < |Kept(f, xs[..j])|
  {
    var rest := [xs[i]] + xs[i + 1..j];
    assert xs[..j] == xs[..i] + rest;
    KeptAppend(f, xs[..i], rest);
    assert rest[1..] == xs[i + 1..j];
    assert |Kept(f, rest)| == 1 + |Kept(f, xs[i + 1..j])|;
  }

  lemma KeptCons<A, B>(f: A -> Option<B>, x: A, xs: seq<A>)
    ensures Kept(f, [x] + xs) == Yield(f, x) + Kept(f, xs)
  {
    assert ([x] + xs)[1..] == xs;
  }

  /** Every result comes from an accepted element, the one with as many
      accepted elements before it as the result has results before it. */
  lemma {:induction false} KeptSource<A, B>(f: A -> Option<B>, xs: seq<A>, k: nat)
    requires k < |Kept(f, xs)|
    ensures exists i :: 0 <= i < |xs| && f(xs[i]) == Some(Kept(f, xs)[k]) && |Kept(f, xs[..i])| == k
  {
    var y := Yield(f, xs[0]);
    var tail := xs[1..];
    assert Kept(f, xs) == y + Kept(f, tail);
    if |y| == 1 && k == 0 {
      assert xs[..0] == [];
      assert f(xs[0]) == Some(Kept(f, xs)[0]);
    } else {
      var k' := k - |y|;
      assert Kept(f, xs)[k] == Kept(f, tail)[k'];
      KeptSource(f, tail, k');
      var i' :| 0 <= i' < |tail| && f(tail[i']) == Some(Kept(f, tail)[k']) && |Kept(f, tail[..i'])| == k';
      assert xs[..i' + 1] == [xs[0]] + tail[..i'];
      KeptCons(f, xs[0], tail[..i']);
      assert xs[i' + 1] == tail[i'];
    }
  }
}
