/** The shape every list of the checker has: a rule applied to each item of a
    listing, in listing order, the results laid end to end. The lists grow at
    their end, as the checker's `append` and `extend` grow them. */
module Flattening {

  function Flatten<T, U>(f: T -> seq<U>, xs: seq<T>): seq<U>
  {
    if xs == [] then [] else Flatten(f, xs[..|xs| - 1]) + f(xs[|xs| - 1])
  }

  /** One loop iteration extends the list by the block of the next item. */
  lemma FlattenStep<T, U>(f: T -> seq<U>, xs: seq<T>, i: nat)
    requires i < |xs|
    ensures Flatten(f, xs[..i + 1]) == Flatten(f, xs[..i]) + f(xs[i])
  {
    assert xs[..i + 1][..i] == xs[..i];
  }

  /** Flattening distributes over concatenation of the listing. */
  lemma {:induction false} FlattenAppend<T, U>(f: T -> seq<U>, a: seq<T>, b: seq<T>)
    ensures Flatten(f, a + b) == Flatten(f, a) + Flatten(f, b)
  {
    if b == [] {
      assert a + b == a;
    } else {
      var front, last := b[..|b| - 1], b[|b| - 1];
      assert (a + b)[..|a + b| - 1] == a + front;
      assert (a + b)[|a + b| - 1] == last;
      FlattenAppend(f, a, front);
      assert (Flatten(f, a) + Flatten(f, front)) + f(last) == Flatten(f, a) + (Flatten(f, front) + f(last));
    }
  }

  /** A one-item listing yields that item's block. */
  lemma FlattenSingle<T, U>(f: T -> seq<U>, x: T)
    ensures Flatten(f, [x]) == f(x)
  {
    assert [x][..0] == [];
  }

  /** The list is the first item's block followed by the rest's. */
  lemma FlattenHead<T, U>(f: T -> seq<U>, xs: seq<T>)
    requires xs != []
    ensures Flatten(f, xs) == f(xs[0]) + Flatten(f, xs[1..])
  {
    assert xs == [xs[0]] + xs[1..];
    FlattenSingle(f, xs[0]);
    FlattenAppend(f, [xs[0]], xs[1..]);
  }

  /** The block of item `i` sits between the blocks of the items before it
      and those of the items after it. */
  lemma FlattenAt<T, U>(f: T -> seq<U>, xs: seq<T>, i: nat)
    requires i < |xs|
    ensures Flatten(f, xs) == Flatten(f, xs[..i]) + f(xs[i]) + Flatten(f, xs[i + 1..])
  {
    assert xs == xs[..i] + xs[i..];
    FlattenAppend(f, xs[..i], xs[i..]);
    FlattenHead(f, xs[i..]);
    assert xs[i..][1..] == xs[i + 1..];
    assert (Flatten(f, xs[..i]) + f(xs[i])) + Flatten(f, xs[i + 1..])
        == Flatten(f, xs[..i]) + (f(xs[i]) + Flatten(f, xs[i + 1..]));
  }

  /** Item `x` between listings `a` and `b`: its block sits between theirs. */
  lemma FlattenAround<T, U>(f: T -> seq<U>, a: seq<T>, x: T, b: seq<T>)
    ensures Flatten(f, a + [x] + b) == Flatten(f, a) + f(x) + Flatten(f, b)
  {
    var xs := a + [x] + b;
    assert xs[..|a|] == a && xs[|a|] == x && xs[|a| + 1..] == b;
    FlattenAt(f, xs, |a|);
  }

  /** An element is in the list exactly when it is in some item's block. */
  lemma {:induction false} FlattenMembers<T, U>(f: T -> seq<U>, xs: seq<T>)
    ensures forall x :: x in Flatten(f, xs) <==> exists y | y in xs :: x in f(y)
  {
    if xs != [] {
      var front, last := xs[..|xs| - 1], xs[|xs| - 1];
      assert xs == front + [last];
      FlattenMembers(f, front);
      forall x
        ensures x in Flatten(f, xs) <==> exists y | y in xs :: x in f(y)
      {
        if exists y | y in xs :: x in f(y) {
          var y :| y in xs && x in f(y);
          if y != last {
            assert y in front;
          }
        }
      }
    }
  }

  /** The list is empty exactly when every item's block is. */
  lemma {:induction false} FlattenEmpty<T, U>(f: T -> seq<U>, xs: seq<T>)
    ensures Flatten(f, xs) == [] <==> forall y | y in xs :: f(y) == []
  {
    if xs != [] {
      var front, last := xs[..|xs| - 1], xs[|xs| - 1];
      assert xs == front + [last];
      FlattenEmpty(f, front);
    }
  }

  /** The sum of the block lengths, first item first. */
  function TotalLength<T, U>(f: T -> seq<U>, xs: seq<T>): nat
  {
    if xs == [] then 0 else |f(xs[0])| + TotalLength(f, xs[1..])
  }

  /** The list is as long as its blocks together. */
  lemma {:induction false} FlattenLength<T, U>(f: T -> seq<U>, xs: seq<T>)
    ensures |Flatten(f, xs)| == TotalLength(f, xs)
  {
    if xs != [] {
      FlattenHead(f, xs);
      FlattenLength(f, xs[1..]);
    }
  }

  /** Blocks of at most one element make a list no longer than the listing. */
  lemma {:induction false} FlattenAtMostOne<T, U>(f: T -> seq<U>, xs: seq<T>)
    requires forall y | y in xs :: |f(y)| <= 1
    ensures |Flatten(f, xs)| <= |xs|
  {
    if xs != [] {
      var front := xs[..|xs| - 1];
      assert forall y | y in front :: y in xs;
      FlattenAtMostOne(f, front);
      assert xs[|xs| - 1] in xs;
    }
  }
}
