/**
 * Facts about slices, concatenation and short sequence displays, stated once
 * for any element type so that the proofs about the crawler can cite them
 * instead of reasoning about sequence equality in a large context.
 */
module Seqs {
  /** The first `i + 1` elements are the first `i` and then element `i`. */
  lemma TakeSnoc<T>(s: seq<T>, i: nat)
    requires i < |s|
    ensures s[..i + 1] == s[..i] + [s[i]]
  {
  }

  lemma TakeAll<T>(s: seq<T>)
    ensures s[..|s|] == s
  {
  }

  lemma TakeDrop<T>(s: seq<T>, i: nat)
    requires i <= |s|
    ensures s[..i] + s[i..] == s
  {
  }

  /** A suffix starting at `i` begins with element `i` and continues with the suffix at `i + 1`. */
  lemma DropCons<T>(s: seq<T>, i: nat)
    requires i < |s|
    ensures s[i..][0] == s[i] && s[i..][1..] == s[i + 1..]
  {
  }

  lemma AppendEmpty<T>(a: seq<T>)
    ensures a + [] == a && [] + a == a
  {
  }

  lemma AppendAssoc<T>(a: seq<T>, b: seq<T>, c: seq<T>)
    ensures (a + b) + c == a + (b + c)
  {
  }

  lemma ConsConcat<T>(a: seq<T>, b: seq<T>)
    requires a != []
    ensures (a + b)[0] == a[0] && (a + b)[1..] == a[1..] + b
  {
  }

  lemma Display12<T>(x: T, y: T, z: T)
    ensures [x] + [y, z] == [x, y, z]
  {
  }

  lemma Display112<T>(x: T, y: T, z: T, w: T)
    ensures [x] + [y] + [z, w] == [x, y, z, w]
  {
  }

  lemma Display31<T>(x: T, y: T, z: T, w: T)
    ensures [x, y, z] + [w] == [x, y, z, w]
  {
  }

  lemma Display22<T>(x: T, y: T, z: T, w: T)
    ensures [x, y] + [z, w] == [x, y, z, w]
  {
  }

  lemma Display32<T>(x: T, y: T, z: T, u: T, w: T)
    ensures [x, y, z] + [u, w] == [x, y, z, u, w]
  {
  }

  lemma Display21<T>(x: T, y: T, z: T)
    ensures [x, y] + [z] == [x, y, z]
  {
  }

  lemma DisplayTails<T>(x: T, y: T, z: T)
    ensures [x, y, z][1..] == [y, z] && [y, z][1..] == [z] && [z][1..] == []
  {
  }

  lemma Display11<T>(x: T, y: T)
    ensures [x] + [y] == [x, y]
  {
  }

  lemma ConcatFive<T>(a: seq<T>, b: seq<T>, c: seq<T>, d: seq<T>, e: seq<T>)
    ensures a + b + c + d + e == a + b + (c + d + e)
  {
  }

  lemma TakeTake<T>(s: seq<T>, i: nat, j: nat)
    requires j <= i <= |s|
    ensures s[..i][..j] == s[..j]
  {
  }

  lemma TakeAppend<T>(a: seq<T>, b: seq<T>)
    ensures (a + b)[..|a|] == a
  {
  }
}
