/**
 * Sequence facts the model leans on: flattening a sequence of blocks (what a
 * nested loop that appends block after block produces) and enumerations of a
 * key set (what iterating over a hash map visits).
 */
module Seqs {

  /** The blocks concatenated in order. */
  function Flatten<T>(blocks: seq<seq<T>>): seq<T>
  {
    if blocks == [] then [] else Flatten(blocks[..|blocks| - 1]) + blocks[|blocks| - 1]
  }

  /** The block of each element, in order. */
  function Blocks<A, T>(f: A -> seq<T>, xs: seq<A>): seq<seq<T>>
  {
    seq(|xs|, i requires 0 <= i < |xs| => f(xs[i]))
  }

  /** Elements that reappear from position `off` on have the same blocks there. */
  lemma BlocksShift<A, T>(f: A -> seq<T>, xs: seq<A>, off: nat, ys: seq<A>)
    requires off + |ys| <= |xs|
    requires forall i | 0 <= i < |ys| :: xs[off + i] == ys[i]
    ensures forall i | 0 <= i < |ys| :: Blocks(f, xs)[off + i] == Blocks(f, ys)[i]
  {
  }

  /** One more element appends its block. */
  lemma BlocksSnoc<A, T>(f: A -> seq<T>, xs: seq<A>, x: A)
    ensures Blocks(f, xs + [x]) == Blocks(f, xs) + [f(x)]
  {
    var after := Blocks(f, xs + [x]);
    forall k | 0 <= k < |xs| ensures after[k] == Blocks(f, xs)[k] {
      assert (xs + [x])[k] == xs[k];
    }
    assert (xs + [x])[|xs|] == x;
  }

  predicate Distinct<T(==)>(s: seq<T>)
  {
    forall i, j | 0 <= i < j < |s| :: s[i] != s[j]
  }

  /** `s` lists every element of `keys` exactly once, in some order. */
  predicate Enumerates<T(==)>(s: seq<T>, keys: set<T>)
  {
    Distinct(s) && (forall i | 0 <= i < |s| :: s[i] in keys) && (forall k | k in keys :: k in s)
  }

  lemma ConcatAssoc<T>(a: seq<T>, b: seq<T>, c: seq<T>)
    ensures (a + b) + c == a + (b + c)
  {
  }

  lemma FlattenSnoc<T>(blocks: seq<seq<T>>, last: seq<T>)
    ensures Flatten(blocks + [last]) == Flatten(blocks) + last
  {
    assert (blocks + [last])[..|blocks|] == blocks;
  }

  /** One more block appended to a flattened prefix. */
  lemma FlattenStep<T>(start: seq<T>, before: seq<T>, blocks: seq<seq<T>>, after: seq<seq<T>>, last: seq<T>)
    requires before == start + Flatten(blocks)
    requires after == blocks + [last]
    ensures before + last == start + Flatten(after)
  {
    FlattenSnoc(blocks, last);
    ConcatAssoc(start, Flatten(blocks), last);
  }

  lemma {:induction false} FlattenConcat<T>(a: seq<seq<T>>, b: seq<seq<T>>)
    ensures Flatten(a + b) == Flatten(a) + Flatten(b)
    decreases |b|
  {
    if b == [] {
      assert a + b == a;
    } else {
      var n := |b| - 1;
      var init := b[..n];
      var last := b[n];
      assert a + b == (a + init) + [last];
      assert b == init + [last];
      FlattenSnoc(a + init, last);
      FlattenConcat(a, init);
      FlattenSnoc(init, last);
      ConcatAssoc(Flatten(a), Flatten(init), last);
    }
  }

  /** Blocks that are all empty flatten to nothing. */
  lemma {:induction false} FlattenEmpty<T>(blocks: seq<seq<T>>)
    requires forall i | 0 <= i < |blocks| :: blocks[i] == []
    ensures Flatten(blocks) == []
    decreases |blocks|
  {
    if blocks != [] {
      FlattenEmpty(blocks[..|blocks| - 1]);
    }
  }

  /** An empty block can be dropped without changing the flattening. */
  lemma FlattenDropEmpty<T>(a: seq<seq<T>>, b: seq<seq<T>>)
    ensures Flatten(a + [[]] + b) == Flatten(a) + Flatten(b)
  {
    FlattenConcat(a + [[]], b);
    FlattenSnoc(a, []);
  }

  /** Blocks made of `a`, one empty block, then `b`, flatten like `a` then `b`. */
  lemma FlattenSkip<T>(all: seq<seq<T>>, a: seq<seq<T>>, b: seq<seq<T>>)
    requires |all| == |a| + 1 + |b|
    requires forall i | 0 <= i < |a| :: all[i] == a[i]
    requires all[|a|] == []
    requires forall i | 0 <= i < |b| :: all[|a| + 1 + i] == b[i]
    ensures Flatten(all) == Flatten(a) + Flatten(b)
  {
    forall i | 0 <= i < |all| ensures all[i] == (a + [[]] + b)[i] {
      if i > |a| {
        assert all[|a| + 1 + (i - |a| - 1)] == b[i - |a| - 1];
      }
    }
    assert all == a + [[]] + b;
    FlattenDropEmpty(a, b);
  }

  /** The elements of `xs + [x] + ys`, position by position. */
  lemma ConcatParts<A>(xs: seq<A>, x: A, ys: seq<A>)
    ensures |xs + [x] + ys| == |xs| + 1 + |ys|
    ensures forall i | 0 <= i < |xs| :: (xs + [x] + ys)[i] == xs[i]
    ensures (xs + [x] + ys)[|xs|] == x
    ensures forall i | 0 <= i < |ys| :: (xs + [x] + ys)[|xs| + 1 + i] == ys[i]
  {
  }

  /** A sequence that agrees with `init` and then ends in `last` is `init + [last]`. */
  lemma SnocPointwise<T>(all: seq<T>, init: seq<T>, last: T)
    requires |all| == |init| + 1
    requires forall i | 0 <= i < |init| :: all[i] == init[i]
    requires all[|init|] == last
    ensures all == init + [last]
  {
  }

  /** Every element of the flattening comes from some block. */
  lemma {:induction false} FlattenMember<T>(blocks: seq<seq<T>>, x: T)
    requires x in Flatten(blocks)
    ensures exists i :: 0 <= i < |blocks| && x in blocks[i]
    decreases |blocks|
  {
    var n := |blocks| - 1;
    if x !in blocks[n] {
      FlattenMember(blocks[..n], x);
      var i :| 0 <= i < n && x in blocks[..n][i];
      assert blocks[..n][i] == blocks[i];
    }
  }

  /** When only block `k` is non-empty, the flattening is that block. */
  lemma FlattenSingle<T>(blocks: seq<seq<T>>, k: nat)
    requires k < |blocks|
    requires forall i | 0 <= i < |blocks| && i != k :: blocks[i] == []
    ensures Flatten(blocks) == blocks[k]
  {
    assert blocks == blocks[..k] + [blocks[k]] + blocks[k + 1..];
    FlattenConcat(blocks[..k] + [blocks[k]], blocks[k + 1..]);
    FlattenSnoc(blocks[..k], blocks[k]);
    FlattenEmpty(blocks[..k]);
    FlattenEmpty(blocks[k + 1..]);
  }

  /** A sequence without repetitions holds each of its elements once. */
  lemma {:induction false} DistinctMultiplicity<T>(s: seq<T>, x: T)
    requires Distinct(s)
    ensures multiset(s)[x] == if x in s then 1 else 0
    decreases |s|
  {
    if s != [] {
      var n := |s| - 1;
      assert s == s[..n] + [s[n]];
      assert Distinct(s[..n]);
      DistinctMultiplicity(s[..n], x);
      assert s[n] !in s[..n];
    }
  }

  /** Any two enumerations of one key set are permutations of each other. */
  lemma EnumerationsPermute<T>(s1: seq<T>, s2: seq<T>, keys: set<T>)
    requires Enumerates(s1, keys) && Enumerates(s2, keys)
    ensures multiset(s1) == multiset(s2)
  {
    forall x ensures multiset(s1)[x] == multiset(s2)[x] {
      DistinctMultiplicity(s1, x);
      DistinctMultiplicity(s2, x);
    }
  }

  /** Flattenings of blocks that agree position by position, up to order inside each block. */
  lemma {:induction false} FlattenPointwise<T>(b1: seq<seq<T>>, b2: seq<seq<T>>)
    requires |b1| == |b2|
    requires forall i | 0 <= i < |b1| :: multiset(b1[i]) == multiset(b2[i])
    ensures multiset(Flatten(b1)) == multiset(Flatten(b2))
    decreases |b1|
  {
    if b1 != [] {
      var n := |b1| - 1;
      FlattenPointwise(b1[..n], b2[..n]);
    }
  }

  /** One block flattens to itself. */
  lemma FlattenOne<T>(a: seq<T>)
    ensures Flatten([a]) == a
  {
    assert [a][..0] == [];
  }

  /** A single element, listed once. */
  lemma EnumeratesOne<T>(x: T, keys: set<T>)
    requires keys == {x}
    ensures Enumerates([x], keys)
  {
  }

  /** Two blocks flatten to their concatenation. */
  lemma FlattenPair<T>(a: seq<T>, b: seq<T>)
    ensures Flatten([a, b]) == a + b
  {
    assert [a, b][..1] == [a];
    assert [a][..0] == [];
    assert Flatten([a]) == a;
  }

  /** Two different elements, listed once each. */
  lemma EnumeratesPair<T>(x: T, y: T, keys: set<T>)
    requires x != y && keys == {x, y}
    ensures Enumerates([x, y], keys)
  {
    assert forall k | k in keys :: k == [x, y][0] || k == [x, y][1];
  }

  /** A sequence is its part before `j`, its element at `j` and its part after. */
  lemma SplitAt<T>(s: seq<T>, j: nat)
    requires j < |s|
    ensures s == s[..j] + [s[j]] + s[j + 1..]
  {
    assert forall i | 0 <= i < |s| :: s[i] == (s[..j] + [s[j]] + s[j + 1..])[i];
  }

  /** Taking out the element at `j` takes it out of the multiset. */
  lemma RemoveAt<T>(s: seq<T>, j: nat)
    requires j < |s|
    ensures multiset(s) == multiset(s[..j] + s[j + 1..]) + multiset{s[j]}
  {
    SplitAt(s, j);
  }

  /** Taking a block out of the middle takes its elements out of the flattening. */
  lemma FlattenRemoveAt<T>(pre: seq<seq<T>>, b: seq<T>, post: seq<seq<T>>)
    ensures multiset(Flatten(pre + [b] + post)) == multiset(Flatten(pre + post)) + multiset(b)
  {
    FlattenConcat(pre + [b], post);
    FlattenSnoc(pre, b);
    FlattenConcat(pre, post);
    calc {
      multiset(Flatten(pre + [b] + post));
      multiset(Flatten(pre) + b + Flatten(post));
      multiset(Flatten(pre)) + multiset(b) + multiset(Flatten(post));
      multiset(Flatten(pre) + Flatten(post)) + multiset(b);
    }
  }

  /** Adding one element to both sides cancels. */
  lemma MultisetCancel<T>(a: multiset<T>, b: multiset<T>, x: T)
    requires a + multiset{x} == b + multiset{x}
    ensures a == b
  {
    forall y ensures a[y] == b[y] {
      assert (a + multiset{x})[y] == (b + multiset{x})[y];
    }
  }

  /** Labels and blocks with the entry at `j` taken out still agree through `g`. */
  lemma KeyedRemoveAt<K, T>(b: seq<seq<T>>, k: seq<K>, j: nat, b': seq<seq<T>>, k': seq<K>, g: K -> multiset<T>)
    requires |b| == |k| && j < |k|
    requires b' == b[..j] + b[j + 1..] && k' == k[..j] + k[j + 1..]
    requires forall i | 0 <= i < |b| :: multiset(b[i]) == g(k[i])
    ensures forall i | 0 <= i < |b'| :: multiset(b'[i]) == g(k'[i])
  {
    forall i | 0 <= i < |b'| ensures multiset(b'[i]) == g(k'[i]) {
      if i < j {
        assert b'[i] == b[i] && k'[i] == k[i];
      } else {
        assert b'[i] == b[i + 1] && k'[i] == k[i + 1];
      }
    }
  }

  /** The prefix of labelled blocks is still labelled through `g`. */
  lemma KeyedPrefix<K, T>(b: seq<seq<T>>, k: seq<K>, n: nat, g: K -> multiset<T>)
    requires |b| == |k| && n <= |b|
    requires forall i | 0 <= i < |b| :: multiset(b[i]) == g(k[i])
    ensures forall i | 0 <= i < n :: multiset(b[..n][i]) == g(k[..n][i])
  {
    forall i | 0 <= i < n ensures multiset(b[..n][i]) == g(k[..n][i]) {
      assert b[..n][i] == b[i] && k[..n][i] == k[i];
    }
  }

  /**
   * The last block of `b1` matched with block `j` of `b2`: when the rest
   * flatten to the same elements, so do the whole sequences.
   */
  lemma FlattenMatchLast<T>(b1: seq<seq<T>>, b2: seq<seq<T>>, j: nat, init: seq<seq<T>>, rest: seq<seq<T>>)
    requires |b1| > 0 && j < |b2|
    requires init == b1[..|b1| - 1] && rest == b2[..j] + b2[j + 1..]
    requires multiset(Flatten(init)) == multiset(Flatten(rest))
    requires multiset(b1[|b1| - 1]) == multiset(b2[j])
    ensures multiset(Flatten(b1)) == multiset(Flatten(b2))
  {
    var n := |b1| - 1;
    SplitAt(b2, j);
    FlattenRemoveAt(b2[..j], b2[j], b2[j + 1..]);
    assert Flatten(b1) == Flatten(b1[..n]) + b1[n];
    calc {
      multiset(Flatten(b1));
      multiset(Flatten(b1[..n])) + multiset(b1[n]);
      multiset(Flatten(b2[..j] + b2[j + 1..])) + multiset(b2[j]);
      multiset(Flatten(b2));
    }
  }

  /**
   * Flattenings of two block sequences labelled by keys: when the labels are
   * permutations of each other and a block's multiset depends only on its
   * label, the flattenings hold the same elements.
   */
  lemma {:induction false} FlattenKeyed<K, T>(b1: seq<seq<T>>, k1: seq<K>, b2: seq<seq<T>>, k2: seq<K>, g: K -> multiset<T>)
    requires |b1| == |k1| && |b2| == |k2|
    requires multiset(k1) == multiset(k2)
    requires forall i | 0 <= i < |b1| :: multiset(b1[i]) == g(k1[i])
    requires forall i | 0 <= i < |b2| :: multiset(b2[i]) == g(k2[i])
    ensures multiset(Flatten(b1)) == multiset(Flatten(b2))
    decreases |b1|
  {
    if b1 == [] {
      assert |k2| == |multiset(k2)| == 0;
      assert b2 == [];
    } else {
      var n := |b1| - 1;
      var x := k1[n];
      assert multiset(k1) == multiset(k1[..n]) + multiset{x} by {
        assert k1 == k1[..n] + [x];
      }
      assert x in multiset(k2);
      var j :| 0 <= j < |k2| && k2[j] == x;
      var k2' := k2[..j] + k2[j + 1..];
      var b2' := b2[..j] + b2[j + 1..];
      RemoveAt(k2, j);
      MultisetCancel(multiset(k1[..n]), multiset(k2'), x);
      KeyedRemoveAt(b2, k2, j, b2', k2', g);
      KeyedPrefix(b1, k1, n, g);
      var init := b1[..n];
      FlattenKeyed(init, k1[..n], b2', k2', g);
      assert multiset(b2[j]) == multiset(b1[n]) by {
        assert multiset(b2[j]) == g(x);
        assert multiset(b1[n]) == g(x);
      }
      FlattenMatchLast(b1, b2, j, init, b2');
    }
  }
}
