/** Small facts about sequence concatenation, proved once for every element type so
    that proofs about written lines need not re-derive them for each line. */
module Sequences {
  lemma Assoc3<T>(a: seq<T>, b: seq<T>, c: seq<T>)
    ensures a + b + c == a + (b + c)
  {
  }

  lemma Assoc4<T>(a: seq<T>, b: seq<T>, c: seq<T>, d: seq<T>)
    ensures a + b + c + d == a + (b + c + d)
    ensures a + b + c + d == a + (b + (c + d))
  {
  }

  /** Appending three single elements is appending their display. */
  lemma Singles3<T>(p: seq<T>, s: seq<T>, x: T, y: T, z: T)
    ensures p + s + [x] + [y] + [z] == p + (s + [x, y, z])
  {
  }

  lemma Singles2<T>(p: seq<T>, x: T, y: T)
    ensures p + [x] + [y] == p + [x, y]
  {
  }

  /** Three appends in a row append the concatenation of the three parts. */
  lemma Chain3<T>(s0: seq<T>, s1: seq<T>, s2: seq<T>, s3: seq<T>, a: seq<T>, b: seq<T>, c: seq<T>)
    requires s1 == s0 + a && s2 == s1 + b && s3 == s2 + c
    ensures s3 == s0 + (a + (b + c))
    ensures s3 == s0 + (a + b + c)
  {
  }

  lemma Chain2<T>(s0: seq<T>, s1: seq<T>, s2: seq<T>, a: seq<T>, b: seq<T>)
    requires s1 == s0 + a && s2 == s1 + b
    ensures s2 == s0 + (a + b)
  {
  }

  /** The blocks in order, consecutive blocks separated by one `sep`. */
  function Joined<T>(blocks: seq<seq<T>>, sep: T): seq<T>
    decreases |blocks|
  {
    if blocks == [] then []
    else if |blocks| == 1 then blocks[0]
    else Joined(blocks[..|blocks| - 1], sep) + [sep] + blocks[|blocks| - 1]
  }

  /** Adding a block adds a separator unless it is the first block. */
  lemma JoinedStep<T>(blocks: seq<seq<T>>, b: seq<T>, sep: T)
    ensures Joined(blocks + [b], sep) == Joined(blocks, sep) + ((if blocks == [] then [] else [sep]) + b)
  {
    assert (blocks + [b])[..|blocks|] == blocks;
  }

  /** Between the first `k` blocks and the rest there is exactly one separator. */
  lemma {:induction false} JoinedSplit<T>(blocks: seq<seq<T>>, sep: T, k: nat)
    requires 0 < k < |blocks|
    ensures Joined(blocks, sep) == Joined(blocks[..k], sep) + [sep] + Joined(blocks[k..], sep)
    decreases |blocks|
  {
    var n := |blocks|;
    var init := blocks[..n - 1];
    if k == n - 1 {
      assert blocks[k..] == [blocks[n - 1]];
    } else {
      JoinedSplit(init, sep, k);
      assert init[..k] == blocks[..k];
      var tail := blocks[k..];
      assert forall j :: 0 <= j < |tail| - 1 ==> tail[j] == init[k + j];
      assert tail[..|tail| - 1] == init[k..];
      assert tail[|tail| - 1] == blocks[n - 1];
    }
  }

  /** How often `x` occurs in `s`. */
  ghost function Count<T>(s: seq<T>, x: T): nat {
    if s == [] then 0 else (if s[0] == x then 1 else 0) + Count(s[1..], x)
  }

  lemma {:induction false} CountAppend<T>(a: seq<T>, b: seq<T>, x: T)
    ensures Count(a + b, x) == Count(a, x) + Count(b, x)
    decreases |a|
  {
    if a == [] {
      assert a + b == b;
    } else {
      assert (a + b)[0] == a[0] && (a + b)[1..] == a[1..] + b;
      CountAppend(a[1..], b, x);
    }
  }

  lemma {:induction false} CountAbsent<T>(s: seq<T>, x: T)
    requires x !in s
    ensures Count(s, x) == 0
    decreases |s|
  {
    if s != [] {
      assert s == [s[0]] + s[1..];
      CountAbsent(s[1..], x);
    }
  }

  /** When no block holds the separator, the separators are exactly `|blocks| - 1`. */
  lemma {:induction false} JoinedCount<T>(blocks: seq<seq<T>>, sep: T)
    requires blocks != []
    requires forall i :: 0 <= i < |blocks| ==> sep !in blocks[i]
    ensures Count(Joined(blocks, sep), sep) == |blocks| - 1
    decreases |blocks|
  {
    var n := |blocks|;
    CountAbsent(blocks[n - 1], sep);
    if n > 1 {
      var init := blocks[..n - 1];
      JoinedCount(init, sep);
      CountAppend(Joined(init, sep), [sep], sep);
      CountAppend(Joined(init, sep) + [sep], blocks[n - 1], sep);
      assert Count([sep], sep) == 1;
    }
  }

  /** Every element of the joined sequence is the separator or comes from a block. */
  lemma {:induction false} JoinedElements<T>(blocks: seq<seq<T>>, sep: T, x: T)
    requires x in Joined(blocks, sep)
    ensures x == sep || exists i :: 0 <= i < |blocks| && x in blocks[i]
    decreases |blocks|
  {
    var n := |blocks|;
    if n > 1 {
      var init := blocks[..n - 1];
      if x != sep && x in Joined(init, sep) {
        JoinedElements(init, sep, x);
        var i :| 0 <= i < |init| && x in init[i];
        assert blocks[i] == init[i];
      } else if x != sep {
        assert x in blocks[n - 1];
      }
    }
  }

  /** With no empty block, the joined sequence starts with the first block's first
      element and ends with the last block's last element. */
  lemma {:induction false} JoinedEnds<T>(blocks: seq<seq<T>>, sep: T)
    requires blocks != []
    requires forall i :: 0 <= i < |blocks| ==> blocks[i] != []
    ensures Joined(blocks, sep) != []
    ensures Joined(blocks, sep)[0] == blocks[0][0]
    ensures Joined(blocks, sep)[|Joined(blocks, sep)| - 1] == blocks[|blocks| - 1][|blocks[|blocks| - 1]| - 1]
    decreases |blocks|
  {
    var n := |blocks|;
    if n > 1 {
      var init := blocks[..n - 1];
      JoinedEnds(init, sep);
      assert init[0] == blocks[0];
    }
  }
}
