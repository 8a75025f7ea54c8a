// Small facts about sequences of byte chunks that several modules share.
module Sequences {

  type byte = bv8

  function Concat(chunks: seq<seq<byte>>): seq<byte>
  {
    if chunks == [] then [] else chunks[0] + Concat(chunks[1..])
  }

  /** The number of bytes in `chunks`. */
  function Bytes(chunks: seq<seq<byte>>): nat
  {
    if chunks == [] then 0 else Bytes(chunks[..|chunks| - 1]) + |chunks[|chunks| - 1]|
  }

  lemma {:induction false} ConcatAppend(a: seq<seq<byte>>, b: seq<seq<byte>>)
    ensures Concat(a + b) == Concat(a) + Concat(b)
  {
    if a == [] {
      assert a + b == b;
    } else {
      assert (a + b)[0] == a[0] && (a + b)[1..] == a[1..] + b;
      ConcatAppend(a[1..], b);
    }
  }

  lemma ConcatPush(a: seq<seq<byte>>, chunk: seq<byte>)
    ensures Concat(a + [chunk]) == Concat(a) + chunk
  {
    ConcatAppend(a, [chunk]);
    assert Concat([chunk]) == chunk + Concat([]) == chunk;
  }

  lemma {:induction false} BytesIsLength(chunks: seq<seq<byte>>)
    ensures Bytes(chunks) == |Concat(chunks)|
  {
    if chunks != [] {
      var n := |chunks| - 1;
      assert chunks == chunks[..n] + [chunks[n]];
      ConcatPush(chunks[..n], chunks[n]);
      BytesIsLength(chunks[..n]);
    }
  }

  /** `part` is `whole` with some chunks left out and the order kept. */
  predicate Subsequence<T(==)>(part: seq<T>, whole: seq<T>)
    decreases |whole|
  {
    if part == [] then true
    else if whole == [] then false
    else
      var m, n := |part| - 1, |whole| - 1;
      (part[m] == whole[n] && Subsequence(part[..m], whole[..n])) || Subsequence(part, whole[..n])
  }

  lemma SubsequenceKeeps<T>(part: seq<T>, whole: seq<T>, x: T)
    requires Subsequence(part, whole)
    ensures Subsequence(part + [x], whole + [x])
  {
    assert (part + [x])[..|part|] == part && (whole + [x])[..|whole|] == whole;
  }

  lemma SubsequenceSkips<T>(part: seq<T>, whole: seq<T>, x: T)
    requires Subsequence(part, whole)
    ensures Subsequence(part, whole + [x])
  {
    assert (whole + [x])[..|whole|] == whole;
  }

  /** Dropping the end of a subsequence leaves a subsequence. */
  lemma {:induction false} SubsequenceDrop<T>(part: seq<T>, whole: seq<T>)
    requires part != [] && Subsequence(part, whole)
    ensures Subsequence(part[..|part| - 1], whole)
    decreases |whole|
  {
    var m, n := |part| - 1, |whole| - 1;
    if part[m] == whole[n] && Subsequence(part[..m], whole[..n]) {
      SubsequenceSkips(part[..m], whole[..n], whole[n]);
      assert whole == whole[..n] + [whole[n]];
    } else {
      SubsequenceDrop(part, whole[..n]);
      SubsequenceSkips(part[..m], whole[..n], whole[n]);
      assert whole == whole[..n] + [whole[n]];
    }
  }

  predicate NoneEmpty(chunks: seq<seq<byte>>)
  {
    forall k :: 0 <= k < |chunks| ==> chunks[k] != []
  }

  /**
   * The conservation argument: a subsequence of non-empty chunks never has more
   * bytes than the whole, and has as many only if it left nothing out.
   */
  lemma {:induction false} SubsequenceBytes(part: seq<seq<byte>>, whole: seq<seq<byte>>)
    requires Subsequence(part, whole) && NoneEmpty(whole)
    ensures Bytes(part) <= Bytes(whole)
    ensures Bytes(part) == Bytes(whole) ==> part == whole
    decreases |whole|
  {
    if whole != [] {
      var n := |whole| - 1;
      if part == [] {
        SubsequenceBytes([], whole[..n]);
      } else {
        var m := |part| - 1;
        if part[m] == whole[n] && Subsequence(part[..m], whole[..n]) {
          SubsequenceBytes(part[..m], whole[..n]);
          assert part == part[..m] + [part[m]] && whole == whole[..n] + [whole[n]];
        } else {
          SubsequenceBytes(part, whole[..n]);
        }
      }
    }
  }
}
