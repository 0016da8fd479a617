/** How a budgeted explosion splits its sampled cells into per-tick batches, and how tick moves
    its cursor over those batches. */
module Batching {

  function Min(a: int, b: int): int
  {
    if a <= b then a else b
  }

  function Max(a: int, b: int): int
  {
    if a >= b then a else b
  }

  /** The batches joined end to end, in order. */
  function Flatten<T>(b: seq<seq<T>>): seq<T>
  {
    if b == [] then [] else b[0] + Flatten(b[1..])
  }

  /** The consecutive batches of n elements explode builds (the last one may be shorter): none is
      empty or longer than n. */
  function Batches<T>(s: seq<T>, n: nat): (b: seq<seq<T>>)
    requires n > 0
    ensures forall i :: 0 <= i < |b| ==> 0 < |b[i]| <= n
    decreases |s|
  {
    if s == [] then []
    else
      var k := Min(|s|, n);
      [s[..k]] + Batches(s[k..], n)
  }

  /** The batches partition the list: joined in order they give it back. */
  lemma {:induction false} BatchesPartition<T>(s: seq<T>, n: nat)
    requires n > 0
    ensures Flatten(Batches(s, n)) == s
    decreases |s|
  {
    if s != [] {
      var k := Min(|s|, n);
      var b := Batches(s, n);
      BatchesPartition(s[k..], n);
      assert b[1..] == Batches(s[k..], n);
      assert s[..k] + s[k..] == s;
    }
  }

  /** Splitting the list from index i on: the first batch is the next n elements (or what is left). */
  lemma BatchesFrom<T>(s: seq<T>, n: nat, i: nat)
    requires n > 0 && i < |s|
    ensures Batches(s[i..], n) == [s[i..Min(i + n, |s|)]] + Batches(s[Min(i + n, |s|)..], n)
  {
    var rest := s[i..];
    var k := Min(|rest|, n);
    assert rest[..k] == s[i..Min(i + n, |s|)];
    assert rest[k..] == s[Min(i + n, |s|)..];
  }

  /** The splitting loop of explode: it appends to chunks, for i = 0, n, 2n, ... below |s|, the
      batch holding the elements i + j (j < n) that lie inside s. */
  method AppendBatches<T>(chunks: seq<seq<T>>, s: seq<T>, n: nat) returns (r: seq<seq<T>>)
    requires n > 0
    ensures r == chunks + Batches(s, n)
  {
    r := chunks;
    var i: nat := 0;
    while i < |s|
      invariant r + Batches(s[Min(i, |s|)..], n) == chunks + Batches(s, n)
      decreases |s| - i
    {
      var chunk := TakeBatch(s, n, i);
      AppendStep(chunks, r, s, n, i);
      r := r + [chunk];
      i := i + n;
      assert r + Batches(s[Min(i, |s|)..], n) == chunks + Batches(s, n);
    }
    assert s[Min(i, |s|)..] == [];
  }

  /** One round of the splitting loop keeps its invariant. */
  lemma AppendStep<T>(chunks: seq<seq<T>>, r: seq<seq<T>>, s: seq<T>, n: nat, i: nat)
    requires n > 0 && i < |s|
    requires r + Batches(s[i..], n) == chunks + Batches(s, n)
    ensures (r + [s[i..Min(i + n, |s|)]]) + Batches(s[Min(i + n, |s|)..], n) == chunks + Batches(s, n)
  {
    BatchesFrom(s, n, i);
  }

  /** The inner loop of the splitting: the elements i + j, j < n, that lie inside s. */
  method TakeBatch<T>(s: seq<T>, n: nat, i: nat) returns (chunk: seq<T>)
    requires n > 0 && i < |s|
    ensures chunk == s[i..Min(i + n, |s|)]
  {
    chunk := [];
    var j := 0;
    while j < n
      invariant 0 <= j <= n
      invariant chunk == s[i..Min(i + j, |s|)]
    {
      if i + j < |s| {
        chunk := chunk + [s[i + j]];
      }
      j := j + 1;
    }
  }

  lemma MulSucc(m: int, n: int)
    ensures (m + 1) * n == m * n + n
  {
  }

  /** There are ⌈|s| / n⌉ batches: the one count k with (k - 1)·n < |s| <= k·n, or none for an
      empty list. */
  lemma {:induction false} BatchCount<T>(s: seq<T>, n: nat)
    requires n > 0
    ensures var k := |Batches(s, n)|; k * n >= |s| && (k > 0 ==> (k - 1) * n < |s|)
    decreases |s|
  {
    if s != [] {
      var k := Min(|s|, n);
      var m := |Batches(s[k..], n)|;
      BatchCount(s[k..], n);
      assert |Batches(s, n)| == m + 1;
      MulSucc(m, n);
      MulSucc(m - 1, n);
      if |s| <= n {
        assert s[k..] == [];
      }
    }
  }

  /** Every batch but the last holds exactly n cells and the last between 1 and n. */
  lemma {:induction false} BatchSizes<T>(s: seq<T>, n: nat)
    requires n > 0
    ensures forall i :: 0 <= i < |Batches(s, n)| - 1 ==> |Batches(s, n)[i]| == n
    ensures s != [] ==> 0 < |Batches(s, n)[|Batches(s, n)| - 1]| <= n
    decreases |s|
  {
    if s != [] {
      var k := Min(|s|, n);
      var rest := Batches(s[k..], n);
      BatchSizes(s[k..], n);
      assert Batches(s, n) == [s[..k]] + rest;
      if rest != [] {
        assert k == n;
      }
    }
  }

  /** Where batch i starts: i·n, written as n added i times. */
  function Start(i: nat, n: nat): nat
  {
    if i == 0 then 0 else Start(i - 1, n) + n
  }

  lemma {:induction false} StartIsProduct(i: nat, n: nat)
    ensures Start(i, n) == i * n
  {
    if i > 0 {
      StartIsProduct(i - 1, n);
      MulSucc(i - 1, n);
    }
  }

  /** A slice of the list without its first n elements, shifted back by n. */
  lemma ShiftSlice<T>(s: seq<T>, n: nat, p: nat, q: nat, p': nat, q': nat, slice: seq<T>)
    requires n <= |s| && p <= q && p < |s[n..]| && p' == p + n && q' == q + n
    requires slice == s[n..][p..Min(q, |s[n..]|)]
    ensures p' < |s| && slice == s[p'..Min(q', |s|)]
  {
    assert Min(q, |s| - n) + n == Min(q', |s|);
  }

  /** The first batch is the first n elements, or the whole list when it is shorter. */
  lemma FirstBatch<T>(s: seq<T>, n: nat)
    requires n > 0 && s != []
    ensures |Batches(s, n)| > 0 && Start(0, n) < |s|
    ensures Batches(s, n)[0] == s[Start(0, n)..Min(Start(1, n), |s|)]
  {
    assert Start(1, n) == n;
    assert s[0..Min(n, |s|)] == s[..Min(|s|, n)];
  }

  /** Every later batch is a batch of the list without its first n elements. */
  lemma LaterBatch<T>(s: seq<T>, n: nat, i: nat)
    requires n > 0 && 0 < i < |Batches(s, n)|
    ensures n < |s| && i - 1 < |Batches(s[n..], n)| && Batches(s, n)[i] == Batches(s[n..], n)[i - 1]
  {
    var k := Min(|s|, n);
    assert Batches(s, n) == [s[..k]] + Batches(s[k..], n);
  }

  /** Batch i starts at Start(i, n) and runs to the start of the next, cut short at the end of s. */
  lemma {:induction false} BatchStarts<T>(s: seq<T>, n: nat, i: nat)
    requires n > 0 && i < |Batches(s, n)|
    ensures Start(i, n) < |s| && Batches(s, n)[i] == s[Start(i, n)..Min(Start(i + 1, n), |s|)]
    decreases |s|
  {
    if i == 0 {
      FirstBatch(s, n);
    } else {
      LaterBatch(s, n, i);
      BatchStarts(s[n..], n, i - 1);
      ShiftSlice(s, n, Start(i - 1, n), Start(i, n), Start(i, n), Start(i + 1, n), Batches(s[n..], n)[i - 1]);
    }
  }

  /** Batch i is the slice of s from i·n up to (i+1)·n, cut short at the end of s. */
  lemma BatchAt<T>(s: seq<T>, n: nat, i: nat)
    requires n > 0 && i < |Batches(s, n)|
    ensures i * n < |s| && Batches(s, n)[i] == s[i * n .. Min((i + 1) * n, |s|)]
  {
    BatchStarts(s, n, i);
    StartIsProduct(i, n);
    StartIsProduct(i + 1, n);
  }

  /** The cursor after one tick over count batches: it stays put once every batch is done and
      otherwise moves on by one. */
  function NextCursor(cur: nat, count: nat): nat
  {
    if cur == count then cur else cur + 1
  }

  /** What tick answers for cursor cur: it was already at the end, or it has just reached it. */
  predicate TickFinishes(cur: nat, count: nat)
  {
    cur == count || cur + 1 >= count
  }

  /** The cursor after k ticks over count batches, starting from 0. */
  function CursorAfter(k: nat, count: nat): nat
  {
    if k == 0 then 0 else NextCursor(CursorAfter(k - 1, count), count)
  }

  /** After k ticks the cursor has passed min(k, count) batches: it never overtakes the batch
      count and moves on every tick until it reaches it. */
  lemma {:induction false} CursorAfterIsMin(k: nat, count: nat)
    ensures CursorAfter(k, count) == Min(k, count)
  {
    if k > 0 {
      CursorAfterIsMin(k - 1, count);
    }
  }

  /** Driving ticks from a fresh cursor, tick number k (from 1) is the first to report completion
      exactly when k == max(1, count): every earlier tick reports more work, every later one done. */
  lemma FinishesOnTick(k: nat, count: nat)
    requires k >= 1
    ensures TickFinishes(CursorAfter(k - 1, count), count) <==> k >= Max(1, count)
  {
    CursorAfterIsMin(k - 1, count);
  }
}
