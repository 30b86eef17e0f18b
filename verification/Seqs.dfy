/** Vocabulary shared by the codecs: results, cutting a sequence into chunks and joining chunks. */
module Seqs {

  datatype Option<+T> = None | Some(value: T)

  datatype Result<+T, +E> = Ok(value: T) | Err(error: E)

  const U64_MAX: nat := 0xFFFF_FFFF_FFFF_FFFF

  function Min(a: int, b: int): int { if a <= b then a else b }

  function Max(a: int, b: int): int { if a <= b then b else a }

  /** `a` divided by `n`, rounded up. */
  function DivCeil(a: nat, n: nat): nat
    requires n > 0
  {
    (a + n - 1) / n
  }

  function Concat<T>(parts: seq<seq<T>>): seq<T> {
    if parts == [] then [] else parts[0] + Concat(parts[1..])
  }

  /** Rust's `chunks(n)`: pieces of length n, the last one possibly shorter, none empty. */
  function Chunks<T>(s: seq<T>, n: nat): (r: seq<seq<T>>)
    requires n > 0
    ensures forall k :: 0 <= k < |r| ==> 0 < |r[k]| <= n
    ensures forall k :: 0 <= k < |r| - 1 ==> |r[k]| == n
  {
    if s == [] then [] else if |s| <= n then [s] else [s[..n]] + Chunks(s[n..], n)
  }

  lemma ChunksHead<T>(s: seq<T>, n: nat)
    requires n > 0 && s != []
    ensures var h := Min(n, |s|); Chunks(s, n) == [s[..h]] + Chunks(s[h..], n)
  {
    if |s| <= n {
      assert s[..|s|] == s && s[|s|..] == [];
    }
  }

  lemma {:induction false} ConcatChunks<T>(s: seq<T>, n: nat)
    requires n > 0
    ensures Concat(Chunks(s, n)) == s
  {
    if |s| > n {
      ConcatChunks(s[n..], n);
      assert Chunks(s, n)[1..] == Chunks(s[n..], n);
    } else if s != [] {
      assert Chunks(s, n)[1..] == [];
      assert Concat(Chunks(s, n)) == s + Concat<T>([]);
    }
  }

  lemma {:induction false} DivCeilStep(a: nat, n: nat)
    requires 0 < n < a
    ensures DivCeil(a, n) == 1 + DivCeil(a - n, n)
  {
    assert (a + n - 1) == (a - n + n - 1) + n;
    DivAddOne(a - 1, n);
  }

  lemma {:induction false} DivAddOne(a: nat, n: nat)
    requires n > 0
    ensures (a + n) / n == a / n + 1
  {
    var q, r := a / n, a % n;
    assert a + n == (q + 1) * n + r;
    DivUnique(a + n, n, q + 1, r);
  }

  lemma {:induction false} DivUnique(a: int, n: int, q: int, r: int)
    requires n > 0 && 0 <= r < n && a == q * n + r
    ensures a / n == q && a % n == r
  {
    var q', r' := a / n, a % n;
    var d := q - q';
    assert d * n == r' - r by { assert q * n - q' * n == d * n; }
    if d >= 1 {
      MulAtLeast(d, n);
    } else if d <= -1 {
      MulAtLeast(-d, n);
    }
  }

  lemma MulAtLeast(d: int, n: int)
    requires d >= 1 && n > 0
    ensures d * n >= n
  {
    if d > 1 {
      MulAtLeast(d - 1, n);
      assert d * n == (d - 1) * n + n;
    }
  }

  /** Small dividends need no rounding lemma: one chunk at most. */
  lemma DivCeilSmall(a: nat, n: nat)
    requires a <= n && n > 0
    ensures DivCeil(a, n) == if a == 0 then 0 else 1
  {
    if a == 0 {
      DivUnique(n - 1, n, 0, n - 1);
    } else {
      DivUnique(a + n - 1, n, 1, a - 1);
    }
  }

  lemma {:induction false} ChunkCount<T>(s: seq<T>, n: nat)
    requires n > 0
    ensures |Chunks(s, n)| == DivCeil(|s|, n)
  {
    if |s| > n {
      ChunkCount(s[n..], n);
      DivCeilStep(|s|, n);
    } else {
      DivCeilSmall(|s|, n);
    }
  }

  /** Pieces that look like the output of `Chunks`. */
  ghost predicate Uniform<T>(parts: seq<seq<T>>, n: nat) {
    && (forall k :: 0 <= k < |parts| ==> 0 < |parts[k]| <= n)
    && (forall k :: 0 <= k < |parts| - 1 ==> |parts[k]| == n)
  }

  /** Cutting undoes joining: uniform pieces are recovered from their concatenation. */
  lemma {:induction false} ChunksConcat<T>(parts: seq<seq<T>>, n: nat)
    requires n > 0
    requires Uniform(parts, n)
    ensures Chunks(Concat(parts), n) == parts
  {
    if |parts| == 1 {
      assert Concat(parts) == parts[0] + Concat(parts[1..]) == parts[0];
    } else if |parts| > 1 {
      ChunksConcat(parts[1..], n);
      assert |parts[0]| == n;
      assert Concat(parts[1..]) == parts[1] + Concat(parts[2..]) by { assert parts[1..][1..] == parts[2..]; }
      assert |Concat(parts)| > n;
      assert Concat(parts)[..n] == parts[0];
      assert Concat(parts)[n..] == Concat(parts[1..]);
      assert parts == [parts[0]] + parts[1..];
    }
  }

  lemma SliceAfter<T>(a: seq<T>, b: seq<T>, at: nat, n: nat)
    requires at + n <= |b|
    ensures (a + b)[|a| + at..|a| + at + n] == b[at..at + n]
  {
  }

  /** Piece k of uniform pieces starts at k times their length. */
  lemma {:induction false} UniformAt<T>(parts: seq<seq<T>>, n: nat, k: nat)
    requires Uniform(parts, n) && k < |parts|
    ensures 0 <= k * n && k * n + |parts[k]| <= |Concat(parts)| && Concat(parts)[k * n..k * n + |parts[k]|] == parts[k]
  {
    var rest := parts[1..];
    if k == 0 {
      assert Concat(parts)[..|parts[0]|] == parts[0];
    } else {
      UniformAt(rest, n, k - 1);
      assert k * n == (k - 1) * n + n && |parts[0]| == n && rest[k - 1] == parts[k];
      var at := (k - 1) * n;
      SliceAfter(parts[0], Concat(rest), at, |parts[k]|);
    }
  }

  lemma {:induction false} ConcatAppend<T>(a: seq<seq<T>>, b: seq<seq<T>>)
    ensures Concat(a + b) == Concat(a) + Concat(b)
  {
    if a == [] {
      assert a + b == b;
    } else {
      ConcatAppend(a[1..], b);
      assert (a + b)[1..] == a[1..] + b;
      assert a[0] + (Concat(a[1..]) + Concat(b)) == (a[0] + Concat(a[1..])) + Concat(b);
    }
  }

  lemma ConcatSnoc<T>(a: seq<seq<T>>, x: seq<T>)
    ensures Concat(a + [x]) == Concat(a) + x
  {
    ConcatAppend(a, [x]);
    assert Concat([x]) == x + Concat<T>([]);
  }

  lemma Reassociate<T>(a: seq<T>, b: seq<T>, c: seq<T>)
    ensures a + (b + c) == (a + b) + c
  {
  }

  /** One more part: the step of a loop that appends part after part. */
  lemma ConcatTake<T>(parts: seq<seq<T>>, k: nat)
    requires k < |parts|
    ensures Concat(parts[..k + 1]) == Concat(parts[..k]) + parts[k]
  {
    assert parts[..k + 1] == parts[..k] + [parts[k]];
    ConcatSnoc(parts[..k], parts[k]);
  }
}
