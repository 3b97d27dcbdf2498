/**
  The cached reader of intensity files: a chunk is put together from HDF5 chunks of at most a given number of samples,
  one of which is kept.
*/
module StreamReaders {
  import opened Options
  import opened Products

  /** All samples of all files, in order. */
  function Concat<V>(files: seq<seq<V>>): seq<V> {
    if files == [] then [] else files[0] + Concat(files[1..])
  }

  function Total<V>(files: seq<seq<V>>, n: nat): nat
    requires n <= |files|
  {
    if n == 0 then 0 else Total(files, n - 1) + |files[n - 1]|
  }

  lemma {:induction false} FilesFrom<V>(files: seq<seq<V>>, n: nat)
    requires n <= |files|
    ensures Total(files, n) <= |Concat(files)|
    ensures Concat(files)[Total(files, n)..] == Concat(files[n..])
  {
    if n == 0 {
      assert files[0..] == files;
    } else {
      FilesFrom(files, n - 1);
      assert files[n - 1..][1..] == files[n..];
      var rest := Concat(files)[Total(files, n - 1)..];
      assert rest == files[n - 1] + Concat(files[n..]);
      assert rest[|files[n - 1]|..] == Concat(files)[Total(files, n)..];
    }
  }

  lemma {:induction false} AllFiles<V>(files: seq<seq<V>>)
    ensures Total(files, |files|) == |Concat(files)|
  {
    FilesFrom(files, |files|);
    assert files[|files|..] == [];
  }

  lemma ConcatFirst<V>(files: seq<seq<V>>)
    requires files != []
    ensures Concat(files) == files[0] + Concat(files[1..])
  {
  }

  lemma SliceOfFirst<X>(a: seq<X>, b: seq<X>, from: nat, to: nat)
    requires from <= to <= |a|
    ensures (a + b)[from..to] == a[from..to]
  {
  }

  /** A part of one file is that part of the whole. */
  lemma PartOfFile<V>(files: seq<seq<V>>, n: nat, from: nat, to: nat)
    requires n < |files| && from <= to <= |files[n]|
    ensures Total(files, n) + to <= |Concat(files)|
    ensures files[n][from..to] == Concat(files)[Total(files, n) + from..Total(files, n) + to]
  {
    FilesFrom(files, n);
    FilesFrom(files, n + 1);
    ConcatFirst(files[n..]);
    hide Concat;
    var all, at := Concat(files), Total(files, n);
    assert files[n..][1..] == files[n + 1..];
    var rest := all[at..|all|];
    assert rest == files[n] + Concat(files[n + 1..]);
    SliceOfFirst(files[n], Concat(files[n + 1..]), from, to);
    SliceOfSlice(all, at, |all|, from, to);
  }

  /** Rounded down to a whole number of chunks. */
  function AlignedDown(x: nat, chunk: nat): (r: nat)
    requires chunk > 0
    ensures r <= x < r + chunk
  {
    Quotient(x, chunk);
    x / chunk * chunk
  }

  lemma Quotient(x: nat, n: nat)
    requires n > 0
    ensures x / n * n <= x < x / n * n + n
  {
    assert x == n * (x / n) + x % n;
  }

  /** A cached piece: its position in the whole, and its samples. */
  datatype Cache<V> = Cache(start: nat, samples: seq<V>)

  class StreamReader<V> {
    const files: seq<seq<V>>
    const timeChunk: nat
    var current: nat
    var cache: Option<Cache<V>>

    constructor (contents: seq<seq<V>>, chunk: nat)
      requires chunk > 0
      ensures Valid() && current == 0 && files == contents && timeChunk == chunk
    {
      files, timeChunk := contents, chunk;
      current, cache := 0, None;
    }

    /** The cache holds the HDF5 chunk that starts where it says, up to the end of the chunk or of the file. */
    ghost predicate Valid()
      reads this
    {
      && timeChunk > 0 && current <= |Concat(files)|
      && (cache.Some? ==> exists n, at :: IsPiece(n, at, cache.value))
    }

    /** The piece of file n that starts at a position of the file. */
    ghost predicate IsPiece(n: nat, at: nat, c: Cache<V>) {
      && n < |files| && at < |files[n]| && timeChunk > 0 && at == AlignedDown(at, timeChunk)
      && c.start == Total(files, n) + at
      && c.samples == files[n][at..if at + timeChunk < |files[n]| then at + timeChunk else |files[n]|]
    }

    /** Finds the file and the HDF5 chunk of the current sample, and reads it unless it is the one that is kept. */
    method CacheH5Chunk()
      requires Valid() && current < |Concat(files)|
      modifies this`cache
      ensures Valid() && cache.Some?
      ensures var c := cache.value;
              && c.start <= current < c.start + |c.samples| && c.start + |c.samples| <= |Concat(files)|
              && c.samples == Concat(files)[c.start..c.start + |c.samples|]
    {
      hide Concat, AlignedDown;
      var index: nat := current;
      var which := 0;
      AllFiles(files);
      while which < |files| && index >= |files[which]|
        invariant which <= |files| && current == Total(files, which) + index
      {
        index := index - |files[which]|;
        which := which + 1;
      }
      if which == |files| { TotalIsAll(which); }
      var at := AlignedDown(index, timeChunk);
      AlignedTwice(index, timeChunk);
      var start := Total(files, which) + at;
      var to := if at + timeChunk < |files[which]| then at + timeChunk else |files[which]|;
      PartOfFile(files, which, at, to);
      if cache.Some? && cache.value.start == start {
        ghost var n, a :| IsPiece(n, a, cache.value);
        SamePiece(n, a, which, at);
        return;
      }
      cache := Some(Cache(start, files[which][at..to]));
      assert IsPiece(which, at, cache.value);
    }

    lemma TotalIsAll(n: nat)
      requires n == |files|
      ensures Total(files, n) == |Concat(files)|
    {
      AllFiles(files);
    }

    /** Where a piece starts tells which one it is: positions inside different files are different. */
    lemma SamePiece(n: nat, a: nat, m: nat, b: nat)
      requires n < |files| && a < |files[n]| && m < |files| && b < |files[m]|
      requires Total(files, n) + a == Total(files, m) + b
      ensures n == m && a == b
    {
      if n < m { LaterFile(n + 1, m); } else if m < n { LaterFile(m + 1, n); }
    }

    lemma {:induction false} LaterFile(n: nat, m: nat)
      requires n <= m <= |files|
      ensures Total(files, n) <= Total(files, m)
    {
      if n < m { LaterFile(n, m - 1); }
    }

    /** The next n samples, or the end of the iteration when there are not that many. */
    method YieldChunk(n: nat) returns (r: Option<seq<V>>)
      requires Valid()
      modifies this
      ensures Valid()
      ensures r.None? <==> n == 0 || old(current) + n > |Concat(files)|
      ensures r.None? ==> current == old(current)
      ensures r.Some? ==> current == old(current) + n && r.value == Concat(files)[old(current)..current]
    {
      hide IsPiece, AlignedDown, Concat;
      var begin := current;
      AllFiles(files);
      var remaining := Total(files, |files|) - begin;
      if n > remaining || n == 0 { return None; }
      var out: seq<V> := [];
      while current < begin + n
        invariant Valid() && begin <= current <= begin + n <= |Concat(files)|
        invariant out == Concat(files)[begin..current]
        decreases begin + n - current
      {
        CacheH5Chunk();
        var c := cache.value;
        var from := current - c.start;
        var count := if |c.samples| - from < begin + n - current then |c.samples| - from else begin + n - current;
        ghost var all := Concat(files);
        SliceOfSlice(all, c.start, c.start + |c.samples|, from, from + count);
        assert all[begin..current] + all[current..current + count] == all[begin..current + count];
        out := out + c.samples[from..from + count];
        current := current + count;
      }
      r := Some(out);
    }
  }

  lemma SliceOfSlice<V>(s: seq<V>, at: nat, to: nat, p: nat, q: nat)
    requires at <= to <= |s| && p <= q <= to - at
    ensures s[at..to][p..q] == s[at + p..at + q]
  {
    var x := s[at..to];
    forall k | 0 <= k < q - p ensures x[p..q][k] == s[at + p..at + q][k] {
      assert x[p + k] == s[at + p + k];
    }
  }

  lemma AlignedTwice(x: nat, n: nat)
    requires n > 0
    ensures AlignedDown(AlignedDown(x, n), n) == AlignedDown(x, n)
  {
    var q := x / n;
    MultipleIsZero(n, q);
  }

}
