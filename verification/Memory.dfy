/** Block copies on arrays, as the C library functions of the same name do them. */
module Memory {
  import opened Common
  import opened Rebuffer

  /** Values read from a stream into `dst` from `off` on. */
  method FRead<T>(dst: array<T>, off: nat, src: seq<T>)
    requires off + |src| <= dst.Length
    modifies dst
    ensures dst[..] == Store(old(dst[..]), off, src)
  {
    for i := 0 to |src|
      invariant forall j | 0 <= j < dst.Length ::
                  dst[j] == if off <= j < off + i then src[j - off] else old(dst[j])
    {
      dst[off + i] := src[i];
    }
  }

  /** Two copies one behind the other are one copy of both. */
  lemma StoreTwice<T>(before: seq<T>, off: nat, a: seq<T>, b: seq<T>)
    requires off + |a| + |b| <= |before|
    ensures Store(Store(before, off, a), off + |a|, b) == Store(before, off, a + b)
  {
  }

  method MemCpy<T>(dst: array<T>, off: nat, src: array<T>, from: nat, n: nat)
    requires dst != src && off + n <= dst.Length && from + n <= src.Length
    modifies dst
    ensures dst[..] == Store(old(dst[..]), off, src[from..from + n])
  {
    for i := 0 to n
      invariant forall j | 0 <= j < dst.Length ::
                  dst[j] == if off <= j < off + i then src[from + j - off] else old(dst[j])
    {
      dst[off + i] := src[from + i];
    }
  }

  method MemSet<T>(dst: array<T>, value: T)
    modifies dst
    ensures dst[..] == Repeat(value, dst.Length)
  {
    for i := 0 to dst.Length
      invariant forall j | 0 <= j < i :: dst[j] == value
    {
      dst[i] := value;
    }
  }
}
