/** The bounded sink behind a command's stdout and stderr. */
module BoundedOutput {
  import opened Numbers

  /** The first `limit` bytes of a stream; nothing for a limit that is not positive. */
  function Prefix(stream: seq<byte>, limit: int): seq<byte> {
    stream[..Min(|stream|, Max(0, limit))]
  }

  lemma PrefixGrows(stream: seq<byte>, p: seq<byte>, limit: int)
    ensures var room := limit - |Prefix(stream, limit)|;
            Prefix(stream + p, limit) == Prefix(stream, limit) + (if room <= 0 then [] else p[..Min(|p|, room)])
  {
  }

  class Writer {
    const limit: int
    /** The backing array; its first `len` bytes are the ones kept. */
    var backing: array<byte>
    var len: nat
    var produced: nat
    /** Everything ever written, and the bytes copied because the backing array grew. */
    ghost var stream: seq<byte>
    ghost var copied: nat

    ghost predicate Valid()
      reads this, backing
    {
      && len <= backing.Length <= Max(0, limit)
      && backing[..len] == Prefix(stream, limit)
      && produced == |stream|
      // Doubling pays for the copies as long as the cap does not bite; once it has, there is no growth left.
      && copied <= Max(0, if backing.Length == limit then 2 * limit - 1 else backing.Length)
    }

    constructor (limit: int)
      ensures Valid() && fresh(backing)
      ensures this.limit == limit && stream == [] && copied == 0
    {
      this.limit := limit;
      backing := new byte[0];
      len, produced := 0, 0;
      stream, copied := [], 0;
    }

    /** Reports the whole write as accepted and keeps whatever of it falls in the first `limit` bytes. */
    method Write(p: seq<byte>) returns (n: nat)
      requires Valid()
      modifies this, backing
      ensures Valid() && (backing == old(backing) || fresh(backing))
      ensures n == |p| && stream == old(stream) + p
      ensures copied <= Max(0, 2 * limit - 1)
    {
      PrefixGrows(stream, p, limit);
      n := |p|;
      produced := produced + n;
      var remaining := limit - len;
      stream := stream + p;
      if remaining > 0 {
        var kept := if |p| > remaining then p[..remaining] else p;
        Append(kept);
      }
    }

    /** Reallocates the backing array: twice as large, or as large as needed, but never past the limit. */
    method Grow(need: nat)
      requires len <= backing.Length < need <= limit
      requires copied <= backing.Length
      modifies this`backing, this`copied
      ensures fresh(backing) && need <= backing.Length <= limit
      ensures backing[..len] == old(backing[..len])
      ensures copied <= (if backing.Length == limit then 2 * limit - 1 else backing.Length)
    {
      var grown := 2 * backing.Length;
      if grown < need {
        grown := need;
      }
      if grown > limit {
        grown := limit;
      }
      var next := new byte[grown];
      forall i | 0 <= i < len {
        next[i] := backing[i];
      }
      assert next[..len] == backing[..len];
      copied := copied + len;
      backing := next;
    }

    method Append(p: seq<byte>)
      requires len + |p| <= limit && len <= backing.Length <= limit
      requires copied <= (if backing.Length == limit then 2 * limit - 1 else backing.Length)
      modifies this`backing, this`len, this`copied, backing
      ensures backing == old(backing) || fresh(backing)
      ensures len == old(len) + |p| && len <= backing.Length <= limit
      ensures backing[..len] == old(backing[..len]) + p
      ensures copied <= (if backing.Length == limit then 2 * limit - 1 else backing.Length)
      ensures old(backing.Length) >= old(len) + |p| ==> backing == old(backing) && copied == old(copied)
    {
      ghost var before := backing[..len];
      var need := len + |p|;
      if backing.Length < need {
        Grow(need);
      }
      forall j | 0 <= j < |p| {
        backing[len + j] := p[j];
      }
      assert backing[..len] == before;
      len := len + |p|;
      assert backing[..len] == before + p;
    }

    method Produced() returns (n: nat)
      requires Valid()
      ensures n == |stream|
    {
      n := produced;
    }

    method Len() returns (n: nat)
      requires Valid()
      ensures n == |Prefix(stream, limit)|
    {
      n := len;
    }

    method Truncated() returns (t: bool)
      requires Valid()
      ensures t <==> Prefix(stream, limit) != stream
    {
      t := produced > len;
    }
  }

  datatype OutputTruncation = OutputTruncation(truncated: bool, produced: nat, kept: nat)

  /** The summary says "truncated" exactly when some byte of either stream was lost, and exactly
      when its two counts differ. */
  method TruncationOf(stdout: Writer, stderr: Writer) returns (t: OutputTruncation)
    requires stdout.Valid() && stderr.Valid()
    ensures t.truncated <==> Prefix(stdout.stream, stdout.limit) != stdout.stream || Prefix(stderr.stream, stderr.limit) != stderr.stream
    ensures t.truncated <==> t.produced > t.kept
    ensures t.produced == |stdout.stream| + |stderr.stream|
    ensures t.kept == |Prefix(stdout.stream, stdout.limit)| + |Prefix(stderr.stream, stderr.limit)|
  {
    var a := stdout.Truncated();
    var b := stderr.Truncated();
    var p := stdout.Produced();
    var q := stderr.Produced();
    var k := stdout.Len();
    var l := stderr.Len();
    t := OutputTruncation(a || b, p + q, k + l);
  }
}
