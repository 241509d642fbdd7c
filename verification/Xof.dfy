/** The incremental Python reader of the SHAKE-256 stream. */
module Xof {
  import opened Wrappers
  import opened Binary
  import opened Shake256

  const INITIAL_BUFFER: nat := 4096

  datatype ValueError = ValueError

  class XOF {
    const seed: seq<Byte>
    var offset: nat
    var buffer: seq<Byte>
    /** Everything returned so far. */
    ghost var returned: seq<Byte>
    /** Bytes digested so far, over all the digest calls. */
    ghost var digested: nat

    /**
     The bytes returned by any sequence of reads are the stream of the seed up
     to the current position, and re-digesting from scratch stays linear in it.
     */
    ghost predicate Valid()
      reads this
    {
      && offset <= |buffer|
      && buffer == Shake(seed, |buffer|)
      && returned == Shake(seed, offset)
      && (digested == 0 <==> buffer == [])
      && digested <= 2 * |buffer|
      && |buffer| <= Max(2 * offset, INITIAL_BUFFER)
    }

    constructor (seed: seq<Byte>)
      ensures Valid() && this.seed == seed && offset == 0 && returned == [] && digested == 0
    {
      this.seed := seed;
      offset, buffer, returned, digested := 0, [], [], 0;
    }

    method Read(n: int) returns (r: Result<seq<Byte>, ValueError>)
      requires Valid()
      modifies this
      ensures Valid()
      ensures r.Err? <==> n < 0
      ensures n <= 0 ==> offset == old(offset) && buffer == old(buffer)
      ensures r.Ok? ==> offset == old(offset) + n && r.value == Slice(seed, old(offset), offset)
      ensures returned == old(returned) + (if r.Ok? then r.value else [])
      ensures digested <= Max(4 * offset, 2 * INITIAL_BUFFER)
    {
      hide StreamByte, Absorbed;
      if n < 0 {
        return Err(ValueError);
      }
      if n == 0 {
        return Ok([]);
      }
      var needed := offset + n;
      if needed > |buffer| {
        var size := Max(Max(needed, |buffer| * 2), INITIAL_BUFFER);
        buffer := Shake256.Shake256(seed, size);
        digested := digested + size;
      }
      var out := buffer[offset..offset + n];
      ShakePrefix(seed, offset + n, |buffer|);
      ShakePrefix(seed, offset, offset + n);
      assert buffer[..offset + n][offset..] == out;
      assert Shake(seed, offset + n) == Shake(seed, offset) + out;
      offset := offset + n;
      returned := returned + out;
      return Ok(out);
    }
  }
}
