/**
 * KDF1, KDF2 and KDF3 of device/noise-helpers.go write their results through 32-byte
 * output arrays, and their callers pass the chain key both as output and as key. A Block
 * is such an array; the contracts hold whether or not the key aliases an output.
 */
module KeyDerivation {
  import opened Noise

  class Block {
    var v: Bytes

    constructor (v: Bytes)
      ensures this.v == v
    {
      this.v := v;
    }
  }

  method HMAC1(c: Crypto, sum: Block, key: Bytes, in0: Bytes)
    modifies sum
    ensures sum.v == c.hmac(key, in0)
  {
    sum.v := c.hmac(key, in0);
  }

  method HMAC2(c: Crypto, sum: Block, key: Bytes, in0: Bytes, in1: Bytes)
    modifies sum
    ensures sum.v == c.hmac(key, in0 + in1)
  {
    sum.v := c.hmac(key, in0 + in1);
  }

  lemma FirstBlock(c: Crypto, prk: Bytes)
    ensures Expand(c, prk, 1) == c.hmac(prk, [1])
  {
    assert Expand(c, prk, 0) + [1] == [1];
  }

  method KDF1(c: Crypto, t0: Block, key: Block, input: Bytes)
    modifies t0
    ensures t0.v == Expand(c, Extract(c, old(key.v), input), 1)
  {
    HMAC1(c, t0, key.v, input);
    FirstBlock(c, t0.v);
    HMAC1(c, t0, t0.v, [1]);
  }

  method KDF2(c: Crypto, t0: Block, t1: Block, key: Block, input: Bytes)
    requires t0 != t1
    modifies t0, t1
    ensures t0.v == Expand(c, Extract(c, old(key.v), input), 1)
    ensures t1.v == Expand(c, Extract(c, old(key.v), input), 2)
  {
    var prk := new Block([]);
    HMAC1(c, prk, key.v, input);
    FirstBlock(c, prk.v);
    HMAC1(c, t0, prk.v, [1]);
    HMAC2(c, t1, prk.v, t0.v, [2]);
    prk.v := [];
  }

  method KDF3(c: Crypto, t0: Block, t1: Block, t2: Block, key: Block, input: Bytes)
    requires t0 != t1 && t0 != t2 && t1 != t2
    modifies t0, t1, t2
    ensures t0.v == Expand(c, Extract(c, old(key.v), input), 1)
    ensures t1.v == Expand(c, Extract(c, old(key.v), input), 2)
    ensures t2.v == Expand(c, Extract(c, old(key.v), input), 3)
  {
    var prk := new Block([]);
    HMAC1(c, prk, key.v, input);
    FirstBlock(c, prk.v);
    HMAC1(c, t0, prk.v, [1]);
    HMAC2(c, t1, prk.v, t0.v, [2]);
    HMAC2(c, t2, prk.v, t1.v, [3]);
    prk.v := [];
  }
}
