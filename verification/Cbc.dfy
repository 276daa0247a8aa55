/** Cipher block chaining, section 6.2 of NIST SP 800-38A, over an arbitrary pair of block functions. */
module Cbc {
  import opened AesSpec

  /** The last block written so far: the chaining value of the next one. */
  function Last(iv: Block, c: seq<Byte>): Block
    requires |c| % 16 == 0
  {
    if c == [] then iv else c[|c| - 16..]
  }

  /** C(j) is the image of P(j) + C(j - 1), with the initial vector for C(-1). */
  function Encrypt(e: Block -> Block, iv: Block, p: seq<Byte>): (c: seq<Byte>)
    requires |p| % 16 == 0
    ensures |c| == |p|
  {
    if p == [] then [] else
      var n := |p| - 16;
      var c := Encrypt(e, iv, p[..n]);
      c + e(Xor(p[n..], Last(iv, c)))
  }

  /** P(j) is the inverse image of C(j), plus C(j - 1). */
  function Decrypt(d: Block -> Block, iv: Block, c: seq<Byte>): (p: seq<Byte>)
    requires |c| % 16 == 0
    ensures |p| == |c|
  {
    if c == [] then [] else
      var n := |c| - 16;
      Decrypt(d, iv, c[..n]) + Xor(d(c[n..]), Last(iv, c[..n]))
  }

  /** Decryption in place by code that keeps a pointer to the block before: what is added to the inverse image of C(j) is
      what stands there by then, P(j - 1). */
  function DecryptInPlace(d: Block -> Block, iv: Block, c: seq<Byte>): (p: seq<Byte>)
    requires |c| % 16 == 0
    ensures |p| == |c|
  {
    if c == [] then [] else
      var n := |c| - 16;
      var p := DecryptInPlace(d, iv, c[..n]);
      p + Xor(d(c[n..]), Last(iv, p))
  }

  ghost predicate Inverse(d: Block -> Block, e: Block -> Block) {
    forall b: Block :: d(e(b)) == b
  }

  lemma Empty(e: Block -> Block, iv: Block)
    ensures Encrypt(e, iv, []) == [] && Decrypt(e, iv, []) == [] && DecryptInPlace(e, iv, []) == []
    ensures Whitened(e, iv, []) == [] && Last(iv, []) == iv
  {}

  /** One more block. */
  lemma EncryptStep(e: Block -> Block, iv: Block, p: seq<Byte>, b: Block)
    requires |p| % 16 == 0
    ensures Encrypt(e, iv, p + b) == Encrypt(e, iv, p) + e(Xor(b, Last(iv, Encrypt(e, iv, p))))
  {
    assert (p + b)[..|p|] == p && (p + b)[|p|..] == b;
  }

  lemma DecryptStep(d: Block -> Block, iv: Block, c: seq<Byte>, b: Block)
    requires |c| % 16 == 0
    ensures Decrypt(d, iv, c + b) == Decrypt(d, iv, c) + Xor(d(b), Last(iv, c))
  {
    assert (c + b)[..|c|] == c && (c + b)[|c|..] == b;
  }

  lemma DecryptInPlaceStep(d: Block -> Block, iv: Block, c: seq<Byte>, b: Block)
    requires |c| % 16 == 0
    ensures DecryptInPlace(d, iv, c + b) == DecryptInPlace(d, iv, c) + Xor(d(b), Last(iv, DecryptInPlace(d, iv, c)))
  {
    assert (c + b)[..|c|] == c && (c + b)[|c|..] == b;
  }

  /** Decryption undoes encryption, for every length and every initial vector. */
  lemma {:induction false} RoundTrip(d: Block -> Block, e: Block -> Block, iv: Block, p: seq<Byte>)
    requires |p| % 16 == 0 && Inverse(d, e)
    ensures Decrypt(d, iv, Encrypt(e, iv, p)) == p
  {
    hide Xor, Encrypt, Decrypt, Last;
    if p == [] {
      Empty(e, iv);
      Empty(d, iv);
    } else {
      var n := |p| - 16;
      var init, b := p[..n], p[n..];
      assert init + b == p;
      RoundTrip(d, e, iv, init);
      EncryptStep(e, iv, init, b);
      var c := Encrypt(e, iv, init);
      DecryptStep(d, iv, c, e(Xor(b, Last(iv, c))));
      XorUndone(b, Last(iv, c));
    }
  }

  /** And encryption undoes decryption, so every ciphertext is the encryption of exactly one plaintext. */
  lemma {:induction false} RoundTripBack(d: Block -> Block, e: Block -> Block, iv: Block, c: seq<Byte>)
    requires |c| % 16 == 0 && Inverse(e, d)
    ensures Encrypt(e, iv, Decrypt(d, iv, c)) == c
  {
    hide Xor, Encrypt, Decrypt, Last;
    if c == [] {
      Empty(e, iv);
      Empty(d, iv);
    } else {
      var n := |c| - 16;
      var init, b := c[..n], c[n..];
      assert init + b == c;
      RoundTripBack(d, e, iv, init);
      DecryptStep(d, iv, init, b);
      EncryptStep(e, iv, Decrypt(d, iv, init), Xor(d(b), Last(iv, init)));
      XorUndone(d(b), Last(iv, init));
    }
  }

  /** Decryption in place is decryption exactly when every block but the last decrypts to itself; so it is for a single
      block, and for a longer message only by coincidence. */
  lemma {:induction false} InPlaceIffFixed(d: Block -> Block, iv: Block, c: seq<Byte>)
    requires |c| % 16 == 0 && |c| > 0
    ensures DecryptInPlace(d, iv, c) == Decrypt(d, iv, c) <==> Decrypt(d, iv, c)[..|c| - 16] == c[..|c| - 16]
  {
    hide Xor, Decrypt, DecryptInPlace, Last;
    var n := |c| - 16;
    var init, b := c[..n], c[n..];
    assert init + b == c;
    DecryptStep(d, iv, init, b);
    DecryptInPlaceStep(d, iv, init, b);
    if init == [] {
      Empty(d, iv);
    } else {
      InPlaceIffFixed(d, iv, init);
      LastBlocks(iv, init, DecryptInPlace(d, iv, init), Decrypt(d, iv, init));
      SumsDiffer(d(b), Last(iv, DecryptInPlace(d, iv, init)), Last(iv, init));
    }
  }

  lemma SumsDiffer(a: Block, x: Block, y: Block)
    ensures Xor(a, x) == Xor(a, y) <==> x == y
  {
    hide Xor;
    XorUndone(x, a);
    XorUndone(y, a);
  }

  lemma LastBlocks(iv: Block, c: seq<Byte>, q: seq<Byte>, p: seq<Byte>)
    requires |c| % 16 == 0 && |c| > 0 && |q| == |p| == |c|
    ensures q == p && p[..|c| - 16] == c[..|c| - 16] && Last(iv, q) == Last(iv, c) ==> p == c
    ensures p == c ==> p[..|c| - 16] == c[..|c| - 16]
  {
    var n := |c| - 16;
    assert p == p[..n] + p[n..] && c == c[..n] + c[n..];
  }

  /** Streaming: a long message can be encrypted in pieces, each continuing from the last block of the one before. */
  lemma {:induction false} EncryptPieces(e: Block -> Block, iv: Block, p: seq<Byte>, q: seq<Byte>)
    requires |p| % 16 == 0 && |q| % 16 == 0
    ensures Encrypt(e, iv, p + q) == Encrypt(e, iv, p) + Encrypt(e, Last(iv, Encrypt(e, iv, p)), q)
  {
    hide Encrypt, Last;
    if q == [] {
      Empty(e, Last(iv, Encrypt(e, iv, p)));
      assert p + q == p;
    } else {
      var n := |q| - 16;
      var init, b := q[..n], q[n..];
      assert init + b == q;
      EncryptPieces(e, iv, p, init);
      EncryptPiecesStep(e, iv, p, init, b);
    }
  }

  lemma EncryptPiecesStep(e: Block -> Block, iv: Block, p: seq<Byte>, q: seq<Byte>, b: Block)
    requires |p| % 16 == 0 && |q| % 16 == 0 && |q + b| % 16 == 0 && |p + (q + b)| % 16 == 0
    requires Encrypt(e, iv, p + q) == Encrypt(e, iv, p) + Encrypt(e, Last(iv, Encrypt(e, iv, p)), q)
    ensures Encrypt(e, iv, p + (q + b)) == Encrypt(e, iv, p) + Encrypt(e, Last(iv, Encrypt(e, iv, p)), q + b)
  {
    hide Encrypt, Last;
    var c := Encrypt(e, iv, p);
    assert p + (q + b) == (p + q) + b;
    EncryptStep(e, iv, p + q, b);
    EncryptStep(e, Last(iv, c), q, b);
    LastOfPieces(iv, c, Encrypt(e, Last(iv, c), q));
  }

  lemma {:induction false} DecryptPieces(d: Block -> Block, iv: Block, c: seq<Byte>, c': seq<Byte>)
    requires |c| % 16 == 0 && |c'| % 16 == 0
    ensures Decrypt(d, iv, c + c') == Decrypt(d, iv, c) + Decrypt(d, Last(iv, c), c')
  {
    hide Decrypt, Last;
    if c' == [] {
      Empty(d, Last(iv, c));
      assert c + c' == c;
    } else {
      var n := |c'| - 16;
      var init, b := c'[..n], c'[n..];
      assert init + b == c';
      DecryptPieces(d, iv, c, init);
      DecryptPiecesStep(d, iv, c, init, b);
    }
  }

  lemma DecryptPiecesStep(d: Block -> Block, iv: Block, c: seq<Byte>, q: seq<Byte>, b: Block)
    requires |c| % 16 == 0 && |q| % 16 == 0 && |q + b| % 16 == 0 && |c + (q + b)| % 16 == 0
    requires Decrypt(d, iv, c + q) == Decrypt(d, iv, c) + Decrypt(d, Last(iv, c), q)
    ensures Decrypt(d, iv, c + (q + b)) == Decrypt(d, iv, c) + Decrypt(d, Last(iv, c), q + b)
  {
    hide Decrypt, Last;
    assert c + (q + b) == (c + q) + b;
    DecryptStep(d, iv, c + q, b);
    DecryptStep(d, Last(iv, c), q, b);
    LastOfPieces(iv, c, q);
  }

  lemma LastOfPieces(iv: Block, c: seq<Byte>, c': seq<Byte>)
    requires |c| % 16 == 0 && |c'| % 16 == 0
    ensures Last(iv, c + c') == Last(Last(iv, c), c')
  {
    if c' != [] {
      assert (c + c')[|c| + |c'| - 16..] == c'[|c'| - 16..];
    } else {
      assert c + c' == c;
    }
  }

  /** Decryption is local: a run of ciphertext blocks, with the block before it as initial vector, decrypts to the
      same run of the plaintext. */
  lemma DecryptIsLocal(d: Block -> Block, iv: Block, c: seq<Byte>, lo: nat, hi: nat)
    requires |c| % 16 == 0 && lo % 16 == 0 && hi % 16 == 0 && lo <= hi <= |c|
    ensures Decrypt(d, Last(iv, c[..lo]), c[lo..hi]) == Decrypt(d, iv, c)[lo..hi]
  {
    hide Decrypt, Last;
    var x, y, z := c[..lo], c[lo..hi], c[hi..];
    assert c == (x + y) + z;
    DecryptPieces(d, iv, x + y, z);
    DecryptPieces(d, iv, x, y);
  }

  /** A prefix of the message has a prefix of the ciphertext. */
  lemma EncryptPrefix(e: Block -> Block, iv: Block, p: seq<Byte>, n: nat)
    requires |p| % 16 == 0 && n % 16 == 0 && n <= |p|
    ensures Encrypt(e, iv, p)[..n] == Encrypt(e, iv, p[..n])
  {
    hide Encrypt, Last;
    EncryptPieces(e, iv, p[..n], p[n..]);
    assert p[..n] + p[n..] == p;
  }

  /** What the in-place code leaves in its input buffer: each plaintext block plus the ciphertext block before it,
      that is, the argument the block function was applied to. */
  function Whitened(e: Block -> Block, iv: Block, p: seq<Byte>): (x: seq<Byte>)
    requires |p| % 16 == 0
    ensures |x| == |p|
  {
    if p == [] then [] else
      var n := |p| - 16;
      Whitened(e, iv, p[..n]) + Xor(p[n..], Last(iv, Encrypt(e, iv, p[..n])))
  }

  lemma WhitenedStep(e: Block -> Block, iv: Block, p: seq<Byte>, b: Block)
    requires |p| % 16 == 0
    ensures Whitened(e, iv, p + b) == Whitened(e, iv, p) + Xor(b, Last(iv, Encrypt(e, iv, p)))
  {
    assert (p + b)[..|p|] == p && (p + b)[|p|..] == b;
  }

  // One turn of the in-place loop: from i bytes done, c and x, to i + 16.
  lemma Advance(e: Block -> Block, iv: Block, p: seq<Byte>, i: nat, c: seq<Byte>, x: seq<Byte>, argument: Block, image: Block)
    requires |p| % 16 == 0 && i % 16 == 0 && i + 16 <= |p| && |c| == i
    requires c == Encrypt(e, iv, p[..i]) && x == Whitened(e, iv, p[..i])
    requires argument == Xor(p[i..i + 16], Last(iv, c)) && image == e(argument)
    ensures Encrypt(e, iv, p[..i + 16]) == c + image
    ensures Whitened(e, iv, p[..i + 16]) == x + argument
    ensures Last(iv, c + image) == image
  {
    hide Xor, Encrypt, Whitened;
    assert p[..i + 16] == p[..i] + p[i..i + 16];
    EncryptStep(e, iv, p[..i], p[i..i + 16]);
    WhitenedStep(e, iv, p[..i], p[i..i + 16]);
  }

  lemma AdvanceBack(d: Block -> Block, iv: Block, c: seq<Byte>, i: nat, p: seq<Byte>, plain: Block)
    requires |c| % 16 == 0 && i % 16 == 0 && i + 16 <= |c|
    requires p == Decrypt(d, iv, c[..i]) && plain == Xor(d(c[i..i + 16]), Last(iv, c[..i]))
    ensures Decrypt(d, iv, c[..i + 16]) == p + plain
    ensures Last(iv, c[..i + 16]) == c[i..i + 16]
  {
    hide Xor, Decrypt;
    assert c[..i + 16] == c[..i] + c[i..i + 16];
    DecryptStep(d, iv, c[..i], c[i..i + 16]);
  }

  lemma AdvanceInPlace(d: Block -> Block, iv: Block, c: seq<Byte>, i: nat, p: seq<Byte>, plain: Block)
    requires |c| % 16 == 0 && i % 16 == 0 && i + 16 <= |c| && |p| == i
    requires p == DecryptInPlace(d, iv, c[..i]) && plain == Xor(d(c[i..i + 16]), Last(iv, p))
    ensures DecryptInPlace(d, iv, c[..i + 16]) == p + plain
    ensures Last(iv, p + plain) == plain
  {
    hide Xor, DecryptInPlace;
    assert c[..i + 16] == c[..i] + c[i..i + 16];
    DecryptInPlaceStep(d, iv, c[..i], c[i..i + 16]);
  }

  /** Block j of the whitened input is P(j) + C(j - 1), and its image is C(j). */
  lemma {:induction false} WhitenedBlock(e: Block -> Block, iv: Block, p: seq<Byte>, m: nat)
    requires |p| % 16 == 0 && m % 16 == 0 && m < |p|
    ensures Whitened(e, iv, p)[m..m + 16] == Xor(p[m..m + 16], Last(iv, Encrypt(e, iv, p)[..m]))
    ensures Encrypt(e, iv, p)[m..m + 16] == e(Whitened(e, iv, p)[m..m + 16])
  {
    hide Xor, Last, Encrypt, Whitened;
    var n := |p| - 16;
    assert p[..n] + p[n..] == p;
    if m < n {
      WhitenedBlock(e, iv, p[..n], m);
      EarlierWhitenedBlock(e, iv, p[..n], p[n..], m);
    } else {
      LastWhitenedBlock(e, iv, p[..n], p[n..]);
      assert m == n && p[m..m + 16] == p[n..];
      assert Whitened(e, iv, p)[m..m + 16] == Whitened(e, iv, p)[n..];
      assert Encrypt(e, iv, p)[m..m + 16] == Encrypt(e, iv, p)[n..];
    }
  }

  lemma EarlierWhitenedBlock(e: Block -> Block, iv: Block, q: seq<Byte>, b: Block, m: nat)
    requires |q| % 16 == 0 && m % 16 == 0 && m < |q|
    ensures Whitened(e, iv, q + b)[m..m + 16] == Whitened(e, iv, q)[m..m + 16]
    ensures Encrypt(e, iv, q + b)[m..m + 16] == Encrypt(e, iv, q)[m..m + 16]
    ensures Encrypt(e, iv, q + b)[..m] == Encrypt(e, iv, q)[..m]
    ensures (q + b)[m..m + 16] == q[m..m + 16]
  {
    hide Xor, Last, Encrypt, Whitened;
    EncryptStep(e, iv, q, b);
    WhitenedStep(e, iv, q, b);
    assert m + 16 <= |q|;
  }

  lemma LastWhitenedBlock(e: Block -> Block, iv: Block, q: seq<Byte>, b: Block)
    requires |q| % 16 == 0
    ensures Whitened(e, iv, q + b)[|q|..] == Xor(b, Last(iv, Encrypt(e, iv, q + b)[..|q|]))
    ensures Encrypt(e, iv, q + b)[|q|..] == e(Whitened(e, iv, q + b)[|q|..])
  {
    hide Xor, Last, Encrypt, Whitened;
    EncryptStep(e, iv, q, b);
    WhitenedStep(e, iv, q, b);
    assert Encrypt(e, iv, q + b)[..|q|] == Encrypt(e, iv, q);
  }

  // The blocks, by their places.

  function BlockAt(c: seq<Byte>, m: nat): Block
    requires m + 16 <= |c|
  {
    c[m..m + 16]
  }

  /** The block before place m, or the initial vector at the start. */
  function Before(iv: Block, c: seq<Byte>, m: nat): Block
    requires m % 16 == 0 && m <= |c|
  {
    if m == 0 then iv else c[m - 16..m]
  }

  /** Block j of a ciphertext is the image of block j of the plaintext plus block j - 1 of the ciphertext, or plus the
      initial vector for the first. */
  lemma EncryptedBlock(e: Block -> Block, iv: Block, p: seq<Byte>, m: nat)
    requires |p| % 16 == 0 && m % 16 == 0 && m < |p|
    ensures var c := Encrypt(e, iv, p); BlockAt(c, m) == e(Xor(BlockAt(p, m), Before(iv, c, m)))
  {
    hide Xor, Encrypt, Whitened;
    WhitenedBlock(e, iv, p, m);
    var c := Encrypt(e, iv, p);
    assert m > 0 ==> c[..m][m - 16..] == c[m - 16..m];
  }

  lemma DecryptedBlock(d: Block -> Block, iv: Block, c: seq<Byte>, m: nat)
    requires |c| % 16 == 0 && m % 16 == 0 && m < |c|
    ensures BlockAt(Decrypt(d, iv, c), m) == Xor(d(BlockAt(c, m)), Before(iv, c, m))
  {
    hide Xor, Decrypt;
    var last := Last(iv, c[..m]);
    DecryptIsLocal(d, iv, c, m, m + 16);
    Empty(d, last);
    DecryptStep(d, last, [], c[m..m + 16]);
    assert [] + c[m..m + 16] == c[m..m + 16] && [] + Xor(d(c[m..m + 16]), last) == Xor(d(c[m..m + 16]), last);
    assert m > 0 ==> c[..m][m - 16..] == c[m - 16..m];
  }

  /** In place, block j is added to block j - 1 of the result. */
  lemma {:induction false} InPlaceBlock(d: Block -> Block, iv: Block, c: seq<Byte>, m: nat)
    requires |c| % 16 == 0 && m % 16 == 0 && m < |c|
    ensures var q := DecryptInPlace(d, iv, c); BlockAt(q, m) == Xor(d(BlockAt(c, m)), Before(iv, q, m))
  {
    hide Xor, DecryptInPlace, BlockAt, Before, Last;
    var n := |c| - 16;
    var init, b := c[..n], c[n..];
    assert init + b == c;
    DecryptInPlaceStep(d, iv, init, b);
    var q := DecryptInPlace(d, iv, init);
    var x := Xor(d(b), Last(iv, q));
    BlocksOfLonger(iv, q, x, m);
    BlocksOfLonger(iv, init, b, m);
    if m < n {
      InPlaceBlock(d, iv, init, m);
    } else {
      BeforeIsLast(iv, q);
    }
  }

  lemma BlocksOfLonger(iv: Block, a: seq<Byte>, b: Block, m: nat)
    requires |a| % 16 == 0 && m % 16 == 0 && m <= |a|
    ensures m < |a| ==> m + 16 <= |a| && BlockAt(a + b, m) == BlockAt(a, m)
    ensures m == |a| ==> BlockAt(a + b, m) == b
    ensures Before(iv, a + b, m) == Before(iv, a, m)
  {}

  lemma BeforeIsLast(iv: Block, a: seq<Byte>)
    requires |a| % 16 == 0
    ensures Before(iv, a, |a|) == Last(iv, a)
  {}
}
