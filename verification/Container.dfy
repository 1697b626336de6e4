/** The encrypted container of the cold stores: magic, nonce, ciphertext, tag
    (src/mnema/adapters/cold_storage/crypto.py). GCM is abstract: a key stream by position and a tag
    over the ciphertext (section 7 of NIST SP 800-38D). */
module Container {
  import opened Basics

  const NONCE_SIZE := 12
  const TAG_SIZE := 16
  const MAGIC: Bytes := [77, 78, 69, 77, 65, 49]
  const OVERHEAD := 34

  type Nonce = b: Bytes | |b| == NONCE_SIZE witness seq(NONCE_SIZE, _ => 0)
  type Tag = b: Bytes | |b| == TAG_SIZE witness seq(TAG_SIZE, _ => 0)

  datatype Gcm = Gcm(stream: (Bytes, Nonce, nat) -> byte, tag: (Bytes, Nonce, Bytes) -> Tag)

  datatype Error = BadKey | DestinationExists | Missing | Truncated | BadHeader | EndedEarly | BadTag

  datatype Result = Ok(plain: Bytes) | Err(error: Error)

  /** Exclusive or of the low n bits. */
  function XorBits(a: nat, b: nat, n: nat): (x: nat) {
    if n == 0 then 0 else 2 * XorBits(a / 2, b / 2, n - 1) + if a % 2 == b % 2 then 0 else 1
  }

  lemma {:induction false} XorBitsFit(a: nat, b: nat)
    ensures XorBits(a, b, 8) < 256
  {
    XorBitsBelow(a, b, 8);
    assert Power(8) == 256;
  }

  function Power(n: nat): nat {
    if n == 0 then 1 else 2 * Power(n - 1)
  }

  lemma {:induction false} XorBitsBelow(a: nat, b: nat, n: nat)
    ensures XorBits(a, b, n) < Power(n)
  {
    if n > 0 {
      XorBitsBelow(a / 2, b / 2, n - 1);
    }
  }

  /** Bit by bit: a bit of the result is set exactly where the two differ. */
  lemma {:induction false} XorBitsAre(a: nat, b: nat, n: nat, k: nat)
    requires k < n
    ensures Bit(XorBits(a, b, n), k) <==> (Bit(a, k) != Bit(b, k))
  {
    var x := XorBits(a, b, n);
    assert x / 2 == XorBits(a / 2, b / 2, n - 1) && (x % 2 == 1 <==> a % 2 != b % 2);
    if k > 0 {
      XorBitsAre(a / 2, b / 2, n - 1, k - 1);
    }
  }

  predicate Bit(a: nat, k: nat) {
    if k == 0 then a % 2 == 1 else Bit(a / 2, k - 1)
  }

  lemma {:induction false} XorBitsTwice(a: nat, b: nat, n: nat)
    requires a < Power(n)
    ensures XorBits(XorBits(a, b, n), b, n) == a
  {
    if n > 0 {
      XorBitsTwice(a / 2, b / 2, n - 1);
      var x := XorBits(a, b, n);
      assert x / 2 == XorBits(a / 2, b / 2, n - 1);
    }
  }

  function Xor(a: byte, b: byte): byte {
    XorBitsFit(a as nat, b as nat);
    XorBits(a as nat, b as nat, 8) as byte
  }

  lemma XorTwice(a: byte, b: byte)
    ensures Xor(Xor(a, b), b) == a
  {
    assert Power(4) == 16 && Power(8) == 256;
    XorBitsTwice(a as nat, b as nat, 8);
  }

  /** What update makes of bytes that come at this position of the message. */
  function Masked(g: Gcm, key: Bytes, nonce: Nonce, at: nat, bytes: Bytes): (m: Bytes)
    ensures |m| == |bytes|
  {
    seq(|bytes|, k requires 0 <= k < |bytes| => Xor(bytes[k], g.stream(key, nonce, at + k)))
  }

  lemma MaskedTwice(g: Gcm, key: Bytes, nonce: Nonce, at: nat, bytes: Bytes)
    ensures Masked(g, key, nonce, at, Masked(g, key, nonce, at, bytes)) == bytes
  {
    hide Xor;
    forall k | 0 <= k < |bytes| ensures Masked(g, key, nonce, at, Masked(g, key, nonce, at, bytes))[k] == bytes[k] {
      XorTwice(bytes[k], g.stream(key, nonce, at + k));
    }
  }

  lemma MaskedSplit(g: Gcm, key: Bytes, nonce: Nonce, at: nat, a: Bytes, b: Bytes)
    ensures Masked(g, key, nonce, at, a + b) == Masked(g, key, nonce, at, a) + Masked(g, key, nonce, at + |a|, b)
  {
    hide Xor;
  }

  /** The container of a plaintext, however it is read. */
  function Sealed(g: Gcm, key: Bytes, nonce: Nonce, plain: Bytes): Bytes {
    var cipher := Masked(g, key, nonce, 0, plain);
    MAGIC + nonce + cipher + g.tag(key, nonce, cipher)
  }

  function NonceOf(box: Bytes): Nonce
    requires |box| >= OVERHEAD
  {
    box[|MAGIC|..|MAGIC| + NONCE_SIZE]
  }

  function TagOf(box: Bytes): Tag
    requires |box| >= OVERHEAD
  {
    box[|box| - TAG_SIZE..]
  }

  function CipherOf(box: Bytes): Bytes
    requires |box| >= OVERHEAD
  {
    box[|MAGIC| + NONCE_SIZE..|box| - TAG_SIZE]
  }

  predicate AesKey(key: Bytes) {
    |key| == 16 || |key| == 24 || |key| == 32
  }

  /** The plaintext of a container, or the first thing wrong with it. */
  function Opened(g: Gcm, key: Bytes, box: Bytes): Result {
    if |box| < OVERHEAD then Err(Truncated)
    else if box[..|MAGIC|] != MAGIC then Err(BadHeader)
    else if !AesKey(key) then Err(BadKey)
    else if g.tag(key, NonceOf(box), CipherOf(box)) != TagOf(box) then Err(BadTag)
    else Ok(Masked(g, key, NonceOf(box), 0, CipherOf(box)))
  }

  /** The container is 34 bytes longer than the plaintext, and nonce, ciphertext and tag sit where
      decryption looks for them. */
  lemma SealedLayout(g: Gcm, key: Bytes, nonce: Nonce, plain: Bytes)
    ensures var o := Sealed(g, key, nonce, plain);
            && |o| == |plain| + 34 && o[..|MAGIC|] == MAGIC
            && NonceOf(o) == nonce && CipherOf(o) == Masked(g, key, nonce, 0, plain)
            && TagOf(o) == g.tag(key, nonce, CipherOf(o))
  {
    hide Masked;
  }

  /** The same in numbers: magic, twelve bytes of nonce, ciphertext, sixteen bytes of tag over the ciphertext. */
  lemma SealedAt(g: Gcm, key: Bytes, nonce: Nonce, plain: Bytes)
    ensures var o, n := Sealed(g, key, nonce, plain), |plain|;
            && |o| == n + 34 && o[..6] == [77, 78, 69, 77, 65, 49] && o[6..18] == nonce
            && o[18..18 + n] == Masked(g, key, nonce, 0, plain) && o[18 + n..] == g.tag(key, nonce, o[18..18 + n])
  {
    hide Masked;
  }

  /** What is wrong is found in this order: too short, no magic, no key, a tag that is not of this ciphertext. */
  lemma ErrorsInOrder(g: Gcm, key: Bytes, box: Bytes)
    ensures match Opened(g, key, box)
            case Ok(plain) => |plain| == |box| - 34
            case Err(Truncated) => |box| < 34
            case Err(BadHeader) => |box| >= 34 && box[..6] != [77, 78, 69, 77, 65, 49]
            case Err(BadKey) =>
              |box| >= 34 && box[..6] == [77, 78, 69, 77, 65, 49] && |key| !in {16, 24, 32}
            case Err(BadTag) =>
              && |box| >= 34 && box[..6] == [77, 78, 69, 77, 65, 49] && |key| in {16, 24, 32}
              && g.tag(key, box[6..18], box[18..|box| - 16]) != box[|box| - 16..]
            case Err(_) => false
  {
    hide Masked;
  }

  lemma RoundTrip(g: Gcm, key: Bytes, nonce: Nonce, plain: Bytes)
    requires |key| == 32
    ensures Opened(g, key, Sealed(g, key, nonce, plain)) == Ok(plain)
  {
    hide Sealed, Masked;
    SealedLayout(g, key, nonce, plain);
    MaskedTwice(g, key, nonce, 0, plain);
  }

  /** And only containers open: what decryption accepts is exactly what encryption would have written
      for the plaintext it returns. */
  lemma OnlyContainersOpen(g: Gcm, key: Bytes, box: Bytes, plain: Bytes)
    ensures Opened(g, key, box) == Ok(plain) <==>
            AesKey(key) && |box| >= OVERHEAD && box == Sealed(g, key, NonceOf(box), plain)
  {
    hide Masked;
    if |box| >= OVERHEAD {
      var nonce := NonceOf(box);
      MaskedTwice(g, key, nonce, 0, CipherOf(box));
      MaskedTwice(g, key, nonce, 0, plain);
      SealedLayout(g, key, nonce, plain);
      assert box == box[..|MAGIC|] + nonce + CipherOf(box) + TagOf(box);
    }
  }

  /** Reading on in the file is reading on in the ciphertext. */
  lemma CipherSlice(box: Bytes, n: nat, more: nat)
    requires |box| >= OVERHEAD && n + more <= |CipherOf(box)|
    ensures CipherOf(box)[..n] + box[|MAGIC| + NONCE_SIZE + n..|MAGIC| + NONCE_SIZE + n + more] == CipherOf(box)[..n + more]
  {
  }

  // ---------------------------------------------------------------- streaming

  class Files {
    var files: map<Path, Bytes>

    /** Any non-empty piece of what is left, at most the requested size. */
    method Read(content: Bytes, at: nat, most: nat) returns (chunk: Bytes)
      requires at < |content| && most > 0
      ensures 0 < |chunk| <= most && at + |chunk| <= |content| && chunk == content[at..at + |chunk|]
    {
      var n: nat := *;
      if n < 1 || n > most || at + n > |content| {
        n := 1;
      }
      chunk := content[at..at + n];
    }

    /** Streams the source through the cipher; the result does not depend on how reads are cut. */
    method EncryptFile(g: Gcm, source: Path, destination: Path, key: Bytes, nonce: Nonce) returns (error: Option<Error>)
      modifies this
      ensures error == (if |key| != 32 then Some(BadKey) else if source !in old(files) then Some(Missing)
                        else if destination in old(files) then Some(DestinationExists) else None)
      ensures files == if error.Some? then old(files)
                       else old(files)[destination := Sealed(g, key, nonce, old(files)[source])]
    {
      hide Masked;
      if |key| != 32 {
        return Some(BadKey);
      }
      if source !in files {
        return Some(Missing);
      }
      if destination in files {
        return Some(DestinationExists);
      }
      var plain := files[source];
      var written := MAGIC + nonce;
      ghost var cipher: Bytes := [];
      var at := 0;
      assert plain[..0] == [];
      MaskedSplit(g, key, nonce, 0, [], []);
      while at < |plain|
        invariant files == old(files) && 0 <= at <= |plain|
        invariant cipher == Masked(g, key, nonce, 0, plain[..at]) && written == MAGIC + nonce + cipher
      {
        var chunk := Read(plain, at, 1024 * 1024);
        MaskedSplit(g, key, nonce, 0, plain[..at], chunk);
        assert plain[..at] + chunk == plain[..at + |chunk|];
        written := written + Masked(g, key, nonce, at, chunk);
        cipher := cipher + Masked(g, key, nonce, at, chunk);
        at := at + |chunk|;
      }
      assert plain[..at] == plain;
      written := written + g.tag(key, nonce, written[|MAGIC| + NONCE_SIZE..]);
      assert written == Sealed(g, key, nonce, plain);
      files := files[destination := written];
      error := None;
    }

    /** Streams the ciphertext back; the tag is judged last, when the plaintext has been written. If the
        source shrinks meanwhile, what was written is the beginning of the plaintext. */
    method DecryptFile(g: Gcm, source: Path, destination: Path, key: Bytes) returns (error: Option<Error>)
      requires source in files
      modifies this
      ensures destination !in old(files) && error != Some(EndedEarly) ==>
                match Opened(g, key, old(files)[source])
                case Ok(plain) => error == None && files == old(files)[destination := plain]
                case Err(e) => error == Some(e)
      ensures error.Some? && error.value != BadTag && error.value != EndedEarly ==> files == old(files)
      ensures error == Some(EndedEarly) ==>
                && |old(files)[source]| >= OVERHEAD && destination in files
                && files == old(files)[destination := files[destination]]
                && files[destination] < Masked(g, key, NonceOf(old(files)[source]), 0, CipherOf(old(files)[source]))
      ensures destination in old(files) ==> files == old(files) && error.Some?
    {
      hide Masked;
      var box := files[source];
      if |box| < |MAGIC| + NONCE_SIZE + TAG_SIZE {
        return Some(Truncated);
      }
      if box[..|MAGIC|] != MAGIC {
        return Some(BadHeader);
      }
      var nonce: Nonce := box[|MAGIC|..|MAGIC| + NONCE_SIZE];
      var tag: Tag := box[|box| - TAG_SIZE..];
      if !AesKey(key) {
        return Some(BadKey);
      }
      if destination in files {
        return Some(DestinationExists);
      }
      var remaining := |box| - |MAGIC| - NONCE_SIZE - TAG_SIZE;
      var at := |MAGIC| + NONCE_SIZE;
      var plain: Bytes := [];
      var seen: Bytes := [];
      var total := remaining;
      MaskedSplit(g, key, nonce, 0, [], []);
      while remaining > 0
        invariant files == old(files) && 0 <= remaining <= total && at == |MAGIC| + NONCE_SIZE + (total - remaining)
        invariant seen == CipherOf(box)[..total - remaining]
        invariant plain == Masked(g, key, nonce, 0, seen)
        decreases remaining
      {
        var shrunk: bool := *;
        if shrunk {
          MaskedSplit(g, key, nonce, 0, seen, CipherOf(box)[total - remaining..]);
          assert CipherOf(box) == seen + CipherOf(box)[total - remaining..];
          files := files[destination := plain];
          return Some(EndedEarly);
        }
        var chunk := Read(box, at, if remaining < 1024 * 1024 then remaining else 1024 * 1024);
        MaskedSplit(g, key, nonce, 0, seen, chunk);
        CipherSlice(box, total - remaining, |chunk|);
        plain := plain + Masked(g, key, nonce, |seen|, chunk);
        seen := seen + chunk;
        at := at + |chunk|;
        remaining := remaining - |chunk|;
      }
      assert seen == CipherOf(box);
      files := files[destination := plain];
      if g.tag(key, nonce, seen) != tag {
        return Some(BadTag);
      }
      error := None;
    }
  }
}
