/**
 * The password hasher: `md5(password.encode()).hexdigest()`, stored as the
 * subscriber's credential and compared at login.
 *
 * MD5 itself is a foreign library, so it enters as a parameter `md5` (from the
 * password to the 16-byte digest of its encoding); nothing is assumed of it, in
 * particular not injectivity. `hexdigest` is modelled exactly: two lowercase
 * hexadecimal characters per byte, most significant nibble first.
 */
module Password {
  import opened Wrappers

  type Byte = b: int | 0 <= b < 256

  const DigestSize: nat := 16

  /** `Subscriber.SUBSCRIBER_HASH_LENGTH`: the length of a stored credential. */
  const HashLength: nat := 32

  type Digest = d: seq<Byte> | |d| == DigestSize
    witness [0, 0, 0, 0, 0, 0, 0, 0, 0, 0, 0, 0, 0, 0, 0, 0]

  /** The MD5 digest of a password's encoding, an external library. */
  type Md5 = string -> Digest

  predicate IsLowerHex(c: char) { '0' <= c <= '9' || 'a' <= c <= 'f' }

  predicate IsLowerHexString(h: string) { forall i :: 0 <= i < |h| ==> IsLowerHex(h[i]) }

  function HexDigit(k: int): (c: char)
    requires 0 <= k < 16
    ensures IsLowerHex(c) && HexValue(c) == k
  {
    if k < 10 then ('0' as int + k) as char else ('a' as int + k - 10) as char
  }

  function HexValue(c: char): (k: int)
    requires IsLowerHex(c)
    ensures 0 <= k < 16
  {
    if c <= '9' then c as int - '0' as int else c as int - 'a' as int + 10
  }

  /** `hexdigest()`: each byte as two lowercase hexadecimal digits. */
  function HexDigest(d: seq<Byte>): (h: string)
    ensures |h| == 2 * |d| && IsLowerHexString(h)
  {
    if d == [] then [] else [HexDigit(d[0] / 16), HexDigit(d[0] % 16)] + HexDigest(d[1..])
  }

  /** Reads a lowercase hexadecimal string back into bytes; anything else is `None`. */
  function Unhex(h: string): Option<seq<Byte>> {
    if h == [] then Some([])
    else if |h| < 2 || !IsLowerHex(h[0]) || !IsLowerHex(h[1]) then None
    else
      match Unhex(h[2..])
      case None => None
      case Some(rest) => Some([16 * HexValue(h[0]) + HexValue(h[1])] + rest)
  }

  lemma HexDigitOfValue(c: char)
    requires IsLowerHex(c)
    ensures HexDigit(HexValue(c)) == c
  {
  }

  /** A digest printed by `hexdigest` reads back as itself. */
  lemma {:induction false} UnhexHexDigest(d: seq<Byte>)
    ensures Unhex(HexDigest(d)) == Some(d)
  {
    if d != [] {
      var h := HexDigest(d);
      assert h[2..] == HexDigest(d[1..]);
      UnhexHexDigest(d[1..]);
      assert HexValue(h[0]) == d[0] / 16 && HexValue(h[1]) == d[0] % 16;
      assert 16 * (d[0] / 16) + d[0] % 16 == d[0];
      assert d == [d[0]] + d[1..];
    }
  }

  /** The only string that reads back as `d` is the one `hexdigest` prints. */
  lemma {:induction false} HexDigestOfUnhex(h: string, d: seq<Byte>)
    requires Unhex(h) == Some(d)
    ensures h == HexDigest(d)
  {
    if h != [] {
      assert |h| >= 2 && IsLowerHex(h[0]) && IsLowerHex(h[1]) && Unhex(h[2..]).Some?;
      var rest := Unhex(h[2..]).value;
      var b: Byte := 16 * HexValue(h[0]) + HexValue(h[1]);
      assert d == [b] + rest;
      HexDigestOfUnhex(h[2..], rest);
      HexPairRoundTrip(h[0], h[1]);
      assert h == [h[0], h[1]] + h[2..];
    }
  }

  lemma HexPairRoundTrip(hi: char, lo: char)
    requires IsLowerHex(hi) && IsLowerHex(lo)
    ensures var b := 16 * HexValue(hi) + HexValue(lo);
      0 <= b < 256 && HexDigit(b / 16) == hi && HexDigit(b % 16) == lo
  {
    var b := 16 * HexValue(hi) + HexValue(lo);
    assert b / 16 == HexValue(hi) && b % 16 == HexValue(lo);
    HexDigitOfValue(hi);
    HexDigitOfValue(lo);
  }

  /** `generate_password_hash` (= `make_md5_hash_from_password`): the hex form of the digest. */
  function GeneratePasswordHash(md5: Md5, password: string): (h: string)
    ensures |h| == HashLength && IsLowerHexString(h)
    ensures Unhex(h) == Some(md5(password))
  {
    UnhexHexDigest(md5(password));
    HexDigest(md5(password))
  }

  /** `check_password_hash`: the stored credential equals the hash of the offered password. */
  function CheckPasswordHash(md5: Md5, hash: string, password: string): (ok: bool)
    ensures ok <==> Unhex(hash) == Some(md5(password))
    ensures ok ==> |hash| == HashLength && IsLowerHexString(hash)
  {
    var ok := hash == GeneratePasswordHash(md5, password);
    if Unhex(hash) == Some(md5(password)) then HexDigestOfUnhex(hash, md5(password)); ok else ok
  }

  /** The hash of a password always verifies that password. */
  lemma CheckGeneratedHash(md5: Md5, password: string)
    ensures CheckPasswordHash(md5, GeneratePasswordHash(md5, password), password)
  {
  }

  /**
   * The hash of `p` verifies `q` exactly when MD5 does not tell them apart: the
   * hex form loses nothing, so reject-on-different-password is as strong as MD5's
   * collision resistance and no stronger.
   */
  lemma CheckOtherPassword(md5: Md5, p: string, q: string)
    ensures CheckPasswordHash(md5, GeneratePasswordHash(md5, p), q) <==> md5(p) == md5(q)
  {
    if md5(p) != md5(q) {
      UnhexHexDigest(md5(p));
    }
  }
}
