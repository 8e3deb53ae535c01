/**
 * Utils/PasswordUtil.cs: a password is stored as the lower-case hexadecimal spelling of
 * the SHA-256 digest of its UTF-8 bytes.  The digest itself (encoding and hash) is not
 * modelled; it is the parameter `digest`.
 */
module PasswordUtil {
  import opened Wrappers

  newtype Byte = b: int | 0 <= b < 256

  /** UTF-8 encoding followed by SHA-256. */
  type Digest = string -> seq<Byte>

  /** A SHA-256 digest is always 32 bytes long. */
  ghost predicate Is256(digest: Digest) {
    forall s :: |digest(s)| == 32
  }

  predicate IsLowerHex(c: char) { ('0' <= c <= '9') || ('a' <= c <= 'f') }

  function HexDigit(n: int): (c: char)
    requires 0 <= n < 16
    ensures IsLowerHex(c)
  {
    if n < 10 then ('0' as int + n) as char else ('a' as int + n - 10) as char
  }

  lemma HexDigitInjective(m: int, n: int)
    requires 0 <= m < 16 && 0 <= n < 16
    ensures HexDigit(m) == HexDigit(n) ==> m == n
  {
  }

  /** `b.ToString("x2")`: two lower-case hexadecimal digits, high nibble first. */
  function ByteHex(b: Byte): (r: string)
    ensures |r| == 2 && IsLowerHex(r[0]) && IsLowerHex(r[1])
  {
    [HexDigit(b as int / 16), HexDigit(b as int % 16)]
  }

  lemma ByteHexInjective(x: Byte, y: Byte)
    requires ByteHex(x) == ByteHex(y)
    ensures x == y
  {
    HexDigitInjective(x as int / 16, y as int / 16);
    HexDigitInjective(x as int % 16, y as int % 16);
  }

  /** The bytes spelled one after another, as the `StringBuilder` loop appends them. */
  function HexOf(bytes: seq<Byte>): (r: string)
    ensures |r| == 2 * |bytes|
  {
    if bytes == [] then [] else HexOf(bytes[..|bytes| - 1]) + ByteHex(bytes[|bytes| - 1])
  }

  /** Every character of a spelling is a lower-case hexadecimal digit. */
  lemma {:induction false} HexOfLowerHex(bytes: seq<Byte>)
    ensures forall i :: 0 <= i < |HexOf(bytes)| ==> IsLowerHex(HexOf(bytes)[i])
  {
    if bytes != [] {
      HexOfLowerHex(bytes[..|bytes| - 1]);
      HexOfLast(bytes);
    }
  }

  /** Different byte strings are spelled differently. */
  lemma {:induction false} HexOfInjective(a: seq<Byte>, b: seq<Byte>)
    requires HexOf(a) == HexOf(b)
    ensures a == b
  {
    if a != [] {
      var n := |a|;
      HexOfStep(a, b);
      HexOfInjective(a[..n - 1], b[..n - 1]);
      ByteHexInjective(a[n - 1], b[n - 1]);
      assert a == a[..n - 1] + [a[n - 1]];
      assert b == b[..n - 1] + [b[n - 1]];
    }
  }

  /** Equal spellings of non-empty byte strings agree on the last byte and on the rest. */
  lemma HexOfStep(a: seq<Byte>, b: seq<Byte>)
    requires a != [] && HexOf(a) == HexOf(b)
    ensures |b| == |a|
    ensures HexOf(a[..|a| - 1]) == HexOf(b[..|a| - 1])
    ensures ByteHex(a[|a| - 1]) == ByteHex(b[|a| - 1])
  {
    var n := |a|;
    assert |b| == n && b != [];
    HexOfLast(a);
    HexOfLast(b);
  }

  /** The spelling of a byte string ends with the spelling of its last byte. */
  lemma HexOfLast(a: seq<Byte>)
    requires a != []
    ensures HexOf(a)[..2 * |a| - 2] == HexOf(a[..|a| - 1])
    ensures HexOf(a)[2 * |a| - 2..] == ByteHex(a[|a| - 1])
  {
  }

  /** The stored form of password `p`. */
  function Hash(digest: Digest, p: string): string {
    HexOf(digest(p))
  }

  /** `hashPassword`: null for null, otherwise the hexadecimal digest built byte by byte. */
  method HashPassword(digest: Digest, plainPassword: Option<string>) returns (r: Option<string>)
    ensures plainPassword.None? ==> r.None?
    ensures plainPassword.Some? ==> r == Some(Hash(digest, plainPassword.value))
  {
    if plainPassword.None? {
      return None;
    }
    var bytes := digest(plainPassword.value);
    var builder := "";
    for i := 0 to |bytes|
      invariant builder == HexOf(bytes[..i])
    {
      assert bytes[..i + 1][..i] == bytes[..i];
      builder := builder + ByteHex(bytes[i]);
    }
    assert bytes[..|bytes|] == bytes;
    return Some(builder);
  }

  /** A SHA-256 password hash is 64 lower-case hexadecimal characters. */
  lemma HashShape(digest: Digest, p: string)
    requires Is256(digest)
    ensures |Hash(digest, p)| == 64
    ensures forall i :: 0 <= i < 64 ==> IsLowerHex(Hash(digest, p)[i])
  {
    HexOfLowerHex(digest(p));
  }

  /** `checkPassword`: false when either side is null, otherwise compares the hashes. */
  function CheckPassword(digest: Digest, plainPassword: Option<string>, hashedPassword: Option<string>): (r: bool)
    ensures r ==> plainPassword.Some? && hashedPassword.Some?
  {
    if plainPassword.None? || hashedPassword.None? then false
    else hashedPassword.value == Hash(digest, plainPassword.value)
  }

  /** A password is accepted against its own stored hash. */
  lemma CheckPasswordOfHash(digest: Digest, p: string)
    ensures CheckPassword(digest, Some(p), Some(Hash(digest, p)))
  {
  }

  /**
   * Against the stored hash of `q`, only passwords with the same digest as `q` are
   * accepted; when the digest has no collisions, only `q` itself.
   */
  lemma CheckPasswordOnlyOwner(digest: Digest, p: string, q: string)
    requires CheckPassword(digest, Some(p), Some(Hash(digest, q)))
    ensures digest(p) == digest(q)
    ensures (forall s, t :: digest(s) == digest(t) ==> s == t) ==> p == q
  {
    HexOfInjective(digest(q), digest(p));
  }
}
