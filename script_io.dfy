/** ScriptIO.digest: the content hashes used as cache keys. The hash
    algorithm itself (SHA-1 behind MessageDigest.getInstance) is a function
    parameter; what is modelled is the UTF-8 encoding of strings, the chunked
    feeding of a file, and BigInteger(1, d).toString(16). */
module ScriptIO {
  import opened Kotlin

  newtype byte = x: int | 0 <= x < 256

  /** What MessageDigest.getInstance(algorithm) computes: a function of all
      the bytes fed to it, in order. */
  type HashFunction = seq<byte> -> seq<byte>

  function Pow(b: nat, k: nat): (r: nat)
    ensures b >= 1 ==> r >= 1
  {
    if k == 0 then 1 else b * Pow(b, k - 1)
  }

  /** One byte is two hex digits: 256^k == 16^(2k). */
  lemma {:induction false} Pow256(k: nat)
    ensures Pow(256, k) == Pow(16, 2 * k)
    decreases k
  {
    if k > 0 {
      Pow256(k - 1);
      assert Pow(16, 2 * k) == 16 * (16 * Pow(16, 2 * (k - 1)));
    }
  }

  /** Euclidean division by a radix: the quotient and the last digit. */
  lemma DivFacts(n: nat, radix: nat)
    requires radix >= 2
    ensures n == radix * (n / radix) + n % radix
    ensures 0 <= n % radix < radix
    ensures n >= radix ==> 1 <= n / radix < n
    ensures n < radix ==> n / radix == 0 && n % radix == n
  {
    var q := n / radix;
    if n >= radix {
      assert radix * q >= 2 * q;
    }
  }

  // ------------------------------------------------------ BigInteger(1, d)

  /** BigInteger(1, d): the bytes read as one unsigned big-endian number. */
  function Unsigned(d: seq<byte>): (n: nat)
    ensures n < Pow(256, |d|)
  {
    if d == [] then 0
    else
      var prefix := Unsigned(d[..|d| - 1]);
      assert (prefix + 1) * 256 <= Pow(256, |d| - 1) * 256;
      prefix * 256 + d[|d| - 1] as nat
  }

  /** Character.forDigit(k, radix): '0'..'9', then lower-case 'a'..'z'. */
  function Digit(k: nat): (ch: char)
    requires k < 36
  {
    if k < 10 then ('0' as int + k) as char else ('a' as int + k - 10) as char
  }

  /** Character.digit(ch, radix) for the characters Digit produces. */
  function DigitValue(ch: char): nat
  {
    if '0' <= ch <= '9' then ch as int - '0' as int
    else if 'a' <= ch <= 'z' then ch as int - 'a' as int + 10
    else 0
  }

  /** ch is a digit of the radix, lower-case when it is a letter. */
  predicate IsLowerDigit(ch: char, radix: nat)
  {
    ('0' <= ch <= '9' && (ch as int - '0' as int) < radix) ||
    ('a' <= ch <= 'z' && (ch as int - 'a' as int) + 10 < radix)
  }

  /** BigInteger.toString(radix) and Integer.toString of a non-negative
      number: its digits, lower-case, with no leading zeros. */
  function ToStringRadix(n: nat, radix: nat): (r: string)
    requires 2 <= radix <= 36
    ensures |r| >= 1
    ensures forall i :: 0 <= i < |r| ==> IsLowerDigit(r[i], radix)
    ensures (r[0] == '0') == (n == 0)
    ensures n == 0 ==> r == "0"
    decreases n
  {
    DivFacts(n, radix);
    if n < radix then [Digit(n)]
    else ToStringRadix(n / radix, radix) + [Digit(n % radix)]
  }

  /** The number a string of digits denotes (Integer.parseInt, BigInteger(s, radix)). */
  function ParseRadix(s: string, radix: nat): nat
  {
    if s == [] then 0
    else ParseRadix(s[..|s| - 1], radix) * radix + DigitValue(s[|s| - 1])
  }

  lemma ParseAppend(t: string, ch: char, radix: nat)
    ensures ParseRadix(t + [ch], radix) == ParseRadix(t, radix) * radix + DigitValue(ch)
  {
    assert (t + [ch])[..|t|] == t;
  }

  /** One unfolding of ToStringRadix: the digits of the quotient, then the last digit. */
  lemma RadixUnfold(n: nat, radix: nat)
    requires 2 <= radix <= 36 && n >= radix
    ensures ToStringRadix(n, radix) == ToStringRadix(n / radix, radix) + [Digit(n % radix)]
  {
  }

  lemma DigitRoundTrip(m: nat)
    requires m < 36
    ensures DigitValue(Digit(m)) == m
  {
  }

  lemma RadixStep(n: nat, radix: nat, q: nat, m: nat)
    requires 2 <= radix <= 36 && n == radix * q + m && m < 36
    requires ParseRadix(ToStringRadix(n, radix), radix) == ParseRadix(ToStringRadix(q, radix), radix) * radix + DigitValue(Digit(m))
    requires ParseRadix(ToStringRadix(q, radix), radix) == q
    ensures ParseRadix(ToStringRadix(n, radix), radix) == n
  {
    DigitRoundTrip(m);
  }

  /** Reading the rendered digits back gives the number. */
  lemma {:induction false} RadixRoundTrip(n: nat, radix: nat)
    requires 2 <= radix <= 36
    ensures ParseRadix(ToStringRadix(n, radix), radix) == n
    decreases n
  {
    if n >= radix {
      DivFacts(n, radix);
      var q, m := n / radix, n % radix;
      RadixRoundTrip(q, radix);
      RadixUnfold(n, radix);
      ParseAppend(ToStringRadix(q, radix), Digit(m), radix);
      RadixStep(n, radix, q, m);
    }
  }

  lemma DivBound(n: nat, radix: nat, p: nat)
    requires radix >= 2
    ensures n / radix < p <==> n < radix * p
  {
    DivFacts(n, radix);
    var q, r := n / radix, n % radix;
    if q < p {
      MulLe(radix, q + 1, p);
      assert radix * (q + 1) == radix * q + radix;
    } else {
      MulLe(radix, p, q);
    }
  }

  /** Multiplying by a natural number keeps the order. */
  lemma MulLe(a: nat, b: nat, c: nat)
    requires b <= c
    ensures a * b <= a * c
  {
    assert a * c == a * b + a * (c - b);
  }

  /** Dividing a number of at least the radix leaves a smaller positive one. */
  lemma QuotientSmaller(n: nat, radix: nat)
    requires 2 <= radix <= n
    ensures 1 <= n / radix < n
  {
    DivFacts(n, radix);
  }

  /** The rendering has at most k digits exactly when the number is below radix^k. */
  lemma {:induction false} RadixLength(n: nat, radix: nat, k: nat)
    requires 2 <= radix <= 36 && k >= 1
    ensures |ToStringRadix(n, radix)| <= k <==> n < Pow(radix, k)
    decreases n
  {
    if n < radix {
      PowAtLeast(radix, k);
    } else if k == 1 {
      assert Pow(radix, 1) == radix;
    } else {
      QuotientSmaller(n, radix);
      RadixLength(n / radix, radix, k - 1);
      RadixLengthStep(n, radix, k);
    }
  }

  /** The step of RadixLength: one more digit, one more factor of the radix. */
  lemma RadixLengthStep(n: nat, radix: nat, k: nat)
    requires 2 <= radix <= 36 && 2 <= k && radix <= n
    requires |ToStringRadix(n / radix, radix)| <= k - 1 <==> n / radix < Pow(radix, k - 1)
    ensures |ToStringRadix(n, radix)| <= k <==> n < Pow(radix, k)
  {
    assert |ToStringRadix(n, radix)| == |ToStringRadix(n / radix, radix)| + 1;
    assert Pow(radix, k) == radix * Pow(radix, k - 1);
    DivBound(n, radix, Pow(radix, k - 1));
  }

  lemma {:induction false} PowAtLeast(b: nat, k: nat)
    requires b >= 1 && k >= 1
    ensures Pow(b, k) >= b
    decreases k
  {
    if k > 1 {
      PowAtLeast(b, k - 1);
      MulLe(b, 1, Pow(b, k - 1));
    }
  }

  /** BigInteger(1, d).toString(16), the rendering both digest functions return. */
  function HexOf(d: seq<byte>): string
  {
    ToStringRadix(Unsigned(d), 16)
  }

  /** The hex rendering is lower-case hex without leading zeros, names
      the digest's value, and is at most two characters per byte (it is shorter
      when the leading bytes are small). */
  lemma HexOfShape(d: seq<byte>)
    ensures forall i :: 0 <= i < |HexOf(d)| ==> IsLowerDigit(HexOf(d)[i], 16)
    ensures HexOf(d)[0] == '0' ==> HexOf(d) == "0"
    ensures HexOf(d) == "0" <==> Unsigned(d) == 0
    ensures ParseRadix(HexOf(d), 16) == Unsigned(d)
    ensures |d| >= 1 ==> |HexOf(d)| <= 2 * |d|
  {
    RadixRoundTrip(Unsigned(d), 16);
    if |d| >= 1 {
      Pow256(|d|);
      RadixLength(Unsigned(d), 16, 2 * |d|);
    }
  }

  /** An all-zero digest renders as the single character "0". */
  lemma {:induction false} HexOfZero(d: seq<byte>)
    requires forall i :: 0 <= i < |d| ==> d[i] == 0
    ensures Unsigned(d) == 0 && HexOf(d) == "0"
    decreases |d|
  {
    if d != [] {
      HexOfZero(d[..|d| - 1]);
    }
  }

  /** Leading zero bytes are dropped, not rendered as "00". */
  lemma HexDropsLeadingZeros()
    ensures HexOf([0, 1]) == "1"
    ensures HexOf([0x0a, 0xff]) == "aff"
  {
    assert Unsigned([0, 1]) == 1 by {
      assert [0, 1][..1] == [0 as byte];
      assert Unsigned([0 as byte]) == 0 by { assert [0 as byte][..0] == []; }
    }
    assert Unsigned([0x0a, 0xff]) == 2815 by {
      assert [0x0a, 0xff][..1] == [0x0a as byte];
      assert Unsigned([0x0a as byte]) == 10 by { assert [0x0a as byte][..0] == []; }
    }
  }

  // ------------------------------------------------------------------ UTF-8

  /** The UTF-8 encoding of one Unicode scalar value. */
  function EncodeChar(c: char): (r: seq<byte>)
    ensures 1 <= |r| <= 4
  {
    var n := c as int;
    if n < 0x80 then [n as byte]
    else if n < 0x800 then [(0xC0 + n / 64) as byte, (0x80 + n % 64) as byte]
    else if n < 0x10000 then
      [(0xE0 + n / 4096) as byte, (0x80 + (n / 64) % 64) as byte, (0x80 + n % 64) as byte]
    else
      [(0xF0 + n / 262144) as byte, (0x80 + (n / 4096) % 64) as byte,
       (0x80 + (n / 64) % 64) as byte, (0x80 + n % 64) as byte]
  }

  /** String.toByteArray(StandardCharsets.UTF_8). */
  function Utf8(s: string): seq<byte>
  {
    if s == [] then [] else EncodeChar(s[0]) + Utf8(s[1..])
  }

  /** How many bytes a sequence starting with this lead byte takes. */
  function SequenceLength(lead: byte): nat
  {
    if lead < 0x80 then 1 else if lead < 0xE0 then 2 else if lead < 0xF0 then 3 else 4
  }

  /** The code point a complete UTF-8 sequence stands for. */
  function CodePointOf(b: seq<byte>): int
    requires 1 <= |b| <= 4
  {
    if |b| == 1 then b[0] as int
    else if |b| == 2 then (b[0] as int - 0xC0) * 64 + (b[1] as int - 0x80)
    else if |b| == 3 then (b[0] as int - 0xE0) * 4096 + (b[1] as int - 0x80) * 64 + (b[2] as int - 0x80)
    else (b[0] as int - 0xF0) * 262144 + (b[1] as int - 0x80) * 4096 + (b[2] as int - 0x80) * 64 + (b[3] as int - 0x80)
  }

  /** The lead byte tells the length, and the sequence decodes to the character. */
  lemma EncodeCharDecodes(c: char)
    ensures SequenceLength(EncodeChar(c)[0]) == |EncodeChar(c)|
    ensures CodePointOf(EncodeChar(c)) == c as int
  {
    var n := c as int;
    if 0x80 <= n < 0x800 {
      DivMod64(n);
    } else if 0x800 <= n < 0x10000 {
      DivMod64(n);
      DivMod64(n / 64);
      assert n / 64 / 64 == n / 4096;
    } else if 0x10000 <= n {
      DivMod64(n);
      DivMod64(n / 64);
      DivMod64(n / 64 / 64);
      assert n / 64 / 64 == n / 4096;
      assert n / 4096 / 64 == n / 262144;
    }
  }

  /** Splitting off the low six bits. */
  lemma DivMod64(n: nat)
    ensures n == n / 64 * 64 + n % 64 && 0 <= n % 64 < 64
  {
  }

  /** No two strings share a UTF-8 encoding, so String.digest separates
      strings as well as the hash separates byte sequences. */
  lemma {:induction false} Utf8Injective(s: string, t: string)
    requires Utf8(s) == Utf8(t)
    ensures s == t
    decreases |s|
  {
    if s != [] && t != [] {
      var es, et := EncodeChar(s[0]), EncodeChar(t[0]);
      EncodeCharDecodes(s[0]);
      EncodeCharDecodes(t[0]);
      assert Utf8(s)[0] == es[0] && Utf8(t)[0] == et[0];
      assert |es| == |et|;
      assert es == Utf8(s)[..|es|] && et == Utf8(t)[..|et|];
      assert s[0] == t[0];
      assert Utf8(s[1..]) == Utf8(s)[|es|..] && Utf8(t[1..]) == Utf8(t)[|et|..];
      Utf8Injective(s[1..], t[1..]);
    }
  }

  /** An ASCII string encodes as one byte per character. */
  lemma {:induction false} Utf8Ascii(s: string)
    requires forall i :: 0 <= i < |s| ==> s[i] as int < 0x80
    ensures |Utf8(s)| == |s|
    ensures forall i :: 0 <= i < |s| ==> Utf8(s)[i] as int == s[i] as int
    decreases |s|
  {
    if s != [] {
      Utf8Ascii(s[1..]);
    }
  }

  // ---------------------------------------------------------------- digests

  /** The digest of these bytes, rendered as BigInteger(1, d).toString(16). */
  function DigestHex(hash: HashFunction, bytes: seq<byte>): string
  {
    HexOf(hash(bytes))
  }

  /** String.digest(algorithm): one update with the string's UTF-8 bytes. */
  function StringDigest(s: string, hash: HashFunction): string
  {
    DigestHex(hash, Utf8(s))
  }

  /** A string digest is a function of the UTF-8 bytes only: a file holding
      exactly those bytes has the same digest. */
  lemma StringDigestIsBytesDigest(s: string, hash: HashFunction, content: seq<byte>)
    requires content == Utf8(s)
    ensures StringDigest(s, hash) == DigestHex(hash, content)
    ensures forall i :: 0 <= i < |StringDigest(s, hash)| ==> IsLowerDigit(StringDigest(s, hash)[i], 16)
  {
    HexOfShape(hash(content));
  }

  /** All chunks one after another. */
  function Flatten(chunks: seq<seq<byte>>): seq<byte>
  {
    if chunks == [] then [] else Flatten(chunks[..|chunks| - 1]) + chunks[|chunks| - 1]
  }

  lemma FlattenAppend(chunks: seq<seq<byte>>, chunk: seq<byte>)
    ensures Flatten(chunks + [chunk]) == Flatten(chunks) + chunk
  {
    assert (chunks + [chunk])[..|chunks|] == chunks;
  }

  /** A java.security.MessageDigest: the chunks fed with update(), in order. */
  class MessageDigest {
    const hash: HashFunction
    var updates: seq<seq<byte>>

    constructor (hash: HashFunction)
      ensures this.hash == hash && updates == []
    {
      this.hash := hash;
      updates := [];
    }

    /** update(buf, off, len). */
    method Update(buf: array<byte>, off: nat, len: nat)
      requires off + len <= buf.Length
      modifies this
      ensures updates == old(updates) + [buf[off..off + len]]
    {
      updates := updates + [buf[off..off + len]];
    }

    /** digest(): the hash of everything fed so far. */
    function Digest(): seq<byte>
      reads this
    {
      hash(Flatten(updates))
    }
  }

  /** A java.io.FileInputStream over a file's content. A read returns at most
      `granule` bytes, however many were asked for: the model does not fix
      how the platform splits a file into reads. */
  class FileInputStream {
    const content: seq<byte>
    const granule: nat
    var pos: nat

    ghost predicate Valid()
      reads this
    {
      pos <= |content| && granule >= 1
    }

    constructor (content: seq<byte>, granule: nat)
      requires granule >= 1
      ensures Valid() && this.content == content && this.granule == granule && pos == 0
    {
      this.content := content;
      this.granule := granule;
      pos := 0;
    }

    /** read(buf, off, len): -1 at the end of the file, otherwise the number
        of bytes copied into buf[off..], at least one when len > 0. */
    method Read(buf: array<byte>, off: nat, len: nat) returns (n: int)
      requires Valid() && off + len <= buf.Length
      modifies this, buf
      ensures Valid()
      ensures len > 0 && old(pos) == |content| ==> n == -1 && pos == old(pos)
      ensures len == 0 ==> n == 0 && pos == old(pos)
      ensures len > 0 && old(pos) < |content| ==>
        && n == Min(Min(len, granule), |content| - old(pos))
        && pos == old(pos) + n
        && buf[off..off + n] == content[old(pos)..pos]
      ensures forall i :: 0 <= i < buf.Length && !(off <= i < off + (if n > 0 then n else 0)) ==> buf[i] == old(buf[i])
    {
      if len == 0 {
        return 0;
      }
      if pos == |content| {
        return -1;
      }
      n := Min(Min(len, granule), |content| - pos);
      forall i | 0 <= i < n {
        buf[off + i] := content[pos + i];
      }
      pos := pos + n;
    }
  }

  function Min(a: int, b: int): int
  {
    if a <= b then a else b
  }

  /** The state between two reads of File.digest: the bytes before `done`
      have been fed, in chunks of 1 to 1024 bytes, and the buffer holds the
      `length` bytes read from `done` on, or `length` is -1 at the end. */
  ghost predicate Reading(stream: FileInputStream, digest: MessageDigest, buffer: array<byte>,
                          length: int, done: nat, content: seq<byte>, hash: HashFunction)
    reads stream, digest, buffer
  {
    && stream.Valid() && stream.content == content && digest.hash == hash && buffer.Length == 1024
    && done <= stream.pos
    && (length == -1 ==> done == stream.pos == |content|)
    && (length != -1 ==> 1 <= length <= 1024 && done + length == stream.pos && buffer[..length] == content[done..stream.pos])
    && Flatten(digest.updates) == content[..done]
    && (forall i :: 0 <= i < |digest.updates| ==> 1 <= |digest.updates[i]| <= 1024)
  }

  /** One round of the File.digest loop: feed the bytes just read, then read
      the next ones. */
  method FeedAndRead(stream: FileInputStream, digest: MessageDigest, buffer: array<byte>,
                     length: int, ghost done: nat, ghost content: seq<byte>, ghost hash: HashFunction)
      returns (next: int, ghost nextDone: nat)
    requires Reading(stream, digest, buffer, length, done, content, hash) && length != -1
    modifies stream, digest, buffer
    ensures Reading(stream, digest, buffer, next, nextDone, content, hash)
    ensures nextDone == old(stream.pos) && old(stream.pos) <= stream.pos
    ensures next != -1 ==> old(stream.pos) < stream.pos
  {
    FlattenAppend(digest.updates, buffer[..length]);
    assert content[..stream.pos] == content[..done] + content[done..stream.pos];
    digest.Update(buffer, 0, length);
    nextDone := stream.pos;
    next := stream.Read(buffer, 0, 1024);
  }

  /** File.digest(algorithm): the file is fed to the digest in reads of at most
      1024 bytes; the chunks fed, one after another, are exactly the content,
      so the result is the digest of the whole content in one update. */
  method FileDigest(content: seq<byte>, granule: nat, hash: HashFunction)
      returns (hex: string, ghost fed: seq<seq<byte>>)
    requires granule >= 1
    ensures hex == DigestHex(hash, content)
    ensures Flatten(fed) == content
    ensures forall i :: 0 <= i < |fed| ==> 1 <= |fed[i]| <= 1024
  {
    var stream := new FileInputStream(content, granule);
    var digest := new MessageDigest(hash);
    var buffer := new byte[1024];
    var length := stream.Read(buffer, 0, 1024);
    ghost var done: nat := 0;
    while length != -1
      invariant Reading(stream, digest, buffer, length, done, content, hash)
      invariant fresh(stream) && fresh(digest) && fresh(buffer)
      decreases |content| - stream.pos, if length == -1 then 0 else 1
    {
      length, done := FeedAndRead(stream, digest, buffer, length, done, content, hash);
    }
    assert content[..|content|] == content;
    fed := digest.updates;
    hex := HexOf(digest.Digest());
  }
}
