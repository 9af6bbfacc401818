/**
  The frames of the encrypted log and their decoder.  The cipher is a parameter: `Aead`
  seals a plaintext under a nonce, and opening what was sealed gives the plaintext back.
 */
module LogFrames {
  import opened Basics

  type Byte = b: int | 0 <= b < 256

  const NONCE_SIZE: nat := 12

  datatype Aead = Aead(
    seal: (seq<Byte>, seq<Byte>) -> seq<Byte>,
    unseal: (seq<Byte>, seq<Byte>) -> Option<seq<Byte>>)

  ghost predicate Opens(a: Aead) {
    forall n, p :: a.unseal(n, a.seal(n, p)) == Some(p)
  }

  /** The k low bytes of n, most significant first. */
  function BigEndian(n: nat, k: nat): (r: seq<Byte>)
    ensures |r| == k
  {
    if k == 0 then [] else BigEndian(n / 256, k - 1) + [n % 256]
  }

  function FromBigEndian(s: seq<Byte>): nat {
    if s == [] then 0 else 256 * FromBigEndian(s[..|s| - 1]) + s[|s| - 1]
  }

  function Power256(k: nat): (p: nat)
    ensures p > 0
  {
    if k == 0 then 1 else 256 * Power256(k - 1)
  }

  /** A number that fits its bytes is read back from them. */
  lemma {:induction false} BigEndianRoundTrip(n: nat, k: nat)
    requires n < Power256(k)
    ensures FromBigEndian(BigEndian(n, k)) == n
  {
    if k > 0 {
      BigEndianRoundTrip(n / 256, k - 1);
      assert BigEndian(n, k)[..k - 1] == BigEndian(n / 256, k - 1);
    }
  }

  /** One record: the counter value of its nonce, and its plaintext. */
  datatype Record = Record(counter: nat, plain: seq<Byte>)

  function Nonce(counter: nat): (n: seq<Byte>)
    ensures |n| == NONCE_SIZE
  {
    BigEndian(counter, 8) + [0, 0, 0, 0]
  }

  function Sealed(a: Aead, r: Record): seq<Byte> { Nonce(r.counter) + a.seal(Nonce(r.counter), r.plain) }

  /** The length in four bytes, then nonce and ciphertext.  A length of 2^32 or more would wrap. */
  function Frame(a: Aead, r: Record): (f: seq<Byte>)
    ensures |f| == 4 + |Sealed(a, r)|
  {
    BigEndian(|Sealed(a, r)|, 4) + Sealed(a, r)
  }

  predicate Fits(a: Aead, r: Record) { |Sealed(a, r)| < Power256(4) }

  function File(a: Aead, rs: seq<Record>): seq<Byte> {
    if rs == [] then [] else Frame(a, rs[0]) + File(a, rs[1..])
  }

  function Plain(rs: seq<Record>): seq<Byte> {
    if rs == [] then [] else rs[0].plain + Plain(rs[1..])
  }

  /** A record fits when the length of what is sealed fits the four bytes before it. */
  lemma FitsExact(a: Aead, r: Record)
    ensures Fits(a, r) <==> |Sealed(a, r)| < 0x1_0000_0000
  {
    assert Power256(4) == 256 * (256 * (256 * (256 * 1)));
  }

  lemma EightBytesHold64Bits()
    ensures Power256(8) == 0x1_0000_0000_0000_0000
  {
    assert Power256(8) == 256 * (256 * (256 * (256 * Power256(4))));
  }

  /** Until a counter of 64 bits wraps, two records never share a nonce. */
  lemma NoncesDiffer(x: nat, y: nat)
    requires x != y && x < 0x1_0000_0000_0000_0000 && y < 0x1_0000_0000_0000_0000
    ensures Nonce(x) != Nonce(y)
  {
    EightBytesHold64Bits();
    BigEndianRoundTrip(x, 8);
    BigEndianRoundTrip(y, 8);
    assert Nonce(x)[..8] == BigEndian(x, 8) && Nonce(y)[..8] == BigEndian(y, 8);
  }

  // ---------- decoding ----------

  /** What is decoded from the bytes on, skipping records that do not open. */
  function Decode(a: Aead, raw: seq<Byte>): seq<Byte>
    decreases |raw|
  {
    if |raw| < 4 then []
    else
      var n := FromBigEndian(raw[..4]);
      if n == 0 || 4 + n > |raw| then []
      else
        Opened(a, raw[4..4 + n]) + Decode(a, raw[4 + n..])
  }

  /** The plaintext of one record; a record that is too short or does not open is skipped. */
  function Opened(a: Aead, rec: seq<Byte>): seq<Byte> {
    if |rec| < NONCE_SIZE then []
    else
      match a.unseal(rec[..NONCE_SIZE], rec[NONCE_SIZE..])
      case None => []
      case Some(plain) => plain
  }

  /** Where the record after the one at an offset starts, if a whole record is there. */
  function NextOffset(raw: seq<Byte>, off: nat): (next: Option<nat>)
    ensures next.Some? ==> off + 4 < next.value <= |raw|
  {
    if off + 4 > |raw| then None
    else
      var n := FromBigEndian(raw[off..off + 4]);
      if n == 0 || off + 4 + n > |raw| then None else Some(off + 4 + n)
  }

  /** What the loop of DecryptFile still appends when it stands at an offset. */
  function DecodeFrom(a: Aead, raw: seq<Byte>, off: nat): seq<Byte>
    decreases |raw| - off
  {
    match NextOffset(raw, off)
    case None => []
    case Some(next) => Opened(a, raw[off + 4..next]) + DecodeFrom(a, raw, next)
  }

  lemma {:induction false} DecodeFromOffset(a: Aead, raw: seq<Byte>, off: nat)
    requires off <= |raw|
    ensures DecodeFrom(a, raw, off) == Decode(a, raw[off..])
    decreases |raw| - off
  {
    var here := raw[off..];
    if off + 4 <= |raw| {
      assert here[..4] == raw[off..off + 4];
      var next := NextOffset(raw, off);
      if next.Some? {
        DecodeFromOffset(a, raw, next.value);
        assert here[4..next.value - off] == raw[off + 4..next.value];
        assert here[next.value - off..] == raw[next.value..];
      }
    }
  }

  /** DecryptFile on the content of a file, of which at most maxBytes are read. */
  method DecryptFile(a: Aead, content: seq<Byte>, maxBytes: nat) returns (out: seq<Byte>)
    ensures out == Decode(a, if |content| > maxBytes then content[..maxBytes] else content)
  {
    var raw := content;
    if |raw| > maxBytes {
      raw := raw[..maxBytes];
    }
    out := DecodeLoop(a, raw);
  }

  lemma Regroup(x: seq<Byte>, y: seq<Byte>, z: seq<Byte>)
    ensures x + (y + z) == (x + y) + z
    ensures x + [] == x
  {
  }

  /** The loop of DecryptFile: one record per pass, until the rest holds no whole record. */
  method DecodeLoop(a: Aead, raw: seq<Byte>) returns (out: seq<Byte>)
    ensures out == Decode(a, raw)
  {
    out := [];
    var off := 0;
    assert raw[0..] == raw;
    DecodeFromOffset(a, raw, 0);
    while off + 4 <= |raw|
      invariant 0 <= off <= |raw|
      invariant DecodeFrom(a, raw, 0) == out + DecodeFrom(a, raw, off)
      decreases |raw| - off
    {
      ghost var start := off;
      var n := FromBigEndian(raw[off..off + 4]);
      off := off + 4;
      if n == 0 || off + n > |raw| {
        assert NextOffset(raw, start) == None;
        return;
      }
      var rec := raw[off..off + n];
      off := off + n;
      assert NextOffset(raw, start) == Some(off);
      Regroup(out, Opened(a, rec), DecodeFrom(a, raw, off));
      if |rec| < NONCE_SIZE {
        continue;
      }
      var plain := a.unseal(rec[..NONCE_SIZE], rec[NONCE_SIZE..]);
      if plain.None? {
        continue;
      }
      out := out + plain.value;
    }
  }

  /** How many frames lie wholly inside the first c bytes. */
  function Whole(a: Aead, rs: seq<Record>, c: nat): (m: nat)
    ensures m <= |rs|
  {
    if rs == [] || |Frame(a, rs[0])| > c then 0 else 1 + Whole(a, rs[1..], c - |Frame(a, rs[0])|)
  }

  /** Frame i lies wholly inside the first c bytes exactly when it is among the first Whole. */
  lemma {:induction false} WholeCounts(a: Aead, rs: seq<Record>, c: nat, i: nat)
    requires i < |rs|
    ensures |File(a, rs[..i + 1])| <= c <==> i < Whole(a, rs, c)
  {
    var n := |Frame(a, rs[0])|;
    assert rs[..i + 1][1..] == rs[1..][..i];
    if i == 0 {
      assert File(a, rs[..1]) == Frame(a, rs[0]) + [];
    } else if n <= c {
      WholeCounts(a, rs[1..], c - n, i - 1);
      assert rs[1..][..i - 1 + 1] == rs[..i + 1][1..];
    }
  }

  /** Decoding a frame that is followed by anything. */
  lemma DecodeFrame(a: Aead, r: Record, rest: seq<Byte>)
    requires Opens(a) && Fits(a, r)
    ensures Decode(a, Frame(a, r) + rest) == r.plain + Decode(a, rest)
  {
    var raw, n := Frame(a, r) + rest, |Sealed(a, r)|;
    assert raw[..4] == BigEndian(n, 4);
    BigEndianRoundTrip(n, 4);
    assert raw[4..4 + n] == Sealed(a, r) && raw[4 + n..] == rest;
    assert Sealed(a, r)[..NONCE_SIZE] == Nonce(r.counter);
    assert Sealed(a, r)[NONCE_SIZE..] == a.seal(Nonce(r.counter), r.plain);
  }

  /** Less than a whole frame decodes to nothing. */
  lemma DecodeTorn(a: Aead, r: Record, c: nat)
    requires Fits(a, r) && c < |Frame(a, r)|
    ensures Decode(a, Frame(a, r)[..c]) == []
  {
    if c >= 4 {
      assert Frame(a, r)[..c][..4] == BigEndian(|Sealed(a, r)|, 4);
      BigEndianRoundTrip(|Sealed(a, r)|, 4);
    }
  }

  /** A file of frames, cut anywhere, decodes to the plaintexts of the frames wholly inside the cut. */
  lemma {:induction false} DecodeCut(a: Aead, rs: seq<Record>, c: nat)
    requires Opens(a) && forall i :: 0 <= i < |rs| ==> Fits(a, rs[i])
    requires c <= |File(a, rs)|
    ensures Decode(a, File(a, rs)[..c]) == Plain(rs[..Whole(a, rs, c)])
  {
    if rs != [] {
      var f := Frame(a, rs[0]);
      if |f| > c {
        DecodeTorn(a, rs[0], c);
        assert File(a, rs)[..c] == f[..c];
      } else {
        var rest := File(a, rs[1..]);
        assert File(a, rs)[..c] == f + rest[..c - |f|];
        DecodeFrame(a, rs[0], rest[..c - |f|]);
        DecodeCut(a, rs[1..], c - |f|);
        var m := Whole(a, rs, c);
        assert rs[..m][1..] == rs[1..][..m - 1];
      }
    }
  }

  /** A complete file decodes to everything in it. */
  lemma DecodeComplete(a: Aead, rs: seq<Record>)
    requires Opens(a) && forall i :: 0 <= i < |rs| ==> Fits(a, rs[i])
    ensures Decode(a, File(a, rs)) == Plain(rs)
  {
    DecodeCut(a, rs, |File(a, rs)|);
    WholeAll(a, rs);
    assert File(a, rs)[..|File(a, rs)|] == File(a, rs) && rs[..|rs|] == rs;
  }

  lemma {:induction false} WholeAll(a: Aead, rs: seq<Record>)
    ensures Whole(a, rs, |File(a, rs)|) == |rs|
  {
    if rs != [] { WholeAll(a, rs[1..]); }
  }

  lemma {:induction false} FileJoin(a: Aead, xs: seq<Record>, ys: seq<Record>)
    ensures File(a, xs + ys) == File(a, xs) + File(a, ys)
    ensures Plain(xs + ys) == Plain(xs) + Plain(ys)
  {
    if xs == [] {
      assert xs + ys == ys;
    } else {
      assert (xs + ys)[1..] == xs[1..] + ys;
      FileJoin(a, xs[1..], ys);
    }
  }
}
