/** The binary messages between the pool and its clients. */
module Codec {
  import opened Prelude

  const U32: nat := 0x1_0000_0000

  // ----- Little-endian integers

  function Pow256(n: nat): (r: nat)
    ensures r > 0
  {
    if n == 0 then 1 else 256 * Pow256(n - 1)
  }

  function LeBytes(v: nat, width: nat): (bs: Bytes)
    ensures |bs| == width
  {
    if width == 0 then [] else [(v % 256) as byte] + LeBytes(v / 256, width - 1)
  }

  function LeValue(bs: Bytes): (v: nat)
    ensures v < Pow256(|bs|)
  {
    if bs == [] then 0 else bs[0] as nat + 256 * LeValue(bs[1..])
  }

  lemma {:induction false} LeValueOfBytes(v: nat, width: nat)
    requires v < Pow256(width)
    ensures LeValue(LeBytes(v, width)) == v
  {
    if width > 0 {
      LeValueOfBytes(v / 256, width - 1);
      assert LeBytes(v, width)[1..] == LeBytes(v / 256, width - 1);
    }
  }

  lemma {:induction false} LeBytesOfValue(bs: Bytes)
    ensures LeBytes(LeValue(bs), |bs|) == bs
  {
    if bs != [] {
      LeBytesOfValue(bs[1..]);
      assert LeValue(bs) % 256 == bs[0] as nat && LeValue(bs) / 256 == LeValue(bs[1..]);
      assert bs == [bs[0]] + bs[1..];
    }
  }

  lemma SmallMultiple(m: int, x: int)
    requires m > 0 && -m < m * x < m
    ensures x == 0
  {
    assert x > 0 ==> m * x >= m;
    assert x < 0 ==> m * x <= -m;
  }

  lemma Quotient(v: nat, m: nat, q: nat, r: nat)
    requires m > 0 && v == m * q + r && r < m
    ensures v / m == q
  {
    assert m * (v / m) + v % m == v;
    SmallMultiple(m, v / m - q);
  }

  lemma DivByProduct(v: nat, a: nat, b: nat)
    requires a > 0 && b > 0
    ensures v / a / b == v / (a * b)
  {
    var q, r := v / a / b, v / a % b;
    assert v == a * (b * q + r) + v % a;
    assert a * r + v % a < a * b by {
      assert a * r <= a * (b - 1);
    }
    assert v == a * b * q + (a * r + v % a);
    Quotient(v, a * b, q, a * r + v % a);
  }

  /** The least significant byte comes first. */
  lemma {:induction false} LeByteAt(v: nat, width: nat, i: nat)
    requires i < width
    ensures LeBytes(v, width)[i] as nat == v / Pow256(i) % 256
  {
    if i > 0 {
      LeByteAt(v / 256, width - 1, i - 1);
      DivByProduct(v, 256, Pow256(i - 1));
    }
  }

  lemma Widths()
    ensures Pow256(4) == U32 && Pow256(8) == U64
  {
    assert Pow256(2) == 65_536;
    assert Pow256(4) == 65_536 * Pow256(2);
    assert Pow256(6) == 65_536 * Pow256(4);
    assert Pow256(8) == 65_536 * Pow256(6);
  }

  function U32At(bin: Bytes, i: nat): (v: nat)
    requires i + 4 <= |bin|
    ensures v < U32
  {
    Widths();
    LeValue(bin[i..i + 4])
  }

  function U64At(bin: Bytes, i: nat): (v: nat)
    requires i + 8 <= |bin|
    ensures v < U64
  {
    Widths();
    LeValue(bin[i..i + 8])
  }

  lemma U32Field(bin: Bytes, i: nat, v: nat)
    requires i + 4 <= |bin| && v < U32
    ensures bin[i..i + 4] == LeBytes(v, 4) <==> U32At(bin, i) == v
  {
    Widths();
    LeValueOfBytes(v, 4);
    LeBytesOfValue(bin[i..i + 4]);
  }

  lemma U64Field(bin: Bytes, i: nat, v: nat)
    requires i + 8 <= |bin| && v < U64
    ensures bin[i..i + 8] == LeBytes(v, 8) <==> U64At(bin, i) == v
  {
    Widths();
    LeValueOfBytes(v, 8);
    LeBytesOfValue(bin[i..i + 8]);
  }

  lemma SliceOfConcat(a: Bytes, b: Bytes, c: Bytes, bin: Bytes)
    requires bin == a + b + c
    ensures bin[|a|..|a| + |b|] == b
  {
  }

  lemma LastSlice(a: Bytes, b: Bytes, bin: Bytes)
    requires bin == a + b
    ensures bin[|a|..|bin|] == b && bin[|a|..] == b
  {
  }

  lemma Slices(a: Bytes, bin: Bytes, i: nat, j: nat)
    requires a <= bin && i <= j <= |a|
    ensures bin[i..j] == a[i..j]
  {
  }

  lemma ShiftedSlices(a: Bytes, b: Bytes, bin: Bytes, i: nat, j: nat)
    requires bin == a + b && i <= j <= |b|
    ensures bin[|a| + i..|a| + j] == b[i..j]
  {
  }

  // ----- The mission sent to a client

  method CopyInto(buffer: array<byte>, at: nat, source: Bytes)
    requires at + |source| <= buffer.Length
    modifies buffer
    ensures buffer[..at + |source|] == old(buffer[..at]) + source
    ensures buffer[at + |source|..] == old(buffer[at + |source|..])
  {
    var i := 0;
    while i < |source|
      invariant 0 <= i <= |source|
      invariant forall j :: 0 <= j < buffer.Length ==>
                  buffer[j] == if at <= j < at + i then source[j - at] else old(buffer[j])
    {
      buffer[at + i] := source[i];
      i := i + 1;
    }
  }

  datatype StartMining = StartMining(challenge: Bytes, cutoff: int, nonceRangeStart: nat, nonceRangeEnd: nat) {
    /** The ranges of the field types. */
    predicate Typed() {
      |challenge| == 32 && IsI64(cutoff) && nonceRangeStart < U64 && nonceRangeEnd < U64
    }

    function Layout(): (bin: Bytes)
      requires Typed()
      ensures |bin| == 57
    {
      [0] + challenge + LeBytes(WrapU64(cutoff), 8) + LeBytes(nonceRangeStart, 8) + LeBytes(nonceRangeEnd, 8)
    }

    lemma LayoutReadsBack()
      requires Typed()
      ensures var bin := Layout();
              && bin[0] == 0 && bin[1..33] == challenge && bin[33..41] == LeBytes(WrapU64(cutoff), 8)
              && bin[41..49] == LeBytes(nonceRangeStart, 8) && bin[49..57] == LeBytes(nonceRangeEnd, 8)
              && ReadStartMining(bin) == this
    {
      var bin := Layout();
      var c, n, m := LeBytes(WrapU64(cutoff), 8), LeBytes(nonceRangeStart, 8), LeBytes(nonceRangeEnd, 8);
      SliceOfConcat([0], challenge, c + n + m, bin);
      SliceOfConcat([0] + challenge, c, n + m, bin);
      SliceOfConcat([0] + challenge + c, n, m, bin);
      SliceOfConcat([0] + challenge + c + n, m, [], bin);
      U64Field(bin, 33, WrapU64(cutoff));
      U64Field(bin, 41, nonceRangeStart);
      U64Field(bin, 49, nonceRangeEnd);
    }

    /** Appends field by field. */
    method ToMessageBinary() returns (bin: Bytes)
      requires Typed()
      ensures |bin| == 57 && bin[0] == 0 && bin[1..33] == challenge && bin[33..41] == LeBytes(WrapU64(cutoff), 8)
      ensures bin[41..49] == LeBytes(nonceRangeStart, 8) && bin[49..57] == LeBytes(nonceRangeEnd, 8)
      ensures ReadStartMining(bin) == this
    {
      bin := [];
      bin := bin + [0];
      bin := bin + challenge;
      bin := bin + LeBytes(WrapU64(cutoff), 8);
      bin := bin + LeBytes(nonceRangeStart, 8);
      bin := bin + LeBytes(nonceRangeEnd, 8);
      assert bin == Layout();
      LayoutReadsBack();
    }

    /** The older form: a zeroed buffer of 57 bytes, filled slice by slice. */
    method ToFixedBuffer() returns (bin: array<byte>)
      requires Typed()
      ensures fresh(bin) && bin.Length == 57 && bin[0] == 0 && ReadStartMining(bin[..]) == this
    {
      bin := new byte[57](_ => 0);
      CopyInto(bin, 0, [0]);
      CopyInto(bin, 1, challenge);
      CopyInto(bin, 33, LeBytes(WrapU64(cutoff), 8));
      CopyInto(bin, 41, LeBytes(nonceRangeStart, 8));
      CopyInto(bin, 49, LeBytes(nonceRangeEnd, 8));
      assert bin[..] == bin[..57] == Layout();
      LayoutReadsBack();
    }
  }

  /** What a client reads at the offsets of a mission. */
  function ReadStartMining(bin: Bytes): (m: StartMining)
    requires |bin| == 57
    ensures m.Typed()
  {
    StartMining(bin[1..33], AsI64(U64At(bin, 33)), U64At(bin, 41), U64At(bin, 49))
  }

  lemma SameU64(a: Bytes, b: Bytes, i: nat)
    requires i + 8 <= |a| && i + 8 <= |b|
    ensures U64At(a, i) == U64At(b, i) <==> a[i..i + 8] == b[i..i + 8]
  {
    LeBytesOfValue(a[i..i + 8]);
    LeBytesOfValue(b[i..i + 8]);
  }

  /** Nothing but the tag and the fields is in a mission: its readings determine every byte, so
      both ways of writing one produce the same bytes. */
  lemma StartMiningIsItsFields(a: Bytes, b: Bytes)
    requires |a| == |b| == 57 && a[0] == b[0] && ReadStartMining(a) == ReadStartMining(b)
    ensures a == b
  {
    SameU64(a, b, 33);
    SameU64(a, b, 41);
    SameU64(a, b, 49);
    assert a == [a[0]] + a[1..33] + a[33..41] + a[41..49] + a[49..57];
    assert b == [b[0]] + b[1..33] + b[33..41] + b[41..49] + b[49..57];
  }

  lemma SameU32(a: Bytes, b: Bytes, i: nat)
    requires i + 4 <= |a| && i + 4 <= |b|
    ensures U32At(a, i) == U32At(b, i) <==> a[i..i + 4] == b[i..i + 4]
  {
    LeBytesOfValue(a[i..i + 4]);
    LeBytesOfValue(b[i..i + 4]);
  }

  // ----- The result of a submission

  /** Floating-point fields are carried as their eight bytes. */
  datatype SubmissionResult = SubmissionResult(
    difficulty: nat, totalBalance: Bytes, totalRewards: Bytes, topStake: Bytes, multiplier: Bytes,
    activeMiners: nat, challenge: Bytes, bestNonce: nat, minerSuppliedDifficulty: nat,
    minerEarnedRewards: Bytes, minerPercentage: Bytes)
  {
    predicate Typed() {
      && difficulty < U32 && activeMiners < U32 && minerSuppliedDifficulty < U32 && bestNonce < U64
      && |totalBalance| == 8 && |totalRewards| == 8 && |topStake| == 8 && |multiplier| == 8
      && |minerEarnedRewards| == 8 && |minerPercentage| == 8 && |challenge| == 32
    }

    /** The offset of each field. */
    predicate AtOffsets(bin: Bytes) {
      && |bin| == 101 && bin[0] == 1 && bin[1..5] == LeBytes(difficulty, 4)
      && bin[5..13] == totalBalance && bin[13..21] == totalRewards && bin[21..29] == topStake
      && bin[29..37] == multiplier && bin[37..41] == LeBytes(activeMiners, 4) && bin[41..73] == challenge
      && bin[73..81] == LeBytes(bestNonce, 8) && bin[81..85] == LeBytes(minerSuppliedDifficulty, 4)
      && bin[85..93] == minerEarnedRewards && bin[93..101] == minerPercentage
    }

    /** The first 41 bytes: tag, difficulty, four amounts and the number of active miners. */
    function Head(): (bin: Bytes)
      requires Typed()
      ensures |bin| == 41
    {
      [1] + LeBytes(difficulty, 4) + totalBalance + totalRewards + topStake + multiplier + LeBytes(activeMiners, 4)
    }

    /** The other 60. */
    function Tail(): (bin: Bytes)
      requires Typed()
      ensures |bin| == 60
    {
      challenge + LeBytes(bestNonce, 8) + LeBytes(minerSuppliedDifficulty, 4) + minerEarnedRewards + minerPercentage
    }

    lemma HeadFields()
      requires Typed()
      ensures Head()[0] == 1 && Head()[1..5] == LeBytes(difficulty, 4) && Head()[5..13] == totalBalance
      ensures Head()[13..21] == totalRewards && Head()[21..29] == topStake && Head()[29..37] == multiplier
      ensures Head()[37..41] == LeBytes(activeMiners, 4)
    {
      var b1 := [1] + LeBytes(difficulty, 4);
      var b2 := b1 + totalBalance;
      var b3 := b2 + totalRewards;
      var b4 := b3 + topStake;
      var b5 := b4 + multiplier;
      var n := LeBytes(activeMiners, 4);
      LastSlice([1], LeBytes(difficulty, 4), b1);
      LastSlice(b1, totalBalance, b2);
      LastSlice(b2, totalRewards, b3);
      LastSlice(b3, topStake, b4);
      LastSlice(b4, multiplier, b5);
      LastSlice(b5, n, b5 + n);
      assert b5 + n == Head();
      Slices(b1, Head(), 1, 5);
      Slices(b2, Head(), 5, 13);
      Slices(b3, Head(), 13, 21);
      Slices(b4, Head(), 21, 29);
      Slices(b5, Head(), 29, 37);
    }

    lemma TailFields()
      requires Typed()
      ensures Tail()[..32] == challenge && Tail()[32..40] == LeBytes(bestNonce, 8)
      ensures Tail()[40..44] == LeBytes(minerSuppliedDifficulty, 4)
      ensures Tail()[44..52] == minerEarnedRewards && Tail()[52..60] == minerPercentage
    {
      var b1 := challenge + LeBytes(bestNonce, 8);
      var b2 := b1 + LeBytes(minerSuppliedDifficulty, 4);
      var b3 := b2 + minerEarnedRewards;
      LastSlice(challenge, LeBytes(bestNonce, 8), b1);
      LastSlice(b1, LeBytes(minerSuppliedDifficulty, 4), b2);
      LastSlice(b2, minerEarnedRewards, b3);
      LastSlice(b3, minerPercentage, b3 + minerPercentage);
      assert b3 + minerPercentage == Tail();
      Slices(challenge, Tail(), 0, 32);
      Slices(b1, Tail(), 32, 40);
      Slices(b2, Tail(), 40, 44);
      Slices(b3, Tail(), 44, 52);
    }

    lemma LayoutHasOffsets()
      requires Typed()
      ensures AtOffsets(Head() + Tail())
    {
      var h, t := Head(), Tail();
      var bin := h + t;
      HeadFields();
      TailFields();
      Slices(h, bin, 1, 5);
      Slices(h, bin, 5, 13);
      Slices(h, bin, 13, 21);
      Slices(h, bin, 21, 29);
      Slices(h, bin, 29, 37);
      Slices(h, bin, 37, 41);
      ShiftedSlices(h, t, bin, 0, 32);
      ShiftedSlices(h, t, bin, 32, 40);
      ShiftedSlices(h, t, bin, 40, 44);
      ShiftedSlices(h, t, bin, 44, 52);
      ShiftedSlices(h, t, bin, 52, 60);
    }

    lemma OffsetsReadBack(bin: Bytes)
      requires Typed() && AtOffsets(bin)
      ensures ReadSubmissionResult(bin) == this
    {
      U32Field(bin, 1, difficulty);
      U32Field(bin, 37, activeMiners);
      U64Field(bin, 73, bestNonce);
      U32Field(bin, 81, minerSuppliedDifficulty);
    }

    method ToMessageBinary() returns (bin: Bytes)
      requires Typed()
      ensures AtOffsets(bin) && ReadSubmissionResult(bin) == this
    {
      bin := [];
      bin := bin + [1];
      bin := bin + LeBytes(difficulty, 4);
      bin := bin + totalBalance;
      bin := bin + totalRewards;
      bin := bin + topStake;
      bin := bin + multiplier;
      bin := bin + LeBytes(activeMiners, 4);
      assert bin == Head();
      bin := bin + challenge;
      bin := bin + LeBytes(bestNonce, 8);
      bin := bin + LeBytes(minerSuppliedDifficulty, 4);
      bin := bin + minerEarnedRewards;
      bin := bin + minerPercentage;
      assert bin == Head() + Tail();
      LayoutHasOffsets();
      OffsetsReadBack(bin);
    }
  }

  function ReadSubmissionResult(bin: Bytes): (m: SubmissionResult)
    requires |bin| == 101
    ensures m.Typed()
  {
    SubmissionResult(
      U32At(bin, 1), bin[5..13], bin[13..21], bin[21..29], bin[29..37], U32At(bin, 37), bin[41..73],
      U64At(bin, 73), U32At(bin, 81), bin[85..93], bin[93..101])
  }

  lemma ResultParts(a: Bytes)
    requires |a| == 101
    ensures a == [a[0]] + a[1..5] + a[5..13] + a[13..21] + a[21..29] + a[29..37] + a[37..41] + a[41..73]
                 + a[73..81] + a[81..85] + a[85..93] + a[93..101]
  {
    assert a[..41] == [a[0]] + a[1..5] + a[5..13] + a[13..21] + a[21..29] + a[29..37] + a[37..41];
    assert a[41..] == a[41..73] + a[73..81] + a[81..85] + a[85..93] + a[93..101];
    assert a == a[..41] + a[41..];
  }

  lemma SubmissionResultIsItsFields(a: Bytes, b: Bytes)
    requires |a| == |b| == 101 && a[0] == b[0] && ReadSubmissionResult(a) == ReadSubmissionResult(b)
    ensures a == b
  {
    SameU32(a, b, 1);
    SameU32(a, b, 37);
    SameU64(a, b, 73);
    SameU32(a, b, 81);
    ResultParts(a);
    ResultParts(b);
  }

  // ----- Messages from clients

  datatype ClientMessage =
    | Ready
    | Mining
    | BestSolution(digest: Bytes, nonce: Bytes, pubkey: Bytes)

  /** Sent on to the message processor, dropped, or the handler's task panicked. */
  datatype Parsed = Sent(message: ClientMessage) | Dropped | Panicked

  /** Whether the text is a signature by the key of the message. */
  type Verifier = (Bytes, Bytes, Bytes) -> bool

  /** Fills the buffer from the data; an index past the data's end panics. */
  method Fill(buffer: array<byte>, d: Bytes, start: nat) returns (ok: bool)
    modifies buffer
    ensures ok <==> start + buffer.Length <= |d|
    ensures ok ==> buffer[..] == d[start..start + buffer.Length]
  {
    var i := 0;
    while i < buffer.Length
      invariant 0 <= i <= buffer.Length
      invariant i == 0 || start + i <= |d|
      invariant forall j :: 0 <= j < i ==> buffer[j] == d[start + j]
    {
      if i + start >= |d| {
        return false;
      }
      buffer[i] := d[i + start];
      i := i + 1;
    }
    ok := start + buffer.Length <= |d|;
  }

  /** What a frame means. */
  function Parse(d: Bytes, verify: Verifier): Parsed {
    if d == [] then Panicked
    else if d[0] == 0 then Sent(Ready)
    else if d[0] == 1 then Sent(Mining)
    else if d[0] != 2 then Dropped
    else if |d| < 57 then Panicked
    else if verify(d[57..], d[25..57], d[1..25]) then Sent(BestSolution(d[1..17], d[17..25], d[25..57]))
    else Dropped
  }

  /** Parses one binary frame. The tag decides alone, but for a solution, whose fields have to be there
      and whose signature has to be one of digest and nonce. */
  method ProcessMessage(d: Bytes, verify: Verifier) returns (r: Parsed)
    ensures r == Parse(d, verify)
    ensures r == Sent(Ready) <==> d != [] && d[0] == 0
    ensures r == Sent(Mining) <==> d != [] && d[0] == 1
    ensures r.Panicked? <==> d == [] || (d[0] == 2 && |d| < 57)
    ensures r.Sent? && r.message.BestSolution? <==>
            |d| >= 57 && d[0] == 2 && verify(d[57..], d[25..57], d[1..25])
  {
    if |d| == 0 {
      return Panicked;
    }
    var messageType := d[0];
    if messageType == 0 {
      return Sent(Ready);
    } else if messageType == 1 {
      return Sent(Mining);
    } else if messageType != 2 {
      return Dropped;
    }
    var solutionBytes := new byte[16](_ => 0);
    var bIndex := 1;
    var ok := Fill(solutionBytes, d, bIndex);
    if !ok {
      return Panicked;
    }
    bIndex := bIndex + 16;
    var nonce := new byte[8](_ => 0);
    ok := Fill(nonce, d, bIndex);
    if !ok {
      return Panicked;
    }
    bIndex := bIndex + 8;
    var pubkey := new byte[32](_ => 0);
    ok := Fill(pubkey, d, bIndex);
    if !ok {
      return Panicked;
    }
    bIndex := bIndex + 32;
    var signature := d[bIndex..];
    var hashNonceMessage := new byte[24](_ => 0);
    CopyInto(hashNonceMessage, 0, solutionBytes[..]);
    CopyInto(hashNonceMessage, 16, nonce[..]);
    assert hashNonceMessage[..] == d[1..25] by {
      assert hashNonceMessage[..] == hashNonceMessage[..24];
      assert d[1..25] == d[1..17] + d[17..25];
    }
    if verify(signature, pubkey[..], hashNonceMessage[..]) {
      r := Sent(BestSolution(solutionBytes[..], nonce[..], pubkey[..]));
    } else {
      r := Dropped;
    }
  }

  /** How a client lays a solution out. */
  function Payload(digest: Bytes, nonce: Bytes, pubkey: Bytes, signature: Bytes): Bytes {
    [2] + digest + nonce + pubkey + signature
  }

  /** A frame is accepted as a solution exactly when it lays out a solution of the field widths,
      followed by a signature of it; and then those very fields are passed on. */
  lemma SolutionIffSignedPayload(d: Bytes, verify: Verifier, digest: Bytes, nonce: Bytes, pubkey: Bytes)
    ensures Parse(d, verify) == Sent(BestSolution(digest, nonce, pubkey)) <==>
            && |digest| == 16 && |nonce| == 8 && |pubkey| == 32 && |d| >= 57
            && d == Payload(digest, nonce, pubkey, d[57..]) && verify(d[57..], pubkey, digest + nonce)
  {
    if |d| >= 57 {
      assert d[1..25] == d[1..17] + d[17..25];
      assert d == [d[0]] + d[1..17] + d[17..25] + d[25..57] + d[57..];
      if |digest| == 16 && |nonce| == 8 && |pubkey| == 32 && d == Payload(digest, nonce, pubkey, d[57..]) {
        assert d[1..17] == digest && d[17..25] == nonce && d[25..57] == pubkey;
      }
    }
  }

  lemma PayloadParts(digest: Bytes, nonce: Bytes, pubkey: Bytes, signature: Bytes)
    requires |digest| == 16 && |nonce| == 8 && |pubkey| == 32
    ensures var d := Payload(digest, nonce, pubkey, signature);
            && d[1..17] == digest && d[17..25] == nonce && d[25..57] == pubkey && d[57..] == signature
            && d[1..25] == digest + nonce
  {
  }

  /** The parser recovers what a client laid out, and the nonce decodes to the number encoded. */
  lemma PayloadRoundTrip(digest: Bytes, nonce: nat, pubkey: Bytes, signature: Bytes, verify: Verifier)
    requires |digest| == 16 && nonce < U64 && |pubkey| == 32
    ensures var n := LeBytes(nonce, 8);
            && LeValue(n) == nonce
            && Parse(Payload(digest, n, pubkey, signature), verify)
               == if verify(signature, pubkey, digest + n) then Sent(BestSolution(digest, n, pubkey)) else Dropped
  {
    Widths();
    LeValueOfBytes(nonce, 8);
    PayloadParts(digest, LeBytes(nonce, 8), pubkey, signature);
  }
}
