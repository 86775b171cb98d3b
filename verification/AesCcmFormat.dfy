/** The formatting of CCM in examples/aes_encrypt/aes.c loses nothing, and its MAC sees every byte. */
module AesCcmFormat {
  import opened Aes
  import opened AesModes
  import opened AesCcm

  // What EncryptCcm lets through, and more: associated data whose length two bytes can count.
  predicate Fits(assoc: seq<Byte>, nonce: seq<Byte>, macLen: nat) {
    |assoc| < 0x1_0000 && 7 <= |nonce| <= 13 && TagLength(macLen)
  }

  // Where the payload starts: the first block, the associated data with its length, and the padding.
  function PayloadStart(assocLen: nat): (n: nat)
    ensures n >= 18 + assocLen
  {
    18 + assocLen + (16 - (18 + assocLen) % 16)
  }

  // ---------- What stands where ----------

  lemma FirstBlockParts(assocLen: nat, payloadLen: nat, macLen: nat, nonce: seq<Byte>)
    requires |nonce| <= 13
    ensures var b := FirstFormatBlock(assocLen, payloadLen, macLen, nonce);
            && b[0] == Flags(assocLen, macLen, nonce) && b[1..1 + |nonce|] == nonce
            && b[14] == FromValue(payloadLen / 256 % 256) && b[15] == FromValue(payloadLen % 256)
  {
    hide Flags, FromValue;
  }

  lemma AssocParts(buf: seq<Byte>, assoc: seq<Byte>)
    requires |buf| == 16
    ensures var b := FormatAssoc(buf, assoc);
            && |b| == PayloadStart(|assoc|) && b[..16] == buf
            && b[16] == FromValue(|assoc| / 256 % 256) && b[17] == FromValue(|assoc| % 256)
            && b[18..18 + |assoc|] == assoc
            && forall i :: 18 + |assoc| <= i < |b| ==> b[i] == ZERO
  {
    hide FromValue;
  }

  lemma PayloadParts(buf: seq<Byte>, payload: seq<Byte>)
    ensures var b := FormatPayload(buf, payload);
            && |buf| + |payload| <= |b| < |buf| + |payload| + 16 && b[..|buf|] == buf
            && b[|buf|..|buf| + |payload|] == payload
            && forall i :: |buf| + |payload| <= i < |b| ==> b[i] == ZERO
  {
  }

  // What stands in the formatted bytes.
  predicate Heads(b: seq<Byte>, payloadLen: nat, assocLen: nat, nonce: seq<Byte>, macLen: nat) {
    && |nonce| <= 13 && |b| >= 18
    && b[0] == Flags(assocLen, macLen, nonce) && b[1..1 + |nonce|] == nonce
    && b[14] == FromValue(payloadLen / 256 % 256) && b[15] == FromValue(payloadLen % 256)
    && b[16] == FromValue(assocLen / 256 % 256) && b[17] == FromValue(assocLen % 256)
  }

  predicate Bodies(b: seq<Byte>, payload: seq<Byte>, assoc: seq<Byte>) {
    var start := PayloadStart(|assoc|);
    && start + |payload| <= |b| < start + |payload| + 16
    && b[18..18 + |assoc|] == assoc && b[start..start + |payload|] == payload
  }

  lemma FormattedParts(payload: seq<Byte>, assoc: seq<Byte>, nonce: seq<Byte>, macLen: nat)
    requires |nonce| <= 13
    ensures var b := Formatted(payload, assoc, nonce, macLen);
            Heads(b, |payload|, |assoc|, nonce, macLen) && Bodies(b, payload, assoc)
  {
    hide FormatAssoc, FormatPayload, FirstFormatBlock, Flags, FromValue, PayloadStart;
    var first := FirstFormatBlock(|assoc|, |payload|, macLen, nonce);
    var buf := FormatAssoc(first, assoc);
    var b := Formatted(payload, assoc, nonce, macLen);
    FirstBlockParts(|assoc|, |payload|, macLen, nonce);
    AssocParts(first, assoc);
    PayloadParts(buf, payload);
    assert b[..16] == b[..|buf|][..16] == first;
    assert b[1..1 + |nonce|] == first[1..1 + |nonce|];
    assert b[18..18 + |assoc|] == buf[18..18 + |assoc|];
    assert b[16] == buf[16] && b[17] == buf[17] && b[14] == first[14] && b[15] == first[15] && b[0] == first[0];
  }

  // ---------- Nothing is lost ----------

  lemma TwoDigits(m: nat)
    ensures m % 0x1_0000 == 256 * (m / 256 % 256) + m % 256
  {
    var h := m / 256;
    assert m == 0x1_0000 * (h / 256) + 256 * (h % 256) + m % 256;
  }

  // Two bytes hold a length modulo 2^16, and the first byte of all the tag length and the nonce length.
  lemma LengthBytes(m: nat, n: nat)
    requires FromValue(m / 256 % 256) == FromValue(n / 256 % 256) && FromValue(m % 256) == FromValue(n % 256)
    ensures m % 0x1_0000 == n % 0x1_0000
  {
    hide FromValue, Value;
    TwoDigits(m);
    TwoDigits(n);
    FromValueRoundTrip(m / 256 % 256);
    FromValueRoundTrip(n / 256 % 256);
    FromValueRoundTrip(m % 256);
    FromValueRoundTrip(n % 256);
  }

  // The value of the flags and its digits.
  lemma FlagDigits(assocLen: nat, macLen: nat, nonce: seq<Byte>)
    requires 7 <= |nonce| <= 13 && TagLength(macLen)
    ensures var v := Value(Flags(assocLen, macLen, nonce)); v % 8 == 14 - |nonce| && v / 8 % 8 == (macLen - 2) / 2
  {
    hide FromValue, Value;
    var m, l, t := (macLen - 2) / 2, 14 - |nonce|, if assocLen > 0 then 0x40 else 0;
    assert MacField(macLen) % 8 == m && (StoreSize(nonce) - 1) % 8 == l;
    FromValueRoundTrip(8 * m + l + t);
  }

  lemma FlagsTell(assocLen: nat, macLen: nat, nonce: seq<Byte>, otherLen: nat, otherMacLen: nat, other: seq<Byte>)
    requires 7 <= |nonce| <= 13 && 7 <= |other| <= 13 && TagLength(macLen) && TagLength(otherMacLen)
    requires Flags(assocLen, macLen, nonce) == Flags(otherLen, otherMacLen, other)
    ensures macLen == otherMacLen && |nonce| == |other|
  {
    hide Flags, Value;
    FlagDigits(assocLen, macLen, nonce);
    FlagDigits(otherLen, otherMacLen, other);
  }

  // What is formatted can be read back, though the length field of the payload wraps: the payload, the associated data,
  // the nonce and the tag length.
  lemma FormattedInjective(payload: seq<Byte>, assoc: seq<Byte>, nonce: seq<Byte>, macLen: nat,
                           payload2: seq<Byte>, assoc2: seq<Byte>, nonce2: seq<Byte>, macLen2: nat)
    requires Fits(assoc, nonce, macLen) && Fits(assoc2, nonce2, macLen2)
    requires Formatted(payload, assoc, nonce, macLen) == Formatted(payload2, assoc2, nonce2, macLen2)
    ensures payload == payload2 && assoc == assoc2 && nonce == nonce2 && macLen == macLen2
  {
    hide Formatted, Heads, Bodies;
    var b := Formatted(payload, assoc, nonce, macLen);
    FormattedParts(payload, assoc, nonce, macLen);
    FormattedParts(payload2, assoc2, nonce2, macLen2);
    HeadsOnce(b, |payload|, |assoc|, nonce, macLen, |payload2|, |assoc2|, nonce2, macLen2);
    BodiesOnce(b, payload, assoc, payload2, assoc2);
  }

  lemma HeadsOnce(b: seq<Byte>, payloadLen: nat, assocLen: nat, nonce: seq<Byte>, macLen: nat,
                  payloadLen2: nat, assocLen2: nat, nonce2: seq<Byte>, macLen2: nat)
    requires Heads(b, payloadLen, assocLen, nonce, macLen) && Heads(b, payloadLen2, assocLen2, nonce2, macLen2)
    requires 7 <= |nonce| && 7 <= |nonce2| && TagLength(macLen) && TagLength(macLen2)
    ensures nonce == nonce2 && macLen == macLen2
    ensures payloadLen % 0x1_0000 == payloadLen2 % 0x1_0000 && assocLen % 0x1_0000 == assocLen2 % 0x1_0000
  {
    hide Flags, FromValue, TagLength;
    FlagsTell(assocLen, macLen, nonce, assocLen2, macLen2, nonce2);
    LengthBytes(payloadLen, payloadLen2);
    LengthBytes(assocLen, assocLen2);
  }

  lemma BodiesOnce(b: seq<Byte>, payload: seq<Byte>, assoc: seq<Byte>, payload2: seq<Byte>, assoc2: seq<Byte>)
    requires Bodies(b, payload, assoc) && Bodies(b, payload2, assoc2)
    requires |assoc| == |assoc2| && |payload| % 0x1_0000 == |payload2| % 0x1_0000
    ensures payload == payload2 && assoc == assoc2
  {
    hide PayloadStart;
    Nearby(|payload|, |payload2|);
  }

  // Lengths that agree modulo 2^16 and fill the same blocks are the same.
  lemma Nearby(m: nat, n: nat)
    requires m % 0x1_0000 == n % 0x1_0000 && -16 < m - n < 16
    ensures m == n
  {
  }

  // ---------- The counters ----------

  lemma FirstCounterParts(nonce: seq<Byte>)
    requires 7 <= |nonce| <= 13
    ensures var c := FirstCounter(nonce);
            && Value(c[0]) == 14 - |nonce| && c[1..1 + |nonce|] == nonce
            && forall i :: 1 + |nonce| <= i < 16 ==> c[i] == ZERO
  {
    hide FromValue, Value;
    FromValueRoundTrip(14 - |nonce|);
  }

  // The first byte gives the length of the nonce, the next bytes are the nonce, and the last byte alone counts.
  lemma PayloadCounterIs(nonce: seq<Byte>, macLen: nat)
    requires 7 <= |nonce| <= 13 && TagLength(macLen)
    ensures PayloadCounter(nonce, macLen) ==
            if macLen == 16 then FirstCounter(nonce) else FirstCounter(nonce)[15 := Byte(1)]
  {
    hide FirstCounter, IncrementTail, Increment;
    FirstCounterParts(nonce);
    assert FirstCounter(nonce)[15] == ZERO && Value(ZERO) == 0;
    if macLen == 16 {
      CountersDiffer(nonce, 16);
    } else {
      LastByteCounts(FirstCounter(nonce), 15 - macLen);
    }
  }

  // Neither the keystream of the tag nor that of the payload begins alike under another nonce.
  lemma CountersTellNonce(nonce: seq<Byte>, macLen: nat, other: seq<Byte>, otherMacLen: nat)
    requires 7 <= |nonce| <= 13 && 7 <= |other| <= 13 && TagLength(macLen) && TagLength(otherMacLen)
    ensures FirstCounter(nonce) == FirstCounter(other) <==> nonce == other
    ensures PayloadCounter(nonce, macLen) == PayloadCounter(other, otherMacLen) <==>
              nonce == other && (macLen == 16 <==> otherMacLen == 16)
    ensures PayloadCounter(nonce, macLen) == FirstCounter(other) <==> nonce == other && macLen == 16
  {
    hide FirstCounter, PayloadCounter;
    PayloadCounterIs(nonce, macLen);
    PayloadCounterIs(other, otherMacLen);
    FirstCounterParts(nonce);
    FirstCounterParts(other);
    var c, d := FirstCounter(nonce), FirstCounter(other);
    assert c[15] == ZERO && d[15] == ZERO && ZERO != Byte(1);
    assert c[..15] == c[15 := Byte(1)][..15] && d[..15] == d[15 := Byte(1)][..15];
    assert nonce == c[..15][1..1 + |nonce|] && other == d[..15][1..1 + |other|];
    assert c == c[..15] + [ZERO] && d == d[..15] + [ZERO];
    assert c[0] == c[..15][0] && d[0] == d[..15][0];
  }

  // ---------- The MAC sees every byte ----------

  // Two texts that differ in one byte differ in one block.
  lemma OneByteOneBlock(p: seq<Byte>, k: nat, x: Byte, i: nat)
    requires k < |p| && x != p[k] && 16 * i + 16 <= |p|
    ensures Block(p, i) == Block(p[k := x], i) <==> i != k / 16
  {
    var q := p[k := x];
    if i == k / 16 {
      assert Block(p, i)[k % 16] == p[k] && Block(q, i)[k % 16] == x;
    } else {
      assert forall m :: 16 * i <= m < 16 * i + 16 ==> p[m] == q[m];
    }
  }

  lemma MacSeesOneByte(p: seq<Byte>, k: nat, x: Byte, key: seq<bv32>, keysize: int)
    requires |key| >= 60 && |p| % 16 == 0 && k < |p| && x != p[k] && (keysize == 128 || keysize >= 192)
    ensures CbcMac(p, key, keysize, Zeros(16), |p| / 16) != CbcMac(p[k := x], key, keysize, Zeros(16), |p| / 16)
  {
    hide CbcMac, Block, EncryptBlock;
    var n := |p| / 16;
    forall i | 0 <= i < n
      ensures Block(p, i) == Block(p[k := x], i) <==> i != k / 16
    {
      OneByteOneBlock(p, k, x, i);
    }
    MacSeesOneBlock(p, p[k := x], key, keysize, Zeros(16), n, k / 16);
  }

  lemma AssocByteFormatted(buf: seq<Byte>, assoc: seq<Byte>, k: nat, x: Byte)
    requires |buf| == 16 && k < |assoc|
    ensures |FormatAssoc(buf, assoc)| > 18 + k
    ensures FormatAssoc(buf, assoc[k := x]) == FormatAssoc(buf, assoc)[18 + k := x]
    ensures FormatAssoc(buf, assoc)[18 + k] == assoc[k]
  {
    hide FromValue;
    var head := buf + [FromValue(|assoc| / 256 % 256), FromValue(|assoc| % 256)];
    var b := head + assoc;
    assert head + assoc[k := x] == b[18 + k := x];
    assert b[18 + k := x] + Zeros(16 - |b| % 16) == (b + Zeros(16 - |b| % 16))[18 + k := x];
  }

  lemma PrefixByteFormatted(buf: seq<Byte>, payload: seq<Byte>, k: nat, x: Byte)
    requires k < |buf|
    ensures |FormatPayload(buf, payload)| > k
    ensures FormatPayload(buf[k := x], payload) == FormatPayload(buf, payload)[k := x]
    ensures FormatPayload(buf, payload)[k] == buf[k]
  {
    var b := buf + payload;
    assert buf[k := x] + payload == b[k := x];
    var pad := Zeros(if |b| % 16 != 0 then 16 - |b| % 16 else 0);
    assert b[k := x] + pad == (b + pad)[k := x];
  }

  // The MAC depends on every byte of the associated data.
  lemma MacSeesAssoc(payload: seq<Byte>, assoc: seq<Byte>, k: nat, x: Byte, nonce: seq<Byte>, macLen: nat,
                     key: seq<bv32>, keysize: int)
    requires |nonce| <= 15 && |key| >= 60 && (keysize == 128 || keysize >= 192)
    requires k < |assoc| && x != assoc[k]
    ensures Mac(payload, assoc, nonce, macLen, key, keysize) != Mac(payload, assoc[k := x], nonce, macLen, key, keysize)
  {
    hide FormatAssoc, FormatPayload, FirstFormatBlock, CbcMac;
    var first := FirstFormatBlock(|assoc|, |payload|, macLen, nonce);
    var buf := FormatAssoc(first, assoc);
    AssocByteFormatted(first, assoc, k, x);
    PrefixByteFormatted(buf, payload, 18 + k, x);
    MacSeesOneByte(FormatPayload(buf, payload), 18 + k, x, key, keysize);
  }

  lemma PayloadByteFormatted(buf: seq<Byte>, payload: seq<Byte>, k: nat, x: Byte)
    requires k < |payload|
    ensures |FormatPayload(buf, payload)| > |buf| + k
    ensures FormatPayload(buf, payload[k := x]) == FormatPayload(buf, payload)[|buf| + k := x]
    ensures FormatPayload(buf, payload)[|buf| + k] == payload[k]
  {
    var b := buf + payload;
    assert buf + payload[k := x] == b[|buf| + k := x];
    var pad := Zeros(if |b| % 16 != 0 then 16 - |b| % 16 else 0);
    assert b[|buf| + k := x] + pad == (b + pad)[|buf| + k := x];
  }

  // And on every byte of the payload.
  lemma MacSeesPayload(payload: seq<Byte>, assoc: seq<Byte>, k: nat, x: Byte, nonce: seq<Byte>, macLen: nat,
                       key: seq<bv32>, keysize: int)
    requires |nonce| <= 15 && |key| >= 60 && (keysize == 128 || keysize >= 192)
    requires k < |payload| && x != payload[k]
    ensures Mac(payload, assoc, nonce, macLen, key, keysize) != Mac(payload[k := x], assoc, nonce, macLen, key, keysize)
  {
    hide FormatAssoc, FormatPayload, FirstFormatBlock, CbcMac;
    var buf := FormatAssoc(FirstFormatBlock(|assoc|, |payload|, macLen, nonce), assoc);
    PayloadByteFormatted(buf, payload, k, x);
    MacSeesOneByte(FormatPayload(buf, payload), |buf| + k, x, key, keysize);
  }

  // With a tag of the whole MAC, a ciphertext does not open under associated data with another byte anywhere.
  lemma OtherAssocIsRejected(payload: seq<Byte>, assoc: seq<Byte>, k: nat, x: Byte, nonce: seq<Byte>,
                             key: seq<bv32>, keysize: int)
    requires |nonce| <= 15 && |key| >= 60 && (keysize == 128 || keysize >= 192)
    requires payload != [] && k < |assoc| && x != assoc[k]
    ensures Open(Seal(payload, assoc, nonce, 16, key, keysize), assoc[k := x], nonce, 16, key, keysize) ==
            Opened(Zeros(|payload|), false)
  {
    hide Mac, Ctr, PayloadCounter, FirstCounter;
    var c := Seal(payload, assoc, nonce, 16, key, keysize);
    var mac := Mac(payload, assoc, nonce, 16, key, keysize);
    MacSeesAssoc(payload, assoc, k, x, nonce, 16, key, keysize);
    assert c[..|payload|] == Ctr(payload, key, keysize, PayloadCounter(nonce, 16));
    assert mac[..16] == mac && c[|payload|..] == Ctr(mac, key, keysize, FirstCounter(nonce));
    CtrInverts(payload, key, keysize, PayloadCounter(nonce, 16));
    CtrInverts(mac, key, keysize, FirstCounter(nonce));
    var other := Mac(payload, assoc[k := x], nonce, 16, key, keysize);
    assert other[..16] == other;
  }
}
