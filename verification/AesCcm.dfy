/** The CCM mode of examples/aes_encrypt/aes.c, formatting and counter width as the code has them. */
module AesCcm {
  import opened Aes
  import opened AesKeySchedule
  import opened AesModes
  import AesField

  // ---------- Formatting ----------

  // The number of bytes left for the payload length in the first block.
  function StoreSize(nonce: seq<Byte>): int { 15 - |nonce| }

  // (mac_len - 2) / 2 on an int, which truncates toward zero.
  function MacField(macLen: nat): int {
    if macLen == 0 then -1 else if macLen == 1 then 0 else (macLen - 2) / 2
  }

  function FirstCounter(nonce: seq<Byte>): (c: seq<Byte>)
    requires |nonce| <= 15
    ensures |c| == 16
  {
    [FromValue((StoreSize(nonce) - 1) % 8)] + nonce + Zeros(15 - |nonce|)
  }

  function Flags(assocLen: nat, macLen: nat, nonce: seq<Byte>): Byte {
    FromValue(8 * (MacField(macLen) % 8) + (StoreSize(nonce) - 1) % 8 + (if assocLen > 0 then 0x40 else 0))
  }

  function FirstFormatBlock(assocLen: nat, payloadLen: nat, macLen: nat, nonce: seq<Byte>): (b: seq<Byte>)
    requires |nonce| <= 15
    ensures |b| == 16
  {
    var b := [Flags(assocLen, macLen, nonce)] + nonce + Zeros(15 - |nonce|);
    b[15 := FromValue(payloadLen % 256)][14 := FromValue(payloadLen / 256 % 256)]
  }

  // A buffer that ends on a block boundary gets a whole block of padding here.
  function FormatAssoc(buf: seq<Byte>, assoc: seq<Byte>): (b: seq<Byte>)
    ensures |b| % 16 == 0
  {
    var b := buf + [FromValue(|assoc| / 256 % 256), FromValue(|assoc| % 256)] + assoc;
    b + Zeros(16 - |b| % 16)
  }

  function FormatPayload(buf: seq<Byte>, payload: seq<Byte>): (b: seq<Byte>)
    ensures |b| % 16 == 0
  {
    var b := buf + payload;
    var pad := |b| % 16;
    b + Zeros(if pad != 0 then 16 - pad else 0)
  }

  function Formatted(payload: seq<Byte>, assoc: seq<Byte>, nonce: seq<Byte>, macLen: nat): (b: seq<Byte>)
    requires |nonce| <= 15
    ensures |b| % 16 == 0
  {
    FormatPayload(FormatAssoc(FirstFormatBlock(|assoc|, |payload|, macLen, nonce), assoc), payload)
  }

  // ---------- The mode, on values ----------

  function Mac(payload: seq<Byte>, assoc: seq<Byte>, nonce: seq<Byte>, macLen: nat, key: seq<bv32>, keysize: int)
    : (m: seq<Byte>)
    requires |nonce| <= 15 && |key| >= 60
    ensures |m| == 16
  {
    var b := Formatted(payload, assoc, nonce, macLen);
    CbcMac(b, key, keysize, Zeros(16), |b| / 16)
  }

  // The width of the counter is taken from the tag length.
  function PayloadCounter(nonce: seq<Byte>, macLen: nat): (c: seq<Byte>)
    requires |nonce| <= 15
    ensures |c| == 16
  {
    IncrementTail(FirstCounter(nonce), 15 - macLen)
  }

  function Seal(payload: seq<Byte>, assoc: seq<Byte>, nonce: seq<Byte>, macLen: nat, key: seq<bv32>, keysize: int)
    : (c: seq<Byte>)
    requires |nonce| <= 15 && |key| >= 60 && macLen <= 16
    ensures |c| == |payload| + macLen
  {
    Ctr(payload, key, keysize, PayloadCounter(nonce, macLen)) +
    Ctr(Mac(payload, assoc, nonce, macLen, key, keysize)[..macLen], key, keysize, FirstCounter(nonce))
  }

  datatype Opened = Rejected | Opened(plaintext: seq<Byte>, authentic: bool)

  function OpenPlain(c: seq<Byte>, nonce: seq<Byte>, macLen: nat, key: seq<bv32>, keysize: int): (p: seq<Byte>)
    requires |nonce| <= 15 && |key| >= 60 && macLen < |c|
    ensures |p| == |c| - macLen
  {
    Ctr(c[..|c| - macLen], key, keysize, PayloadCounter(nonce, macLen))
  }

  function OpenTag(c: seq<Byte>, nonce: seq<Byte>, macLen: nat, key: seq<bv32>, keysize: int): (t: seq<Byte>)
    requires |nonce| <= 15 && |key| >= 60 && macLen < |c|
    ensures |t| == macLen
  {
    Ctr(c[|c| - macLen..], key, keysize, FirstCounter(nonce))
  }

  function Open(c: seq<Byte>, assoc: seq<Byte>, nonce: seq<Byte>, macLen: nat, key: seq<bv32>, keysize: int)
    : (r: Opened)
    requires |nonce| <= 15 && |key| >= 60 && macLen <= 16
  {
    if |c| <= macLen then Rejected
    else
      var p := OpenPlain(c, nonce, macLen, key, keysize);
      if OpenTag(c, nonce, macLen, key, keysize) == Mac(p, assoc, nonce, macLen, key, keysize)[..macLen]
      then Opened(p, true)
      else Opened(Zeros(|p|), false)
  }

  // What is sealed opens again, authenticated, exactly when the payload is not empty.
  lemma OpenInvertsSeal(payload: seq<Byte>, assoc: seq<Byte>, nonce: seq<Byte>, macLen: nat, key: seq<bv32>,
                        keysize: int)
    requires |nonce| <= 15 && |key| >= 60 && macLen <= 16
    ensures Open(Seal(payload, assoc, nonce, macLen, key, keysize), assoc, nonce, macLen, key, keysize) ==
            if payload == [] then Rejected else Opened(payload, true)
  {
    hide Ctr, Mac, PayloadCounter, FirstCounter;
    var c := Seal(payload, assoc, nonce, macLen, key, keysize);
    var tag := Mac(payload, assoc, nonce, macLen, key, keysize)[..macLen];
    if payload != [] {
      assert c[..|payload|] == Ctr(payload, key, keysize, PayloadCounter(nonce, macLen));
      assert c[|payload|..] == Ctr(tag, key, keysize, FirstCounter(nonce));
      CtrInverts(payload, key, keysize, PayloadCounter(nonce, macLen));
      CtrInverts(tag, key, keysize, FirstCounter(nonce));
    }
  }

  // And nothing else is accepted: an authenticated plaintext seals to the very ciphertext it came from.
  lemma OnlySealedIsAuthentic(c: seq<Byte>, assoc: seq<Byte>, nonce: seq<Byte>, macLen: nat, key: seq<bv32>,
                              keysize: int, p: seq<Byte>)
    requires |nonce| <= 15 && |key| >= 60 && macLen <= 16
    ensures Open(c, assoc, nonce, macLen, key, keysize) == Opened(p, true) <==>
            p != [] && c == Seal(p, assoc, nonce, macLen, key, keysize)
  {
    hide Ctr, Mac, PayloadCounter, FirstCounter, Open;
    OpenInvertsSeal(p, assoc, nonce, macLen, key, keysize);
    if Open(c, assoc, nonce, macLen, key, keysize) == Opened(p, true) {
      AuthenticReseals(c, assoc, nonce, macLen, key, keysize, p);
    }
  }

  lemma AuthenticReseals(c: seq<Byte>, assoc: seq<Byte>, nonce: seq<Byte>, macLen: nat, key: seq<bv32>,
                         keysize: int, p: seq<Byte>)
    requires |nonce| <= 15 && |key| >= 60 && macLen <= 16
    requires Open(c, assoc, nonce, macLen, key, keysize) == Opened(p, true)
    ensures p != [] && c == Seal(p, assoc, nonce, macLen, key, keysize)
  {
    hide Ctr, Mac, PayloadCounter, FirstCounter;
    var n := |c| - macLen;
    CtrInverts(c[..n], key, keysize, PayloadCounter(nonce, macLen));
    CtrInverts(c[n..], key, keysize, FirstCounter(nonce));
    assert c == c[..n] + c[n..];
  }

  // What no payload seals to opens as zeros, not authenticated.
  lemma TamperedOpensToZeros(c: seq<Byte>, assoc: seq<Byte>, nonce: seq<Byte>, macLen: nat, key: seq<bv32>,
                             keysize: int)
    requires |nonce| <= 15 && |key| >= 60 && macLen <= 16 && macLen < |c|
    requires forall p :: c != Seal(p, assoc, nonce, macLen, key, keysize)
    ensures Open(c, assoc, nonce, macLen, key, keysize) == Opened(Zeros(|c| - macLen), false)
  {
    hide Ctr, Mac, PayloadCounter, FirstCounter, Seal;
    var r := Open(c, assoc, nonce, macLen, key, keysize);
    if r.authentic {
      AuthenticReseals(c, assoc, nonce, macLen, key, keysize, r.plaintext);
    }
  }

  // ---------- The counter of the payload ----------

  lemma PowerAtLeast256(n: nat)
    requires n > 0
    ensures Power256(n) >= 256
  {
    assert Power256(n) == 256 * Power256(n - 1);
  }

  // A counter of at least a byte changes with each increment.
  lemma IncrementChanges(c: seq<Byte>, width: nat)
    requires |c| == 16 && 0 < width <= 16
    ensures IncrementTail(c, width) != c
  {
    hide Number, Power256, IncrementTail;
    IncrementTailCounts(c, width);
    assert Power256(width) >= 256 by { PowerAtLeast256(width); }
    var v, p := Number(c[16 - width..]), Power256(width);
    NumberBound(c[16 - width..]);
    assert v + 1 < p ==> (v + 1) % p == v + 1;
    assert v + 1 == p ==> (v + 1) % p == 0;
  }

  // Of the tag lengths there are, the longest is the one with which the payload starts from the counter of the tag.
  lemma CountersDiffer(nonce: seq<Byte>, macLen: nat)
    requires |nonce| <= 15 && TagLength(macLen)
    ensures PayloadCounter(nonce, macLen) != FirstCounter(nonce) <==> macLen != 16
  {
    hide FirstCounter;
    if macLen != 16 {
      IncrementChanges(FirstCounter(nonce), 15 - macLen);
    }
  }

  // Then the sum of a ciphertext byte and the tag byte at its place is that of the plaintext byte and the MAC byte.
  lemma SharedKeystream(payload: seq<Byte>, assoc: seq<Byte>, nonce: seq<Byte>, key: seq<bv32>, keysize: int, n: nat)
    requires |nonce| <= 15 && |key| >= 60 && n < 16 && n < |payload|
    ensures var c := Seal(payload, assoc, nonce, 16, key, keysize);
            Add(c[n], c[|payload| + n]) == Add(payload[n], Mac(payload, assoc, nonce, 16, key, keysize)[n])
  {
    hide Add, KeyByte, Ctr, Mac, FirstCounter;
    CountersDiffer(nonce, 16);
    var mac, iv := Mac(payload, assoc, nonce, 16, key, keysize), FirstCounter(nonce);
    assert mac[..16] == mac;
    CtrAt(payload, key, keysize, iv, n);
    CtrAt(mac, key, keysize, iv, n);
    AddSame(payload[n], mac[n], KeyByte(key, keysize, iv, n));
  }

  lemma AddSame(a: Byte, b: Byte, k: Byte)
    ensures Add(Add(a, k), Add(b, k)) == Add(a, b)
  {
    hide AesField.Xor;
    AesField.XorExchange(a.bits, k.bits, b.bits, k.bits);
    AesField.XorLaws(k.bits, k.bits);
    AesField.XorLaws(AesField.Xor(a.bits, b.bits), 0);
  }

  // ---------- The code ----------

  function ToArray(s: seq<Byte>): (f: nat -> Byte)
    ensures forall i :: 0 <= i < |s| ==> f(i) == s[i]
  {
    (i: nat) => if i < |s| then s[i] else ZERO
  }

  method MakeBlock(s: seq<Byte>) returns (a: array<Byte>)
    ensures fresh(a) && a.Length == |s| && a[..] == s
  {
    a := new Byte[|s|](ToArray(s));
  }

  method MakeKey(keyStr: array<Byte>, keysize: int) returns (key: seq<bv32>)
    requires keysize in {128, 192, 256} && keyStr.Length == 4 * KeyWords(keysize)
    ensures key == Schedule(keyStr[..], keysize)
  {
    hide Schedule, Scheduled;
    var w := new bv32[60](_ => 0);
    KeySetup(keyStr, w, keysize);
    ScheduledIsSchedule(w[..], keyStr[..], keysize);
    key := w[..];
  }

  // The formatted buffer and its CBC-MAC, as both directions compute them.
  method ComputeMac(payload: seq<Byte>, assoc: seq<Byte>, nonce: seq<Byte>, macLen: nat, key: seq<bv32>, keysize: int)
    returns (mac: array<Byte>)
    requires |nonce| <= 15 && |key| >= 60
    ensures fresh(mac) && mac[..] == Mac(payload, assoc, nonce, macLen, key, keysize)
  {
    hide CbcMac, FormatPayload, FormatAssoc, FirstFormatBlock;
    var contents := FirstFormatBlock(|assoc|, |payload|, macLen, nonce);
    contents := FormatAssoc(contents, assoc);
    contents := FormatPayload(contents, payload);
    var buf := MakeBlock(contents);
    var tempIv := MakeBlock(Zeros(16));
    mac := MakeBlock(Zeros(16));
    assert buf[..buf.Length] == contents;
    var ok := EncryptCbcMac(buf, buf.Length, mac, key, keysize, tempIv);
  }

  predicate TagLength(macLen: nat) { macLen in {4, 6, 8, 10, 12, 14, 16} }

  method EncryptCcm(payload: array<Byte>, assoc: array<Byte>, nonce: array<Byte>, out: array<Byte>, macLen: nat,
                    keyStr: array<Byte>, keysize: int) returns (ok: bool, outLen: nat)
    requires keysize in {128, 192, 256} && keyStr.Length == 4 * KeyWords(keysize)
    requires out != payload && out.Length >= payload.Length + macLen
    modifies out
    ensures ok == (TagLength(macLen) && 7 <= nonce.Length <= 13 && assoc.Length <= 32768)
    ensures ok ==> outLen == payload.Length + macLen
    ensures ok ==> out[..outLen] == Seal(old(payload[..]), old(assoc[..]), old(nonce[..]), macLen,
                                         Schedule(old(keyStr[..]), keysize), keysize)
    ensures !ok ==> out[..] == old(out[..])
  {
    hide Schedule, Mac, Ctr, FirstCounter, IncrementTail;
    outLen := 0;
    if !TagLength(macLen) {
      return false, 0;
    }
    if nonce.Length < 7 || nonce.Length > 13 {
      return false, 0;
    }
    if assoc.Length > 32768 {
      return false, 0;
    }
    var p, a, non := payload[..], assoc[..], nonce[..];
    var n := payload.Length;
    var key := MakeKey(keyStr, keysize);
    var mac := ComputeMac(p, a, non, macLen, key, keysize);
    Join(payload, mac, out, macLen);
    CtrBoth(out, n, macLen, non, key, keysize);
    return true, n + macLen;
  }

  // The payload and the tag side by side in the output buffer.
  method Join(payload: array<Byte>, mac: array<Byte>, out: array<Byte>, macLen: nat)
    requires out != payload && out != mac && macLen <= mac.Length && out.Length >= payload.Length + macLen
    modifies out
    ensures out[..payload.Length] == payload[..]
    ensures out[payload.Length..payload.Length + macLen] == mac[..macLen]
  {
    var n := payload.Length;
    CopyBytes(payload, 0, out, 0, n);
    assert out[0..0 + n] == payload[0..0 + n] == payload[..];
    CopyBytes(mac, 0, out, n, macLen);
    assert mac[0..0 + macLen] == mac[..macLen];
  }

  // Counter mode over both parts: the payload from the incremented counter on, the tag from the first one.
  method CtrBoth(out: array<Byte>, n: nat, macLen: nat, nonce: seq<Byte>, key: seq<bv32>, keysize: int)
    requires n + macLen <= out.Length && |nonce| <= 15 && |key| >= 60
    modifies out
    ensures out[..n + macLen] == Ctr(old(out[..n]), key, keysize, PayloadCounter(nonce, macLen)) +
                                 Ctr(old(out[n..n + macLen]), key, keysize, FirstCounter(nonce))
  {
    hide Ctr, FirstCounter, IncrementTail, Add, EncryptBlock, Number, NumberBlock;
    var counter := MakeBlock(FirstCounter(nonce));
    var tempIv := MakeBlock(FirstCounter(nonce));
    IncrementIv(tempIv, 15 - macLen);
    ghost var p, t := out[..n], out[n..n + macLen];
    assert out[0..0 + n] == p;
    EncryptCtr(out, 0, n, out, 0, key, keysize, tempIv);
    assert out[n..n + macLen] == t;
    assert out[..n] == out[0..0 + n];
    ghost var c := out[..n];
    EncryptCtr(out, n, macLen, out, n, key, keysize, counter);
    assert out[..n] == c;
    assert out[..n + macLen] == out[..n] + out[n..n + macLen];
  }

  // Without a check the tag is not looked at.
  method DecryptCcm(ciphertext: array<Byte>, assoc: array<Byte>, nonce: array<Byte>, plaintext: array<Byte>,
                    macLen: nat, check: bool, keyStr: array<Byte>, keysize: int)
    returns (ok: bool, plainLen: nat, authentic: bool)
    requires keysize in {128, 192, 256} && keyStr.Length == 4 * KeyWords(keysize)
    requires nonce.Length <= 15 && macLen <= 16
    requires plaintext != ciphertext && plaintext != assoc && plaintext != nonce && plaintext != keyStr
    requires ciphertext.Length > macLen ==> plaintext.Length >= ciphertext.Length - macLen
    modifies plaintext
    ensures var r := Open(ciphertext[..], assoc[..], nonce[..], macLen, Schedule(keyStr[..], keysize), keysize);
            && ok == r.Opened?
            && (ok ==> plainLen == ciphertext.Length - macLen)
            && (ok && check ==> r == Opened(plaintext[..plainLen], authentic))
    ensures ok && !check ==> plaintext[..plainLen] == OpenPlain(ciphertext[..], nonce[..], macLen,
                                                                Schedule(keyStr[..], keysize), keysize)
    ensures ok ==> plaintext[plainLen..] == old(plaintext[ciphertext.Length - macLen..])
    ensures !ok ==> plaintext[..] == old(plaintext[..])
  {
    hide Schedule, Mac, Ctr, FirstCounter, IncrementTail;
    if ciphertext.Length <= macLen {
      return false, 0, false;
    }
    var key := MakeKey(keyStr, keysize);
    plainLen := ciphertext.Length - macLen;
    DecryptPayload(ciphertext, plaintext, macLen, nonce[..], key, keysize);
    authentic := false;
    if check {
      var mac := DecryptTag(ciphertext, macLen, nonce[..], key, keysize);
      var expected := ComputeMac(plaintext[..plainLen], assoc[..], nonce[..], macLen, key, keysize);
      authentic := mac == expected[..macLen];
      if !authentic {
        Wipe(plaintext, plainLen);
      }
    }
    ok := true;
  }

  method Wipe(plaintext: array<Byte>, n: nat)
    requires n <= plaintext.Length
    modifies plaintext
    ensures plaintext[..n] == Zeros(n) && plaintext[n..] == old(plaintext[n..])
  {
    forall i | 0 <= i < n {
      plaintext[i] := ZERO;
    }
  }

  method DecryptPayload(ciphertext: array<Byte>, plaintext: array<Byte>, macLen: nat, nonce: seq<Byte>, key: seq<bv32>,
                        keysize: int)
    requires plaintext != ciphertext && macLen < ciphertext.Length && plaintext.Length >= ciphertext.Length - macLen
    requires |nonce| <= 15 && |key| >= 60
    modifies plaintext
    ensures plaintext[..ciphertext.Length - macLen] == OpenPlain(ciphertext[..], nonce, macLen, key, keysize)
    ensures plaintext[ciphertext.Length - macLen..] == old(plaintext[ciphertext.Length - macLen..])
  {
    hide Ctr, FirstCounter, IncrementTail, Add, EncryptBlock, Number, NumberBlock;
    var n := ciphertext.Length - macLen;
    var tempIv := MakeBlock(FirstCounter(nonce));
    IncrementIv(tempIv, 15 - macLen);
    CopyBytes(ciphertext, 0, plaintext, 0, n);
    assert plaintext[0..0 + n] == ciphertext[..][..n];
    EncryptCtr(plaintext, 0, n, plaintext, 0, key, keysize, tempIv);
    assert plaintext[..n] == plaintext[0..0 + n];
  }

  method DecryptTag(ciphertext: array<Byte>, macLen: nat, nonce: seq<Byte>, key: seq<bv32>, keysize: int)
    returns (tag: seq<Byte>)
    requires macLen < ciphertext.Length && |nonce| <= 15 && |key| >= 60
    ensures tag == OpenTag(ciphertext[..], nonce, macLen, key, keysize)
  {
    hide Ctr, FirstCounter;
    var n := ciphertext.Length - macLen;
    var mac := MakeBlock(ciphertext[n..]);
    var counter := MakeBlock(FirstCounter(nonce));
    assert mac[0..0 + macLen] == ciphertext[..][n..];
    EncryptCtr(mac, 0, macLen, mac, 0, key, keysize, counter);
    tag := mac[0..0 + macLen];
  }
}
