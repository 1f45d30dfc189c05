/** internal/mse/mse.go: both sides of the handshake and the stream they leave behind. */
module Handshakes {
  import opened BigEndian
  import opened Common
  import opened Mse

  // ---- the synchronisation point

  ghost predicate Occurs(s: bytes, key: bytes, d: nat) {
    d + |key| <= |s| && s[d..d + |key|] == key
  }

  datatype Sync = Found(at: nat) | NotFound | Eof

  function FindSync(s: bytes, key: bytes, max: int): Sync {
    if |s| < |key| then Eof else Scan(s, key, 0, max - |key|)
  }

  function Scan(s: bytes, key: bytes, d: nat, left: int): Sync
    requires d + |key| <= |s|
    decreases |s| - d
  {
    if s[d..d + |key|] == key then Found(d)
    else if left <= 0 then NotFound
    else if d + |key| == |s| then Eof
    else Scan(s, key, d + 1, left - 1)
  }

  /** The scan stops at the first occurrence, if that lies within the byte budget. */
  lemma {:induction false} ScanExact(s: bytes, key: bytes, d: nat, left: int, e: nat)
    requires d + |key| <= |s|
    ensures Scan(s, key, d, left) == Found(e) <==>
            d <= e && Occurs(s, key, e) && (forall i: nat :: d <= i < e ==> !Occurs(s, key, i))
                && (e == d || e - d <= left)
    decreases |s| - d
  {
    if s[d..d + |key|] == key {
      assert Occurs(s, key, d);
    } else if left > 0 && d + |key| < |s| {
      ScanExact(s, key, d + 1, left - 1, e);
    }
  }

  /** The pattern does not turn up inside the padding in front of it. */
  ghost predicate NoEarly(pad: bytes, key: bytes) {
    forall d: nat :: d < |pad| ==> !Occurs(pad + key, key, d)
  }

  lemma OccursBefore(pad: bytes, key: bytes, more: bytes, d: nat)
    requires d <= |pad|
    ensures Occurs(pad + key + more, key, d) <==> Occurs(pad + key, key, d)
  {
    assert (pad + key + more)[d..d + |key|] == (pad + key)[d..d + |key|];
  }

  /** Synchronisation lands behind the padding exactly when the pattern is not in it. */
  lemma SyncAfterPad(pad: bytes, key: bytes, more: bytes, max: int)
    requires |pad| + |key| <= max
    ensures FindSync(pad + key + more, key, max) == Found(|pad|) <==> NoEarly(pad, key)
  {
    var s := pad + key + more;
    ScanExact(s, key, 0, max - |key|, |pad|);
    assert (pad + key)[|pad|..] == key;
    forall d: nat | d <= |pad| ensures Occurs(s, key, d) <==> Occurs(pad + key, key, d) {
      OccursBefore(pad, key, more, d);
    }
    assert Occurs(pad + key, key, |pad|);
  }

  lemma NoEarlySuffix(pad: bytes, key: bytes, k: nat)
    requires NoEarly(pad, key) && k <= |pad|
    ensures NoEarly(pad[k..], key)
  {
    forall d: nat | d < |pad| - k ensures !Occurs(pad[k..] + key, key, d) {
      assert (pad[k..] + key)[d..d + |key|] == (pad + key)[d + k..d + k + |key|];
      assert !Occurs(pad + key, key, d + k);
    }
  }

  // ---- the two encrypted messages

  /** A 32-bit set of methods. */
  type CryptoMethod = nat

  const PLAIN_TEXT: CryptoMethod := 1

  const VC_SIZE := 8

  function VC(): bytes {
    Zeros(VC_SIZE)
  }

  /** ENCRYPT(VC, crypto_provide, len(PadC), PadC, len(IA), IA) before encryption. */
  function RequestText(provide: CryptoMethod, padC: bytes, ia: bytes): bytes {
    VC() + Be32(provide) + Be16(|padC|) + padC + Be16(|ia|) + ia
  }

  /** ENCRYPT(VC, crypto_select, len(padD), padD) before encryption. */
  function AnswerText(selected: CryptoMethod, padD: bytes): bytes {
    VC() + AnswerBody(selected, padD)
  }

  function AnswerBody(selected: CryptoMethod, padD: bytes): bytes {
    Be32(selected) + Be16(|padD|) + padD
  }

  datatype Error = NoMethodsProvided | PayloadTooBig | UnexpectedEof | SyncNotFound | InvalidSKey | InvalidVC
                 | NoneAccepted | InvalidSelected | NotProvided

  datatype Parsed<T> = Got(value: T, n: nat) | Bad(error: Error)

  predicate IsPowerOfTwo(x: CryptoMethod) {
    x == 1 || (x > 0 && x % 2 == 0 && IsPowerOfTwo(x / 2))
  }

  /** a & b != 0 */
  predicate Shares(a: CryptoMethod, b: CryptoMethod) {
    a > 0 && b > 0 && ((a % 2 == 1 && b % 2 == 1) || Shares(a / 2, b / 2))
  }

  predicate HasBit(x: CryptoMethod, k: nat) {
    if k == 0 then x % 2 == 1 else HasBit(x / 2, k - 1)
  }

  /** Bit k, and no other. */
  ghost predicate OnlyBit(x: CryptoMethod, k: nat) {
    forall j: nat :: HasBit(x, j) <==> j == k
  }

  lemma {:induction false} NoBits(j: nat)
    ensures !HasBit(0, j)
  {
    if j > 0 { NoBits(j - 1); }
  }

  /** A power of two is a single method. */
  lemma {:induction false} SingleMethod(x: CryptoMethod) returns (k: nat)
    requires IsPowerOfTwo(x)
    ensures OnlyBit(x, k)
  {
    if x == 1 {
      k := 0;
      forall j: nat ensures HasBit(x, j) <==> j == 0 { if j > 0 { NoBits(j - 1); } }
    } else {
      var l := SingleMethod(x / 2);
      k := l + 1;
      forall j: nat ensures HasBit(x, j) <==> j == k {
        if j > 0 { assert HasBit(x / 2, j - 1) <==> j - 1 == l; }
      }
    }
  }

  lemma {:induction false} SharedBit(a: CryptoMethod, b: CryptoMethod) returns (k: nat)
    requires Shares(a, b)
    ensures HasBit(a, k) && HasBit(b, k)
  {
    if a % 2 == 1 && b % 2 == 1 {
      k := 0;
    } else {
      k := SharedBit(a / 2, b / 2);
      k := k + 1;
    }
  }

  lemma {:induction false} BitIsShared(a: CryptoMethod, b: CryptoMethod, k: nat)
    requires HasBit(a, k) && HasBit(b, k)
    ensures Shares(a, b)
    decreases k
  {
    if a == 0 || b == 0 { NoBits(k); }
    if k > 0 { BitIsShared(a / 2, b / 2, k - 1); }
  }

  /** The three checks on a selected method, in order. */
  function Refusal(selected: CryptoMethod, provide: CryptoMethod): seq<Error> {
    if selected == 0 then [NoneAccepted]
    else if !IsPowerOfTwo(selected) then [InvalidSelected]
    else if !Shares(selected, provide) then [NotProvided]
    else []
  }

  lemma {:induction false} SomeBit(x: CryptoMethod) returns (k: nat)
    requires x > 0
    ensures HasBit(x, k)
  {
    if x % 2 == 1 {
      k := 0;
    } else {
      k := SomeBit(x / 2);
      k := k + 1;
    }
  }

  lemma {:induction false} OneBitIsPower(x: CryptoMethod, k: nat)
    requires OnlyBit(x, k)
    ensures IsPowerOfTwo(x)
    decreases k
  {
    assert HasBit(x, k) && (HasBit(x, 0) <==> k == 0);
    if k == 0 {
      if x / 2 > 0 {
        var j := SomeBit(x / 2);
        assert HasBit(x, j + 1);
      }
    } else {
      forall j: nat ensures HasBit(x / 2, j) <==> j == k - 1 { assert HasBit(x, j + 1) <==> j + 1 == k; }
      OneBitIsPower(x / 2, k - 1);
    }
  }

  /** A selection is accepted exactly when it is one single method, and that was provided;
      otherwise the error says which of the two failed. */
  lemma AcceptedExactly(selected: CryptoMethod, provide: CryptoMethod)
    ensures Refusal(selected, provide) == [] <==> exists k: nat :: OnlyBit(selected, k) && HasBit(provide, k)
    ensures Refusal(selected, provide) == [NoneAccepted] <==> selected == 0
    ensures Refusal(selected, provide) == [InvalidSelected] <==> selected > 0 && forall k: nat :: !OnlyBit(selected, k)
    ensures Refusal(selected, provide) == [NotProvided] <==>
            exists k: nat :: OnlyBit(selected, k) && !HasBit(provide, k)
  {
    forall k: nat | OnlyBit(selected, k)
      ensures selected > 0 && IsPowerOfTwo(selected) && (Shares(selected, provide) <==> HasBit(provide, k))
    {
      assert HasBit(selected, k);
      if selected == 0 { NoBits(k); }
      OneBitIsPower(selected, k);
      if HasBit(provide, k) { BitIsShared(selected, provide, k); }
      if Shares(selected, provide) { var j := SharedBit(selected, provide); }
    }
    if selected > 0 && IsPowerOfTwo(selected) { var k := SingleMethod(selected); }
  }

  /** What the responder makes of the decrypted request: the method, IA and its length. */
  function ParseRequest(all: bytes, select: CryptoMethod -> CryptoMethod): Parsed<(CryptoMethod, bytes)> {
    if |all| < 8 then Bad(UnexpectedEof)
    else if all[..8] != VC() then Bad(InvalidVC)
    else if |all| < 12 then Bad(UnexpectedEof)
    else
      var provide := FromBe32(all[8..12]);
      if provide == 0 then Bad(NoMethodsProvided)
      else
        var refusal := Refusal(select(provide), provide);
        if refusal != [] then Bad(refusal[0]) else ParsePadAndIA(all, select(provide))
  }

  function ParsePadAndIA(all: bytes, selected: CryptoMethod): Parsed<(CryptoMethod, bytes)>
    requires |all| >= 12
  {
    if |all| < 14 then Bad(UnexpectedEof)
    else
      var c := FromBe16(all[12..14]);
      if |all| < 14 + c then Bad(UnexpectedEof) else ParseIA(all, c, selected)
  }

  function ParseIA(all: bytes, c: nat, selected: CryptoMethod): Parsed<(CryptoMethod, bytes)>
    requires |all| >= 14 + c
  {
    if |all| < 16 + c then Bad(UnexpectedEof)
    else
      var n := FromBe16(all[14 + c..16 + c]);
      if |all| < 16 + c + n then Bad(UnexpectedEof)
      else Got((selected, all[16 + c..16 + c + n]), 16 + c + n)
  }

  /** What the initiator makes of the decrypted bytes behind the synchronisation point. */
  function ParseAnswer(all: bytes, provide: CryptoMethod): Parsed<CryptoMethod> {
    if |all| < 4 then Bad(UnexpectedEof)
    else
      var selected := FromBe32(all[..4]);
      var refusal := Refusal(selected, provide);
      if refusal != [] then Bad(refusal[0]) else ParsePadD(all, selected)
  }

  function ParsePadD(all: bytes, selected: CryptoMethod): Parsed<CryptoMethod>
    requires |all| >= 4
  {
    if |all| < 6 then Bad(UnexpectedEof)
    else
      var d := FromBe16(all[4..6]);
      if |all| < 6 + d then Bad(UnexpectedEof) else Got(selected, 6 + d)
  }

  lemma RequestSlices(provide: CryptoMethod, padC: bytes, ia: bytes, more: bytes)
    requires |padC| < 0x1_0000 && |ia| < 0x1_0000
    ensures var (all, c) := (RequestText(provide, padC, ia) + more, |padC|);
            && |RequestText(provide, padC, ia)| == 16 + c + |ia|
            && all[..8] == VC() && all[8..12] == Be32(provide) && all[12..14] == Be16(c)
            && all[14 + c..16 + c] == Be16(|ia|) && all[16 + c..16 + c + |ia|] == ia
  {
  }

  /** The request reads back: the responder accepts it exactly when its selection is one
      of the provided methods, and then has the initial payload and has read all of it. */
  lemma RequestRoundTrip(provide: CryptoMethod, padC: bytes, ia: bytes, more: bytes,
                         select: CryptoMethod -> CryptoMethod)
    requires |padC| < 0x1_0000 && |ia| < 0x1_0000 && provide < 0x1_0000_0000
    ensures ParseRequest(RequestText(provide, padC, ia) + more, select)
            == if provide == 0 then Bad(NoMethodsProvided)
               else if Refusal(select(provide), provide) != [] then Bad(Refusal(select(provide), provide)[0])
               else Got((select(provide), ia), |RequestText(provide, padC, ia)|)
  {
    RequestSlices(provide, padC, ia, more);
    Be32RoundTrip(provide);
    Be16RoundTrip(|padC|);
    Be16RoundTrip(|ia|);
  }

  lemma AnswerRoundTrip(selected: CryptoMethod, provide: CryptoMethod, padD: bytes, more: bytes)
    requires |padD| < 0x1_0000 && selected < 0x1_0000_0000
    ensures ParseAnswer(AnswerBody(selected, padD) + more, provide)
            == if Refusal(selected, provide) != [] then Bad(Refusal(selected, provide)[0])
               else Got(selected, |AnswerBody(selected, padD)|)
  {
    var all := AnswerBody(selected, padD) + more;
    assert all[..4] == Be32(selected) && all[4..6] == Be16(|padD|);
    Be32RoundTrip(selected);
    Be16RoundTrip(|padD|);
  }
}
