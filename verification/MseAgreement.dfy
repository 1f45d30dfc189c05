/** internal/mse/mse.go: the two sides of one handshake, and the stream between them. */
module MseAgreement {
  import opened Common
  import opened Mse
  import opened Handshakes
  import opened MseStreams

  /** Each side reads the other's public key and arrives at the same S. */
  lemma SameSecret(m: Params, x: nat, y: nat)
    requires m.Valid()
    ensures |BytesWithPad(PublicKey(m, x))| == KEY_SIZE && |BytesWithPad(PublicKey(m, y))| == KEY_SIZE
    ensures ModExp(FromBytes(BytesWithPad(PublicKey(m, y))), x, m.p) == Secret(m, x, y)
    ensures ModExp(FromBytes(BytesWithPad(PublicKey(m, x))), y, m.p) == Secret(m, x, y)
  {
    PaddedKeyRoundTrip(PublicKey(m, x));
    PaddedKeyRoundTrip(PublicKey(m, y));
    SharedSecret(x, y, m.p);
  }

  ghost function Secret(m: Params, x: nat, y: nat): nat
    requires m.p > 0
  {
    ModExp(PublicKey(m, y), x, m.p)
  }

  /** S in closed form. */
  lemma SecretExactly(m: Params, x: nat, y: nat)
    requires m.p > 0
    ensures 0 <= x * y && Secret(m, x, y) == Pow(2, x * y) % m.p
    ensures PublicKey(m, x) == Pow(2, x) % m.p
  {
    PowMod(Pow(G, y), x, m.p);
    PowPow(G, y, x);
    assert x * y == y * x;
  }

  lemma KeyAgrees(m: Params, S: nat, sKey: bytes, pad: bytes, body: bytes, max: int, getSKey: bytes -> Option<bytes>)
    requires m.Valid() && |pad| + 20 <= max && NoEarly(pad, HashInt(m, REQ1, S))
    requires getSKey(HashSKey(m, sKey)) == Some(sKey)
    ensures var s := pad + HashInt(m, REQ1, S) + (XorBytes(m, HashInt(m, REQ3, S), HashSKey(m, sKey)) + body);
            KeyFound(m, s, S, max, getSKey) == Done((sKey, |pad| + 40)) && |pad| + 40 <= |s| && s[|pad| + 40..] == body
  {
    var hidden := XorBytes(m, HashInt(m, REQ3, S), HashSKey(m, sKey));
    var s := pad + HashInt(m, REQ1, S) + (hidden + body);
    SyncAfterPad(pad, HashInt(m, REQ1, S), hidden + body, max);
    assert s[|pad| + 20..|pad| + 40] == hidden;
    assert s[|pad| + 40..] == body;
    XorUncovers(m, HashInt(m, REQ3, S), HashSKey(m, sKey));
  }

  lemma Regroup(p: bytes, a: bytes, b: bytes, c: bytes)
    ensures p + (a + b + c) == p + a + (b + c)
  {
  }

  /** The responder finds the request behind the rest of PadA and reads exactly all of it. */
  lemma ReceivedAgrees(m: Params, s: bytes, S: nat, sKey: bytes, pad: bytes, provide: CryptoMethod, padC: bytes,
                       ia: bytes, max: int, getSKey: bytes -> Option<bytes>, select: CryptoMethod -> CryptoMethod)
    requires m.Valid() && |pad| + 20 <= max && NoEarly(pad, HashInt(m, REQ1, S))
    requires s == pad + Request(m, S, sKey, provide, padC, ia)
    requires getSKey(HashSKey(m, sKey)) == Some(sKey)
    requires |padC| < 0x1_0000 && |ia| < 0x1_0000
    requires 0 < provide < 0x1_0000_0000 && Refusal(select(provide), provide) == []
    ensures |s| == |pad| + 40 + |RequestText(provide, padC, ia)|
    ensures Received(m, s, S, max, getSKey, select) == Done(Session(select(provide), ia, sKey, |pad| + 40, |s|))
  {
    hide KeyFound, ParseRequest, NoEarly;
    var text := RequestText(provide, padC, ia);
    var c := Started(m, KEY_A, S, sKey);
    KeyAgrees(m, S, sKey, pad, Crypt(m, c, text), max, getSKey);
    Regroup(pad, HashInt(m, REQ1, S), XorBytes(m, HashInt(m, REQ3, S), HashSKey(m, sKey)), Crypt(m, c, text));
    CryptTwice(m, c, text);
    RequestRoundTrip(provide, padC, ia, [], select);
    assert text + [] == text;
  }

  /** The initiator finds the answer behind the rest of PadB and stops right after PadD,
      whatever payload follows. */
  lemma AnsweredAgrees(m: Params, s: bytes, c: Cipher, pad: bytes, selected: CryptoMethod, provide: CryptoMethod,
                       padD: bytes, more: bytes, max: int)
    requires m.Valid() && |pad| + 8 <= max && NoEarly(pad, Crypt(m, c, VC()))
    requires s == pad + Crypt(m, c, AnswerText(selected, padD)) + more
    requires |padD| < 0x1_0000 && selected < 0x1_0000_0000 && Refusal(selected, provide) == []
    ensures Answered(m, s, c, max, provide) == Done((selected, |pad|, |pad| + |AnswerText(selected, padD)|))
  {
    hide NoEarly, FindSync, ParseAnswer, Crypt, AnswerBody;
    var (key, body) := (Crypt(m, c, VC()), AnswerBody(selected, padD));
    var d := Advance(c, 8);
    CryptConcat(m, c, VC(), body);
    var rest := Crypt(m, d, body) + more;
    assert s == pad + key + rest;
    SyncAfterPad(pad, key, rest, max);
    assert s[|pad| + 8..] == rest;
    Delivered(m, d, body, more);
    AnswerRoundTrip(selected, provide, padD, Crypt(m, Advance(d, |body|), more));
  }

  // ---- the two streams together

  method Carry(from: Stream, to: Stream)
    requires from != to
    modifies from`sent, to`unread
    ensures to.unread == old(to.unread) + old(from.sent) && from.sent == []
  {
    to.unread := to.unread + from.sent;
    from.sent := [];
  }

  ghost predicate Idle(s: Stream)
    reads s
  {
    s.unread == [] && s.sent == [] && s.front == []
  }

  /** `to` will decrypt the bytes on their way at the position they were encrypted at. */
  ghost predicate Linked(from: Stream, to: Stream)
    reads from, to
  {
    from.m == to.m && from.enc == Advance(to.dec, |to.unread| + |from.sent|)
  }

  /** Everything `to` has still to read of what `from` has written. */
  ghost function Pending(from: Stream, to: Stream): bytes
    reads from, to
  {
    to.front + Crypt(to.m, to.dec, to.unread + from.sent)
  }

  /** What the two applications bring to the handshake. */
  datatype Setup = Setup(x: nat, y: nat, sKey: bytes, provide: CryptoMethod, ia: bytes,
                         padA: bytes, padB: bytes, padC: bytes, padD: bytes)

  /** Pads as padRandom and padZero draw them, a payload that fits, and no sync pattern
      inside the padding. */
  ghost predicate Fair(m: Params, u: Setup)
    requires m.Valid()
  {
    && |u.padA| < 512 && |u.padB| < 512 && |u.padC| < 512 && |u.padD| < 512
    && 0 < u.provide < 0x1_0000_0000 && |u.ia| <= 0xFFFF
    && NoEarly(u.padA, HashInt(m, REQ1, Secret(m, u.x, u.y)))
    && NoEarly(u.padB, Crypt(m, Started(m, KEY_B, Secret(m, u.x, u.y), u.sKey), VC()))
  }

  /** Steps 1 and 2: both sides hold the same S, and only padding is left unread. */
  method ExchangeKeys(a: Stream, b: Stream, u: Setup, readB: nat) returns (r: Result<(nat, nat)>)
    requires a != b && a.m == b.m && a.m.Valid() && Fair(a.m, u) && Idle(a) && Idle(b)
    modifies a`sent, b`unread, b`sent
    ensures r.Done? && r.value.0 == Secret(a.m, u.x, u.y)
    ensures KEY_SIZE <= r.value.1 <= KEY_SIZE + |u.padA| && b.unread == u.padA[r.value.1 - KEY_SIZE..]
    ensures a.sent == [] && b.sent == BytesWithPad(PublicKey(a.m, u.y)) + u.padB
  {
    SameSecret(a.m, u.x, u.y);
    var begun := a.OpenOutgoing(u.x, u.padA, u.provide, u.ia);
    ghost var key := BytesWithPad(PublicKey(a.m, u.x));
    assert a.sent == key + u.padA;
    Carry(a, b);
    assert b.unread == key + u.padA;
    KeyThenPad(key, u.padA);
    r := b.OpenIncoming(u.y, readB, u.padB);
  }

  lemma KeyThenPad(key: bytes, pad: bytes)
    requires |key| == KEY_SIZE
    ensures (key + pad)[..KEY_SIZE] == key
    ensures forall n :: KEY_SIZE <= n <= KEY_SIZE + |pad| ==> (key + pad)[n..] == pad[n - KEY_SIZE..]
  {
  }

  /** A whole handshake between the two sides: they agree on the method, both directions
      are at the same key stream position, and IA is what the responder reads first. */
  method Handshake(a: Stream, b: Stream, u: Setup, readA: nat, readB: nat,
                   getSKey: bytes -> Option<bytes>, select: CryptoMethod -> CryptoMethod)
    returns (ra: Result<CryptoMethod>, rb: Result<CryptoMethod>)
    requires a != b && a.m == b.m && a.m.Valid() && Fair(a.m, u) && Idle(a) && Idle(b)
    requires getSKey(HashSKey(a.m, u.sKey)) == Some(u.sKey)
    requires Refusal(select(u.provide), u.provide) == [] && select(u.provide) < 0x1_0000_0000
    modifies a, b
    ensures ra == rb == Done(select(u.provide))
    ensures Linked(a, b) && Linked(b, a)
    ensures Pending(a, b) == u.ia && Pending(b, a) == [] && b.front == u.ia
    ensures select(u.provide) == 1 ==> a.enc == a.dec == b.enc == b.dec == PlainText
    ensures select(u.provide) != 1 ==>
              var S := BytesWithPad(Secret(a.m, u.x, u.y));
              && a.enc == b.dec == Rc4(a.m.sha1([107, 101, 121, 65] + S + u.sKey), 1040 + |u.padC| + |u.ia|)
              && b.enc == a.dec == Rc4(a.m.sha1([107, 101, 121, 66] + S + u.sKey), 1038 + |u.padD|)
  {
    var keyed := ExchangeKeys(a, b, u, readB);
    ra, rb := Negotiate(a, b, u, readA, keyed.value.0, keyed.value.1, getSKey, select);
    NothingLinked(a, b);
    NothingLinked(b, a);
    BehindExactly(a.m, u, select(u.provide));
  }

  /** With nothing on its way, both ends of a direction are in the same position. */
  lemma NothingLinked(from: Stream, to: Stream)
    requires Linked(from, to) && to.unread == [] && from.sent == []
    ensures from.enc == to.dec
  {
    AtRest(from.m, to.dec);
  }

  /** The cipher of one direction when n bytes of the handshake have gone through it. */
  ghost function Behind(m: Params, u: Setup, prefix: bytes, selected: CryptoMethod, n: nat): Cipher
    requires m.p > 0
  {
    Switched(selected, Advance(Started(m, prefix, Secret(m, u.x, u.y), u.sKey), n))
  }

  lemma BehindExactly(m: Params, u: Setup, selected: CryptoMethod)
    requires m.Valid() && |u.padC| < 0x1_0000 && |u.padD| < 0x1_0000 && |u.ia| < 0x1_0000
    ensures var S := BytesWithPad(Secret(m, u.x, u.y));
            && Behind(m, u, KEY_A, selected, |RequestText(u.provide, u.padC, u.ia)|)
               == (if selected == 1 then PlainText
                   else Rc4(m.sha1([107, 101, 121, 65] + S + u.sKey), 1040 + |u.padC| + |u.ia|))
            && Behind(m, u, KEY_B, selected, |AnswerText(selected, u.padD)|)
               == (if selected == 1 then PlainText
                   else Rc4(m.sha1([107, 101, 121, 66] + S + u.sKey), 1038 + |u.padD|))
  {
    hide Secret, BytesWithPad;
  }

  method Negotiate(a: Stream, b: Stream, u: Setup, readA: nat, S: nat, firstB: nat,
                   getSKey: bytes -> Option<bytes>, select: CryptoMethod -> CryptoMethod)
    returns (ra: Result<CryptoMethod>, rb: Result<CryptoMethod>)
    requires a != b && a.m == b.m && a.m.Valid() && Fair(a.m, u)
    requires a.unread == [] && a.front == [] && a.sent == [] && S == Secret(a.m, u.x, u.y)
    requires KEY_SIZE <= firstB <= KEY_SIZE + |u.padA| && b.unread == u.padA[firstB - KEY_SIZE..] && b.front == []
    requires b.sent == BytesWithPad(PublicKey(a.m, u.y)) + u.padB
    requires getSKey(HashSKey(a.m, u.sKey)) == Some(u.sKey)
    requires Refusal(select(u.provide), u.provide) == [] && select(u.provide) < 0x1_0000_0000
    modifies a, b
    ensures ra == rb == Done(select(u.provide))
    ensures Linked(a, b) && Linked(b, a)
    ensures Pending(a, b) == u.ia && Pending(b, a) == [] && b.front == u.ia
    ensures a.unread == a.sent == b.unread == b.sent == []
    ensures a.enc == Behind(a.m, u, KEY_A, select(u.provide), |RequestText(u.provide, u.padC, u.ia)|)
    ensures b.enc == Behind(a.m, u, KEY_B, select(u.provide), |AnswerText(select(u.provide), u.padD)|)
  {
    hide Answered, Received, AnswerText, RequestText, NoEarly, Crypt, Advance, Started, Request, PublicKey,
        BytesWithPad, Secret;
    ghost var m := a.m;
    var first := SendRequest(a, b, u, readA, S);
    ghost var padA := b.unread;
    NoEarlySuffix(u.padA, HashInt(m, REQ1, S), firstB - KEY_SIZE);
    Carry(a, b);
    rb := AnswerRequest(b, S, firstB, getSKey, select, u, padA);
    ghost var padB, text := a.unread, AnswerText(select(u.provide), u.padD);
    Carry(b, a);
    assert a.unread == padB + Crypt(m, a.dec, text) + [];
    AnsweredAgrees(m, a.unread, a.dec, padB, select(u.provide), u.provide, u.padD, [], 616 - first);
    ra := a.FinishOutgoing(first, u.provide);
    assert a.unread == [];
    AtRest(m, a.dec);
    AtRest(m, b.dec);
  }

  lemma AtRest(m: Params, c: Cipher)
    ensures Advance(c, 0) == c && Crypt(m, c, []) == []
  {
  }

  /** The initiator's second half: the rest of PadB stays unread. */
  method SendRequest(a: Stream, b: Stream, u: Setup, readA: nat, S: nat) returns (first: nat)
    requires a != b && a.m == b.m && a.m.Valid() && Fair(a.m, u)
    requires a.unread == [] && a.sent == [] && S == Secret(a.m, u.x, u.y)
    requires b.sent == BytesWithPad(PublicKey(a.m, u.y)) + u.padB
    modifies a, b`sent
    ensures KEY_SIZE <= first <= KEY_SIZE + |u.padB| && a.unread == u.padB[first - KEY_SIZE..] && b.sent == []
    ensures a.sent == Request(a.m, S, u.sKey, u.provide, u.padC, u.ia) && a.front == old(a.front)
    ensures a.enc == Advance(Started(a.m, KEY_A, S, u.sKey), |RequestText(u.provide, u.padC, u.ia)|)
    ensures a.dec == Started(a.m, KEY_B, S, u.sKey)
    ensures NoEarly(a.unread, Crypt(a.m, a.dec, VC()))
  {
    SameSecret(a.m, u.x, u.y);
    ghost var key := BytesWithPad(PublicKey(a.m, u.y));
    Carry(b, a);
    assert a.unread == key + u.padB;
    KeyThenPad(key, u.padB);
    var r := a.ContinueOutgoing(u.x, readA, u.sKey, u.provide, u.padC, u.ia);
    first := r.value;
    NoEarlySuffix(u.padB, Crypt(a.m, a.dec, VC()), first - KEY_SIZE);
  }

  /** The responder's second half, with the rest of PadA unread. */
  method AnswerRequest(b: Stream, S: nat, firstB: nat, getSKey: bytes -> Option<bytes>,
                       select: CryptoMethod -> CryptoMethod, u: Setup, ghost pad: bytes)
    returns (rb: Result<CryptoMethod>)
    requires b.m.Valid() && b.sent == []
    requires b.unread == pad + Request(b.m, S, u.sKey, u.provide, u.padC, u.ia)
    requires |pad| + firstB + 20 <= 628 && NoEarly(pad, HashInt(b.m, REQ1, S))
    requires |u.padC| < 0x1_0000 && |u.ia| < 0x1_0000
    requires getSKey(HashSKey(b.m, u.sKey)) == Some(u.sKey)
    requires 0 < u.provide < 0x1_0000_0000 && Refusal(select(u.provide), u.provide) == []
    modifies b
    ensures rb == Done(select(u.provide)) && b.unread == [] && b.front == u.ia
    ensures var (text, c) := (AnswerText(select(u.provide), u.padD), Started(b.m, KEY_B, S, u.sKey));
            b.sent == Crypt(b.m, c, text) && b.enc == Switched(select(u.provide), Advance(c, |text|))
    ensures b.dec == Switched(select(u.provide),
              Advance(Started(b.m, KEY_A, S, u.sKey), |RequestText(u.provide, u.padC, u.ia)|))
  {
    hide Received, NoEarly, RequestText, AnswerText, Request;
    ReceivedAgrees(b.m, b.unread, S, u.sKey, pad, u.provide, u.padC, u.ia, 628 - firstB, getSKey, select);
    ghost var session;
    rb, session := b.FinishIncoming(S, firstB, getSKey, select, u.padD);
  }

  // ---- afterwards: bytes come out in the order they went in, the initial payload first

  method Send(from: Stream, to: Stream, data: bytes)
    requires from != to && from.m.Valid() && Linked(from, to)
    modifies from`sent, from`enc
    ensures Linked(from, to) && Pending(from, to) == old(Pending(from, to)) + data
  {
    ghost var m, way := from.m, to.unread + from.sent;
    from.Write(data);
    var c := Advance(to.dec, |way|);
    assert to.unread + from.sent == way + Crypt(m, c, data);
    CryptConcat(m, to.dec, way, Crypt(m, c, data));
    CryptTwice(m, c, data);
  }

  method Transmit(from: Stream, to: Stream)
    requires from != to && Linked(from, to)
    modifies from`sent, to`unread
    ensures Linked(from, to) && Pending(from, to) == old(Pending(from, to)) && from.sent == []
  {
    Carry(from, to);
    assert to.unread + from.sent == old(to.unread) + old(from.sent);
  }

  method Receive(from: Stream, to: Stream, max: nat) returns (data: bytes)
    requires from != to && Linked(from, to)
    modifies to`unread, to`dec, to`front
    ensures Linked(from, to) && data + Pending(from, to) == old(Pending(from, to))
    ensures |data| <= max && (data == [] && max > 0 ==> old(to.front) == [] && old(to.unread) == [])
  {
    ghost var way := to.unread + from.sent;
    data := to.Read(max);
    if old(to.front) == [] {
      CryptDrop(to.m, old(to.dec), way, |data|);
      assert way[..|data|] == old(to.unread)[..|data|] && way[|data|..] == to.unread + from.sent;
    }
  }
}
