/** internal/mse/mse.go: Stream. Each handshake is cut where it blocks on the peer:
    OpenOutgoing, ContinueOutgoing, FinishOutgoing and OpenIncoming, FinishIncoming. */
module MseStreams {
  import opened BigEndian
  import opened Common
  import opened Mse
  import opened Handshakes

  const REQ1: bytes := [114, 101, 113, 49]
  const REQ2: bytes := [114, 101, 113, 50]
  const REQ3: bytes := [114, 101, 113, 51]
  const KEY_A: bytes := [107, 101, 121, 65]
  const KEY_B: bytes := [107, 101, 121, 66]

  function PublicKey(m: Params, x: nat): nat
    requires m.p > 0
  {
    ModExp(G, x, m.p)
  }

  function HashInt(m: Params, prefix: bytes, S: nat): bytes {
    m.sha1(prefix + BytesWithPad(S))
  }

  function HashSKey(m: Params, key: bytes): bytes {
    m.sha1(REQ2 + key)
  }

  /** initRC4: the key of one direction, with 1024 bytes of its stream thrown away. */
  function Started(m: Params, prefix: bytes, S: nat, sKey: bytes): Cipher {
    Rc4(m.sha1(prefix + BytesWithPad(S) + sKey), 1024)
  }

  function Switched(selected: CryptoMethod, c: Cipher): Cipher {
    if selected == PLAIN_TEXT then PlainText else c
  }

  function XorAt(m: Params, x: byte, b: bytes, i: nat): byte {
    if i < |b| then m.xor(x, b[i]) else x
  }

  /** Byte for byte, for the two hashes of the same length it is used on. */
  function XorBytes(m: Params, a: bytes, b: bytes): (r: bytes)
    ensures |r| == |a|
  {
    seq(|a|, i requires 0 <= i < |a| => XorAt(m, a[i], b, i))
  }

  /** The key hash is hidden under req3 by one side and uncovered by the other. */
  lemma XorUncovers(m: Params, a: bytes, b: bytes)
    requires m.Valid() && |a| == |b|
    ensures XorBytes(m, XorBytes(m, a, b), a) == b
  {
    forall i | 0 <= i < |a| ensures XorBytes(m, XorBytes(m, a, b), a)[i] == b[i] {
      assert m.xor(a[i], b[i]) == m.xor(b[i], a[i]);
    }
  }

  method XorInto(m: Params, a: array<byte>, b: bytes)
    requires a.Length == |b|
    modifies a
    ensures a[..] == XorBytes(m, old(a[..]), b)
  {
    for i := 0 to a.Length
      invariant forall j :: 0 <= j < i ==> a[j] == m.xor(old(a[j]), b[j])
      invariant forall j :: i <= j < a.Length ==> a[j] == old(a[j])
    {
      a[i] := m.xor(a[i], b[i]);
    }
  }

  /** Step 3 as it goes over the wire. */
  function Request(m: Params, S: nat, sKey: bytes, provide: CryptoMethod, padC: bytes, ia: bytes): bytes {
    HashInt(m, REQ1, S) + XorBytes(m, HashInt(m, REQ3, S), HashSKey(m, sKey))
    + Crypt(m, Started(m, KEY_A, S, sKey), RequestText(provide, padC, ia))
  }

  /** What the two sides write, byte by byte: req1, req2 and req3 are the texts that precede
      what is hashed, and the encrypted parts carry eight zeros, the methods in four bytes
      and each length in two. */
  lemma RequestBytes(m: Params, S: nat, sKey: bytes, provide: CryptoMethod, padC: bytes, ia: bytes)
    requires provide < UINT32 && |padC| < 0x1_0000 && |ia| < 0x1_0000
    ensures var (s, c, n) := (BytesWithPad(S), |padC|, |ia|);
            var text := [0, 0, 0, 0, 0, 0, 0, 0] + Num(provide) + [c / 256, c % 256] + padC + [n / 256, n % 256] + ia;
            var hidden := XorBytes(m, m.sha1([114, 101, 113, 51] + s), m.sha1([114, 101, 113, 50] + sKey));
            Request(m, S, sKey, provide, padC, ia) ==
            m.sha1([114, 101, 113, 49] + s) + hidden
            + Crypt(m, Rc4(m.sha1([107, 101, 121, 65] + s + sKey), 1024), text)
  {
    hide Crypt, XorBytes, BytesWithPad;
    RequestTextBytes(provide, padC, ia);
  }

  lemma RequestTextBytes(provide: CryptoMethod, padC: bytes, ia: bytes)
    requires provide < UINT32 && |padC| < 0x1_0000 && |ia| < 0x1_0000
    ensures var (c, n) := (|padC|, |ia|);
            RequestText(provide, padC, ia) ==
            [0, 0, 0, 0, 0, 0, 0, 0] + Num(provide) + [c / 256, c % 256] + padC + [n / 256, n % 256] + ia
  {
    hide Be32, Be16;
    Be32Bytes(provide);
    Be16Bytes(|padC|);
    Be16Bytes(|ia|);
  }

  lemma AnswerBytes(selected: CryptoMethod, padD: bytes)
    requires selected < UINT32 && |padD| < 0x1_0000
    ensures AnswerText(selected, padD) ==
            [0, 0, 0, 0, 0, 0, 0, 0] + (Num(selected) + [|padD| / 256, |padD| % 256] + padD)
  {
    hide Be32, Be16;
    Be32Bytes(selected);
    Be16Bytes(|padD|);
  }

  datatype Result<T> = Done(value: T) | Failed(error: Error)

  /** An accepted request: decryption starts at byte `at`, and n bytes were read. */
  datatype Session = Session(selected: CryptoMethod, ia: bytes, sKey: bytes, at: nat, n: nat)

  /** HandshakeIncoming from its readSync to getSKey, for the unread bytes s: the stream key
      and where the encrypted part begins. */
  function KeyFound(m: Params, s: bytes, S: nat, max: int, getSKey: bytes -> Option<bytes>): Result<(bytes, nat)> {
    match FindSync(s, HashInt(m, REQ1, S), max)
    case NotFound => Failed(SyncNotFound)
    case Eof => Failed(UnexpectedEof)
    case Found(d) =>
      if |s| < d + 40 then Failed(UnexpectedEof)
      else
        match getSKey(XorBytes(m, s[d + 20..d + 40], HashInt(m, REQ3, S)))
        case None => Failed(InvalidSKey)
        case Some(sKey) => Done((sKey, d + 40))
  }

  function Received(m: Params, s: bytes, S: nat, max: int, getSKey: bytes -> Option<bytes>,
                    select: CryptoMethod -> CryptoMethod): Result<Session> {
    match KeyFound(m, s, S, max, getSKey)
    case Failed(e) => Failed(e)
    case Done((sKey, at)) =>
      if at > |s| then Failed(UnexpectedEof)
      else
        match ParseRequest(Crypt(m, Started(m, KEY_A, S, sKey), s[at..]), select)
        case Bad(e) => Failed(e)
        case Got((selected, ia), n) => Done(Session(selected, ia, sKey, at, at + n))
  }

  /** HandshakeOutgoing from its readSync on: the method, where the encrypted VC begins and
      how many bytes were read. */
  function Answered(m: Params, s: bytes, dec: Cipher, max: int, provide: CryptoMethod)
    : Result<(CryptoMethod, nat, nat)>
  {
    match FindSync(s, Crypt(m, dec, VC()), max)
    case NotFound => Failed(SyncNotFound)
    case Eof => Failed(UnexpectedEof)
    case Found(d) =>
      if |s| < d + 8 then Failed(UnexpectedEof)
      else
        match ParseAnswer(Crypt(m, Advance(dec, 8), s[d + 8..]), provide)
        case Bad(e) => Failed(e)
        case Got(selected, n) => Done((selected, d, d + 8 + n))
  }

  lemma SyncInside(s: bytes, key: bytes, max: int)
    ensures FindSync(s, key, max).Found? ==> FindSync(s, key, max).at + |key| <= |s|
  {
    if |key| <= |s| && FindSync(s, key, max).Found? {
      ScanExact(s, key, 0, max - |key|, FindSync(s, key, max).at);
    }
  }

  class Stream {
    const m: Params
    var unread: bytes  // arrived and not yet read from s.raw
    var sent: bytes    // written to s.raw and not yet delivered
    var enc: Cipher    // s.w
    var dec: Cipher    // s.r
    var front: bytes   // the initial payload in front of s.r in s.r2

    constructor (m: Params)
      ensures this.m == m && unread == [] && sent == [] && front == []
    {
      this.m := m;
      unread, sent, front := [], [], [];
      enc, dec := PlainText, PlainText;
    }

    ghost predicate Position(u: bytes, d: Cipher, k: nat)
      reads this
    {
      k <= |u| && unread == u[k..] && dec == Advance(d, k)
    }

    /** Reads and decrypts the bytes k..k + n of the stream u. */
    method ReadDecrypted(n: nat, ghost u: bytes, ghost d: Cipher, ghost k: nat) returns (ok: bool, data: bytes)
      requires Position(u, d, k)
      modifies this`unread, this`dec
      ensures ok == (k + n <= |u|)
      ensures ok ==> Position(u, d, k + n) && data == Crypt(m, d, u)[k..k + n]
    {
      if |unread| < n { return false, []; }
      CryptDrop(m, d, u, k);
      CryptDrop(m, dec, unread, n);
      data := Crypt(m, dec, unread[..n]);
      assert Crypt(m, d, u)[k..][..n] == Crypt(m, d, u)[k..k + n];
      unread, dec := unread[n..], Advance(dec, n);
      assert unread == u[k + n..];
      ok := true;
    }

    /** readSync: a window of len(key) bytes slides over the stream. */
    method ReadSync(key: bytes, max: int) returns (r: Sync)
      modifies this`unread
      ensures r == FindSync(old(unread), key, max)
      ensures r.Found? ==> r.at + |key| <= |old(unread)| && unread == old(unread)[r.at + |key|..]
    {
      if |unread| < |key| { return Eof; }
      var window := unread[..|key|];
      unread := unread[|key|..];
      var left := max - |key|;
      var d := 0;
      while window != key && left > 0 && unread != []
        invariant d + |key| <= |old(unread)| && unread == old(unread)[d + |key|..]
        invariant window == old(unread)[d..d + |key|]
        invariant FindSync(old(unread), key, max) == Scan(old(unread), key, d, left)
        decreases |unread|
      {
        window := (window + [unread[0]])[1..];
        unread := unread[1..];
        d, left := d + 1, left - 1;
      }
      r := if window == key then Found(d) else if left <= 0 then NotFound else Eof;
    }

    /** io.ReadAtLeast into 608 bytes, at least 96 of them: `wanted` is what the transport
        had ready. */
    method ReadKey(wanted: nat) returns (r: Result<(nat, nat)>)
      modifies this`unread
      ensures |old(unread)| < KEY_SIZE ==> r == Failed(UnexpectedEof)
      ensures |old(unread)| >= KEY_SIZE ==>
                && r.Done? && KEY_SIZE <= r.value.1 <= 608 && r.value.1 <= |old(unread)|
                && r.value.0 == FromBytes(old(unread)[..KEY_SIZE]) && unread == old(unread)[r.value.1..]
    {
      if |unread| < KEY_SIZE { return Failed(UnexpectedEof); }
      var most := Min(KEY_SIZE + 512, |unread|);
      var firstRead := if wanted < KEY_SIZE then KEY_SIZE else Min(wanted, most);
      var b := unread[..firstRead];
      unread := unread[firstRead..];
      assert b[..KEY_SIZE] == old(unread)[..KEY_SIZE];
      r := Done((FromBytes(b[..KEY_SIZE]), firstRead));
    }

    method UpdateCipher(selected: CryptoMethod)
      modifies this`enc, this`dec
      ensures enc == Switched(selected, old(enc)) && dec == Switched(selected, old(dec))
    {
      if selected == PLAIN_TEXT {
        enc, dec := PlainText, PlainText;
      }
    }

    /** Stream.Write */
    method Write(data: bytes)
      modifies this`sent, this`enc
      ensures sent == old(sent) + Crypt(m, old(enc), data) && enc == Advance(old(enc), |data|)
    {
      sent := sent + Crypt(m, enc, data);
      enc := Advance(enc, |data|);
    }

    /** Stream.Read: the initial payload first, then decrypted bytes. */
    method Read(max: nat) returns (data: bytes)
      modifies this`unread, this`dec, this`front
      ensures old(front) != [] ==>
                && data == old(front)[..Min(max, |old(front)|)] && front == old(front)[|data|..]
                && unread == old(unread) && dec == old(dec)
      ensures old(front) == [] ==>
                && |data| == Min(max, |old(unread)|) && data == Crypt(m, old(dec), old(unread)[..|data|])
                && unread == old(unread)[|data|..] && dec == Advance(old(dec), |data|) && front == []
    {
      if front != [] {
        var n := Min(max, |front|);
        data, front := front[..n], front[n..];
      } else {
        var n := Min(max, |unread|);
        data := Crypt(m, dec, unread[..n]);
        unread, dec := unread[n..], Advance(dec, n);
      }
    }

    // ---- HandshakeOutgoing

    method OpenOutgoing(x: nat, padA: bytes, provide: CryptoMethod, ia: bytes) returns (r: Result<()>)
      requires m.p > 0
      modifies this`sent
      ensures r == if provide == 0 then Failed(NoMethodsProvided)
                   else if |ia| > 0xFFFF then Failed(PayloadTooBig)
                   else Done(())
      ensures sent == old(sent) + if r.Done? then BytesWithPad(PublicKey(m, x)) + padA else []
    {
      if provide == 0 { return Failed(NoMethodsProvided); }
      if |ia| > 0xFFFF { return Failed(PayloadTooBig); }
      sent := sent + (BytesWithPad(PublicKey(m, x)) + padA);
      r := Done(());
    }

    /** Reads the peer's key and sends step 3; returns how much the first read took. */
    method ContinueOutgoing(x: nat, wanted: nat, sKey: bytes, provide: CryptoMethod, padC: bytes, ia: bytes)
      returns (r: Result<nat>)
      requires m.Valid()
      modifies this
      ensures |old(unread)| < KEY_SIZE ==> r == Failed(UnexpectedEof)
      ensures |old(unread)| >= KEY_SIZE ==>
                var S := ModExp(FromBytes(old(unread)[..KEY_SIZE]), x, m.p);
                && r.Done? && KEY_SIZE <= r.value <= 608 && r.value <= |old(unread)| && unread == old(unread)[r.value..]
                && sent == old(sent) + Request(m, S, sKey, provide, padC, ia)
                && enc == Advance(Started(m, KEY_A, S, sKey), |RequestText(provide, padC, ia)|)
                && dec == Started(m, KEY_B, S, sKey)
      ensures front == old(front)
    {
      var k := ReadKey(wanted);
      if k.Failed? { return Failed(k.error); }
      var S := ModExp(k.value.0, x, m.p);
      enc, dec := Started(m, KEY_A, S, sKey), Started(m, KEY_B, S, sKey);
      var hashS, hashSKey := Hashes(m, S, sKey);
      var text := RequestText(provide, padC, ia);
      sent := sent + (hashS + hashSKey + Crypt(m, enc, text));
      enc := Advance(enc, |text|);
      r := Done(k.value.1);
    }

    method FinishOutgoing(firstRead: nat, provide: CryptoMethod) returns (r: Result<CryptoMethod>)
      modifies this
      ensures match Answered(m, old(unread), old(dec), 616 - firstRead, provide)
              case Failed(e) => r == Failed(e)
              case Done((selected, at, n)) =>
                && r == Done(selected) && at <= n <= |old(unread)| && unread == old(unread)[n..]
                && enc == Switched(selected, old(enc)) && dec == Switched(selected, Advance(old(dec), n - at))
      ensures sent == old(sent) && front == old(front)
    {
      var vcEnc := Crypt(m, dec, VC());
      dec := Advance(dec, VC_SIZE);
      SyncInside(unread, vcEnc, 616 - firstRead);
      var sync := ReadSync(vcEnc, 616 - firstRead);
      if sync == NotFound { return Failed(SyncNotFound); }
      if sync == Eof { return Failed(UnexpectedEof); }
      ghost var u, c := unread, dec;
      ghost var n;
      r, n := ReadAnswer(provide, u, c);
      if r.Failed? { return; }
      UpdateCipher(r.value);
    }

    method ReadAnswer(provide: CryptoMethod, ghost u: bytes, ghost c: Cipher)
      returns (r: Result<CryptoMethod>, ghost n: nat)
      requires Position(u, c, 0)
      modifies this`unread, this`dec
      ensures match ParseAnswer(Crypt(m, c, u), provide)
              case Bad(e) => r == Failed(e)
              case Got(selected, k) => r == Done(selected) && n == k && Position(u, c, n)
    {
      n := 0;
      var ok, data := ReadDecrypted(4, u, c, 0);
      if !ok { return Failed(UnexpectedEof), 0; }
      var selected := FromBe32(data);
      var refusal := Vet(selected, provide);
      if refusal != [] { return Failed(refusal[0]), 0; }
      r, n := SkipPadD(selected, u, c);
    }

    method SkipPadD(selected: CryptoMethod, ghost u: bytes, ghost c: Cipher)
      returns (r: Result<CryptoMethod>, ghost n: nat)
      requires Position(u, c, 4)
      modifies this`unread, this`dec
      ensures match ParsePadD(Crypt(m, c, u), selected)
              case Bad(e) => r == Failed(e)
              case Got(v, k) => r == Done(v) && n == k && Position(u, c, n)
    {
      var ok, data := ReadDecrypted(2, u, c, 4);
      if !ok { return Failed(UnexpectedEof), 0; }
      var lenPadD := FromBe16(data);
      ok, data := ReadDecrypted(lenPadD, u, c, 6);
      if !ok { return Failed(UnexpectedEof), 0; }
      r, n := Done(selected), 6 + lenPadD;
    }

    // ---- HandshakeIncoming

    /** Reads the peer's key and sends step 2; returns S and how much the first read took. */
    method OpenIncoming(y: nat, wanted: nat, padB: bytes) returns (r: Result<(nat, nat)>)
      requires m.p > 0
      modifies this`unread, this`sent
      ensures |old(unread)| < KEY_SIZE ==> r == Failed(UnexpectedEof) && sent == old(sent)
      ensures |old(unread)| >= KEY_SIZE ==>
                && r.Done? && r.value.0 == ModExp(FromBytes(old(unread)[..KEY_SIZE]), y, m.p)
                && KEY_SIZE <= r.value.1 <= 608 && r.value.1 <= |old(unread)| && unread == old(unread)[r.value.1..]
                && sent == old(sent) + (BytesWithPad(PublicKey(m, y)) + padB)
    {
      var k := ReadKey(wanted);
      if k.Failed? { return Failed(k.error); }
      sent := sent + (BytesWithPad(PublicKey(m, y)) + padB);
      r := Done((ModExp(k.value.0, y, m.p), k.value.1));
    }

    /** The state after the session w was accepted, for the stream u and the bytes already
        sent: IA first, step 4 sent, both ciphers behind the handshake. */
    ghost predicate Accepted(w: Session, u: bytes, sent0: bytes, S: nat, padD: bytes)
      reads this
    {
      && w.at <= w.n <= |u| && unread == u[w.n..] && front == w.ia
      && sent == sent0 + Crypt(m, Started(m, KEY_B, S, w.sKey), AnswerText(w.selected, padD))
      && enc == Switched(w.selected, Advance(Started(m, KEY_B, S, w.sKey), |AnswerText(w.selected, padD)|))
      && dec == Switched(w.selected, Advance(Started(m, KEY_A, S, w.sKey), w.n - w.at))
    }

    method FindKey(S: nat, max: int, getSKey: bytes -> Option<bytes>) returns (r: Result<bytes>, ghost at: nat)
      requires m.Valid()
      modifies this`unread
      ensures match KeyFound(m, old(unread), S, max, getSKey)
              case Failed(e) => r == Failed(e)
              case Done((sKey, n)) => r == Done(sKey) && at == n <= |old(unread)| && unread == old(unread)[n..]
    {
      var req1 := HashInt(m, REQ1, S);
      SyncInside(unread, req1, max);
      var sync := ReadSync(req1, max);
      if sync == NotFound { return Failed(SyncNotFound), 0; }
      if sync == Eof { return Failed(UnexpectedEof), 0; }
      if |unread| < SHA1_SIZE { return Failed(UnexpectedEof), 0; }
      at := sync.at + 40;
      assert unread[..SHA1_SIZE] == old(unread)[sync.at + 20..at];
      assert unread[SHA1_SIZE..] == old(unread)[at..];
      var hash := Uncover(m, unread[..SHA1_SIZE], HashInt(m, REQ3, S));
      unread := unread[SHA1_SIZE..];
      var found := getSKey(hash);
      r := if found == None then Failed(InvalidSKey) else Done(found.value);
    }

    method FinishIncoming(S: nat, firstRead: nat, getSKey: bytes -> Option<bytes>,
                          select: CryptoMethod -> CryptoMethod, padD: bytes)
      returns (r: Result<CryptoMethod>, ghost session: Result<Session>)
      requires m.Valid()
      modifies this
      ensures session == Received(m, old(unread), S, 628 - firstRead, getSKey, select)
      ensures session.Failed? ==> r == Failed(session.error) && sent == old(sent)
      ensures session.Done? ==>
                r == Done(session.value.selected) && Accepted(session.value, old(unread), old(sent), S, padD)
    {
      hide KeyFound, ParseRequest, AnswerText, Started;
      session := Received(m, unread, S, 628 - firstRead, getSKey, select);
      var k;
      ghost var at;
      k, at := FindKey(S, 628 - firstRead, getSKey);
      if k.Failed? { r := Failed(k.error); return; }
      var sKey := k.value;
      enc, dec := Started(m, KEY_B, S, sKey), Started(m, KEY_A, S, sKey);
      ghost var u, c := unread, dec;
      var p;
      ghost var n;
      p, n := ReadRequest(select, u, c);
      if p.Failed? { r := Failed(p.error); return; }
      var (selected, ia) := p.value;
      SendAnswer(selected, ia, padD);
      r := Done(selected);
    }

    method SendAnswer(selected: CryptoMethod, ia: bytes, padD: bytes)
      modifies this`sent, this`enc, this`dec, this`front
      ensures sent == old(sent) + Crypt(m, old(enc), AnswerText(selected, padD))
      ensures enc == Switched(selected, Advance(old(enc), |AnswerText(selected, padD)|))
      ensures dec == Switched(selected, old(dec)) && front == ia
    {
      var text := AnswerText(selected, padD);
      sent := sent + Crypt(m, enc, text);
      enc := Advance(enc, |text|);
      UpdateCipher(selected);
      front := ia;
    }

    method ReadRequest(select: CryptoMethod -> CryptoMethod, ghost u: bytes, ghost c: Cipher)
      returns (r: Result<(CryptoMethod, bytes)>, ghost n: nat)
      requires Position(u, c, 0)
      modifies this`unread, this`dec
      ensures match ParseRequest(Crypt(m, c, u), select)
              case Bad(e) => r == Failed(e)
              case Got(v, k) => r == Done(v) && n == k && Position(u, c, n)
    {
      var ok, data := ReadDecrypted(8, u, c, 0);
      if !ok { return Failed(UnexpectedEof), 0; }
      if data != VC() { return Failed(InvalidVC), 0; }
      ok, data := ReadDecrypted(4, u, c, 8);
      if !ok { return Failed(UnexpectedEof), 0; }
      var provide := FromBe32(data);
      if provide == 0 { return Failed(NoMethodsProvided), 0; }
      var selected := select(provide);
      var refusal := Vet(selected, provide);
      if refusal != [] { return Failed(refusal[0]), 0; }
      r, n := ReadPadAndIA(selected, u, c);
    }

    method ReadPadAndIA(selected: CryptoMethod, ghost u: bytes, ghost c: Cipher)
      returns (r: Result<(CryptoMethod, bytes)>, ghost n: nat)
      requires Position(u, c, 12)
      modifies this`unread, this`dec
      ensures match ParsePadAndIA(Crypt(m, c, u), selected)
              case Bad(e) => r == Failed(e)
              case Got(v, k) => r == Done(v) && n == k && Position(u, c, n)
    {
      var ok, data := ReadDecrypted(2, u, c, 12);
      if !ok { return Failed(UnexpectedEof), 0; }
      var lenPadC := FromBe16(data);
      ok, data := ReadDecrypted(lenPadC, u, c, 14);
      if !ok { return Failed(UnexpectedEof), 0; }
      r, n := ReadIA(selected, lenPadC, u, c);
    }

    method ReadIA(selected: CryptoMethod, lenPadC: nat, ghost u: bytes, ghost c: Cipher)
      returns (r: Result<(CryptoMethod, bytes)>, ghost n: nat)
      requires Position(u, c, 14 + lenPadC)
      modifies this`unread, this`dec
      ensures match ParseIA(Crypt(m, c, u), lenPadC, selected)
              case Bad(e) => r == Failed(e)
              case Got(v, k) => r == Done(v) && n == k && Position(u, c, n)
    {
      var ok, data := ReadDecrypted(2, u, c, 14 + lenPadC);
      if !ok { return Failed(UnexpectedEof), 0; }
      var lenIA := FromBe16(data);
      ok, data := ReadDecrypted(lenIA, u, c, 16 + lenPadC);
      if !ok { return Failed(UnexpectedEof), 0; }
      r, n := Done((selected, data)), 16 + lenPadC + lenIA;
    }
  }

  method Vet(selected: CryptoMethod, provide: CryptoMethod) returns (refusal: seq<Error>)
    ensures refusal == Refusal(selected, provide)
  {
    if selected == 0 { return [NoneAccepted]; }
    if !IsPowerOfTwo(selected) { return [InvalidSelected]; }
    if !Shares(selected, provide) { return [NotProvided]; }
    refusal := [];
  }

  method Hashes(m: Params, S: nat, sKey: bytes) returns (hashS: bytes, hashSKey: bytes)
    requires m.Valid()
    ensures hashS == HashInt(m, REQ1, S)
    ensures hashSKey == XorBytes(m, HashInt(m, REQ3, S), HashSKey(m, sKey))
  {
    hashS := HashInt(m, REQ1, S);
    hashSKey := Uncover(m, HashInt(m, REQ3, S), HashSKey(m, sKey));
  }

  method Uncover(m: Params, a: bytes, b: bytes) returns (r: bytes)
    requires |a| == |b|
    ensures r == XorBytes(m, a, b)
  {
    var buf := new byte[|a|](i requires 0 <= i < |a| => a[i]);
    assert buf[..] == a;
    XorInto(m, buf, b);
    r := buf[..];
  }
}
