/** `t_cose_sign1_verify`: the walk over the four elements of a COSE_Sign1
    message (section 4.2 of RFC 8152) and the dispatch to the short-circuit
    or the public-key verifier. */
module Sign1Verify {
  import opened Cbor
  import opened Cose
  import opened HeaderParser
  import opened HeaderProperties

  /** The two option bits the verifier looks at: `T_COSE_OPT_REQUIRE_KID`
      and `T_COSE_OPT_ALLOW_SHORT_CIRCUIT`. */
  datatype Options = Options(requireKid: bool, allowShortCircuit: bool)

  /** What `create_tbs_hash` hands back: its result code and, on success,
      the hash. */
  datatype TbsHash = TbsHash(status: Status, hash: seq<byte>)

  /** The code the verifier calls but does not contain: the CBOR decoder
      (turning bytes into an item stream), `create_tbs_hash` over the
      algorithm, the protected-header bytes and the payload (bare-payload
      mode), `t_cose_crypto_pub_key_verify` over the algorithm, the key,
      the kid, the hash and the signature, and the fixed key identifier
      `get_short_circuit_kid` returns. */
  datatype Env<-K> = Env(
    tokenize: seq<byte> -> Stream,
    tbsHash: (int, seq<byte>, seq<byte>) -> TbsHash,
    pubKeyVerify: (int, K, Buf, seq<byte>, Buf) -> Status,
    shortCircuitKid: seq<byte>)

  /** `q_useful_buf_head`: the first `n` bytes of a view, or the NULL view
      when it is shorter. */
  function Head(b: Buf, n: nat): (r: Buf)
    ensures r == NullBuf <==> b == NullBuf || |BufBytes(b)| < n
    ensures r != NullBuf ==> BufBytes(r) == BufBytes(b)[..n]
  {
    match b
    case NullBuf => NullBuf
    case Bytes(d) => if |d| < n then NullBuf else Bytes(d[..n])
  }

  /** `t_cose_crypto_short_circuit_verify`: the "signature" is accepted
      exactly when it is not the NULL view and starts with the hash itself.
      The algorithm is not used. */
  function ShortCircuitVerify(algId: int, hash: seq<byte>, signature: Buf): (r: Status)
    ensures r == Success || r == SigVerify
    ensures r == Success <==>
      signature != NullBuf && |BufBytes(signature)| >= |hash| && BufBytes(signature)[..|hash|] == hash
  {
    var fromSig := Head(signature, |hash|);
    if fromSig == NullBuf then SigVerify
    else if BufBytes(fromSig) != hash then SigVerify
    else Success
  }

  /** The result code and the payload view the caller gets back. */
  datatype VerifyResult = VerifyResult(status: Status, payload: Buf)

  /** `t_cose_sign1_verify` on the stream `s` the message decodes to. The
      payload view is written as soon as the payload element has been read,
      so it is handed back by every later failure too. */
  function VerifyStream<K>(opts: Options, key: K, s: Stream, env: Env<K>): (r: VerifyResult)
  {
    var top := ItemAt(s, 0);
    if top.dataType != TypeArray || top.count != 4 || !top.taggedSign1 then VerifyResult(Sign1Format, NullBuf)
    else
      var prot := ItemAt(s, 1);
      if prot.dataType != TypeByteString then VerifyResult(Sign1Format, NullBuf)
      else
        var p := ParseProtected(env.tokenize(prot.strVal));
        if p.status != Success then VerifyResult(p.status, NullBuf)
        else
          var u := ParseHeaders(s, 2);
          if u.status != Success then VerifyResult(u.status, NullBuf)
          else if opts.requireKid && u.headers.kid == NullBuf then VerifyResult(NoKid, NullBuf)
          else
            var pay := ItemAt(s, u.pos);
            if pay.dataType != TypeByteString then VerifyResult(Sign1Format, NullBuf)
            else
              var payload := Bytes(pay.strVal);
              var sig := ItemAt(s, u.pos + 1);
              if sig.dataType != TypeByteString then VerifyResult(Sign1Format, payload)
              else
                var t := env.tbsHash(p.algId, prot.strVal, pay.strVal);
                if t.status != Success then VerifyResult(t.status, payload)
                else if BufBytes(u.headers.kid) == env.shortCircuitKid then
                  if !opts.allowShortCircuit then VerifyResult(ShortCircuitSig, payload)
                  else VerifyResult(ShortCircuitVerify(p.algId, t.hash, Bytes(sig.strVal)), payload)
                else VerifyResult(env.pubKeyVerify(p.algId, key, u.headers.kid, t.hash, Bytes(sig.strVal)), payload)
  }

  /** `t_cose_sign1_verify` */
  method Verify<K>(opts: Options, key: K, cose_sign1: seq<byte>, env: Env<K>) returns (status: Status, payload: Buf)
    ensures VerifyResult(status, payload) == VerifyStream(opts, key, env.tokenize(cose_sign1), env)
  {
    payload := NullBuf;
    var s := env.tokenize(cose_sign1);
    var d := new Decoder(s);

    // the array of four
    var err, item := d.GetNext();
    assert item == ItemAt(s, 0);
    if item.dataType != TypeArray || item.count != 4 || !item.taggedSign1 {
      return Sign1Format, payload;
    }

    // the protected headers
    err, item := d.GetNext();
    assert item == ItemAt(s, 1);
    if item.dataType != TypeByteString {
      return Sign1Format, payload;
    }
    assert d.pos == 2;
    var protectedHeaders := item.strVal;
    var algId;
    status, algId := ParseProtectedHeaders(protectedHeaders, env.tokenize);
    if status != Success {
      return;
    }

    // the unprotected headers
    var unprotected;
    status, unprotected := ParseCoseHeaders(d);
    ghost var u := ParseHeaders(s, 2);
    assert status == u.status && unprotected == u.headers && d.pos == u.pos;
    if status != Success {
      return;
    } else if opts.requireKid && unprotected.kid == NullBuf {
      return NoKid, payload;
    }

    // the payload
    err, item := d.GetNext();
    assert item == ItemAt(s, u.pos);
    if item.dataType != TypeByteString {
      return Sign1Format, payload;
    }
    payload := Bytes(item.strVal);

    // the signature
    err, item := d.GetNext();
    assert item == ItemAt(s, u.pos + 1);
    if item.dataType != TypeByteString {
      return Sign1Format, payload;
    }
    var signature := Bytes(item.strVal);

    var t := env.tbsHash(algId, protectedHeaders, BufBytes(payload));
    if t.status != Success {
      return t.status, payload;
    }

    if BufBytes(unprotected.kid) == env.shortCircuitKid {
      if !opts.allowShortCircuit {
        return ShortCircuitSig, payload;
      }
      status := ShortCircuitVerify(algId, t.hash, signature);
      return;
    }

    status := env.pubKeyVerify(algId, key, unprotected.kid, t.hash, signature);
  }

  /** What a successful verification has checked: a COSE_Sign1-tagged
      array of four whose protected and unprotected headers parsed, a kid
      when one is required, byte-string payload and signature, a computed
      hash, and a signature that the chosen verifier accepted: the
      short-circuit one only for the short-circuit kid and only when the
      caller allowed it, the public-key one otherwise. The payload handed
      back is the payload element. */
  lemma VerifySuccess<K>(opts: Options, key: K, s: Stream, env: Env<K>)
    ensures var r := VerifyStream(opts, key, s, env);
      r.status == Success ==>
        2 <= |s.items| &&
        var top, prot := s.items[0], s.items[1];
        top.dataType == TypeArray && top.count == 4 && top.taggedSign1 &&
        prot.dataType == TypeByteString &&
        var p := ParseProtected(env.tokenize(prot.strVal));
        var u := ParseHeaders(s, 2);
        p.status == Success && u.status == Success &&
        (opts.requireKid ==> u.headers.kid != NullBuf) &&
        u.pos + 2 <= |s.items| &&
        var pay, sig := s.items[u.pos], s.items[u.pos + 1];
        pay.dataType == TypeByteString && sig.dataType == TypeByteString &&
        r.payload == Bytes(pay.strVal) &&
        var t := env.tbsHash(p.algId, prot.strVal, pay.strVal);
        t.status == Success &&
        (BufBytes(u.headers.kid) == env.shortCircuitKid ==>
          opts.allowShortCircuit && |sig.strVal| >= |t.hash| && sig.strVal[..|t.hash|] == t.hash) &&
        (BufBytes(u.headers.kid) != env.shortCircuitKid ==>
          env.pubKeyVerify(p.algId, key, u.headers.kid, t.hash, Bytes(sig.strVal)) == Success)
  {
  }

  /** The short-circuit signature is refused unless the caller opted in: a
      message carrying the short-circuit kid never verifies without
      allowShortCircuit, and once every earlier step has passed the result
      is SHORT_CIRCUIT_SIG. */
  lemma ShortCircuitNeedsOptIn<K>(opts: Options, key: K, s: Stream, env: Env<K>)
    requires !opts.allowShortCircuit
    requires 2 <= |s.items| && BufBytes(ParseHeaders(s, 2).headers.kid) == env.shortCircuitKid
    ensures VerifyStream(opts, key, s, env).status != Success
    ensures ElementsPass(opts, s, env) && HashOf(s, env).status == Success ==>
      VerifyStream(opts, key, s, env) == VerifyResult(ShortCircuitSig, Bytes(PayloadOf(s).strVal))
  {
    VerifySuccess(opts, key, s, env);
  }

  /** The first element is a COSE_Sign1-tagged array of four. */
  predicate IsSign1Array(top: Item)
  {
    top.dataType == TypeArray && top.count == 4 && top.taggedSign1
  }

  /** The message opens with the tagged array of four and a byte-string
      protected bucket. */
  predicate Framed(s: Stream)
  {
    IsSign1Array(ItemAt(s, 0)) && ItemAt(s, 1).dataType == TypeByteString
  }

  /** The protected bucket, parsed from its own bytes. */
  function ProtectedOf<K>(s: Stream, env: Env<K>): ProtectedResult
  {
    ParseProtected(env.tokenize(ItemAt(s, 1).strVal))
  }

  /** Both header buckets parsed and the kid requirement is met. */
  predicate HeadersPass<K>(opts: Options, s: Stream, env: Env<K>)
  {
    Framed(s) && ProtectedOf(s, env).status == Success && ParseHeaders(s, 2).status == Success &&
    !(opts.requireKid && ParseHeaders(s, 2).headers.kid == NullBuf)
  }

  /** The payload element: the item after the unprotected map. */
  function PayloadOf(s: Stream): Item
    requires 2 <= |s.items|
  {
    ItemAt(s, ParseHeaders(s, 2).pos)
  }

  /** The signature element: the item after the payload. */
  function SignatureOf(s: Stream): Item
    requires 2 <= |s.items|
  {
    ItemAt(s, ParseHeaders(s, 2).pos + 1)
  }

  /** The headers passed and payload and signature are byte strings. */
  predicate ElementsPass<K>(opts: Options, s: Stream, env: Env<K>)
  {
    HeadersPass(opts, s, env) &&
    PayloadOf(s).dataType == TypeByteString && SignatureOf(s).dataType == TypeByteString
  }

  /** The hash over the protected bytes and the payload. */
  function HashOf<K>(s: Stream, env: Env<K>): TbsHash
    requires 2 <= |s.items|
  {
    env.tbsHash(ProtectedOf(s, env).algId, ItemAt(s, 1).strVal, PayloadOf(s).strVal)
  }

  /** A message that does not open with a COSE_Sign1-tagged array of four
      is refused with SIGN1_FORMAT and no payload. */
  lemma VerifyRejectsUnframed<K>(opts: Options, key: K, s: Stream, env: Env<K>)
    requires !IsSign1Array(ItemAt(s, 0))
    ensures VerifyStream(opts, key, s, env) == VerifyResult(Sign1Format, NullBuf)
  {
  }

  /** A protected bucket that is not a byte string is refused with
      SIGN1_FORMAT and no payload. */
  lemma VerifyRejectsProtectedType<K>(opts: Options, key: K, s: Stream, env: Env<K>)
    requires IsSign1Array(ItemAt(s, 0)) && ItemAt(s, 1).dataType != TypeByteString
    ensures VerifyStream(opts, key, s, env) == VerifyResult(Sign1Format, NullBuf)
  {
  }

  /** A failure of the protected headers is passed on unchanged. */
  lemma VerifyPassesProtectedError<K>(opts: Options, key: K, s: Stream, env: Env<K>)
    requires Framed(s) && ProtectedOf(s, env).status != Success
    ensures VerifyStream(opts, key, s, env) == VerifyResult(ProtectedOf(s, env).status, NullBuf)
  {
  }

  /** A failure of the unprotected headers is passed on unchanged. */
  lemma VerifyPassesUnprotectedError<K>(opts: Options, key: K, s: Stream, env: Env<K>)
    requires Framed(s) && ProtectedOf(s, env).status == Success && ParseHeaders(s, 2).status != Success
    ensures VerifyStream(opts, key, s, env) == VerifyResult(ParseHeaders(s, 2).status, NullBuf)
  {
  }

  /** With the kid required, headers without a kid give NO_KID. */
  lemma VerifyRequiresKid<K>(opts: Options, key: K, s: Stream, env: Env<K>)
    requires Framed(s) && ProtectedOf(s, env).status == Success && ParseHeaders(s, 2).status == Success
    requires opts.requireKid && ParseHeaders(s, 2).headers.kid == NullBuf
    ensures VerifyStream(opts, key, s, env) == VerifyResult(NoKid, NullBuf)
  {
  }

  /** A payload element that is not a byte string is refused with
      SIGN1_FORMAT and no payload. */
  lemma VerifyRejectsPayloadType<K>(opts: Options, key: K, s: Stream, env: Env<K>)
    requires HeadersPass(opts, s, env) && PayloadOf(s).dataType != TypeByteString
    ensures VerifyStream(opts, key, s, env) == VerifyResult(Sign1Format, NullBuf)
  {
  }

  /** A signature element that is not a byte string is refused with
      SIGN1_FORMAT, the payload already handed back. */
  lemma VerifyRejectsSignatureType<K>(opts: Options, key: K, s: Stream, env: Env<K>)
    requires HeadersPass(opts, s, env) && PayloadOf(s).dataType == TypeByteString
    requires SignatureOf(s).dataType != TypeByteString
    ensures VerifyStream(opts, key, s, env) == VerifyResult(Sign1Format, Bytes(PayloadOf(s).strVal))
  {
  }

  /** A failure to hash is passed on unchanged, with the payload. */
  lemma VerifyPassesHashError<K>(opts: Options, key: K, s: Stream, env: Env<K>)
    requires ElementsPass(opts, s, env) && HashOf(s, env).status != Success
    ensures VerifyStream(opts, key, s, env) == VerifyResult(HashOf(s, env).status, Bytes(PayloadOf(s).strVal))
  {
  }

  /** The short-circuit kid, with the caller's consent, hands the decision
      to the short-circuit verifier. */
  lemma VerifyShortCircuit<K>(opts: Options, key: K, s: Stream, env: Env<K>)
    requires ElementsPass(opts, s, env) && HashOf(s, env).status == Success
    requires BufBytes(ParseHeaders(s, 2).headers.kid) == env.shortCircuitKid && opts.allowShortCircuit
    ensures VerifyStream(opts, key, s, env) ==
      VerifyResult(ShortCircuitVerify(ProtectedOf(s, env).algId, HashOf(s, env).hash, Bytes(SignatureOf(s).strVal)),
                   Bytes(PayloadOf(s).strVal))
  {
  }

  /** Any other kid hands the decision to the public-key verifier. */
  lemma VerifyPublicKey<K>(opts: Options, key: K, s: Stream, env: Env<K>)
    requires ElementsPass(opts, s, env) && HashOf(s, env).status == Success
    requires BufBytes(ParseHeaders(s, 2).headers.kid) != env.shortCircuitKid
    ensures VerifyStream(opts, key, s, env) ==
      VerifyResult(env.pubKeyVerify(ProtectedOf(s, env).algId, key, ParseHeaders(s, 2).headers.kid,
                                    HashOf(s, env).hash, Bytes(SignatureOf(s).strVal)),
                   Bytes(PayloadOf(s).strVal))
  {
  }

  /** Conversely to VerifySuccess: when every step passes and the verifier
      the kid selects accepts, the message verifies and the payload element
      is handed back. */
  lemma VerifyComplete<K>(opts: Options, key: K, s: Stream, env: Env<K>)
    requires ElementsPass(opts, s, env) && HashOf(s, env).status == Success
    requires BufBytes(ParseHeaders(s, 2).headers.kid) == env.shortCircuitKid ==>
      opts.allowShortCircuit && |SignatureOf(s).strVal| >= |HashOf(s, env).hash| &&
      SignatureOf(s).strVal[..|HashOf(s, env).hash|] == HashOf(s, env).hash
    requires BufBytes(ParseHeaders(s, 2).headers.kid) != env.shortCircuitKid ==>
      env.pubKeyVerify(ProtectedOf(s, env).algId, key, ParseHeaders(s, 2).headers.kid,
                       HashOf(s, env).hash, Bytes(SignatureOf(s).strVal)) == Success
    ensures VerifyStream(opts, key, s, env) == VerifyResult(Success, Bytes(PayloadOf(s).strVal))
  {
    if BufBytes(ParseHeaders(s, 2).headers.kid) == env.shortCircuitKid {
      VerifyShortCircuit(opts, key, s, env);
    } else {
      VerifyPublicKey(opts, key, s, env);
    }
  }

  /** The payload view stays NULL up to the payload element and is set from
      then on, so a failure at the signature element, the hash or the
      signature check still hands the payload back; a success always does. */
  lemma PayloadWrittenEarly<K>(opts: Options, key: K, s: Stream, env: Env<K>)
    ensures var r := VerifyStream(opts, key, s, env);
      (r.status == Success ==> r.payload != NullBuf) &&
      (r.payload != NullBuf ==>
        2 <= |s.items| && ParseHeaders(s, 2).status == Success &&
        var q := ParseHeaders(s, 2).pos;
        q < |s.items| && s.items[q].dataType == TypeByteString && r.payload == Bytes(s.items[q].strVal) &&
        (q + 1 == |s.items| || s.items[q + 1].dataType != TypeByteString ==> r.status == Sign1Format))
  {
  }

  /** The critical-header check never fires: unless a collaborator reports
      it, verification never fails with UnknownCriticalHeader, whatever the
      crit header of either bucket lists. */
  lemma VerifyNeverUnknownCritical<K>(opts: Options, key: K, s: Stream, env: Env<K>)
    requires forall a, ph, pl :: env.tbsHash(a, ph, pl).status != UnknownCriticalHeader
    requires forall a, k, kid, h, sig :: env.pubKeyVerify(a, k, kid, h, sig) != UnknownCriticalHeader
    ensures VerifyStream(opts, key, s, env).status != UnknownCriticalHeader
  {
    if 2 <= |s.items| && s.items[1].dataType == TypeByteString {
      ParseProtectedSuccess(env.tokenize(s.items[1].strVal));
      ParseHeadersNeverUnknownCritical(s, 2);
    }
  }
}
