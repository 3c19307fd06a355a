/** The two forms of the GitHub signature check, over an uninterpreted HMAC-SHA256. */
module Signature {
  import opened Ascii
  import opened Wrappers
  import opened Hex
  import opened Headers

  /** HMAC-SHA256 (section 2 of RFC 2104) as a function of key and message. */
  type Mac = (Bytes, Bytes) -> Bytes

  const PREFIX := "sha256="
  const SIGNATURE_HEADER := "X-Hub-Signature-256"

  /** security.GenerateSignature */
  function GenerateSignature(mac: Mac, payload: Bytes, secret: Bytes): string {
    PREFIX + Encode(mac(secret, payload))
  }

  /** security.VerifySignature: compares the printed forms. */
  predicate VerifyText(mac: Mac, signature: string, payload: Bytes, secret: Bytes) {
    signature == GenerateSignature(mac, payload, secret)
  }

  datatype SignatureError = Missing | BadFormat | BadHex | Mismatch

  /** The webhook handler's VerifySignature: compares the decoded bytes. */
  function VerifySignature(mac: Mac, header: HeaderMap, payload: Bytes, secret: Bytes): Result<(), SignatureError> {
    var signature := Get(header, SIGNATURE_HEADER);
    if signature == "" then Err(Missing)
    else if !(PREFIX <= signature) then Err(BadFormat)
    else
      match Decode(signature[|PREFIX|..])
      case None => Err(BadHex)
      case Some(provided) => if provided == mac(secret, payload) then Ok(()) else Err(Mismatch)
  }

  /**
   The handler accepts exactly the prefixed values whose hex part, lower-cased, is what
   GenerateSignature prints.
   */
  lemma HandlerAccepts(mac: Mac, header: HeaderMap, payload: Bytes, secret: Bytes)
    ensures VerifySignature(mac, header, payload, secret).Ok?
       <==> var signature := Get(header, SIGNATURE_HEADER);
            PREFIX <= signature && PREFIX + Lower(signature[|PREFIX|..]) == GenerateSignature(mac, payload, secret)
  {
    var signature := Get(header, SIGNATURE_HEADER);
    if PREFIX <= signature {
      var digits := signature[|PREFIX|..];
      var expected := mac(secret, payload);
      DecodeEncode(expected);
      DecodeLower(digits);
      if Decode(digits) == Some(expected) {
        EncodeDecode(digits);
      }
      if PREFIX + Lower(digits) == PREFIX + Encode(expected) {
        assert Lower(digits) == (PREFIX + Lower(digits))[|PREFIX|..];
      }
    }
  }

  /** Each refusal has its cause. */
  lemma RejectsExactly(mac: Mac, header: HeaderMap, payload: Bytes, secret: Bytes)
    ensures var signature := Get(header, "X-Hub-Signature-256");
            var r := VerifySignature(mac, header, payload, secret);
            && (r == Err(Missing) <==> signature == "")
            && (r == Err(BadFormat) <==> signature != "" && !("sha256=" <= signature))
            && (r == Err(BadHex) <==> "sha256=" <= signature && Decode(signature[7..]).None?)
            && (r == Err(Mismatch) <==> "sha256=" <= signature && Decode(signature[7..]) !in {None, Some(mac(secret, payload))})
  {
    assert |PREFIX| == 7;
  }

  /** Only the HMAC of this payload under this secret matters, so the roles of the two cannot be exchanged. */
  lemma MacOfPayload(mac: Mac, mac': Mac, header: HeaderMap, payload: Bytes, secret: Bytes)
    requires mac(secret, payload) == mac'(secret, payload)
    ensures VerifySignature(mac, header, payload, secret) == VerifySignature(mac', header, payload, secret)
    ensures GenerateSignature(mac, payload, secret) == GenerateSignature(mac', payload, secret)
    ensures forall signature :: VerifyText(mac, signature, payload, secret) <==> VerifyText(mac', signature, payload, secret)
  {
  }

  /** The printed signature, digit by digit. */
  lemma SignatureAt(mac: Mac, payload: Bytes, secret: Bytes, i: nat)
    requires i < |mac(secret, payload)|
    ensures var printed, bytes := GenerateSignature(mac, payload, secret), mac(secret, payload);
            && |printed| == 7 + 2 * |bytes| && printed[..7] == "sha256="
            && printed[7 + 2 * i] == "0123456789abcdef"[bytes[i] / 16]
            && printed[8 + 2 * i] == "0123456789abcdef"[bytes[i] % 16]
  {
    EncodeAt(mac(secret, payload), i);
  }

  /** A value the string comparison accepts is one the handler accepts; they differ only in the case of digits. */
  lemma FormsAgree(mac: Mac, header: HeaderMap, payload: Bytes, secret: Bytes)
    ensures VerifyText(mac, Get(header, SIGNATURE_HEADER), payload, secret)
       <==> && VerifySignature(mac, header, payload, secret).Ok?
            && Lower(Get(header, SIGNATURE_HEADER)) == Get(header, SIGNATURE_HEADER)
  {
    var signature := Get(header, SIGNATURE_HEADER);
    HandlerAccepts(mac, header, payload, secret);
    EncodeIsLower(mac(secret, payload));
    if PREFIX <= signature {
      var digits := signature[|PREFIX|..];
      assert signature == PREFIX + digits;
      LowerPrefixed(digits);
      PrefixCancels(digits, Encode(mac(secret, payload)));
    }
  }

  /** The prefix is in lower case already. */
  lemma LowerPrefixed(digits: string)
    ensures Lower(PREFIX + digits) == PREFIX + Lower(digits)
    ensures Lower(PREFIX + digits) == PREFIX + digits <==> Lower(digits) == digits
  {
    assert Lower(PREFIX + digits) == PREFIX + Lower(digits);
    PrefixCancels(Lower(digits), digits);
  }

  lemma PrefixCancels(a: string, b: string)
    ensures PREFIX + a == PREFIX + b <==> a == b
  {
    assert (PREFIX + a)[|PREFIX|..] == a && (PREFIX + b)[|PREFIX|..] == b;
  }

  lemma {:induction false} EncodeIsLower(b: Bytes)
    ensures Lower(Encode(b)) == Encode(b)
  {
    if b == [] {
    } else {
      EncodeIsLower(b[1..]);
      assert Lower(Encode(b)) == [Digit(b[0] / 16), Digit(b[0] % 16)] + Lower(Encode(b[1..]));
    }
  }

  /** The signature header the handler accepts is plain ASCII, so no text encoding along the way alters it. */
  lemma AcceptedIsAscii(mac: Mac, header: HeaderMap, payload: Bytes, secret: Bytes)
    requires VerifySignature(mac, header, payload, secret).Ok?
    ensures IsAscii(Get(header, SIGNATURE_HEADER))
  {
    var signature := Get(header, SIGNATURE_HEADER);
    var digits := signature[|PREFIX|..];
    DecodeAccepts(digits);
    assert signature == PREFIX + digits;
    forall i | 0 <= i < |signature|
      ensures signature[i] < '\U{80}'
    {
      if i >= |PREFIX| {
        assert Value(digits[i - |PREFIX|]) >= 0;
      }
    }
  }
}
