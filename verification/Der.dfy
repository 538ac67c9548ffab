/**
  The DER reader of `infra/cert-monitor/check-certs.py`: one TLV, all TLVs of a buffer, and the fields of
  a certificate. "Encoding" means a definite-length encoding of section 8.1 of ITU-T X.690, in the short
  or the long form, not necessarily the shortest.
 */
module Der {
  import opened Sequences
  import opened Wrappers

  type Byte = x: int | 0 <= x < 256

  datatype Tlv = Tlv(tag: Byte, value: seq<Byte>)

  datatype Error =
    | Truncated | BadLength | TruncatedValue
    | NotACertificate | MissingTbs | MissingFields | MalformedValidity | MissingWindow

  // ----- the reader -----

  /** `int.from_bytes(s, "big")`. */
  function BigEndian(s: seq<Byte>): nat {
    if s == [] then 0 else BigEndian(Front(s)) * 256 + Last(s)
  }

  /** `_tlv`: the TLV at index `i`, and the index after it. */
  function ReadTlv(buf: seq<Byte>, i: nat): Result<(Tlv, nat), Error>
    requires i <= |buf|
  {
    if i + 2 > |buf| then Err(Truncated)
    else
      var tag, first, j := buf[i], buf[i + 1], i + 2;
      if first >= 0x80 then
        var n := first - 0x80;
        if n == 0 || j + n > |buf| then Err(BadLength)
        else ReadValue(buf, tag, j + n, BigEndian(buf[j..j + n]))
      else ReadValue(buf, tag, j, first)
  }

  function ReadValue(buf: seq<Byte>, tag: Byte, i: nat, length: nat): Result<(Tlv, nat), Error>
    requires i <= |buf|
  {
    if i + length > |buf| then Err(TruncatedValue) else Ok((Tlv(tag, buf[i..i + length]), i + length))
  }

  /** `_children`, as a function of the rest of the buffer. */
  function Children(buf: seq<Byte>): Result<seq<Tlv>, Error>
    decreases |buf|
  {
    if buf == [] then Ok([])
    else
      match ReadTlv(buf, 0)
      case Err(e) => Err(e)
      case Ok((x, end)) =>
        ReadTlvAdvances(buf, 0);
        match Children(buf[end..])
        case Err(e) => Err(e)
        case Ok(rest) => Ok([x] + rest)
  }

  lemma ReadTlvAdvances(buf: seq<Byte>, i: nat)
    requires i <= |buf|
    ensures ReadTlv(buf, i).Ok? ==> i < ReadTlv(buf, i).value.1 <= |buf|
  {
  }

  /** `_children`: the loop over the buffer. */
  method ReadChildren(buf: seq<Byte>) returns (r: Result<seq<Tlv>, Error>)
    ensures r == Children(buf)
  {
    var out: seq<Tlv> := [];
    var i := 0;
    assert buf[0..] == buf;
    PrependNothing(Children(buf));
    while i < |buf|
      invariant 0 <= i <= |buf|
      invariant Children(buf) == Prepend(out, Children(buf[i..]))
      decreases |buf| - i
    {
      ReadTlvAdvances(buf, i);
      ReadTlvShift(buf, i);
      match ReadTlv(buf, i) {
        case Err(e) => return Err(e);
        case Ok((x, end)) =>
          assert buf[i..][end - i..] == buf[end..];
          assert Children(buf[i..]) == Prepend([x], Children(buf[end..]));
          PrependTwice(out, [x], Children(buf[end..]));
          out := out + [x];
          i := end;
      }
    }
    r := Ok(out);
    assert out + [] == out;
  }

  function Prepend(out: seq<Tlv>, r: Result<seq<Tlv>, Error>): Result<seq<Tlv>, Error> {
    match r case Err(e) => Err(e) case Ok(rest) => Ok(out + rest)
  }

  lemma PrependNothing(r: Result<seq<Tlv>, Error>)
    ensures Prepend([], r) == r
  {
    assert r.Ok? ==> [] + r.value == r.value;
  }

  lemma PrependTwice(a: seq<Tlv>, b: seq<Tlv>, r: Result<seq<Tlv>, Error>)
    ensures Prepend(a, Prepend(b, r)) == Prepend(a + b, r)
  {
    assert r.Ok? ==> a + (b + r.value) == (a + b) + r.value;
  }

  /** Reading at index `i` is reading the rest of the buffer from its start. */
  lemma ReadTlvShift(buf: seq<Byte>, i: nat)
    requires i <= |buf|
    ensures ReadTlv(buf[i..], 0) == match ReadTlv(buf, i) case Err(e) => Err(e) case Ok((x, end)) => Ok((x, end - i))
  {
    var rest := buf[i..];
    if i + 2 <= |buf| {
      var first := buf[i + 1];
      if first >= 0x80 && i + 2 + first - 0x80 <= |buf| {
        var n := first - 0x80;
        assert rest[2..2 + n] == buf[i + 2..i + 2 + n];
        var length := BigEndian(buf[i + 2..i + 2 + n]);
        if i + 2 + n + length <= |buf| {
          assert rest[2 + n..2 + n + length] == buf[i + 2 + n..i + 2 + n + length];
        }
      } else if first < 0x80 && i + 2 + first <= |buf| {
        assert rest[2..2 + first] == buf[i + 2..i + 2 + first];
      }
    }
  }

  // ----- encodings -----

  /** The length octets of section 8.1.3: short form, or long form with at least one octet. */
  predicate LengthOctets(octets: seq<Byte>, length: nat) {
    || (length < 0x80 && octets == [length])
    || (|octets| >= 2 && octets[0] == 0x80 + |octets| - 1 && BigEndian(octets[1..]) == length)
  }

  ghost predicate Encodes(bytes: seq<Byte>, x: Tlv) {
    exists octets :: LengthOctets(octets, |x.value|) && bytes == [x.tag] + octets + x.value
  }

  /** The buffer is the concatenation of encodings of the list's elements. */
  ghost predicate EncodesAll(bytes: seq<Byte>, xs: seq<Tlv>)
    decreases |xs|
  {
    if xs == [] then bytes == []
    else exists k :: 0 <= k <= |bytes| && Encodes(bytes[..k], xs[0]) && EncodesAll(bytes[k..], xs[1..])
  }

  /** Reading succeeds with `x` and leaves `rest` if and only if the buffer is an encoding of `x`
      followed by `rest`. */
  lemma ReadTlvIff(buf: seq<Byte>, x: Tlv, k: nat)
    requires k <= |buf|
    ensures ReadTlv(buf, 0) == Ok((x, k)) <==> Encodes(buf[..k], x)
  {
    if Encodes(buf[..k], x) {
      var octets :| LengthOctets(octets, |x.value|) && buf[..k] == [x.tag] + octets + x.value;
      ReadEncoded(buf, x, octets, k);
    }
    if ReadTlv(buf, 0) == Ok((x, k)) {
      var octets := ReadOctets(buf, x, k);
      assert Encodes(buf[..k], x);
    }
  }

  lemma ReadEncoded(buf: seq<Byte>, x: Tlv, octets: seq<Byte>, k: nat)
    requires k <= |buf| && LengthOctets(octets, |x.value|) && buf[..k] == [x.tag] + octets + x.value
    ensures ReadTlv(buf, 0) == Ok((x, k))
  {
    var n := |octets|;
    assert k == 1 + n + |x.value|;
    assert buf[..k][0] == x.tag && buf[..k][1] == octets[0];
    var all := [x.tag] + octets + x.value;
    assert all[1..1 + n] == octets && all[1 + n..] == x.value;
    assert buf[1..1 + n] == all[1..1 + n];
    assert buf[1 + n..k] == all[1 + n..];
    if n >= 2 {
      assert buf[2..1 + n] == octets[1..];
    }
  }

  lemma ReadOctets(buf: seq<Byte>, x: Tlv, k: nat) returns (octets: seq<Byte>)
    requires k <= |buf| && ReadTlv(buf, 0) == Ok((x, k))
    ensures LengthOctets(octets, |x.value|) && buf[..k] == [x.tag] + octets + x.value
  {
    var n := if buf[1] >= 0x80 then buf[1] - 0x80 else 0;
    octets := buf[1..2 + n];
    assert n > 0 ==> octets[1..] == buf[2..2 + n];
    assert buf[..k] == [x.tag] + octets + buf[2 + n..k];
  }

  /** `_children` returns a list if and only if the buffer is the concatenation of encodings of exactly
      that list. */
  lemma {:induction false} ChildrenIff(buf: seq<Byte>, xs: seq<Tlv>)
    ensures Children(buf) == Ok(xs) <==> EncodesAll(buf, xs)
    decreases |buf| + |xs|
  {
    if xs != [] {
      forall k | 0 <= k <= |buf| ensures ReadTlv(buf, 0) == Ok((xs[0], k)) <==> Encodes(buf[..k], xs[0]) {
        ReadTlvIff(buf, xs[0], k);
      }
      forall k | 0 <= k <= |buf| ensures Children(buf[k..]) == Ok(xs[1..]) <==> EncodesAll(buf[k..], xs[1..]) {
        ChildrenIff(buf[k..], xs[1..]);
      }
      if buf != [] && ReadTlv(buf, 0).Ok? {
        ReadTlvAdvances(buf, 0);
        var (x, end) := ReadTlv(buf, 0).value;
        if Children(buf) == Ok(xs) {
          assert x == xs[0] && Children(buf[end..]) == Ok(xs[1..]);
        }
        if EncodesAll(buf, xs) {
          var k :| 0 <= k <= |buf| && Encodes(buf[..k], xs[0]) && EncodesAll(buf[k..], xs[1..]);
          assert xs == [xs[0]] + xs[1..];
        }
      }
    }
  }

  // ----- the shortest encoding, and the round trip -----

  function Octets(n: nat): seq<Byte> { if n == 0 then [] else Octets(n / 256) + [n % 256] }

  lemma {:induction false} OctetsValue(n: nat)
    ensures BigEndian(Octets(n)) == n
  {
    if n > 0 {
      OctetsValue(n / 256);
      assert Front(Octets(n)) == Octets(n / 256);
    }
  }

  /** The longest length whose octets the long form can count. */
  predicate Encodable(x: Tlv) { |Octets(|x.value|)| <= 127 }

  function Encode(x: Tlv): seq<Byte>
    requires Encodable(x)
  {
    var n := |x.value|;
    [x.tag] + (if n < 0x80 then [n] else [0x80 + |Octets(n)|] + Octets(n)) + x.value
  }

  function EncodeAll(xs: seq<Tlv>): seq<Byte>
    requires forall x | x in xs :: Encodable(x)
  {
    if xs == [] then [] else Encode(xs[0]) + EncodeAll(xs[1..])
  }

  lemma EncodeEncodes(x: Tlv)
    requires Encodable(x)
    ensures Encodes(Encode(x), x)
  {
    var n := |x.value|;
    OctetsValue(n);
    var octets := if n < 0x80 then [n] else [0x80 + |Octets(n)|] + Octets(n);
    if n >= 0x80 {
      assert octets[1..] == Octets(n) && |Octets(n)| >= 1;
    }
    assert LengthOctets(octets, n);
  }

  /** Reading back a concatenation of encoded TLVs gives exactly the list. */
  lemma {:induction false} ChildrenRoundTrip(xs: seq<Tlv>)
    requires forall x | x in xs :: Encodable(x)
    ensures Children(EncodeAll(xs)) == Ok(xs)
  {
    EncodeAllEncodes(xs);
    ChildrenIff(EncodeAll(xs), xs);
  }

  lemma {:induction false} EncodeAllEncodes(xs: seq<Tlv>)
    requires forall x | x in xs :: Encodable(x)
    ensures EncodesAll(EncodeAll(xs), xs)
  {
    if xs != [] {
      var head, tail := Encode(xs[0]), EncodeAll(xs[1..]);
      EncodeEncodes(xs[0]);
      EncodeAllEncodes(xs[1..]);
      assert (head + tail)[..|head|] == head && (head + tail)[|head|..] == tail;
    }
  }

  // ----- certificates -----

  /** What `parse_cert_der` takes out of a certificate, before it reads the time text. */
  datatype Fields = Fields(notBefore: Tlv, notAfter: Tlv, issuer: Option<seq<Byte>>)

  /** It succeeds on the certificates of section 4.1 of RFC 5280 and on nothing else, and gives their
      validity window and issuer. */
  method ParseCert(der: seq<Byte>) returns (r: Result<Fields, Error>)
    ensures r.Ok? <==> exists t, times :: CertShape(der, t, times)
    ensures forall t, times | CertShape(der, t, times) :: r == Ok(t.Found(times))
    ensures r.Err? ==> r == CertFields(der)
  {
    ghost var spec := CertFields(der);
    assert spec.Ok? <==> exists t, times :: CertShape(der, t, times) by {
      CertFieldsIff(der);
    }
    forall t, times | CertShape(der, t, times) ensures spec == Ok(t.Found(times)) {
      CertFieldsFound(der, t, times);
    }
    var outer := ReadTlv(der, 0);
    if outer.Err? {
      return Err(outer.error);
    }
    if outer.value.0.tag != 0x30 {
      return Err(NotACertificate);
    }
    var inner := ReadTlv(outer.value.0.value, 0);
    if inner.Err? {
      return Err(inner.error);
    }
    if inner.value.0.tag != 0x30 {
      return Err(MissingTbs);
    }
    var fields := ReadChildren(inner.value.0.value);
    if fields.Err? {
      return Err(fields.error);
    }
    r := Pick(fields.value);
  }

  /** The part of `parse_cert_der` after the tbsCertificate has been split. */
  function Pick(fields: seq<Tlv>): Result<Fields, Error> {
    var idx := if fields != [] && fields[0].tag == 0xA0 then 1 else 0;
    if |fields| < idx + 4 then Err(MissingFields)
    else if fields[idx + 3].tag != 0x30 then Err(MalformedValidity)
    else
      match Children(fields[idx + 3].value)
      case Err(e) => Err(e)
      case Ok(times) =>
        if |times| < 2 then Err(MissingWindow)
        else Ok(Fields(times[0], times[1], if fields[idx + 2].tag == 0x30 then Some(fields[idx + 2].value) else None))
  }

  function CertFields(der: seq<Byte>): Result<Fields, Error> {
    match ReadTlv(der, 0)
    case Err(e) => Err(e)
    case Ok((cert, _)) =>
      if cert.tag != 0x30 then Err(NotACertificate)
      else
        match ReadTlv(cert.value, 0)
        case Err(e) => Err(e)
        case Ok((tbs, _)) =>
          if tbs.tag != 0x30 then Err(MissingTbs)
          else
            match Children(tbs.value)
            case Err(e) => Err(e)
            case Ok(fields) => Pick(fields)
  }

  /** A SEQUENCE whose first element is a SEQUENCE with the content `tbs`. */
  ghost predicate Wraps(der: seq<Byte>, tbs: seq<Byte>) {
    exists cert: seq<Byte>, k, l :: Nested(der, cert, k, tbs, l)
  }

  ghost predicate Nested(der: seq<Byte>, cert: seq<Byte>, k: int, tbs: seq<Byte>, l: int) {
    && 0 <= k <= |der| && Encodes(der[..k], Tlv(0x30, cert))
    && 0 <= l <= |cert| && Encodes(cert[..l], Tlv(0x30, tbs))
  }

  /** The elements of a tbsCertificate in section 4.1 of RFC 5280: an optional version [0], then serial
      number, signature, issuer, validity, and more. */
  datatype Tbs = Tbs(version: Option<Tlv>, serial: Tlv, signature: Tlv, issuer: Tlv, validity: Tlv, more: seq<Tlv>) {
    function Elements(): seq<Tlv> {
      (if version.Some? then [version.value] else []) + [serial, signature, issuer, validity] + more
    }

    predicate WellTagged() {
      && (version.Some? ==> version.value.tag == 0xA0)
      && (version.None? ==> serial.tag != 0xA0)
      && validity.tag == 0x30
    }

    function Found(times: seq<Tlv>): Fields
      requires |times| >= 2
    {
      Fields(times[0], times[1], if issuer.tag == 0x30 then Some(issuer.value) else None)
    }
  }

  /** `der` is a certificate of that shape, and `times` its validity period. */
  ghost predicate CertShape(der: seq<Byte>, t: Tbs, times: seq<Tlv>) {
    && t.WellTagged() && |times| >= 2 && EncodesAll(t.validity.value, times)
    && exists tbs :: Wraps(der, tbs) && EncodesAll(tbs, t.Elements())
  }

  /** `parse_cert_der` finds the validity window and the issuer of every certificate of that shape, with
      or without the version field. */
  lemma CertFieldsFound(der: seq<Byte>, t: Tbs, times: seq<Tlv>)
    requires CertShape(der, t, times)
    ensures CertFields(der) == Ok(t.Found(times))
  {
    var tbs :| Wraps(der, tbs) && EncodesAll(tbs, t.Elements());
    var cert, k, l :| Nested(der, cert, k, tbs, l);
    ReadTlvIff(der, Tlv(0x30, cert), k);
    ReadTlvIff(cert, Tlv(0x30, tbs), l);
    ChildrenIff(tbs, t.Elements());
    ChildrenIff(t.validity.value, times);
    PickFound(t, times);
  }

  lemma PickFound(t: Tbs, times: seq<Tlv>)
    requires t.WellTagged() && |times| >= 2 && Children(t.validity.value) == Ok(times)
    ensures Pick(t.Elements()) == Ok(t.Found(times))
  {
    var idx := if t.version.Some? then 1 else 0;
    assert t.Elements()[idx + 2] == t.issuer && t.Elements()[idx + 3] == t.validity;
  }

  /** And it finds them in nothing else. */
  lemma CertFieldsOnlyThere(der: seq<Byte>, f: Fields) returns (t: Tbs, times: seq<Tlv>)
    requires CertFields(der) == Ok(f)
    ensures CertShape(der, t, times) && f == t.Found(times)
  {
    var tbs := ReadTbs(der, f);
    var fields := Children(tbs).value;
    ChildrenIff(tbs, fields);
    t, times := PickOnlyThere(fields, f);
  }

  lemma CertFieldsIff(der: seq<Byte>)
    ensures CertFields(der).Ok? <==> exists t, times :: CertShape(der, t, times)
  {
    if CertFields(der).Ok? {
      var t, times := CertFieldsOnlyThere(der, CertFields(der).value);
      assert CertShape(der, t, times);
    }
    if t, times :| CertShape(der, t, times) {
      CertFieldsFound(der, t, times);
    }
  }

  lemma ReadTbs(der: seq<Byte>, f: Fields) returns (tbs: seq<Byte>)
    requires CertFields(der) == Ok(f)
    ensures Wraps(der, tbs) && Children(tbs).Ok? && Pick(Children(tbs).value) == Ok(f)
  {
    var (cert, k) := ReadTlv(der, 0).value;
    var (inner, l) := ReadTlv(cert.value, 0).value;
    ReadTlvAdvances(der, 0);
    ReadTlvAdvances(cert.value, 0);
    ReadTlvIff(der, cert, k);
    ReadTlvIff(cert.value, inner, l);
    tbs := inner.value;
    assert cert == Tlv(0x30, cert.value) && inner == Tlv(0x30, tbs);
    assert Nested(der, cert.value, k, tbs, l);
  }

  lemma SplitFields(fields: seq<Tlv>, idx: nat)
    requires idx <= 1 && idx + 4 <= |fields|
    ensures fields == (if idx == 1 then [fields[0]] else [])
                      + [fields[idx], fields[idx + 1], fields[idx + 2], fields[idx + 3]] + fields[idx + 4..]
  {
  }

  lemma PickOnlyThere(fields: seq<Tlv>, f: Fields) returns (t: Tbs, times: seq<Tlv>)
    requires Pick(fields) == Ok(f)
    ensures t.WellTagged() && t.Elements() == fields && |times| >= 2
    ensures EncodesAll(t.validity.value, times) && f == t.Found(times)
  {
    var idx := if fields[0].tag == 0xA0 then 1 else 0;
    SplitFields(fields, idx);
    t := Tbs(if idx == 1 then Some(fields[0]) else None,
             fields[idx], fields[idx + 1], fields[idx + 2], fields[idx + 3], fields[idx + 4..]);
    times := Children(t.validity.value).value;
    ChildrenIff(t.validity.value, times);
  }
}
