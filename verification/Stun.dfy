/** The STUN Binding response parser, against a specification that first reads the message as a
    list of attributes (RFC 5389, sections 6, 15, 15.1 and 15.2). */
module Stun {
  import opened Bytes
  import opened Base

  datatype Attribute = Attribute(atype: u16, value: bytes)

  /** 0x2112A442 in network byte order. */
  const MAGIC_COOKIE: bytes := [0x21, 0x12, 0xA4, 0x42]
  const BINDING_SUCCESS: u16 := 0x0101
  const MAPPED_ADDRESS: u16 := 0x0001
  const XOR_MAPPED_ADDRESS: u16 := 0x0020
  const HEADER: nat := 20

  /** Octets that pad a value of `n` octets to a 4-octet boundary. */
  function Padding(n: nat): (p: nat)
    ensures p < 4 && (n + p) % 4 == 0
  {
    (4 - n % 4) % 4
  }

  // ---------------------------------------------------------------- specification

  function XorAddress(ip: bytes): (r: bytes)
    requires |ip| == 4
    ensures |r| == 4
  {
    [Xor8(ip[0], MAGIC_COOKIE[0]), Xor8(ip[1], MAGIC_COOKIE[1]),
     Xor8(ip[2], MAGIC_COOKIE[2]), Xor8(ip[3], MAGIC_COOKIE[3])]
  }

  /** The IPv4 address an attribute carries, if it is one of the two address attributes. */
  function AddressOf(a: Attribute): Option<Addr> {
    if (a.atype == XOR_MAPPED_ADDRESS || a.atype == MAPPED_ADDRESS) && |a.value| >= 8 && a.value[1] == 0x01 then
      var port, ip := DecodeU16(a.value[2], a.value[3]), a.value[4..8];
      if a.atype == XOR_MAPPED_ADDRESS then Some(Addr(XorAddress(ip), Xor16(port, 0x2112)))
      else Some(Addr(ip, port))
    else None
  }

  function FirstAddress(attrs: seq<Attribute>): Option<Addr> {
    if attrs == [] then None
    else if AddressOf(attrs[0]).Some? then AddressOf(attrs[0])
    else FirstAddress(attrs[1..])
  }

  function U16At(msg: bytes, i: nat): u16
    requires i + 2 <= |msg|
  {
    DecodeU16(msg[i], msg[i + 1])
  }

  /** Where the value of the attribute at `i` stops. */
  function ValueEnd(msg: bytes, i: nat): (e: nat)
    requires i + 4 <= |msg|
    ensures e >= i + 4
  {
    i + 4 + U16At(msg, i + 2)
  }

  function AttributeAt(msg: bytes, i: nat): Attribute
    requires i + 4 <= |msg| && ValueEnd(msg, i) <= |msg|
  {
    Attribute(U16At(msg, i), msg[i + 4..ValueEnd(msg, i)])
  }

  /** Where the next attribute starts. */
  function NextOffset(msg: bytes, i: nat): (n: nat)
    requires i + 4 <= |msg|
    ensures n >= ValueEnd(msg, i)
  {
    ValueEnd(msg, i) + Padding(U16At(msg, i + 2))
  }

  /** The attributes from offset `i` on: headers must lie before `end`, values may run up to the
      end of the datagram. */
  function ReadAttributes(msg: bytes, i: nat, end: nat): seq<Attribute>
    requires end <= |msg|
    decreases end - i
  {
    if i + 4 > end || ValueEnd(msg, i) > |msg| then []
    else [AttributeAt(msg, i)] + ReadAttributes(msg, NextOffset(msg, i), end)
  }

  function DeclaredEnd(msg: bytes): nat
    requires |msg| >= HEADER
  {
    HEADER + DecodeU16(msg[2], msg[3])
  }

  predicate IsSuccess(msg: bytes)
    requires |msg| >= HEADER
  {
    DecodeU16(msg[0], msg[1]) == BINDING_SUCCESS
  }

  function Parse(msg: bytes): Option<Addr> {
    if |msg| < HEADER || !IsSuccess(msg) then None
    else FirstAddress(Scanned(msg))
  }

  // ---------------------------------------------------------------- what an answer is

  /** The attribute is one of the two address attributes, of family IPv4. */
  predicate Addressed(a: Attribute) {
    a.atype in {0x0001, 0x0020} && |a.value| >= 8 && a.value[1] == 0x01
  }

  /** Where the bit of the mask is set, the bit of the number differs from that of the field. */
  predicate Masked(x: nat, field: nat, mask: nat, bits: nat) {
    forall i :: 0 <= i < bits ==> (Bit(x, i) != Bit(field, i) <==> Bit(mask, i) == 1)
  }

  /** The attribute carries the address: as it stands (RFC 5389 section 15.1), or with the port and the
      octets exclusive-ored with the magic cookie 0x2112A442 (section 15.2). */
  predicate Carries(a: Attribute, addr: Addr) {
    Addressed(a) && |addr.ip| == 4 &&
    var v := a.value;
    var hi: nat, lo: nat := v[2], v[3];
    if a.atype == 0x0001 then
      addr.port == hi * 256 + lo && addr.ip == [v[4], v[5], v[6], v[7]]
    else
      Masked(addr.port, hi * 256 + lo, 0x2112, 16) &&
      Masked(addr.ip[0], v[4], 0x21, 8) && Masked(addr.ip[1], v[5], 0x12, 8) &&
      Masked(addr.ip[2], v[6], 0xA4, 8) && Masked(addr.ip[3], v[7], 0x42, 8)
  }

  lemma XorMasks(x: nat, mask: nat, n: nat)
    ensures Masked(Xor(x, mask, n), x, mask, n)
  {
    forall i | 0 <= i < n
      ensures Bit(Xor(x, mask, n), i) != Bit(x, i) <==> Bit(mask, i) == 1
    {
      XorBits(x, mask, n, i);
      BitIsBinary(x, i);
      BitIsBinary(mask, i);
      BitIsBinary(Xor(x, mask, n), i);
    }
  }

  lemma AddressIsCarried(a: Attribute)
    ensures AddressOf(a).Some? <==> Addressed(a)
    ensures AddressOf(a).Some? ==> Carries(a, AddressOf(a).value)
  {
    if AddressOf(a).Some? {
      var v := a.value;
      assert v[4..8] == [v[4], v[5], v[6], v[7]];
      XorMasks(DecodeU16(v[2], v[3]), 0x2112, 16);
      XorMasks(v[4], 0x21, 8);
      XorMasks(v[5], 0x12, 8);
      XorMasks(v[6], 0xA4, 8);
      XorMasks(v[7], 0x42, 8);
    }
  }

  /** `addr` is what the first address attribute of the list carries. */
  predicate CarriedFirst(attrs: seq<Attribute>, addr: Addr) {
    exists k :: 0 <= k < |attrs| && Carries(attrs[k], addr) && forall j :: 0 <= j < k ==> !Addressed(attrs[j])
  }

  lemma {:induction false} FirstIsCarried(attrs: seq<Attribute>)
    ensures FirstAddress(attrs).Some? ==> CarriedFirst(attrs, FirstAddress(attrs).value)
    ensures FirstAddress(attrs).None? ==> forall k :: 0 <= k < |attrs| ==> !Addressed(attrs[k])
    decreases |attrs|
  {
    if attrs != [] {
      AddressIsCarried(attrs[0]);
      if AddressOf(attrs[0]).Some? {
        assert Carries(attrs[0], FirstAddress(attrs).value);
      } else {
        FirstIsCarried(attrs[1..]);
        if FirstAddress(attrs).Some? {
          var rest, addr := attrs[1..], FirstAddress(attrs).value;
          var k :| 0 <= k < |rest| && Carries(rest[k], addr) && forall j :: 0 <= j < k ==> !Addressed(rest[j]);
          assert Carries(attrs[k + 1], addr);
          assert forall j :: 0 < j < k + 1 ==> attrs[j] == rest[j - 1];
        }
      }
    }
  }

  /** The attributes the scan goes over. */
  function Scanned(msg: bytes): seq<Attribute>
    requires |msg| >= HEADER
  {
    ReadAttributes(msg, HEADER, if DeclaredEnd(msg) < |msg| then DeclaredEnd(msg) else |msg|)
  }

  // ---------------------------------------------------------------- the loop

  /** One turn of the scan. */
  lemma ScanStep(msg: bytes, i: nat, end: nat)
    requires end <= |msg|
    ensures FirstAddress(ReadAttributes(msg, i, end)) ==
              if i + 4 > end || ValueEnd(msg, i) > |msg| then None
              else if AddressOf(AttributeAt(msg, i)).Some? then AddressOf(AttributeAt(msg, i))
              else FirstAddress(ReadAttributes(msg, NextOffset(msg, i), end))
  {
    if i + 4 <= end && ValueEnd(msg, i) <= |msg| {
      var attrs := ReadAttributes(msg, i, end);
      assert attrs[0] == AttributeAt(msg, i) && attrs[1..] == ReadAttributes(msg, NextOffset(msg, i), end);
    }
  }

  method DecodeAddress(atype: u16, val: bytes) returns (r: Option<Addr>)
    ensures r == AddressOf(Attribute(atype, val))
  {
    if (atype == 0x0020 || atype == 0x0001) && |val| >= 8 && val[1] == 0x01 {
      assert val[4..8] == [val[4], val[5], val[6], val[7]];
      if atype == 0x0020 {
        var port := Xor16(DecodeU16(val[2], val[3]), 0x2112);
        var ip := [Xor8(val[4], MAGIC_COOKIE[0]), Xor8(val[5], MAGIC_COOKIE[1]),
                   Xor8(val[6], MAGIC_COOKIE[2]), Xor8(val[7], MAGIC_COOKIE[3])];
        r := Some(Addr(ip, port));
      } else {
        r := Some(Addr([val[4], val[5], val[6], val[7]], DecodeU16(val[2], val[3])));
      }
    } else {
      r := None;
    }
  }

  /** `parse_mapped`: on every datagram the index loop answers with what the first IPv4 address
      attribute of a Binding success carries, and with nothing exactly if there is none. */
  method ParseMapped(msg: bytes) returns (r: Option<Addr>)
    ensures r == Parse(msg)
    ensures r.Some? ==> |msg| >= 20 && msg[0] == msg[1] == 0x01 && CarriedFirst(Scanned(msg), r.value)
    ensures r.None? ==>
              |msg| < 20 || msg[0] != 0x01 || msg[1] != 0x01 ||
              forall k :: 0 <= k < |Scanned(msg)| ==> !Addressed(Scanned(msg)[k])
  {
    if |msg| >= 20 {
      FirstIsCarried(Scanned(msg));
    }
    if |msg| < 20 {
      return None;
    }
    if DecodeU16(msg[0], msg[1]) != 0x0101 {
      return None;
    }
    var mlen := DecodeU16(msg[2], msg[3]);
    r := Scan(msg, if 20 + mlen < |msg| then 20 + mlen else |msg|);
  }

  method Scan(msg: bytes, end: nat) returns (r: Option<Addr>)
    requires end <= |msg|
    ensures r == FirstAddress(ReadAttributes(msg, HEADER, end))
  {
    ghost var answer := FirstAddress(ReadAttributes(msg, HEADER, end));
    var i := 20;
    while i + 4 <= end
      invariant i >= 20
      invariant answer == FirstAddress(ReadAttributes(msg, i, end))
      decreases end - i
    {
      ScanStep(msg, i, end);
      var atype := DecodeU16(msg[i], msg[i + 1]);
      var alen := DecodeU16(msg[i + 2], msg[i + 3]);
      var v := i + 4;
      if v + alen > |msg| {
        return None;
      }
      var found := DecodeAddress(atype, msg[v..v + alen]);
      assert found == AddressOf(AttributeAt(msg, i));
      if found.Some? {
        return found;
      }
      i := v + alen + Padding(alen);
    }
    r := None;
  }

  // ---------------------------------------------------------------- the encoder

  function Zeros(n: nat): (z: bytes)
    ensures |z| == n
  {
    seq(n, _ => 0)
  }

  predicate Encodable(a: Attribute) {
    |a.value| < 0x1_0000
  }

  function EncodeAttribute(a: Attribute): (b: bytes)
    requires Encodable(a)
    ensures |b| == 4 + |a.value| + Padding(|a.value|)
  {
    EncodeU16(a.atype) + EncodeU16(|a.value|) + a.value + Zeros(Padding(|a.value|))
  }

  function EncodeAttributes(attrs: seq<Attribute>): bytes
    requires forall k :: 0 <= k < |attrs| ==> Encodable(attrs[k])
  {
    if attrs == [] then [] else EncodeAttribute(attrs[0]) + EncodeAttributes(attrs[1..])
  }

  function EncodeHeader(txid: bytes, length: u16): (h: bytes)
    requires |txid| == 12
    ensures |h| == HEADER
  {
    EncodeU16(BINDING_SUCCESS) + EncodeU16(length) + MAGIC_COOKIE + txid
  }

  lemma HeaderFields(txid: bytes, length: u16)
    requires |txid| == 12
    ensures var h := EncodeHeader(txid, length); IsSuccess(h) && DeclaredEnd(h) == HEADER + length
  {
    var h := EncodeHeader(txid, length);
    assert h[0] == EncodeU16(BINDING_SUCCESS)[0] && h[1] == EncodeU16(BINDING_SUCCESS)[1];
    assert h[2] == EncodeU16(length)[0] && h[3] == EncodeU16(length)[1];
    U16RoundTrip(BINDING_SUCCESS);
    U16RoundTrip(length);
  }

  function EncodeResponse(txid: bytes, attrs: seq<Attribute>): bytes
    requires |txid| == 12
    requires forall k :: 0 <= k < |attrs| ==> Encodable(attrs[k])
    requires |EncodeAttributes(attrs)| < 0x1_0000
  {
    EncodeHeader(txid, |EncodeAttributes(attrs)|) + EncodeAttributes(attrs)
  }

  /** An encoded attribute list is recovered wherever in a datagram it lies. */
  lemma {:induction false} ReadInvertsEncode(msg: bytes, i: nat, end: nat, attrs: seq<Attribute>)
    requires forall k :: 0 <= k < |attrs| ==> Encodable(attrs[k])
    requires i <= end <= |msg| && msg[i..end] == EncodeAttributes(attrs)
    ensures ReadAttributes(msg, i, end) == attrs
    decreases |attrs|
  {
    if attrs == [] {
      assert |msg[i..end]| == 0;
    } else {
      var one, rest := EncodeAttribute(attrs[0]), EncodeAttributes(attrs[1..]);
      SliceSplit(msg, i, end, one, rest);
      var next := i + |one|;
      ReadInvertsEncode(msg, next, end, attrs[1..]);
      ReadOne(msg, i, next, end, attrs[0]);
      assert attrs == [attrs[0]] + attrs[1..];
    }
  }

  /** The reader takes one encoded attribute off the front. */
  lemma ReadOne(msg: bytes, i: nat, next: nat, end: nat, a: Attribute)
    requires Encodable(a)
    requires i <= next <= end <= |msg| && msg[i..next] == EncodeAttribute(a)
    ensures ReadAttributes(msg, i, end) == [a] + ReadAttributes(msg, next, end)
  {
    assert |msg[i..next]| == next - i;
    HeaderReadsBack(msg, i, a);
  }

  lemma SliceSplit(msg: bytes, i: nat, end: nat, one: bytes, rest: bytes)
    requires i <= end <= |msg| && msg[i..end] == one + rest
    ensures i + |one| <= end && msg[i..i + |one|] == one && msg[i + |one|..end] == rest
  {
    var s := msg[i..end];
    assert |s| == end - i && s[..|one|] == one && s[|one|..] == rest;
    assert msg[i..i + |one|] == s[..|one|] && msg[i + |one|..end] == s[|one|..];
  }

  lemma HeaderReadsBack(msg: bytes, i: nat, a: Attribute)
    requires Encodable(a)
    requires i + |EncodeAttribute(a)| <= |msg| && msg[i..i + |EncodeAttribute(a)|] == EncodeAttribute(a)
    ensures ValueEnd(msg, i) <= |msg| && AttributeAt(msg, i) == a && NextOffset(msg, i) == i + |EncodeAttribute(a)|
  {
    var one, n := EncodeAttribute(a), |a.value|;
    forall k | 0 <= k < |one|
      ensures msg[i + k] == one[k]
    {
      assert msg[i..i + |one|][k] == one[k];
    }
    assert msg[i] == one[0] && msg[i + 1] == one[1] && msg[i + 2] == one[2] && msg[i + 3] == one[3];
    U16RoundTrip(a.atype);
    U16RoundTrip(n);
    assert one[4..4 + n] == a.value;
    assert msg[i + 4..i + 4 + n] == one[4..4 + n];
  }

  lemma ParseBody(msg: bytes, attrs: seq<Attribute>)
    requires forall k :: 0 <= k < |attrs| ==> Encodable(attrs[k])
    requires |msg| >= HEADER && IsSuccess(msg)
    requires DeclaredEnd(msg) == HEADER + |EncodeAttributes(attrs)| <= |msg|
    requires msg[HEADER..DeclaredEnd(msg)] == EncodeAttributes(attrs)
    ensures Parse(msg) == FirstAddress(attrs)
  {
    ReadInvertsEncode(msg, HEADER, DeclaredEnd(msg), attrs);
  }

  lemma Framed(h: bytes, body: bytes, trailing: bytes)
    requires |h| == HEADER
    ensures var msg := h + body + trailing;
            IsSuccess(msg) == IsSuccess(h) && DeclaredEnd(msg) == DeclaredEnd(h) &&
            msg[HEADER..HEADER + |body|] == body
  {
  }

  /** Parsing inverts encoding: for any attribute list, and whatever trails the datagram, the
      parser answers with the list's first IPv4 address. */
  lemma ParseInvertsEncode(txid: bytes, attrs: seq<Attribute>, trailing: bytes)
    requires |txid| == 12
    requires forall k :: 0 <= k < |attrs| ==> Encodable(attrs[k])
    requires |EncodeAttributes(attrs)| < 0x1_0000
    ensures Parse(EncodeResponse(txid, attrs) + trailing) == FirstAddress(attrs)
  {
    var body := EncodeAttributes(attrs);
    HeaderFields(txid, |body|);
    Framed(EncodeHeader(txid, |body|), body, trailing);
    ParseBody(EncodeResponse(txid, attrs) + trailing, attrs);
  }

  /** The address attributes a server sends for `addr` (family 0x01, RFC 5389 section 15.1). */
  function MappedAddress(addr: Addr): Attribute
    requires |addr.ip| == 4
  {
    Attribute(MAPPED_ADDRESS, [0, 1] + EncodeU16(addr.port) + addr.ip)
  }

  /** RFC 5389 section 15.2: port and address are exclusive-ored with the cookie. */
  function XorMappedAddress(addr: Addr): Attribute
    requires |addr.ip| == 4
  {
    Attribute(XOR_MAPPED_ADDRESS, [0, 1] + EncodeU16(Xor16(addr.port, 0x2112)) + XorAddress(addr.ip))
  }

  lemma AddressReadsBack(addr: Addr)
    requires |addr.ip| == 4
    ensures AddressOf(MappedAddress(addr)) == Some(addr)
    ensures AddressOf(XorMappedAddress(addr)) == Some(addr)
  {
    var port := Xor16(addr.port, 0x2112);
    var plain, masked := MappedAddress(addr).value, XorMappedAddress(addr).value;
    assert plain[2] == EncodeU16(addr.port)[0] && plain[3] == EncodeU16(addr.port)[1] && plain[4..8] == addr.ip;
    assert masked[2] == EncodeU16(port)[0] && masked[3] == EncodeU16(port)[1] && masked[4..8] == XorAddress(addr.ip);
    U16RoundTrip(addr.port);
    U16RoundTrip(port);
    Xor16Involution(addr.port, 0x2112);
    forall k | 0 <= k < 4
      ensures Xor8(Xor8(addr.ip[k], MAGIC_COOKIE[k]), MAGIC_COOKIE[k]) == addr.ip[k]
    {
      Xor8Involution(addr.ip[k], MAGIC_COOKIE[k]);
    }
    assert XorAddress(XorAddress(addr.ip)) == addr.ip;
  }

  lemma {:induction false} FirstAddressSkips(before: seq<Attribute>, a: Attribute, after: seq<Attribute>)
    requires forall k :: 0 <= k < |before| ==> AddressOf(before[k]).None?
    requires AddressOf(a).Some?
    ensures FirstAddress(before + [a] + after) == AddressOf(a)
    decreases |before|
  {
    var all := before + [a] + after;
    if before != [] {
      assert all[1..] == before[1..] + [a] + after;
      FirstAddressSkips(before[1..], a, after);
    }
  }

  /** Round trip: a response that carries an address, plain or masked, among any other attributes
      gives back that address. */
  lemma AddressRoundTrip(txid: bytes, before: seq<Attribute>, addr: Addr, masked: bool,
                         after: seq<Attribute>, trailing: bytes)
    requires |txid| == 12 && |addr.ip| == 4
    requires forall k :: 0 <= k < |before| ==> AddressOf(before[k]).None?
    requires var attrs := before + [if masked then XorMappedAddress(addr) else MappedAddress(addr)] + after;
             (forall k :: 0 <= k < |attrs| ==> Encodable(attrs[k])) && |EncodeAttributes(attrs)| < 0x1_0000
    ensures var attrs := before + [if masked then XorMappedAddress(addr) else MappedAddress(addr)] + after;
            Parse(EncodeResponse(txid, attrs) + trailing) == Some(addr)
  {
    var a := if masked then XorMappedAddress(addr) else MappedAddress(addr);
    AddressReadsBack(addr);
    FirstAddressSkips(before, a, after);
    ParseInvertsEncode(txid, before + [a] + after, trailing);
  }

  // ---------------------------------------------------------------- what follows the message

  /** The value of the attribute at `i` runs past the datagram, and nothing that is there yet rules
      out that it is an IPv4 address. */
  predicate CutAddress(msg: bytes, i: nat)
    requires i + 4 <= |msg|
  {
    ValueEnd(msg, i) > |msg| && U16At(msg, i) in {XOR_MAPPED_ADDRESS, MAPPED_ADDRESS} &&
    U16At(msg, i + 2) >= 8 && (i + 5 < |msg| ==> msg[i + 5] == 0x01)
  }

  /** The scan from `i` meets no address and then a cut-off one whose header lies before `end`. */
  predicate Dangling(msg: bytes, i: nat, end: nat)
    requires end <= |msg|
    decreases end - i
  {
    if i + 4 > end then false
    else if ValueEnd(msg, i) > |msg| then CutAddress(msg, i)
    else AddressOf(AttributeAt(msg, i)).None? && Dangling(msg, NextOffset(msg, i), end)
  }

  lemma AttributeFrame(msg: bytes, junk: bytes, i: nat)
    requires i + 4 <= |msg|
    ensures ValueEnd(msg + junk, i) == ValueEnd(msg, i) && NextOffset(msg + junk, i) == NextOffset(msg, i)
    ensures U16At(msg + junk, i) == U16At(msg, i) && U16At(msg + junk, i + 2) == U16At(msg, i + 2)
    ensures ValueEnd(msg, i) <= |msg| ==> AttributeAt(msg + junk, i) == AttributeAt(msg, i)
  {
    if ValueEnd(msg, i) <= |msg| {
      assert (msg + junk)[i + 4..ValueEnd(msg, i)] == msg[i + 4..ValueEnd(msg, i)];
    }
  }

  /** Completing a cut-off value yields an address for some completion if and only if it was a cut
      address. */
  lemma CompletedValue(msg: bytes, junk: bytes, i: nat)
    requires i + 4 <= |msg| && |msg| < ValueEnd(msg, i) <= |msg + junk|
    ensures ValueEnd(msg + junk, i) == ValueEnd(msg, i)
    ensures AddressOf(AttributeAt(msg + junk, i)).Some? ==> CutAddress(msg, i)
    ensures CutAddress(msg, i) && (forall k :: 0 <= k < |junk| ==> junk[k] == 1) ==>
              AddressOf(AttributeAt(msg + junk, i)).Some?
  {
    AttributeFrame(msg, junk, i);
    var long := msg + junk;
    var a := AttributeAt(long, i);
    assert |a.value| > 1 ==> a.value[1] == long[i + 5];
  }

  lemma {:induction false} TrailingIgnored(msg: bytes, junk: bytes, i: nat, end: nat)
    requires end <= |msg| && !Dangling(msg, i, end)
    ensures FirstAddress(ReadAttributes(msg + junk, i, end)) == FirstAddress(ReadAttributes(msg, i, end))
    decreases end - i
  {
    if i + 4 <= end {
      AttributeFrame(msg, junk, i);
      if ValueEnd(msg, i) <= |msg| {
        if AddressOf(AttributeAt(msg, i)).None? {
          TrailingIgnored(msg, junk, NextOffset(msg, i), end);
        }
      } else if ValueEnd(msg, i) <= |msg + junk| {
        CompletedValue(msg, junk, i);
        assert ReadAttributes(msg + junk, i, end) == [AttributeAt(msg + junk, i)];
      }
    }
  }

  lemma {:induction false} DanglingCompletes(msg: bytes, i: nat, end: nat) returns (junk: bytes)
    requires end <= |msg| && Dangling(msg, i, end)
    ensures FirstAddress(ReadAttributes(msg, i, end)) == None
    ensures FirstAddress(ReadAttributes(msg + junk, i, end)) != None
    decreases end - i
  {
    if ValueEnd(msg, i) > |msg| {
      junk := seq(ValueEnd(msg, i) - |msg|, _ => 1);
      CompletedValue(msg, junk, i);
    } else {
      junk := DanglingCompletes(msg, NextOffset(msg, i), end);
      AttributeFrame(msg, junk, i);
    }
  }

  /** A datagram at least as long as it declares is read the same whatever is appended to it,
      except exactly when an address attribute straddles the declared end and the datagram: the
      parser checks values against the datagram, not against the declared length. */
  lemma LengthDecidesExactly(msg: bytes)
    requires |msg| >= HEADER && DeclaredEnd(msg) <= |msg|
    ensures (forall junk: bytes :: Parse(msg + junk) == Parse(msg)) <==>
              !(IsSuccess(msg) && Dangling(msg, HEADER, DeclaredEnd(msg)))
  {
    var end := DeclaredEnd(msg);
    forall junk: bytes
      ensures |msg + junk| >= HEADER && IsSuccess(msg + junk) == IsSuccess(msg) && DeclaredEnd(msg + junk) == end
    {
    }
    if IsSuccess(msg) && Dangling(msg, HEADER, end) {
      var junk := DanglingCompletes(msg, HEADER, end);
      assert Parse(msg + junk) != Parse(msg);
    } else {
      forall junk: bytes
        ensures Parse(msg + junk) == Parse(msg)
      {
        if IsSuccess(msg) {
          TrailingIgnored(msg, junk, HEADER, end);
        }
      }
    }
  }

  /** Padded attributes that exactly fill the declared length. */
  predicate Tiles(msg: bytes, i: nat, end: nat)
    requires end <= |msg|
    decreases end - i
  {
    if i >= end then i == end else i + 4 <= end && Tiles(msg, NextOffset(msg, i), end)
  }

  lemma {:induction false} TilesNeverDangles(msg: bytes, i: nat, end: nat)
    requires end <= |msg| && Tiles(msg, i, end)
    ensures i <= end && !Dangling(msg, i, end)
    decreases end - i
  {
    if i < end {
      TilesNeverDangles(msg, NextOffset(msg, i), end);
    }
  }

  /** In particular a well-formed message is read the same whatever follows it. */
  lemma WellFormedIgnoresTrailing(msg: bytes, junk: bytes)
    requires |msg| >= HEADER && DeclaredEnd(msg) <= |msg| && Tiles(msg, HEADER, DeclaredEnd(msg))
    ensures Parse(msg + junk) == Parse(msg)
  {
    TilesNeverDangles(msg, HEADER, DeclaredEnd(msg));
    LengthDecidesExactly(msg);
  }

  // ---------------------------------------------------------------- what is never looked at

  /** The two datagrams differ at most in bytes 4 to 19: the magic cookie and the transaction id. */
  predicate SameButForIds(msg: bytes, other: bytes) {
    |msg| == |other| >= HEADER && other[..4] == msg[..4] && other[HEADER..] == msg[HEADER..]
  }

  lemma SameAttribute(msg: bytes, other: bytes, i: nat)
    requires SameButForIds(msg, other) && HEADER <= i && i + 4 <= |msg|
    ensures ValueEnd(other, i) == ValueEnd(msg, i) && NextOffset(other, i) == NextOffset(msg, i)
    ensures ValueEnd(msg, i) <= |msg| ==> AttributeAt(other, i) == AttributeAt(msg, i)
  {
    forall k | HEADER <= k < |msg|
      ensures other[k] == msg[k]
    {
      assert other[HEADER..][k - HEADER] == msg[HEADER..][k - HEADER];
    }
    if ValueEnd(msg, i) <= |msg| {
      assert other[i + 4..ValueEnd(msg, i)] == msg[i + 4..ValueEnd(msg, i)];
    }
  }

  lemma {:induction false} ReadSame(msg: bytes, other: bytes, i: nat, end: nat)
    requires SameButForIds(msg, other) && HEADER <= i && end <= |msg|
    ensures ReadAttributes(other, i, end) == ReadAttributes(msg, i, end)
    decreases end - i
  {
    if i + 4 <= end {
      SameAttribute(msg, other, i);
      if ValueEnd(msg, i) <= |msg| {
        ReadSame(msg, other, NextOffset(msg, i), end);
      }
    }
  }

  /** Neither the magic cookie nor the transaction id is checked: whatever they hold, the parser gives
      the same answer. */
  lemma CookieAndIdIgnored(msg: bytes, other: bytes)
    requires SameButForIds(msg, other)
    ensures Parse(other) == Parse(msg)
  {
    assert forall k :: 0 <= k < 4 ==> other[k] == other[..4][k] == msg[..4][k] == msg[k];
    ReadSame(msg, other, HEADER, if DeclaredEnd(msg) < |msg| then DeclaredEnd(msg) else |msg|);
  }

  // ---------------------------------------------------------------- a standard example

  /** The start of the sample IPv4 response of RFC 5769 section 2.2: a header, a SOFTWARE attribute of
      eleven bytes, padded to twelve, and a masked address. */
  predicate IsSample(msg: bytes, head: bytes, software: bytes, address: bytes) {
    msg == head + software + address &&
    head == [0x01, 0x01, 0x00, 0x1c, 0x21, 0x12, 0xa4, 0x42, 0xb7, 0xe7, 0xa7, 0x01, 0xbc, 0x34, 0xd6, 0x86, 0xfa, 0x87, 0xdf, 0xae] &&
    software == [0x80, 0x22, 0x00, 0x0b, 0x74, 0x65, 0x73, 0x74, 0x20, 0x76, 0x65, 0x63, 0x74, 0x6f, 0x72, 0x20] &&
    address == [0x00, 0x20, 0x00, 0x08, 0x00, 0x01, 0xa1, 0x47, 0xe1, 0x12, 0xa6, 0x43]
  }

  lemma SampleFields(msg: bytes, head: bytes, software: bytes, address: bytes)
    requires IsSample(msg, head, software, address)
    ensures |msg| == 48 && msg[0] == 0x01 && msg[1] == 0x01 && msg[2] == 0x00 && msg[3] == 0x1c
    ensures U16At(msg, 20) == 0x8022 && U16At(msg, 22) == 11 && U16At(msg, 36) == 0x0020 && U16At(msg, 38) == 8
  {
    assert msg[0] == head[0] && msg[1] == head[1] && msg[2] == head[2] && msg[3] == head[3];
    assert msg[20] == software[0] && msg[21] == software[1] && msg[22] == software[2] && msg[23] == software[3];
    assert msg[36] == address[0] && msg[37] == address[1] && msg[38] == address[2] && msg[39] == address[3];
  }

  lemma ReadTwo(msg: bytes, i: nat, j: nat, end: nat)
    requires i + 4 <= end <= |msg| && ValueEnd(msg, i) <= |msg| && NextOffset(msg, i) == j
    requires j + 4 <= end && ValueEnd(msg, j) <= |msg| && NextOffset(msg, j) == end
    ensures ReadAttributes(msg, i, end) == [AttributeAt(msg, i), AttributeAt(msg, j)]
  {
    assert ReadAttributes(msg, end, end) == [];
    assert ReadAttributes(msg, j, end) == [AttributeAt(msg, j)];
  }

  lemma SampleRead(msg: bytes, head: bytes, software: bytes, address: bytes)
    requires IsSample(msg, head, software, address)
    ensures |msg| == DeclaredEnd(msg) == 48 && IsSuccess(msg)
    ensures AttributeAt(msg, 20).atype == 0x8022 && ValueEnd(msg, 36) == 48 && U16At(msg, 36) == 0x0020
    ensures ReadAttributes(msg, 20, 48) == [AttributeAt(msg, 20), AttributeAt(msg, 36)]
  {
    SampleFields(msg, head, software, address);
    ReadTwo(msg, 20, 36, 48);
  }

  /** The address it carries is 192.0.2.1, port 32853. */
  lemma SampleAnswer(msg: bytes, head: bytes, software: bytes, address: bytes)
    requires IsSample(msg, head, software, address)
    ensures Parse(msg) == Some(Addr([192, 0, 2, 1], 32853))
  {
    SampleRead(msg, head, software, address);
    assert msg[40..48] == address[4..12] == [0x00, 0x01, 0xa1, 0x47, 0xe1, 0x12, 0xa6, 0x43];
    SampleFirst(AttributeAt(msg, 20), AttributeAt(msg, 36));
  }

  lemma SampleFirst(a: Attribute, b: Attribute)
    requires a.atype == 0x8022 && b == Attribute(0x0020, [0x00, 0x01, 0xa1, 0x47, 0xe1, 0x12, 0xa6, 0x43])
    ensures FirstAddress([a, b]) == Some(Addr([192, 0, 2, 1], 32853))
  {
    assert b.value[4..8] == [0xe1, 0x12, 0xa6, 0x43];
    SampleUnmasks();
    assert [a, b][1..] == [b];
  }

  lemma SampleUnmasks()
    ensures Xor16(0xa147, 0x2112) == 32853
    ensures Xor8(0xe1, 0x21) == 192 && Xor8(0x12, 0x12) == 0 && Xor8(0xa6, 0xa4) == 2 && Xor8(0x43, 0x42) == 1
  {
    Pow2At16();
    assert Xor(0xa1, 0x21, 8) == 0x80;
    assert Xor(0xa14, 0x211, 12) == 0x805;
  }
}
