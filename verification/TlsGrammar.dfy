/** The TLS ClientHello as a recursive-descent grammar over length-prefixed byte strings. */
module TlsGrammar {
  import opened Bytes
  import opened Wrappers

  const CONTENT_TYPE_HANDSHAKE: u8 := 0x16
  const HANDSHAKE_TYPE_CLIENT_HELLO: u8 := 0x01
  const EXTENSION_SERVER_NAME: u16 := 0x0000
  const NAME_TYPE_HOST_NAME: u8 := 0x00

  datatype TlsResult = Incomplete | Found(sni: bytes) | NoSni | NotTls | Malformed

  // ---- Length-prefixed strings -------------------------------------------------------------------

  function Vec8(b: bytes): bytes
    requires |b| < 0x100
  {
    [|b|] + b
  }

  function Vec16(b: bytes): bytes
    requires |b| < 0x1_0000
  {
    [|b| / 256, |b| % 256] + b
  }

  function Vec24(b: bytes): bytes
    requires |b| < 0x100_0000
  {
    [|b| / 65536, |b| / 256 % 256, |b| % 256] + b
  }

  /** The string behind a length prefix of n bytes, and what follows it; None when it runs past the end. */
  function Split(d: bytes, prefix: nat, len: nat): Option<(bytes, bytes)> {
    if prefix + len <= |d| then Some((d[prefix..prefix + len], d[prefix + len..])) else None
  }

  function Take8(d: bytes): Option<(bytes, bytes)> {
    if |d| < 1 then None else Split(d, 1, d[0])
  }

  function Take16(d: bytes): Option<(bytes, bytes)> {
    if |d| < 2 then None else Split(d, 2, U16BE(d, 0))
  }

  function Take24(d: bytes): Option<(bytes, bytes)> {
    if |d| < 3 then None else Split(d, 3, U24BE(d, 0))
  }

  /** A length-prefixed string is read back exactly, and reading succeeds on nothing else. */
  lemma Take8Iff(d: bytes, b: bytes, rest: bytes)
    ensures Take8(d) == Some((b, rest)) <==> |b| < 0x100 && d == Vec8(b) + rest
  {
    if Take8(d) == Some((b, rest)) {
      assert d == d[..1] + d[1..1 + |b|] + d[1 + |b|..];
    }
    if |b| < 0x100 && d == Vec8(b) + rest {
      assert d[1..1 + |b|] == b && d[1 + |b|..] == rest;
    }
  }

  lemma Take16Iff(d: bytes, b: bytes, rest: bytes)
    ensures Take16(d) == Some((b, rest)) <==> |b| < 0x1_0000 && d == Vec16(b) + rest
  {
    if Take16(d) == Some((b, rest)) {
      U16Unique(d, 0);
      assert d == d[..2] + d[2..2 + |b|] + d[2 + |b|..];
    }
    if |b| < 0x1_0000 && d == Vec16(b) + rest {
      assert U16BE(d, 0) == |b|;
      assert d[2..2 + |b|] == b && d[2 + |b|..] == rest;
    }
  }

  lemma Digits24(x: u24)
    ensures PutU24BE(x) == [x / 65536, x / 256 % 256, x % 256]
  {
    var h, l := x / 65536, x % 65536;
    assert x == h * 65536 + l;
    assert x / 256 == h * 256 + l / 256;
  }

  lemma Take24Iff(d: bytes, b: bytes, rest: bytes)
    ensures Take24(d) == Some((b, rest)) <==> |b| < 0x100_0000 && d == Vec24(b) + rest
  {
    if Take24(d) == Some((b, rest)) {
      U24Unique(d, 0);
      Digits24(|b|);
      assert d == d[..3] + d[3..3 + |b|] + d[3 + |b|..];
    }
    if |b| < 0x100_0000 && d == Vec24(b) + rest {
      assert U24BE(d, 0) == U24BE(PutU24BE(|b|), 0) by { Digits24(|b|); }
      assert d[3..3 + |b|] == b && d[3 + |b|..] == rest;
    }
  }

  // ---- The parser ----------------------------------------------------------------------------------

  /** The entries of a server name list: the first host_name, if an in-bounds walk reaches one. */
  function ParseNames(list: bytes): TlsResult
    decreases |list|
  {
    if |list| < 3 then NoSni else
    match Take16(list[1..])
    case None => Malformed
    case Some((name, rest)) =>
      if list[0] == NAME_TYPE_HOST_NAME then Found(name) else ParseNames(rest)
  }

  function ParseServerName(body: bytes): TlsResult {
    match Take16(body)
    case None => Malformed
    case Some((list, _)) => ParseNames(list)
  }

  function ParseExtensions(exts: bytes): TlsResult
    decreases |exts|
  {
    if |exts| < 4 then NoSni else
    match Take16(exts[2..])
    case None => Malformed
    case Some((body, rest)) =>
      if U16BE(exts, 0) == EXTENSION_SERVER_NAME then ParseServerName(body) else ParseExtensions(rest)
  }

  function ParseExtensionBlock(d: bytes): TlsResult {
    if d == [] then NoSni else
    match Take16(d)
    case None => Malformed
    case Some((exts, _)) => ParseExtensions(exts)
  }

  function ParseHello(ch: bytes): TlsResult {
    if |ch| < 34 then Malformed else
    match Take8(ch[34..])
    case None => Malformed
    case Some((_, afterId)) =>
      match Take16(afterId)
      case None => Malformed
      case Some((_, afterSuites)) =>
        match Take8(afterSuites)
        case None => Malformed
        case Some((_, afterMethods)) => ParseExtensionBlock(afterMethods)
  }

  function ParseHandshake(hs: bytes): TlsResult {
    if |hs| < 4 then Malformed
    else if hs[0] != HANDSHAKE_TYPE_CLIENT_HELLO then NotTls
    else
      match Take24(hs[1..])
      case None => Malformed
      case Some((ch, _)) => ParseHello(ch)
  }

  function ParseRecord(data: bytes): TlsResult {
    if |data| < 5 then Incomplete
    else if data[0] != CONTENT_TYPE_HANDSHAKE then NotTls
    else
      match Take16(data[3..])
      case None => Incomplete
      case Some((hs, _)) => ParseHandshake(hs)
  }

  lemma ParseNeverIncompleteInside(hs: bytes)
    ensures ParseHandshake(hs) != Incomplete
  {
    NamesNeverIncomplete();
    ExtensionsNeverIncomplete();
  }

  lemma NamesNeverIncomplete()
    ensures forall list :: ParseNames(list) != Incomplete
  {
    forall list ensures ParseNames(list) != Incomplete { OneNamesNeverIncomplete(list); }
  }

  lemma {:induction false} OneNamesNeverIncomplete(list: bytes)
    ensures ParseNames(list) != Incomplete
    decreases |list|
  {
    if |list| >= 3 && Take16(list[1..]).Some? {
      OneNamesNeverIncomplete(Take16(list[1..]).value.1);
    }
  }

  lemma ExtensionsNeverIncomplete()
    ensures forall exts :: ParseExtensions(exts) != Incomplete
  {
    forall exts ensures ParseExtensions(exts) != Incomplete { OneExtensionsNeverIncomplete(exts); }
  }

  lemma {:induction false} OneExtensionsNeverIncomplete(exts: bytes)
    ensures ParseExtensions(exts) != Incomplete
    decreases |exts|
  {
    NamesNeverIncomplete();
    if |exts| >= 4 && Take16(exts[2..]).Some? {
      OneExtensionsNeverIncomplete(Take16(exts[2..]).value.1);
    }
  }

  // ---- Growing buffers -----------------------------------------------------------------------------

  /** A verdict other than Incomplete never changes when more bytes arrive. */
  lemma VerdictIsStable(data: bytes, more: bytes)
    requires ParseRecord(data) != Incomplete
    ensures ParseRecord(data + more) == ParseRecord(data)
  {
    var d := data + more;
    assert d[0] == data[0];
    if data[0] == CONTENT_TYPE_HANDSHAKE {
      var (hs, rest) := Take16(data[3..]).value;
      Take16Iff(data[3..], hs, rest);
      assert d[3..] == Vec16(hs) + (rest + more);
      Take16Iff(d[3..], hs, rest + more);
    }
  }

  // ---- Verdicts from the bytes ---------------------------------------------------------------------

  /** The length a record header declares. */
  function Declared(data: bytes): nat
    requires |data| >= 5
  {
    (data[3] as int) * 256 + data[4]
  }

  /** The header of a handshake record and all the bytes it declares are there. */
  predicate WholeRecord(data: bytes) {
    |data| >= 5 && data[0] == 0x16 && |data| >= 5 + Declared(data)
  }

  /** The fragment of a whole record, without what follows. */
  lemma WholeIsParsed(data: bytes)
    requires WholeRecord(data)
    ensures ParseRecord(data) == ParseHandshake(data[5..5 + Declared(data)])
  {
    hide ParseHandshake;
    var d, len := data[3..], Declared(data);
    assert U16BE(d, 0) == len;
    assert d[2..2 + len] == data[5..5 + len];
  }

  lemma PartialIsIncomplete(data: bytes)
    requires |data| >= 5 && data[0] == 0x16 && !WholeRecord(data)
    ensures ParseRecord(data) == Incomplete
  {
    hide ParseHandshake;
    assert U16BE(data[3..], 0) == Declared(data);
  }

  /** Incomplete says exactly that fewer bytes are there than the header, or the record it declares, needs. */
  lemma IncompleteIff(data: bytes)
    ensures ParseRecord(data) == Incomplete <==>
            |data| < 5 || (data[0] == 0x16 && |data| < 5 + Declared(data))
  {
    hide Take16, ParseHandshake;
    if WholeRecord(data) {
      WholeIsParsed(data);
      ParseNeverIncompleteInside(data[5..5 + Declared(data)]);
    } else if |data| >= 5 && data[0] == 0x16 {
      PartialIsIncomplete(data);
    }
  }

  /**
   * Not TLS says exactly that the first byte is not that of a handshake record, or that the record is whole, has room for
   * a handshake header, and the handshake type is not that of a ClientHello.
   */
  lemma NotTlsIff(data: bytes)
    ensures ParseRecord(data) == NotTls <==>
            |data| >= 5 && (data[0] != 0x16 || (WholeRecord(data) && Declared(data) >= 4 && data[5] != 0x01))
  {
    hide Take16;
    if WholeRecord(data) {
      WholeIsParsed(data);
      HandshakeNotTlsIff(data[5..5 + Declared(data)]);
      hide ParseHandshake;
    } else if |data| >= 5 && data[0] == 0x16 {
      PartialIsIncomplete(data);
    }
  }

  lemma HandshakeNotTlsIff(hs: bytes)
    ensures ParseHandshake(hs) == NotTls <==> |hs| >= 4 && hs[0] != 0x01
  {
    hide Take8, Take16, Take24;
    forall exts ensures ParseExtensions(exts) != NotTls { ExtensionsNeverNotTls(exts); }
  }

  lemma {:induction false} NamesNeverNotTls(list: bytes)
    ensures ParseNames(list) != NotTls
    decreases |list|
  {
    if |list| >= 3 && Take16(list[1..]).Some? {
      NamesNeverNotTls(Take16(list[1..]).value.1);
    }
  }

  lemma {:induction false} ExtensionsNeverNotTls(exts: bytes)
    ensures ParseExtensions(exts) != NotTls
    decreases |exts|
  {
    if |exts| >= 4 && Take16(exts[2..]).Some? {
      var (body, rest) := Take16(exts[2..]).value;
      ExtensionsNeverNotTls(rest);
      if Take16(body).Some? { NamesNeverNotTls(Take16(body).value.0); }
    }
  }
}
