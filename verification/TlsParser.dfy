/** The cursor walk of src/tls_parser.cpp, which must agree with the grammar on every byte string. */
module TlsParser {
  import opened Bytes
  import opened Wrappers
  import opened TlsGrammar

  lemma WindowOfWindow(d: bytes, pos: nat, end: nat, skip: nat, len: nat)
    requires pos + skip + len <= end <= |d|
    ensures d[pos..end][skip..skip + len] == d[pos + skip..pos + skip + len]
    ensures d[pos..end][skip + len..] == d[pos + skip + len..end]
  {
    var inner, outer := d[pos..end][skip..skip + len], d[pos + skip..pos + skip + len];
    assert |inner| == |outer| && forall i :: 0 <= i < len ==> inner[i] == outer[i];
    assert d[pos..end][skip + len..] == d[pos + skip + len..end];
  }

  /** A 16-bit prefix read through a window [pos, end) of a larger buffer. */
  lemma Take16Window(d: bytes, pos: nat, end: nat)
    requires pos + 2 <= end <= |d|
    ensures Take16(d[pos..end]) ==
            var len := U16BE(d, pos);
            if pos + 2 + len <= end then Some((d[pos + 2..pos + 2 + len], d[pos + 2 + len..end])) else None
  {
    var v, len: nat := d[pos..end], U16BE(d, pos);
    assert U16BE(v, 0) == len;
    if pos + 2 + len <= end {
      WindowOfWindow(d, pos, end, 2, len);
    }
  }

  /** A prefix read from a position to the end of the buffer; None also when the prefix itself is cut off. */
  lemma Take8Tail(d: bytes, pos: nat)
    requires pos <= |d|
    ensures Take8(d[pos..]) ==
            if pos + 1 > |d| || pos + 1 + d[pos] > |d| then None
            else Some((d[pos + 1..pos + 1 + d[pos]], d[pos + 1 + d[pos]..]))
  {
    if pos + 1 <= |d| {
      var v, len: nat := d[pos..], d[pos];
      assert v == d[pos..|d|] && v[0] == len;
      if pos + 1 + len <= |d| {
        WindowOfWindow(d, pos, |d|, 1, len);
      }
    }
  }

  lemma Take16Tail(d: bytes, pos: nat)
    requires pos <= |d|
    ensures Take16(d[pos..]) ==
            if pos + 2 > |d| || pos + 2 + U16BE(d, pos) > |d| then None
            else Some((d[pos + 2..pos + 2 + U16BE(d, pos)], d[pos + 2 + U16BE(d, pos)..]))
  {
    assert d[pos..] == d[pos..|d|];
    if pos + 2 <= |d| { Take16Window(d, pos, |d|); }
  }

  lemma NamesWindow(ch: bytes, pos: nat, end: nat)
    requires pos <= end <= |ch|
    ensures ParseNames(ch[pos..end]) ==
            if pos + 3 > end then NoSni
            else var len: nat := U16BE(ch, pos + 1);
                 if pos + 3 + len > end then Malformed
                 else if ch[pos] == NAME_TYPE_HOST_NAME then Found(ch[pos + 3..pos + 3 + len])
                 else ParseNames(ch[pos + 3 + len..end])
  {
    if pos + 3 <= end {
      assert ch[pos..end][1..] == ch[pos + 1..end];
      Take16Window(ch, pos + 1, end);
      hide Take16;
    }
  }

  lemma ExtensionsWindow(ch: bytes, pos: nat, end: nat)
    requires pos <= end <= |ch|
    ensures ParseExtensions(ch[pos..end]) ==
            if pos + 4 > end then NoSni
            else var len: nat := U16BE(ch, pos + 2);
                 if pos + 4 + len > end then Malformed
                 else if U16BE(ch, pos) == EXTENSION_SERVER_NAME then ParseServerName(ch[pos + 4..pos + 4 + len])
                 else ParseExtensions(ch[pos + 4 + len..end])
  {
    if pos + 4 <= end {
      assert ch[pos..end][2..] == ch[pos + 2..end];
      assert U16BE(ch[pos..end], 0) == U16BE(ch, pos);
      Take16Window(ch, pos + 2, end);
      hide Take16, ParseServerName;
    }
  }

  method WalkNames(ch: bytes, start: nat, listEnd: nat) returns (r: TlsResult)
    requires start <= listEnd <= |ch|
    ensures r == ParseNames(ch[start..listEnd])
  {
    hide ParseNames;
    var pos := start;
    while pos + 3 <= listEnd
      invariant start <= pos <= listEnd
      invariant ParseNames(ch[start..listEnd]) == ParseNames(ch[pos..listEnd])
    {
      NamesWindow(ch, pos, listEnd);
      var nameType := ch[pos];
      var nameLen: nat := U16BE(ch, pos + 1);
      pos := pos + 3;
      if pos + nameLen > listEnd {
        return Malformed;
      }
      if nameType == NAME_TYPE_HOST_NAME {
        return Found(ch[pos..pos + nameLen]);
      }
      pos := pos + nameLen;
    }
    NamesWindow(ch, pos, listEnd);
    return NoSni;
  }

  method WalkServerName(ch: bytes, start: nat, sniEnd: nat) returns (r: TlsResult)
    requires start <= sniEnd <= |ch|
    ensures r == ParseServerName(ch[start..sniEnd])
  {
    if start + 2 > sniEnd {
      return Malformed;
    }
    hide Take16, ParseNames;
    Take16Window(ch, start, sniEnd);
    var listLen := U16BE(ch, start);
    var pos := start + 2;
    if pos + listLen > sniEnd {
      return Malformed;
    }
    r := WalkNames(ch, pos, pos + listLen);
  }

  method WalkExtensions(ch: bytes, start: nat, extensionsEnd: nat) returns (r: TlsResult)
    requires start <= extensionsEnd <= |ch|
    ensures r == ParseExtensions(ch[start..extensionsEnd])
  {
    hide ParseExtensions, ParseServerName;
    var pos := start;
    while pos + 4 <= extensionsEnd
      invariant start <= pos <= extensionsEnd
      invariant ParseExtensions(ch[start..extensionsEnd]) == ParseExtensions(ch[pos..extensionsEnd])
    {
      ExtensionsWindow(ch, pos, extensionsEnd);
      var extType := U16BE(ch, pos);
      var extLen: nat := U16BE(ch, pos + 2);
      pos := pos + 4;
      if pos + extLen > extensionsEnd {
        return Malformed;
      }
      if extType == EXTENSION_SERVER_NAME {
        r := WalkServerName(ch, pos, pos + extLen);
        return;
      }
      pos := pos + extLen;
    }
    ExtensionsWindow(ch, pos, extensionsEnd);
    return NoSni;
  }

  method WalkHello(ch: bytes) returns (r: TlsResult)
    ensures r == ParseHello(ch)
  {
    hide ParseExtensions, Take8, Take16;
    var pos := 0;
    if pos + 34 > |ch| {
      return Malformed;
    }
    pos := pos + 34;

    Take8Tail(ch, pos);
    if pos + 1 > |ch| {
      return Malformed;
    }
    var sessionIdLen := ch[pos];
    pos := pos + 1;
    if pos + sessionIdLen > |ch| {
      return Malformed;
    }
    pos := pos + sessionIdLen;

    Take16Tail(ch, pos);
    if pos + 2 > |ch| {
      return Malformed;
    }
    var cipherSuitesLen := U16BE(ch, pos);
    pos := pos + 2;
    if pos + cipherSuitesLen > |ch| {
      return Malformed;
    }
    pos := pos + cipherSuitesLen;

    Take8Tail(ch, pos);
    if pos + 1 > |ch| {
      return Malformed;
    }
    var compMethodsLen := ch[pos];
    pos := pos + 1;
    if pos + compMethodsLen > |ch| {
      return Malformed;
    }
    pos := pos + compMethodsLen;

    assert ParseHello(ch) == ParseExtensionBlock(ch[pos..]);
    Take16Tail(ch, pos);
    if pos == |ch| {
      return NoSni;
    }
    if pos + 2 > |ch| {
      return Malformed;
    }
    var extensionsLen := U16BE(ch, pos);
    pos := pos + 2;
    if pos + extensionsLen > |ch| {
      return Malformed;
    }
    r := WalkExtensions(ch, pos, pos + extensionsLen);
  }

  /** Extracts the server name; the parsed name is the Found result, and the output string is otherwise left alone. */
  method TryExtractSni(data: bytes) returns (r: TlsResult)
    ensures r == ParseRecord(data)
  {
    hide ParseHello;
    if |data| < 5 {
      return Incomplete;
    }
    if data[0] != CONTENT_TYPE_HANDSHAKE {
      return NotTls;
    }
    var recordLen: nat := U16BE(data, 3);
    var recordEnd := 5 + recordLen;
    assert data[3..] == data[3..|data|];
    Take16Window(data, 3, |data|);
    if |data| < recordEnd {
      return Incomplete;
    }

    var hs := data[5..recordEnd];
    if |hs| < 4 {
      return Malformed;
    }
    if hs[0] != HANDSHAKE_TYPE_CLIENT_HELLO {
      return NotTls;
    }
    var handshakeLen := U24BE(hs, 1);
    assert U24BE(hs[1..], 0) == handshakeLen;
    if 4 + handshakeLen > |hs| {
      return Malformed;
    }
    assert hs[1..][3..3 + handshakeLen] == hs[4..4 + handshakeLen];
    r := WalkHello(hs[4..4 + handshakeLen]);
  }
}
