/**
 * The encoder side: structured ClientHello messages (section 4.1.2 of RFC 8446, section 3 of RFC 6066) and the exact set
 * of byte strings in which the parser finds a name.
 */
module TlsEncoding {
  import opened Bytes
  import opened Wrappers
  import opened TlsGrammar

  datatype Name = Name(nameType: u8, value: bytes)

  datatype Extension = ServerName(names: seq<Name>) | Other(extType: u16, body: bytes)

  datatype ClientHello = ClientHello(
    version: bytes, random: bytes, sessionId: bytes, cipherSuites: bytes, compressionMethods: bytes,
    extensions: Option<seq<Extension>>)

  // ---- Encoding ------------------------------------------------------------------------------------

  predicate NamesFit(names: seq<Name>) {
    forall n :: n in names ==> |n.value| < 0x1_0000
  }

  function EncodeNames(names: seq<Name>): bytes
    requires NamesFit(names)
  {
    if names == [] then [] else [names[0].nameType] + Vec16(names[0].value) + EncodeNames(names[1..])
  }

  predicate ExtensionFits(e: Extension) {
    match e
    case ServerName(names) => NamesFit(names) && |EncodeNames(names)| < 0x1_0000 - 2
    case Other(extType, body) => extType != 0 && |body| < 0x1_0000
  }

  function EncodeExtension(e: Extension): bytes
    requires ExtensionFits(e)
  {
    match e
    case ServerName(names) => [0, 0] + Vec16(Vec16(EncodeNames(names)))
    case Other(extType, body) => PutU16BE(extType) + Vec16(body)
  }

  predicate ExtensionsFit(exts: seq<Extension>) {
    forall e :: e in exts ==> ExtensionFits(e)
  }

  function EncodeExtensions(exts: seq<Extension>): bytes
    requires ExtensionsFit(exts)
  {
    if exts == [] then [] else EncodeExtension(exts[0]) + EncodeExtensions(exts[1..])
  }

  predicate HelloFieldsFit(ch: ClientHello) {
    && |ch.version| == 2 && |ch.random| == 32
    && |ch.sessionId| < 0x100 && |ch.cipherSuites| < 0x1_0000 && |ch.compressionMethods| < 0x100
    && (ch.extensions.Some? ==>
          ExtensionsFit(ch.extensions.value) && |EncodeExtensions(ch.extensions.value)| < 0x1_0000)
  }

  function EncodeHello(ch: ClientHello): bytes
    requires HelloFieldsFit(ch)
  {
    ch.version + ch.random + Vec8(ch.sessionId) + Vec16(ch.cipherSuites) + Vec8(ch.compressionMethods) +
    match ch.extensions
    case None => []
    case Some(exts) => Vec16(EncodeExtensions(exts))
  }

  /** Every field, and the whole message in one record, fits its length prefix. */
  predicate Fits(ch: ClientHello) {
    HelloFieldsFit(ch) && |EncodeHello(ch)| < 0x1_0000 - 4
  }

  function EncodeHandshake(ch: ClientHello): (hs: bytes)
    requires Fits(ch)
    ensures |hs| < 0x1_0000
  {
    [0x01] + Vec24(EncodeHello(ch))
  }

  function EncodeRecord(recordVersion: bytes, ch: ClientHello): bytes
    requires |recordVersion| == 2 && Fits(ch)
  {
    [0x16] + recordVersion + Vec16(EncodeHandshake(ch))
  }

  // ---- What the message says -----------------------------------------------------------------------

  function FirstHostName(names: seq<Name>): TlsResult {
    if names == [] then NoSni
    else if names[0].nameType == 0 then Found(names[0].value)
    else FirstHostName(names[1..])
  }

  function FirstServerName(exts: seq<Extension>): TlsResult {
    if exts == [] then NoSni
    else if exts[0].ServerName? then FirstHostName(exts[0].names)
    else FirstServerName(exts[1..])
  }

  function ServerNameOf(ch: ClientHello): TlsResult {
    if ch.extensions.Some? then FirstServerName(ch.extensions.value) else NoSni
  }

  // ---- Round trip ----------------------------------------------------------------------------------

  /** The walk passes over one entry. */
  lemma NameStep(n: Name, rest: bytes)
    requires |n.value| < 0x1_0000
    ensures ParseNames([n.nameType] + Vec16(n.value) + rest) ==
            if n.nameType == 0 then Found(n.value) else ParseNames(rest)
  {
    var list := [n.nameType] + Vec16(n.value) + rest;
    assert list[1..] == Vec16(n.value) + rest;
    Take16Iff(list[1..], n.value, rest);
  }

  /** The walk passes over one extension. */
  lemma ExtensionStep(extType: u16, body: bytes, rest: bytes)
    requires |body| < 0x1_0000
    ensures ParseExtensions(PutU16BE(extType) + Vec16(body) + rest) ==
            if extType == 0 then ParseServerName(body) else ParseExtensions(rest)
  {
    var exts := PutU16BE(extType) + Vec16(body) + rest;
    assert exts[2..] == Vec16(body) + rest;
    assert U16BE(exts, 0) == U16BE(PutU16BE(extType), 0);
    Take16Iff(exts[2..], body, rest);
  }

  lemma {:induction false} NamesRoundTrip(names: seq<Name>)
    requires NamesFit(names)
    ensures ParseNames(EncodeNames(names)) == FirstHostName(names)
  {
    if names != [] {
      NameStep(names[0], EncodeNames(names[1..]));
      NamesRoundTrip(names[1..]);
    }
  }

  lemma {:induction false} ExtensionsRoundTrip(exts: seq<Extension>)
    requires ExtensionsFit(exts)
    ensures ParseExtensions(EncodeExtensions(exts)) == FirstServerName(exts)
  {
    if exts != [] {
      var rest := EncodeExtensions(exts[1..]);
      assert ExtensionFits(exts[0]) by { assert exts[0] in exts; }
      match exts[0] {
        case ServerName(names) =>
          var list := EncodeNames(names);
          ServerNameStep(Vec16(list), rest);
          assert Vec16(list) == Vec16(list) + [];
          Take16Iff(Vec16(list), list, []);
          NamesRoundTrip(names);
        case Other(extType, body) =>
          ExtensionStep(extType, body, rest);
          ExtensionsRoundTrip(exts[1..]);
      }
    }
  }

  /** The fixed and the length-prefixed fields before the extensions are passed over. */
  lemma HelloStep(prologue: bytes, sessionId: bytes, suites: bytes, methods: bytes, rest: bytes)
    requires |prologue| == 34 && |sessionId| < 0x100 && |suites| < 0x1_0000 && |methods| < 0x100
    ensures ParseHello(prologue + Vec8(sessionId) + Vec16(suites) + Vec8(methods) + rest) == ParseExtensionBlock(rest)
  {
    var afterSuites := Vec8(methods) + rest;
    var afterId := Vec16(suites) + afterSuites;
    var ch := prologue + Vec8(sessionId) + Vec16(suites) + Vec8(methods) + rest;
    assert ch[34..] == Vec8(sessionId) + afterId;
    Take8Iff(ch[34..], sessionId, afterId);
    Take16Iff(afterId, suites, afterSuites);
    Take8Iff(afterSuites, methods, rest);
  }

  lemma HandshakeStep(ch: bytes, rest: bytes)
    requires |ch| < 0x100_0000
    ensures ParseHandshake([0x01] + Vec24(ch) + rest) == ParseHello(ch)
  {
    var hs := [0x01] + Vec24(ch) + rest;
    assert hs[1..] == Vec24(ch) + rest;
    Take24Iff(hs[1..], ch, rest);
  }

  lemma RecordStep(recordVersion: bytes, hs: bytes, rest: bytes)
    requires |recordVersion| == 2 && |hs| < 0x1_0000
    ensures ParseRecord([0x16] + recordVersion + Vec16(hs) + rest) == ParseHandshake(hs)
  {
    var data := [0x16] + recordVersion + Vec16(hs) + rest;
    assert data[3..] == Vec16(hs) + rest;
    Take16Iff(data[3..], hs, rest);
  }

  lemma BlockStep(exts: bytes, rest: bytes)
    requires |exts| < 0x1_0000
    ensures ParseExtensionBlock(Vec16(exts) + rest) == ParseExtensions(exts)
  {
    Take16Iff(Vec16(exts) + rest, exts, rest);
  }

  /** Parsing any encoded ClientHello, whatever follows it, reports its first host name and nothing else. */
  lemma RecordRoundTrip(recordVersion: bytes, ch: ClientHello, rest: bytes)
    requires |recordVersion| == 2 && Fits(ch)
    ensures ParseRecord(EncodeRecord(recordVersion, ch) + rest) == ServerNameOf(ch)
  {
    var hello, hs := EncodeHello(ch), EncodeHandshake(ch);
    RecordStep(recordVersion, hs, rest);
    assert hs == [0x01] + Vec24(hello) + [];
    HandshakeStep(hello, []);
    var block := match ch.extensions case None => [] case Some(exts) => Vec16(EncodeExtensions(exts));
    HelloStep(ch.version + ch.random, ch.sessionId, ch.cipherSuites, ch.compressionMethods, block);
    match ch.extensions
    case None =>
    case Some(exts) =>
      assert block == block + [];
      BlockStep(EncodeExtensions(exts), []);
      ExtensionsRoundTrip(exts);
  }

  /** Until its last byte is there, an encoded record parses as Incomplete. */
  lemma ProperPrefixIsIncomplete(recordVersion: bytes, ch: ClientHello, k: nat)
    requires |recordVersion| == 2 && Fits(ch) && k < |EncodeRecord(recordVersion, ch)|
    ensures ParseRecord(EncodeRecord(recordVersion, ch)[..k]) == Incomplete
  {
    var record := EncodeRecord(recordVersion, ch);
    var hs := EncodeHandshake(ch);
    assert record[3..] == Vec16(hs);
    assert U16BE(record, 3) == U16BE(PutU16BE(|hs|), 0);
    IncompleteIff(record[..k]);
  }

  // ---- Exactly what is readable --------------------------------------------------------------------

  /** Where the walk over a list of names ends: at a host name, or with too little left for an entry. */
  datatype NamesEnd = HostName(host: bytes, after: bytes) | NamesShort(left: bytes)

  /** Where the walk over the extensions ends: at a server name extension, or with too little left for an extension. */
  datatype ExtensionsEnd =
    | AtServerName(names: seq<Name>, end: NamesEnd, afterList: bytes, afterExtension: bytes)
    | ExtensionsShort(left: bytes)

  datatype Block = NoBlock | Block(others: seq<Extension>, end: ExtensionsEnd, afterBlock: bytes)

  /** A record whose lengths are in bounds all along the walk: the parts walked over, and the bytes never looked at. */
  datatype Readable = Readable(
    recordVersion: bytes, prologue: bytes, sessionId: bytes, cipherSuites: bytes, compressionMethods: bytes, block: Block,
    afterHello: bytes, afterRecord: bytes)

  predicate NoHostIn(names: seq<Name>) {
    NamesFit(names) && forall n :: n in names ==> n.nameType != 0
  }

  predicate NoServerNameIn(exts: seq<Extension>) {
    ExtensionsFit(exts) && forall e :: e in exts ==> e.Other?
  }

  predicate NamesEndFits(end: NamesEnd) {
    if end.HostName? then |end.host| < 0x1_0000 else |end.left| < 3
  }

  function SpellNamesEnd(end: NamesEnd): bytes
    requires NamesEndFits(end)
  {
    if end.HostName? then [0] + Vec16(end.host) + end.after else end.left
  }

  predicate ListFits(names: seq<Name>, end: NamesEnd) {
    NoHostIn(names) && NamesEndFits(end) && |EncodeNames(names) + SpellNamesEnd(end)| < 0x1_0000
  }

  function SpellList(names: seq<Name>, end: NamesEnd): bytes
    requires ListFits(names, end)
  {
    EncodeNames(names) + SpellNamesEnd(end)
  }

  predicate ExtensionsEndFits(end: ExtensionsEnd) {
    if end.AtServerName?
    then ListFits(end.names, end.end) && |Vec16(SpellList(end.names, end.end)) + end.afterList| < 0x1_0000
    else |end.left| < 4
  }

  function SpellExtensionsEnd(end: ExtensionsEnd): bytes
    requires ExtensionsEndFits(end)
  {
    if end.AtServerName?
    then [0, 0] + Vec16(Vec16(SpellList(end.names, end.end)) + end.afterList) + end.afterExtension
    else end.left
  }

  predicate BlockFits(b: Block) {
    b.NoBlock? ||
    (NoServerNameIn(b.others) && ExtensionsEndFits(b.end) &&
     |EncodeExtensions(b.others) + SpellExtensionsEnd(b.end)| < 0x1_0000)
  }

  function SpellBlock(b: Block): bytes
    requires BlockFits(b)
  {
    if b.NoBlock? then [] else Vec16(EncodeExtensions(b.others) + SpellExtensionsEnd(b.end)) + b.afterBlock
  }

  predicate HelloFits(w: Readable) {
    && BlockFits(w.block)
    && |w.prologue| == 34 && |w.sessionId| < 0x100 && |w.cipherSuites| < 0x1_0000 && |w.compressionMethods| < 0x100
  }

  function SpellHello(w: Readable): bytes
    requires HelloFits(w)
  {
    w.prologue + Vec8(w.sessionId) + Vec16(w.cipherSuites) + Vec8(w.compressionMethods) + SpellBlock(w.block)
  }

  predicate HandshakeFits(w: Readable) {
    HelloFits(w) && |SpellHello(w)| < 0x100_0000
  }

  function SpellHandshake(w: Readable): bytes
    requires HandshakeFits(w)
  {
    [0x01] + Vec24(SpellHello(w)) + w.afterHello
  }

  predicate RecordFits(w: Readable) {
    HandshakeFits(w) && |SpellHandshake(w)| < 0x1_0000 && |w.recordVersion| == 2
  }

  function Spell(w: Readable): bytes
    requires RecordFits(w)
  {
    [0x16] + w.recordVersion + Vec16(SpellHandshake(w)) + w.afterRecord
  }

  // What it says.

  function NameOf(end: NamesEnd): TlsResult {
    if end.HostName? then Found(end.host) else NoSni
  }

  function Says(b: Block): TlsResult {
    if b.Block? && b.end.AtServerName? then NameOf(b.end.end) else NoSni
  }

  lemma {:induction false} NamesBeforeEnd(names: seq<Name>, rest: bytes)
    requires NoHostIn(names)
    ensures ParseNames(EncodeNames(names) + rest) == ParseNames(rest)
  {
    if names == [] {
      assert [] + rest == rest;
    } else {
      var tail := EncodeNames(names[1..]) + rest;
      assert EncodeNames(names) + rest == [names[0].nameType] + Vec16(names[0].value) + tail;
      NameStep(names[0], tail);
      NamesBeforeEnd(names[1..], rest);
    }
  }

  lemma {:induction false} ExtensionsBeforeEnd(exts: seq<Extension>, rest: bytes)
    requires NoServerNameIn(exts)
    ensures ParseExtensions(EncodeExtensions(exts) + rest) == ParseExtensions(rest)
  {
    hide ParseExtensions, Vec16, PutU16BE;
    if exts == [] {
      assert [] + rest == rest;
    } else {
      var tail := EncodeExtensions(exts[1..]) + rest;
      assert ExtensionFits(exts[0]) && exts[0].Other? by { assert exts[0] in exts; }
      assert EncodeExtensions(exts) + rest == PutU16BE(exts[0].extType) + Vec16(exts[0].body) + tail;
      ExtensionStep(exts[0].extType, exts[0].body, tail);
      ExtensionsBeforeEnd(exts[1..], rest);
    }
  }

  lemma ListIsRead(names: seq<Name>, end: NamesEnd)
    requires ListFits(names, end)
    ensures ParseNames(SpellList(names, end)) == NameOf(end)
  {
    NamesBeforeEnd(names, SpellNamesEnd(end));
    if end.HostName? { NameStep(Name(0, end.host), end.after); }
  }

  lemma BlockIsRead(b: Block)
    requires BlockFits(b)
    ensures ParseExtensionBlock(SpellBlock(b)) == Says(b)
  {
    if b.Block? {
      var end := b.end;
      var exts := EncodeExtensions(b.others) + SpellExtensionsEnd(end);
      BlockStep(exts, b.afterBlock);
      ExtensionsBeforeEnd(b.others, SpellExtensionsEnd(end));
      if end.AtServerName? {
        var list := SpellList(end.names, end.end);
        ListIsRead(end.names, end.end);
        Take16Iff(Vec16(list) + end.afterList, list, end.afterList);
        ServerNameStep(Vec16(list) + end.afterList, end.afterExtension);
      }
    }
  }

  lemma ServerNameStep(body: bytes, rest: bytes)
    requires |body| < 0x1_0000
    ensures ParseExtensions([0, 0] + Vec16(body) + rest) == ParseServerName(body)
  {
    assert PutU16BE(0) == [0, 0];
    ExtensionStep(0, body, rest);
  }

  lemma SpelledIsRead(w: Readable)
    requires RecordFits(w)
    ensures ParseRecord(Spell(w)) == Says(w.block)
  {
    hide Vec8, Vec16, Vec24, SpellBlock, ParseRecord, ParseHandshake, ParseHello, ParseExtensionBlock, Says;
    BlockIsRead(w.block);
    HelloStep(w.prologue, w.sessionId, w.cipherSuites, w.compressionMethods, SpellBlock(w.block));
    HandshakeStep(SpellHello(w), w.afterHello);
    RecordStep(w.recordVersion, SpellHandshake(w), w.afterRecord);
  }

  // And nothing else is readable.

  predicate IsRead(r: TlsResult) {
    r.Found? || r.NoSni?
  }

  lemma Reassociate(a: bytes, b: bytes, c: bytes)
    ensures a + (b + c) == a + b + c
  {
  }

  lemma EncodeNamesCons(n: Name, tail: seq<Name>)
    requires |n.value| < 0x1_0000 && NamesFit(tail)
    ensures EncodeNames([n] + tail) == [n.nameType] + Vec16(n.value) + EncodeNames(tail)
  {
    assert ([n] + tail)[1..] == tail;
  }

  lemma EncodeExtensionsCons(e: Extension, tail: seq<Extension>)
    requires ExtensionFits(e) && ExtensionsFit(tail)
    ensures EncodeExtensions([e] + tail) == EncodeExtension(e) + EncodeExtensions(tail)
  {
    assert ([e] + tail)[1..] == tail;
  }

  lemma NameAt(list: bytes) returns (value: bytes, rest: bytes)
    requires IsRead(ParseNames(list)) && |list| >= 3
    ensures |rest| < |list| && |value| < 0x1_0000 && list == [list[0]] + Vec16(value) + rest
    ensures ParseNames(list) == if list[0] == 0 then Found(value) else ParseNames(rest)
  {
    var (v, r) := Take16(list[1..]).value;
    value, rest := v, r;
    Take16Iff(list[1..], value, rest);
    hide Vec16, Take16;
    assert list == [list[0]] + list[1..];
    Reassociate([list[0]], Vec16(value), rest);
  }

  lemma {:induction false} NamesUpToEnd(list: bytes) returns (names: seq<Name>, end: NamesEnd)
    requires IsRead(ParseNames(list))
    ensures NoHostIn(names) && NamesEndFits(end) && list == EncodeNames(names) + SpellNamesEnd(end)
    ensures ParseNames(list) == NameOf(end)
    decreases |list|
  {
    hide Vec16;
    if |list| < 3 {
      names, end := [], NamesShort(list);
      assert list == EncodeNames(names) + SpellNamesEnd(end);
    } else {
      var value, rest := NameAt(list);
      if list[0] == 0 {
        names, end := [], HostName(value, rest);
        assert list == EncodeNames(names) + SpellNamesEnd(end);
      } else {
        hide ParseNames;
        var tail;
        tail, end := NamesUpToEnd(rest);
        names := [Name(list[0], value)] + tail;
        EncodeNamesCons(Name(list[0], value), tail);
        Reassociate([list[0]] + Vec16(value), EncodeNames(tail), SpellNamesEnd(end));
      }
    }
  }

  lemma ExtensionAt(exts: bytes) returns (body: bytes, rest: bytes)
    requires IsRead(ParseExtensions(exts)) && |exts| >= 4
    ensures |rest| < |exts| && |body| < 0x1_0000 && exts == PutU16BE(U16BE(exts, 0)) + Vec16(body) + rest
    ensures ParseExtensions(exts) == if U16BE(exts, 0) == 0 then ParseServerName(body) else ParseExtensions(rest)
  {
    var (b, r) := Take16(exts[2..]).value;
    body, rest := b, r;
    Take16Iff(exts[2..], body, rest);
    U16Unique(exts, 0);
    hide Vec16, Take16, PutU16BE, U16BE, ParseServerName;
    assert exts == exts[0..2] + exts[2..];
    Reassociate(exts[0..2], Vec16(body), rest);
  }

  lemma ServerNameEnd(body: bytes, afterExtension: bytes) returns (end: ExtensionsEnd)
    requires IsRead(ParseServerName(body)) && |body| < 0x1_0000
    ensures ExtensionsEndFits(end) && SpellExtensionsEnd(end) == [0, 0] + Vec16(body) + afterExtension
    ensures end.AtServerName? && NameOf(end.end) == ParseServerName(body)
  {
    var (list, afterList) := Take16(body).value;
    Take16Iff(body, list, afterList);
    var names, stop := NamesUpToEnd(list);
    end := AtServerName(names, stop, afterList, afterExtension);
    hide Vec16, NoHostIn, EncodeNames, SpellNamesEnd;
    assert SpellList(names, stop) == list;
  }

  lemma {:induction false} ExtensionsUpToEnd(exts: bytes) returns (others: seq<Extension>, end: ExtensionsEnd)
    requires IsRead(ParseExtensions(exts))
    ensures NoServerNameIn(others) && ExtensionsEndFits(end) && exts == EncodeExtensions(others) + SpellExtensionsEnd(end)
    ensures ParseExtensions(exts) == if end.AtServerName? then NameOf(end.end) else NoSni
    decreases |exts|
  {
    hide Vec16, PutU16BE, U16BE, ParseServerName;
    if |exts| < 4 {
      others, end := [], ExtensionsShort(exts);
      assert exts == EncodeExtensions(others) + SpellExtensionsEnd(end);
    } else {
      var body, rest := ExtensionAt(exts);
      var extType := U16BE(exts, 0);
      if extType == 0 {
        others := [];
        end := ServerNameEnd(body, rest);
        ZeroType();
        assert exts == EncodeExtensions(others) + SpellExtensionsEnd(end);
      } else {
        hide ParseExtensions, SpellExtensionsEnd;
        var tail;
        tail, end := ExtensionsUpToEnd(rest);
        others := [Other(extType, body)] + tail;
        EncodeExtensionsCons(Other(extType, body), tail);
        Reassociate(PutU16BE(extType) + Vec16(body), EncodeExtensions(tail), SpellExtensionsEnd(end));
      }
    }
  }

  lemma ZeroType()
    ensures PutU16BE(0) == [0, 0]
  {
  }

  lemma BlockOf(d: bytes) returns (b: Block)
    requires IsRead(ParseExtensionBlock(d))
    ensures BlockFits(b) && SpellBlock(b) == d && Says(b) == ParseExtensionBlock(d)
  {
    if d == [] {
      b := NoBlock;
    } else {
      var (exts, after) := Take16(d).value;
      Take16Iff(d, exts, after);
      var others, end := ExtensionsUpToEnd(exts);
      b := Block(others, end, after);
    }
  }

  lemma Associate(a: bytes, b: bytes, c: bytes, d: bytes, e: bytes)
    ensures a + (b + (c + (d + e))) == a + b + c + d + e
  {
  }

  lemma HelloPartsOf(ch: bytes) returns (id: bytes, suites: bytes, methods: bytes, rest: bytes)
    requires IsRead(ParseHello(ch))
    ensures |ch| >= 34 && |id| < 0x100 && |suites| < 0x1_0000 && |methods| < 0x100
    ensures ch == ch[..34] + Vec8(id) + Vec16(suites) + Vec8(methods) + rest
    ensures ParseHello(ch) == ParseExtensionBlock(rest)
  {
    var (b1, afterId) := Take8(ch[34..]).value;
    var (b2, afterSuites) := Take16(afterId).value;
    var (b3, afterMethods) := Take8(afterSuites).value;
    id, suites, methods, rest := b1, b2, b3, afterMethods;
    hide Take8, Take16, Vec8, Vec16, ParseExtensionBlock;
    Take8Iff(ch[34..], id, afterId);
    Take16Iff(afterId, suites, afterSuites);
    Take8Iff(afterSuites, methods, afterMethods);
    assert ch == ch[..34] + ch[34..];
    Associate(ch[..34], Vec8(id), Vec16(suites), Vec8(methods), rest);
  }

  lemma HandshakePartsOf(hs: bytes) returns (ch: bytes, after: bytes)
    requires IsRead(ParseHandshake(hs))
    ensures |ch| < 0x100_0000 && hs == [0x01] + Vec24(ch) + after
    ensures ParseHandshake(hs) == ParseHello(ch)
  {
    hide ParseHello;
    var (b, rest) := Take24(hs[1..]).value;
    ch, after := b, rest;
    Take24Iff(hs[1..], ch, after);
    hide Vec24;
    assert hs == [hs[0]] + hs[1..];
    assert [0x01] + Vec24(ch) + after == [0x01] + (Vec24(ch) + after);
  }

  lemma RecordPartsOf(data: bytes) returns (recordVersion: bytes, hs: bytes, after: bytes)
    requires IsRead(ParseRecord(data))
    ensures |recordVersion| == 2 && |hs| < 0x1_0000 && data == [0x16] + recordVersion + Vec16(hs) + after
    ensures ParseRecord(data) == ParseHandshake(hs)
  {
    hide ParseHandshake;
    var (b, rest) := Take16(data[3..]).value;
    recordVersion, hs, after := data[1..3], b, rest;
    Take16Iff(data[3..], hs, after);
    hide Vec16;
    assert data == [data[0]] + data[1..3] + data[3..];
    assert [data[0]] + recordVersion + Vec16(hs) + after == [data[0]] + recordVersion + (Vec16(hs) + after);
  }

  lemma ReadIsSpelled(data: bytes) returns (w: Readable)
    requires IsRead(ParseRecord(data))
    ensures RecordFits(w) && data == Spell(w) && Says(w.block) == ParseRecord(data)
  {
    hide ParseRecord, ParseHandshake, ParseHello, ParseExtensionBlock, Vec8, Vec16, Vec24, BlockFits, SpellBlock, Says;
    var recordVersion, hs, afterRecord := RecordPartsOf(data);
    var ch, afterHello := HandshakePartsOf(hs);
    var id, suites, methods, rest := HelloPartsOf(ch);
    var block := BlockOf(rest);
    w := Readable(recordVersion, ch[..34], id, suites, methods, block, afterHello, afterRecord);
    assert SpellHello(w) == ch;
    assert SpellHandshake(w) == hs;
  }

  ghost predicate SpelledBy(data: bytes, verdict: TlsResult, w: Readable) {
    RecordFits(w) && data == Spell(w) && Says(w.block) == verdict
  }

  /**
   * The parser finds a name, or says that there is none, for exactly the byte strings that spell that out in bounds: up to
   * a server name extension and in it up to a host name, or up to where one of the two walks runs out of bytes.
   */
  lemma ReadIff(data: bytes, verdict: TlsResult)
    requires verdict.Found? || verdict.NoSni?
    ensures ParseRecord(data) == verdict <==> exists w :: SpelledBy(data, verdict, w)
  {
    if ParseRecord(data) == verdict {
      var w := ReadIsSpelled(data);
      assert SpelledBy(data, verdict, w);
    }
    forall w | SpelledBy(data, verdict, w)
      ensures ParseRecord(data) == verdict
    {
      SpelledIsRead(w);
    }
  }

  /** Malformed is what is left: a whole handshake record that does not spell out a message, and is not of another type. */
  lemma MalformedIff(data: bytes)
    ensures ParseRecord(data) == Malformed <==>
            WholeRecord(data) && (Declared(data) < 4 || data[5] == 0x01) &&
            forall verdict, w :: !SpelledBy(data, verdict, w)
  {
    hide ParseRecord, SpelledBy;
    IncompleteIff(data);
    NotTlsIff(data);
    forall verdict, w | SpelledBy(data, verdict, w)
      ensures ParseRecord(data) == verdict && (verdict.Found? || verdict.NoSni?)
    {
      SaysWhat(data, verdict, w);
      ReadIff(data, verdict);
    }
    if IsRead(ParseRecord(data)) { ReadIff(data, ParseRecord(data)); }
  }

  lemma SaysWhat(data: bytes, verdict: TlsResult, w: Readable)
    requires SpelledBy(data, verdict, w)
    ensures verdict.Found? || verdict.NoSni?
  {
  }
}
