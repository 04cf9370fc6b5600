/** Capture files: src/pcap_reader.cpp, over a byte string with a read position, on a little-endian host. */
module PcapReader {
  import opened Bytes
  import opened Wrappers

  const PCAP_MAGIC: u32 := 0xa1b2_c3d4
  const PCAP_MAGIC_SWAPPED: u32 := 0xd4c3_b2a1
  const GLOBAL_HEADER_LEN: nat := 24
  const PACKET_HEADER_LEN: nat := 16

  datatype PacketHeader = PacketHeader(tsSec: u32, tsUsec: u32, inclLen: u32, origLen: u32)

  datatype RawPacket = RawPacket(header: PacketHeader, data: bytes)

  /** Byte reversal of a 32-bit value by masks and shifts. */
  function Swap32(v: u32): u32 {
    v % 0x100 * 0x100_0000 + v / 0x100 % 0x100 * 0x1_0000 + v / 0x1_0000 % 0x100 * 0x100 + v / 0x100_0000
  }

  /** A 32-bit field as the host loads it, swapped back when the file's byte order differs. */
  function Field(d: bytes, i: nat, swapped: bool): u32
    requires i + 4 <= |d|
  {
    if swapped then Swap32(U32LE(d, i)) else U32LE(d, i)
  }

  function PutField(x: u32, swapped: bool): (b: bytes)
    ensures |b| == 4
  {
    if swapped then PutU32BE(x) else PutU32LE(x)
  }

  lemma BytesOfLE(d: bytes, i: nat)
    requires i + 4 <= |d|
    ensures var v := U32LE(d, i);
            v / 0x1_0000 == U16LE(d, i + 2) && v % 0x1_0000 == U16LE(d, i)
  {
  }

  lemma HalvesOf(v: u32)
    ensures v / 0x100 % 0x100 == v % 0x1_0000 / 0x100
    ensures v % 0x100 == v % 0x1_0000 % 0x100
    ensures v / 0x100_0000 == v / 0x1_0000 / 0x100
  {
    var h, l := v / 0x1_0000, v % 0x1_0000;
    assert v == h * 0x1_0000 + l;
    assert v / 0x100 == h * 0x100 + l / 0x100;
  }

  /** Swapping a little-endian load gives the big-endian value of the same bytes. */
  lemma SwapReverses(d: bytes, i: nat)
    requires i + 4 <= |d|
    ensures Swap32(U32LE(d, i)) == U32BE(d, i)
  {
    var v := U32LE(d, i);
    BytesOfLE(d, i);
    HalvesOf(v);
    assert v % 0x100 == d[i] && v / 0x100 % 0x100 == d[i + 1];
    assert v / 0x1_0000 % 0x100 == d[i + 2] && v / 0x100_0000 == d[i + 3];
  }

  /** A field written in either byte order, anywhere in a file, is read back. */
  lemma FieldPlaced(before: bytes, x: u32, after: bytes, swapped: bool)
    ensures Field(before + PutField(x, swapped) + after, |before|, swapped) == x
  {
    var d, p := before + PutField(x, swapped) + after, PutField(x, swapped);
    SwapReverses(d, |before|);
    SwapReverses(p, 0);
    assert forall k :: 0 <= k < 4 ==> d[|before| + k] == p[k];
    assert U16BE(d, |before|) == U16BE(p, 0) && U16BE(d, |before| + 2) == U16BE(p, 2);
    assert U16LE(d, |before|) == U16LE(p, 0) && U16LE(d, |before| + 2) == U16LE(p, 2);
  }

  // ---- Reading -------------------------------------------------------------------------------------

  datatype Format = Format(swapped: bool, snaplen: u32)

  /** The global header decides the byte order and the packet size limit. */
  function FormatOf(file: bytes): Option<Format> {
    if |file| < GLOBAL_HEADER_LEN then None
    else if U32LE(file, 0) == PCAP_MAGIC then Some(Format(false, U32LE(file, 16)))
    else if U32LE(file, 0) == PCAP_MAGIC_SWAPPED then Some(Format(true, Swap32(U32LE(file, 16))))
    else None
  }

  /** The number that the bytes of a field stand for in the file's byte order. */
  function Stored(field: bytes, swapped: bool): nat {
    if swapped then BigEndian(field) else LittleEndian(field)
  }

  lemma FieldIsStored(d: bytes, i: nat, swapped: bool)
    requires i + 4 <= |d|
    ensures Field(d, i, swapped) == Stored(d[i..i + 4], swapped)
  {
    hide Swap32, U32LE, U32BE;
    SwapReverses(d, i);
    U32LEIsLittleEndian(d, i);
    U32BEIsBigEndian(d, i);
  }

  /** A whole global header behind the magic number in either byte order. */
  ghost predicate HasMagic(file: bytes) {
    |file| >= 24 && (file[..4] == [0xd4, 0xc3, 0xb2, 0xa1] || file[..4] == [0xa1, 0xb2, 0xc3, 0xd4])
  }

  lemma MagicIff(file: bytes)
    requires |file| >= 4
    ensures U32LE(file, 0) == 0xa1b2_c3d4 <==> file[..4] == [0xd4, 0xc3, 0xb2, 0xa1]
    ensures U32LE(file, 0) == 0xd4c3_b2a1 <==> file[..4] == [0xa1, 0xb2, 0xc3, 0xd4]
  {
    assert file[..4] == [file[0], file[1], file[2], file[3]];
    SameDigits(file[0], file[1], file[2], file[3], 0xd4, 0xc3, 0xb2, 0xa1);
    SameDigits(file[0], file[1], file[2], file[3], 0xa1, 0xb2, 0xc3, 0xd4);
  }

  /**
   * A file is a capture exactly when it has a whole global header that begins with one of the two magic numbers; the
   * second one, and nothing else, makes it byte-swapped, and the limit is what bytes 16 to 19 stand for.
   */
  lemma FormatIff(file: bytes)
    ensures FormatOf(file).Some? <==> HasMagic(file)
    ensures HasMagic(file) ==>
              var format := FormatOf(file).value;
              (format.swapped <==> file[..4] == [0xa1, 0xb2, 0xc3, 0xd4]) &&
              format.snaplen == (if format.swapped then BigEndian(file[16..20]) else LittleEndian(file[16..20]))
  {
    hide U32LE, Swap32;
    if |file| >= 24 {
      MagicIff(file);
      FieldIsStored(file, 16, false);
      FieldIsStored(file, 16, true);
    }
  }

  function HeaderAt(d: bytes, swapped: bool): PacketHeader
    requires PACKET_HEADER_LEN <= |d|
  {
    PacketHeader(Field(d, 0, swapped), Field(d, 4, swapped), Field(d, 8, swapped), Field(d, 12, swapped))
  }

  /** The first record, if it is whole and within the declared limit. */
  function FirstRecord(d: bytes, format: Format): Option<RawPacket> {
    if |d| < PACKET_HEADER_LEN then None else
    var h := HeaderAt(d, format.swapped);
    if (format.snaplen != 0 && h.inclLen > format.snaplen) || |d| < PACKET_HEADER_LEN + h.inclLen then None
    else Some(RawPacket(h, d[PACKET_HEADER_LEN..PACKET_HEADER_LEN + h.inclLen]))
  }

  /**
   * From the bytes: a record is delivered exactly when its sixteen header bytes are there, the length they declare is
   * within the limit, and so many bytes follow; those are its data.
   */
  lemma FirstRecordIff(d: bytes, format: Format, p: RawPacket)
    ensures FirstRecord(d, format) == Some(p) <==>
            && |d| >= 16
            && p.header.tsSec == Stored(d[0..4], format.swapped) && p.header.tsUsec == Stored(d[4..8], format.swapped)
            && p.header.inclLen == Stored(d[8..12], format.swapped) && p.header.origLen == Stored(d[12..16], format.swapped)
            && (format.snaplen == 0 || p.header.inclLen <= format.snaplen)
            && |d| >= 16 + p.header.inclLen && p.data == d[16..16 + p.header.inclLen]
  {
    hide Field, Stored;
    if |d| >= 16 {
      FieldIsStored(d, 0, format.swapped);
      FieldIsStored(d, 4, format.swapped);
      FieldIsStored(d, 8, format.swapped);
      FieldIsStored(d, 12, format.swapped);
    }
  }

  /** All records up to the first that is not. */
  function Records(d: bytes, format: Format): seq<RawPacket>
    decreases |d|
  {
    match FirstRecord(d, format)
    case None => []
    case Some(p) => [p] + Records(d[PACKET_HEADER_LEN + |p.data|..], format)
  }

  class PcapReader {
    var file: bytes
    var pos: nat
    var isOpen: bool
    var failed: bool
    var format: Format

    /** The packets that reading until the first failure will deliver. */
    ghost function Remaining(): seq<RawPacket>
      reads this
    {
      if isOpen && !failed && pos <= |file| then Records(file[pos..], format) else []
    }

    constructor ()
      ensures !isOpen
    {
      file, pos, isOpen, failed, format := [], 0, false, false, Format(false, 0);
    }

    /**
     * Opens the contents found under a name; None when there is no such file. Opening a reader that is already open
     * fails and closes it.
     */
    method Open(contents: Option<bytes>) returns (ok: bool)
      modifies this
      ensures ok == isOpen == (!old(isOpen) && contents.Some? && HasMagic(contents.value))
      ensures Remaining() ==
              if ok then Records(contents.value[24..], FormatOf(contents.value).value) else []
    {
      hide Records;
      if contents.Some? { FormatIff(contents.value); }
      if isOpen {
        isOpen := false;
        return false;
      }
      if contents == None {
        return false;
      }
      file, pos, failed := contents.value, 0, false;
      if |file| < GLOBAL_HEADER_LEN {
        return false;
      }
      pos := GLOBAL_HEADER_LEN;
      var magic := U32LE(file, 0);
      if magic == PCAP_MAGIC {
        format := Format(false, U32LE(file, 16));
      } else if magic == PCAP_MAGIC_SWAPPED {
        format := Format(true, Swap32(U32LE(file, 16)));
      } else {
        return false;
      }
      isOpen := true;
      return true;
    }

    /** The record at the read position has a whole header that declares more than the limit. */
    ghost predicate AtOversized()
      reads this
    {
      && isOpen && !failed && pos + PACKET_HEADER_LEN <= |file|
      && format.snaplen != 0 && HeaderAt(file[pos..], format.swapped).inclLen > format.snaplen
    }

    /**
     * The next packet, or None at the end and on any framing error. Only a record above the limit leaves something to
     * read: its header is skipped, and the next read starts behind that.
     */
    method ReadNextPacket() returns (out: Option<RawPacket>)
      modifies this
      ensures match out
              case None => old(Remaining()) == []
              case Some(p) => old(Remaining()) == [p] + Remaining()
      ensures out == None && !old(AtOversized()) ==> Remaining() == []
      ensures old(AtOversized()) ==>
                out == None && Remaining() == old(Records(file[pos + PACKET_HEADER_LEN..], format))
      ensures format == old(format)
      ensures isOpen == old(isOpen) && file == old(file) && pos >= old(pos)
      ensures out.Some? ==> pos > old(pos) && pos <= |file|
    {
      hide Records, HeaderAt, Field;
      if !isOpen || failed || pos > |file| {
        return None;
      }
      RecordsFrom(file, pos, format);
      if |file| - pos < PACKET_HEADER_LEN {
        pos, failed := |file|, true;
        return None;
      }
      FieldsWithin(file, pos, format.swapped);
      var header := PacketHeader(Field(file, pos, format.swapped), Field(file, pos + 4, format.swapped),
                                 Field(file, pos + 8, format.swapped), Field(file, pos + 12, format.swapped));
      pos := pos + PACKET_HEADER_LEN;
      if format.snaplen != 0 && header.inclLen > format.snaplen {
        return None;
      }
      if |file| - pos < header.inclLen {
        pos, failed := |file|, true;
        return None;
      }
      out := Some(RawPacket(header, file[pos..pos + header.inclLen]));
      pos := pos + header.inclLen;
    }
  }

  lemma FieldWithin(file: bytes, pos: nat, k: nat, swapped: bool)
    requires pos + k + 4 <= |file|
    ensures Field(file[pos..], k, swapped) == Field(file, pos + k, swapped)
  {
    hide Swap32;
    assert U16LE(file[pos..], k) == U16LE(file, pos + k) && U16LE(file[pos..], k + 2) == U16LE(file, pos + k + 2);
  }

  lemma FieldsWithin(file: bytes, pos: nat, swapped: bool)
    requires pos + PACKET_HEADER_LEN <= |file|
    ensures HeaderAt(file[pos..], swapped) ==
            PacketHeader(Field(file, pos, swapped), Field(file, pos + 4, swapped),
                         Field(file, pos + 8, swapped), Field(file, pos + 12, swapped))
  {
    hide Field;
    FieldWithin(file, pos, 0, swapped);
    FieldWithin(file, pos, 4, swapped);
    FieldWithin(file, pos, 8, swapped);
    FieldWithin(file, pos, 12, swapped);
  }

  /** The first record found in a file at a read position. */
  lemma RecordsFrom(file: bytes, pos: nat, format: Format)
    requires pos <= |file|
    ensures pos + PACKET_HEADER_LEN > |file| ==> Records(file[pos..], format) == []
    ensures pos + PACKET_HEADER_LEN <= |file| ==>
              var h := HeaderAt(file[pos..], format.swapped);
              var body := pos + PACKET_HEADER_LEN;
              Records(file[pos..], format) ==
              if (format.snaplen != 0 && h.inclLen > format.snaplen) || |file| < body + h.inclLen then []
              else [RawPacket(h, file[body..body + h.inclLen])] + Records(file[body + h.inclLen..], format)
  {
    hide HeaderAt;
    if pos + PACKET_HEADER_LEN <= |file| {
      var h := HeaderAt(file[pos..], format.swapped);
      var body := pos + PACKET_HEADER_LEN;
      if body + h.inclLen <= |file| {
        assert file[pos..][PACKET_HEADER_LEN..PACKET_HEADER_LEN + h.inclLen] == file[body..body + h.inclLen];
        assert file[pos..][PACKET_HEADER_LEN + h.inclLen..] == file[body + h.inclLen..];
      }
    }
  }

  // ---- Writing, and round trips --------------------------------------------------------------------

  /** A packet whose header says how many bytes follow, within the limit. */
  predicate Writable(p: RawPacket, format: Format) {
    |p.data| == p.header.inclLen && (format.snaplen == 0 || p.header.inclLen <= format.snaplen)
  }

  function PutHeader(h: PacketHeader, swapped: bool): (b: bytes)
    ensures |b| == 16
  {
    PutField(h.tsSec, swapped) + PutField(h.tsUsec, swapped) + PutField(h.inclLen, swapped) + PutField(h.origLen, swapped)
  }

  function PutRecords(packets: seq<RawPacket>, swapped: bool): bytes {
    if packets == [] then []
    else PutHeader(packets[0].header, swapped) + packets[0].data + PutRecords(packets[1..], swapped)
  }

  /** A capture file: magic, twelve bytes no decision reads, limit, link type, records. */
  function Image(format: Format, unread: bytes, network: u32, packets: seq<RawPacket>): bytes {
    PutField(0xa1b2_c3d4, format.swapped) + unread + PutField(format.snaplen, format.swapped) +
    PutField(network, format.swapped) + PutRecords(packets, format.swapped)
  }

  lemma HeaderPlaced(h: PacketHeader, after: bytes, swapped: bool)
    ensures HeaderAt(PutHeader(h, swapped) + after, swapped) == h
  {
    hide Field, PutField;
    var a, b := PutField(h.tsSec, swapped), PutField(h.tsUsec, swapped);
    var c, e := PutField(h.inclLen, swapped), PutField(h.origLen, swapped);
    var d := PutHeader(h, swapped) + after;
    assert d == [] + a + (b + c + e + after) == a + b + (c + e + after);
    assert d == (a + b) + c + (e + after) == (a + b + c) + e + after;
    FieldPlaced([], h.tsSec, b + c + e + after, swapped);
    FieldPlaced(a, h.tsUsec, c + e + after, swapped);
    FieldPlaced(a + b, h.inclLen, e + after, swapped);
    FieldPlaced(a + b + c, h.origLen, after, swapped);
  }

  /** How many of the packets are still whole when the records are cut to n bytes. */
  function WholeRecords(packets: seq<RawPacket>, n: nat): (count: nat)
    ensures count <= |packets|
  {
    if packets == [] || n < 16 + |packets[0].data| then 0
    else 1 + WholeRecords(packets[1..], n - 16 - |packets[0].data|)
  }

  lemma FirstOfCut(p: RawPacket, rest: bytes, format: Format, n: nat)
    requires Writable(p, format)
    requires n <= 16 + |p.data| + |rest|
    ensures var whole := 16 + |p.data|;
            FirstRecord((PutHeader(p.header, format.swapped) + p.data + rest)[..n], format) ==
            if n < whole then None else Some(p)
  {
    hide Field, PutHeader, HeaderAt;
    var head, body := PutHeader(p.header, format.swapped), p.data + rest;
    var d := (head + p.data + rest)[..n];
    assert head + p.data + rest == head + body;
    if n >= 16 {
      var m: nat := n - 16;
      TakeAcross(head, body, m);
      assert d == head + body[..m];
      HeaderPlaced(p.header, body[..m], format.swapped);
      if m >= |p.data| {
        assert d[16..16 + |p.data|] == p.data;
      }
    }
  }

  lemma TakeAcross(a: bytes, b: bytes, m: nat)
    requires m <= |b|
    ensures (a + b)[..|a| + m] == a + b[..m]
  {
  }

  /** Cut anywhere, the records read back are the packets that are still whole. */
  lemma {:induction false} CutRecords(packets: seq<RawPacket>, format: Format, n: nat)
    requires forall p :: p in packets ==> Writable(p, format)
    requires n <= |PutRecords(packets, format.swapped)|
    ensures Records(PutRecords(packets, format.swapped)[..n], format) == packets[..WholeRecords(packets, n)]
  {
    hide PutHeader, FirstRecord, Writable, Records;
    var d := PutRecords(packets, format.swapped)[..n];
    if packets == [] {
      NoRecord(format);
    } else {
      var p, rest := packets[0], PutRecords(packets[1..], format.swapped);
      var whole := 16 + |p.data|;
      FirstOfCut(p, rest, format, n);
      RecordsUnfold(d, format);
      if n >= whole {
        assert d[whole..] == rest[..n - whole];
        CutRecords(packets[1..], format, n - whole);
        assert packets[..WholeRecords(packets, n)] == [p] + packets[1..][..WholeRecords(packets[1..], n - whole)];
      }
    }
  }

  lemma NoRecord(format: Format)
    ensures Records([], format) == []
  {
  }

  lemma RecordsUnfold(d: bytes, format: Format)
    ensures Records(d, format) ==
            match FirstRecord(d, format)
            case None => []
            case Some(p) => [p] + Records(d[16 + |p.data|..], format)
  {
  }

  lemma {:induction false} AllWhole(packets: seq<RawPacket>, swapped: bool)
    ensures WholeRecords(packets, |PutRecords(packets, swapped)|) == |packets|
  {
    if packets != [] { AllWhole(packets[1..], swapped); }
  }

  lemma FormatPlaced(format: Format, unread: bytes, network: u32, records: bytes)
    requires |unread| == 12
    ensures FormatOf(PutField(0xa1b2_c3d4, format.swapped) + unread + PutField(format.snaplen, format.swapped) +
                     PutField(network, format.swapped) + records) == Some(format)
  {
    hide U32LE, PutField, Swap32;
    var magic, limit := PutField(0xa1b2_c3d4, format.swapped), PutField(format.snaplen, format.swapped);
    var link := PutField(network, format.swapped);
    var file := magic + unread + limit + link + records;
    assert file == [] + magic + (unread + limit + link + records) == (magic + unread) + limit + (link + records);
    FieldPlaced([], 0xa1b2_c3d4, unread + limit + link + records, format.swapped);
    FieldPlaced(magic + unread, format.snaplen, link + records, format.swapped);
    MagicSwaps(U32LE(file, 0));
  }

  lemma MagicSwaps(v: u32)
    ensures Swap32(v) == PCAP_MAGIC <==> v == PCAP_MAGIC_SWAPPED
  {
    var b0, b1, b2, b3 := v % 0x100, v / 0x100 % 0x100, v / 0x1_0000 % 0x100, v / 0x100_0000;
    Digits(v, b0, b1, b2, b3);
    assert Swap32(v) == b3 + b2 * 0x100 + b1 * 0x1_0000 + b0 * 0x100_0000;
    hide Swap32;
    SameDigits(b3, b2, b1, b0, 0xd4, 0xc3, 0xb2, 0xa1);
    SameDigits(b0, b1, b2, b3, 0xa1, 0xb2, 0xc3, 0xd4);
  }

  lemma SameDigits(a0: int, a1: int, a2: int, a3: int, c0: int, c1: int, c2: int, c3: int)
    requires 0 <= a0 < 0x100 && 0 <= a1 < 0x100 && 0 <= a2 < 0x100 && 0 <= a3 < 0x100
    requires 0 <= c0 < 0x100 && 0 <= c1 < 0x100 && 0 <= c2 < 0x100 && 0 <= c3 < 0x100
    ensures a0 + a1 * 0x100 + a2 * 0x1_0000 + a3 * 0x100_0000 == c0 + c1 * 0x100 + c2 * 0x1_0000 + c3 * 0x100_0000 <==>
            a0 == c0 && a1 == c1 && a2 == c2 && a3 == c3
  {
  }

  lemma Digits(v: u32, b0: int, b1: int, b2: int, b3: int)
    requires b0 == v % 0x100 && b1 == v / 0x100 % 0x100 && b2 == v / 0x1_0000 % 0x100 && b3 == v / 0x100_0000
    ensures v == b0 + b1 * 0x100 + b2 * 0x1_0000 + b3 * 0x100_0000
    ensures 0 <= b0 < 0x100 && 0 <= b1 < 0x100 && 0 <= b2 < 0x100 && 0 <= b3 < 0x100
  {
    var h, l := v / 0x1_0000, v % 0x1_0000;
    HalvesOf(v);
    assert v == h * 0x1_0000 + l && l == b1 * 0x100 + b0 && h == b3 * 0x100 + b2;
  }

  /**
   * A file in either byte order, cut anywhere behind its global header, yields exactly the packets that are still whole;
   * uncut, all of them.
   */
  lemma ImageRoundTrip(format: Format, unread: bytes, network: u32, packets: seq<RawPacket>, n: nat)
    requires |unread| == 12 && forall p :: p in packets ==> Writable(p, format)
    requires 24 <= n <= |Image(format, unread, network, packets)|
    ensures var file := Image(format, unread, network, packets)[..n];
            && FormatOf(file) == Some(format)
            && Records(file[24..], format) == packets[..WholeRecords(packets, n - 24)]
            && (n == |Image(format, unread, network, packets)| ==> Records(file[24..], format) == packets)
  {
    hide PutField, PutRecords, Records, FormatOf, WholeRecords, Writable;
    var image := Image(format, unread, network, packets);
    var records := PutRecords(packets, format.swapped);
    var k := n - 24;
    var head := PutField(0xa1b2_c3d4, format.swapped) + unread + PutField(format.snaplen, format.swapped) +
                PutField(network, format.swapped);
    assert image[..n] == head + records[..k];
    assert image[..n][24..] == records[..k];
    FormatPlaced(format, unread, network, records[..k]);
    CutRecords(packets, format, k);
    AllWhole(packets, format.swapped);
    assert packets[..|packets|] == packets;
  }

  lemma {:induction false} RecordsThen(packets: seq<RawPacket>, format: Format, tail: bytes)
    requires forall p :: p in packets ==> Writable(p, format)
    ensures Records(PutRecords(packets, format.swapped) + tail, format) == packets + Records(tail, format)
  {
    hide PutHeader, FirstRecord, Writable, Records;
    if packets == [] {
      assert [] + tail == tail && [] + Records(tail, format) == Records(tail, format);
    } else {
      var p, rest := packets[0], PutRecords(packets[1..], format.swapped) + tail;
      var d := PutRecords(packets, format.swapped) + tail;
      OneThenRest(PutHeader(p.header, format.swapped), p.data, PutRecords(packets[1..], format.swapped), tail);
      FirstOfCut(p, rest, format, |d|);
      RecordsUnfold(d, format);
      RecordsThen(packets[1..], format, tail);
      ConsThen(packets, Records(tail, format));
    }
  }

  lemma ConsThen(packets: seq<RawPacket>, more: seq<RawPacket>)
    requires packets != []
    ensures [packets[0]] + (packets[1..] + more) == packets + more
  {
  }

  lemma OneThenRest(head: bytes, body: bytes, others: bytes, tail: bytes)
    ensures var d := head + body + others + tail;
            d == d[..|d|] == head + body + (others + tail) && d[|head| + |body|..] == others + tail
  {
  }

  /** A record that declares more bytes than the file's limit ends the reading, whatever follows it. */
  lemma OversizedRecordStops(packets: seq<RawPacket>, format: Format, h: PacketHeader, more: bytes)
    requires forall p :: p in packets ==> Writable(p, format)
    requires format.snaplen != 0 && h.inclLen > format.snaplen
    ensures Records(PutRecords(packets, format.swapped) + (PutHeader(h, format.swapped) + more), format) == packets
  {
    var tail := PutHeader(h, format.swapped) + more;
    HeaderPlaced(h, more, format.swapped);
    hide PutHeader, HeaderAt, PutRecords, Writable;
    RecordsThen(packets, format, tail);
    RecordsUnfold(tail, format);
  }
}
