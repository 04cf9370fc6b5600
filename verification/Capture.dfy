/** From the records of a capture file to the packets the engine is given. */
module Capture {
  import opened Bytes
  import opened Wrappers
  import opened FlowSpec
  import opened PcapReader
  import PacketParser

  /** A frame that does not parse is skipped. */
  function ItemOf(raw: RawPacket): seq<Item> {
    match PacketParser.ParseFrame(raw.data)
    case None => []
    case Some(parsed) => [Item(|raw.data|, parsed)]
  }

  function Items(packets: seq<RawPacket>): seq<Item> {
    if packets == [] then [] else Items(packets[..|packets| - 1]) + ItemOf(packets[|packets| - 1])
  }

  lemma ItemsLast(before: seq<RawPacket>, raw: RawPacket)
    ensures Items(before + [raw]) == Items(before) + ItemOf(raw)
  {
    assert (before + [raw])[..|before|] == before;
  }

  /** The packets the reader delivers from a file until it stops; None for a file it does not open. */
  function FileRecords(contents: Option<bytes>): Option<seq<RawPacket>> {
    if contents.Some? && FormatOf(contents.value).Some?
    then Some(Records(contents.value[24..], FormatOf(contents.value).value))
    else None
  }

  /** Everything the engine sees of a file. */
  function FileItems(contents: Option<bytes>): Option<seq<Item>> {
    if FileRecords(contents).Some? then Some(Items(FileRecords(contents).value)) else None
  }
}
