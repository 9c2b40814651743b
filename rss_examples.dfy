/** Concrete feeds and what the RssParser model gives for them: a complete feed, a
    skipped item, the image priorities, and the shapes the parser does not
    guard against. */
module RssExamples {
  import opened Tree
  import opened RssParser

  const DateText: string := "Mon, 01 Jan 2024 00:00:00 GMT"

  /** `<item><title>T</title><link>L</link><pubDate>…</pubDate></item>` decoded. */
  const ItemNode: Node := ItemNodeOf("T", "L")

  /** An item with the given title and link, the date above, and nothing else. */
  function ItemNodeOf(title: string, link: string): Node {
    Map(map[ItemTitle := Str(title), ItemLink := Str(link), ItemPubDate := Str(DateText)])
  }

  function FeedOf(items: Node): Decoded {
    Document(map[RssRoot := Map(map[RssChannel := Map(map[RssItems := items])])])
  }

  /** A feed with two complete items (the decoder gives a list only for two
      or more) parses to those two items, in document order, without
      description or image, and logs the three progress messages. */
  lemma TwoItemFeed(h: Helpers, xml: string, date: Timestamp)
    requires h.decode(xml) == FeedOf(Seq([ItemNodeOf("T1", "L1"), ItemNodeOf("T2", "L2")]))
    requires h.sanitizeText(Str("T1")) == Some("T1") && h.sanitizeText(Str("T2")) == Some("T2")
    requires h.toDate(Str(DateText)) == Some(date)
    ensures XmlResult(h, xml) == Ok(Feed([Item(Some("T1"), Null, Some(date), Str("L1"), Null, None),
                                          Item(Some("T2"), Null, Some(date), Str("L2"), Null, None)]))
    ensures XmlMessages(h, xml) == [MsgParsingElements, MsgParsingItems, MsgParsingFinished]
  {
    var first := Item(Some("T1"), Null, Some(date), Str("L1"), Null, None);
    var second := Item(Some("T2"), Null, Some(date), Str("L2"), Null, None);
    CompleteItem(h, "T1", "L1", date);
    CompleteItem(h, "T2", "L2", date);
    var raws := [ItemNodeOf("T1", "L1"), ItemNodeOf("T2", "L2")];
    assert RawItems(FeedDict(h.decode(xml)).value) == Ok(raws);
    assert AllExtract(h, raws) && raws[1..] == [ItemNodeOf("T2", "L2")] && raws[1..][1..] == [];
    assert Kept(h, raws[1..][1..]) == [] && Skips(h, raws[1..][1..]) == [];
    assert Kept(h, raws[1..]) == [second];
    assert Skips(h, raws[1..]) == [];
    assert Kept(h, raws) == [first, second] && Skips(h, raws) == [];
    assert FirstFailure(h, raws[1..]) == 1;
    assert FirstFailure(h, raws) == 2;
    assert raws[..2] == raws;
    var feedDict := FeedDict(h.decode(xml)).value;
    assert ItemsResult(h, feedDict) == Ok([first, second]);
    assert ItemsMessages(h, feedDict) == [];
  }

  /** A complete item node extracts to a valid item with no description or image. */
  lemma CompleteItem(h: Helpers, title: string, link: string, date: Timestamp)
    requires title != "" && link != ""
    requires h.sanitizeText(Str(title)) == Some(title)
    requires h.toDate(Str(DateText)) == Some(date)
    ensures ParseItem(h, ItemNodeOf(title, link)) == Ok(Item(Some(title), Null, Some(date), Str(link), Null, None))
    ensures IsValid(Item(Some(title), Null, Some(date), Str(link), Null, None))
  {
    var m := ItemNodeOf(title, link).fields;
    assert Get(m, ItemDescription) == Null;
    assert Get(m, ImageRoot) == Null;
    MediaContentSecond(m);
    MediaThumbnailThird(m, map[]);
    EnclosureLast(m, map[], map[]);
    assert ImageOf(m) == Ok(Null);
  }

  /** An item whose date does not parse (to_date gives None) is skipped with
      one message; with only such items the feed is empty. The item list is
      given as a one-element list here, as a decoder that always makes lists
      (xmltodict's `force_list`) would give it. */
  lemma UndatedItemSkipped(h: Helpers, xml: string)
    requires h.decode(xml) == FeedOf(Seq([ItemNode]))
    requires h.toDate(Str(DateText)) == None
    ensures XmlResult(h, xml) == Ok(Feed([]))
    ensures XmlMessages(h, xml) == [MsgParsingElements, MsgParsingItems, MsgItemSkipped, MsgParsingFinished]
  {
    var m := ItemNode.fields;
    MediaContentSecond(m);
    MediaThumbnailThird(m, map[]);
    EnclosureLast(m, map[], map[]);
    var raws := [ItemNode];
    assert RawItems(FeedDict(h.decode(xml)).value) == Ok(raws);
    assert ParseItem(h, ItemNode).Ok? && !IsValid(ParseItem(h, ItemNode).value);
    assert AllExtract(h, raws) && raws[1..] == [];
    assert Kept(h, raws) == [] && Skips(h, raws) == [MsgItemSkipped];
    assert FirstFailure(h, raws) == 1;
    assert raws[..1] == raws;
    var feedDict := FeedDict(h.decode(xml)).value;
    assert ItemsResult(h, feedDict) == Ok([]);
    assert ItemsMessages(h, feedDict) == [MsgItemSkipped];
  }

  /** A single item that decodes as a lone mapping rather than a one-element
      list is iterated over its keys: parse_item fails on the first key with
      AttributeError, after the first two progress messages. */
  lemma LoneItemNotIterated(h: Helpers, xml: string)
    requires h.decode(xml) == FeedOf(ItemNode)
    ensures XmlResult(h, xml) == Err(AttributeError)
    ensures XmlMessages(h, xml) == [MsgParsingElements, MsgParsingItems]
  {
    assert ItemTitle in ItemNode.fields;
    assert RawItems(FeedDict(h.decode(xml)).value) == Err(AttributeError);
  }

  /** A root without a channel is a KeyError that escapes the parser: it is
      raised outside the decoding step, so it is not turned into ParsingException. */
  lemma MissingChannelIsKeyError(h: Helpers, xml: string)
    requires FeedDict(h.decode(xml)).Ok? && FeedDict(h.decode(xml)).value.Map?
    requires RssChannel !in FeedDict(h.decode(xml)).value.fields
    ensures XmlResult(h, xml) == Err(KeyError(RssChannel))
    ensures XmlMessages(h, xml) == [MsgParsingElements, MsgParsingItems]
  {
  }

  /** A direct image wins over `media:content`. */
  lemma DirectImageBeatsMediaContent(url: string, other: string)
    requires url != ""
    ensures ImageOf(map[ImageRoot := Str(url),
                        ImageRootMediaContent := Map(map[ImageUrlAttr := Str(other)])]) == Ok(Str(url))
  {
    DirectImageWins(map[ImageRoot := Str(url), ImageRootMediaContent := Map(map[ImageUrlAttr := Str(other)])]);
  }

  /** `media:content` wins over `media:thumbnail`. */
  lemma MediaContentBeatsThumbnail(url: string, other: string)
    requires url != ""
    ensures ImageOf(map[ImageRootMediaContent := Map(map[ImageUrlAttr := Str(url)]),
                        ImageRootMediaThumbnail := Map(map[ImageUrlAttr := Str(other)])]) == Ok(Str(url))
  {
    var m := map[ImageRootMediaContent := Map(map[ImageUrlAttr := Str(url)]),
                 ImageRootMediaThumbnail := Map(map[ImageUrlAttr := Str(other)])];
    assert Get(m, ImageRoot) == Null;
    MediaContentSecond(m);
  }

  /** An enclosure of type text/html gives no image; one of type image/jpeg
      gives its url. */
  lemma EnclosureTypes(url: string)
    ensures ImageOf(map[ImageRootEnclosure := Map(map[TypeAttr := Str("text/html"), ImageUrlAttr := Str(url)])]) == Ok(Null)
    ensures ImageOf(map[ImageRootEnclosure := Map(map[TypeAttr := Str("image/jpeg"), ImageUrlAttr := Str(url)])]) == Ok(Str(url))
  {
    var html := map[ImageRootEnclosure := Map(map[TypeAttr := Str("text/html"), ImageUrlAttr := Str(url)])];
    var jpeg := map[ImageRootEnclosure := Map(map[TypeAttr := Str("image/jpeg"), ImageUrlAttr := Str(url)])];
    assert Get(html, ImageRoot) == Null && Get(jpeg, ImageRoot) == Null;
    MediaContentSecond(html);
    MediaThumbnailThird(html, map[]);
    EnclosureLast(html, map[], map[]);
    assert "text/html"[0] != ImageMimePrefix[0];
    assert !StartsWith("text/html", ImageMimePrefix);
    MediaContentSecond(jpeg);
    MediaThumbnailThird(jpeg, map[]);
    EnclosureLast(jpeg, map[], map[]);
    assert StartsWith("image/jpeg", ImageMimePrefix);
  }
}
