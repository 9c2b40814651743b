/** The XML item-extraction pipeline of the RSS reader (RssXmlParser) and the
    post-step of the URL source (RssUrlParser).

    The XML decoder, the title sanitizer and the date parser are outside this
    model: they are fields of `Helpers`, total functions about which nothing is
    assumed. The message sink is a `seq<string>` log threaded through the
    methods. Python exceptions are the `Failure` values of a `Result`. */
module RssParser {
  import opened Tree

  // Key names of the decoded feed. Their definitions (rss_keys.py) are not part
  // of this model; the values are the RSS element and attribute names, and no
  // property below depends on them except the concrete examples.
  const RssRoot: string := "rss"
  const RssChannel: string := "channel"
  const RssItems: string := "item"
  const ItemTitle: string := "title"
  const ItemDescription: string := "description"
  const ItemPubDate: string := "pubDate"
  const ItemLink: string := "link"
  const ImageRoot: string := "image"
  const ImageRootMediaContent: string := "media:content"
  const ImageRootMediaThumbnail: string := "media:thumbnail"
  const ImageRootEnclosure: string := "enclosure"
  const ImageUrlAttr: string := "@url"
  const TypeAttr: string := "@type"
  const ImageMimePrefix: string := "image/"

  // Messages written to the sink, and the messages of ParsingException.
  const MsgParsingElements: string := "Parsing RSS Feed by elements"
  const MsgParsingItems: string := "Parsing items info"
  const MsgParsingFinished: string := "Parsing finished"
  const MsgItemSkipped: string := "Item skipped because it is invalid (required fields are absent)"
  const MsgInvalidFeed: string := "Source doesn't contain a valid RSS Feed."
  const MsgReadError: string := "Encountered an error during reading RSS Feed from URL"
  const MsgUnableToConnect: string := "Unable to connect"

  function MsgReachingOut(source: string): string { "Reaching out to " + source }
  function MsgInvalidSourceUrl(source: string): string { "Invalid source URL: " + source }
  function MsgCannotConnect(source: string): string { "Unable to connect to " + source }

  /** The exceptions that can leave a parse: the parser's own ParsingException,
      and the uncaught errors Python raises when the tree has an unexpected
      shape (a missing key, subscripting or iterating `None` or a string, calling
      `.get` or `.startswith` on a value that has no such method). */
  datatype Failure =
    | ParsingException(message: string)
    | KeyError(key: string)
    | TypeError
    | AttributeError

  datatype Result<+T> = Ok(value: T) | Err(error: Failure)

  /** A parsed publication date; only its presence matters here. */
  datatype Timestamp = Timestamp(seconds: int)

  /** What the XML decoder makes of a text: a syntax error, or the top-level mapping. */
  datatype Decoded = ExpatError | Document(top: map<string, Node>)

  /** The collaborators the parser calls but which are not modelled:
      sanitize_text, to_date and the XML decoder. */
  datatype Helpers = Helpers(
    sanitizeText: Node -> Option<string>,
    toDate: Node -> Option<Timestamp>,
    decode: string -> Decoded)

  /** RssItem. Description, link and image are whatever the tree holds there
      (`Null` for None); `source` is set only by the URL source. */
  datatype Item = Item(
    title: Option<string>,
    description: Node,
    publicationDate: Option<Timestamp>,
    link: Node,
    imageUrl: Node,
    source: Option<string>)

  datatype Feed = Feed(items: seq<Item>)

  /** The outcome of one HTTP GET: one of the invalid-URL errors, any other
      failure of the request, or a response. */
  datatype Fetch = InvalidUrl | ConnectionFailure | Response(statusCode: int, text: string)

  // ---------------------------------------------------------------------------
  // Image URL: an ordered fallback chain

  /** One place where the image URL may be found. */
  datatype ImageSource =
    | Field(key: string)           // the value under `key` on the item itself
    | UrlOf(key: string)           // the url attribute of the sub-object under `key`
    | ImageUrlOf(key: string)      // the same, but only if that sub-object's type is an image type

  /** The places, in order of priority. */
  const ImageSources: seq<ImageSource> :=
    [Field(ImageRoot), UrlOf(ImageRootMediaContent), UrlOf(ImageRootMediaThumbnail), ImageUrlOf(ImageRootEnclosure)]

  /** Looking at one place: `Some(v)` when the lookup yields `v`, `None` when it
      yields nothing to take (an enclosure that is not an image). A sub-object
      that is absent counts as an empty mapping; one that is present but not a
      mapping, or a type attribute that is not a string, raises AttributeError. */
  function Lookup(m: map<string, Node>, src: ImageSource): Result<Option<Node>> {
    match src
    case Field(k) => Ok(Some(Get(m, k)))
    case UrlOf(k) =>
      (match GetOr(m, k, Map(map[]))
       case Map(sub) => Ok(Some(Get(sub, ImageUrlAttr)))
       case _ => Err(AttributeError))
    case ImageUrlOf(k) =>
      (match GetOr(m, k, Map(map[]))
       case Map(sub) =>
         (match GetOr(sub, TypeAttr, Str(""))
          case Str(t) => if StartsWith(t, ImageMimePrefix) then Ok(Some(Get(sub, ImageUrlAttr))) else Ok(None)
          case _ => Err(AttributeError))
       case _ => Err(AttributeError))
  }

  /** The fallback rule: while the current value is falsy, look at the next
      place and take what it yields; stop at the first truthy value without
      looking any further. */
  function FirstHit(m: map<string, Node>, srcs: seq<ImageSource>, current: Node): Result<Node>
    decreases |srcs|
  {
    if srcs == [] || Truthy(current) then Ok(current)
    else
      match Lookup(m, srcs[0])
      case Err(e) => Err(e)
      case Ok(None) => FirstHit(m, srcs[1..], current)
      case Ok(Some(v)) => FirstHit(m, srcs[1..], v)
  }

  /** The image URL of an item mapping, by the fallback rule. */
  function ImageOf(m: map<string, Node>): Result<Node> {
    FirstHit(m, ImageSources, Null)
  }

  /** The fallback rule applied to ImageSources, one place at a time. */
  lemma ImageOfSteps(m: map<string, Node>)
    ensures ImageOf(m) == FirstHit(m, ImageSources[1..], Get(m, ImageRoot))
    ensures ImageSources[1..][1..] == [UrlOf(ImageRootMediaThumbnail), ImageUrlOf(ImageRootEnclosure)]
    ensures ImageSources[1..][1..][1..] == [ImageUrlOf(ImageRootEnclosure)]
    ensures ImageSources[1..][1..][1..][1..] == []
  {
  }

  /** parse_image: reassigns the candidate URL step by step. */
  method ParseImage(m: map<string, Node>) returns (r: Result<Node>)
    ensures r == ImageOf(m)
  {
    ImageOfSteps(m);
    ghost var rest := ImageSources[1..];
    var imageUrl := Get(m, ImageRoot);
    if !Truthy(imageUrl) {
      var content := GetOr(m, ImageRootMediaContent, Map(map[]));
      if !content.Map? {
        return Err(AttributeError);
      }
      imageUrl := Get(content.fields, ImageUrlAttr);
    }
    assert ImageOf(m) == FirstHit(m, rest[1..], imageUrl);
    rest := rest[1..];
    if !Truthy(imageUrl) {
      var thumbnail := GetOr(m, ImageRootMediaThumbnail, Map(map[]));
      if !thumbnail.Map? {
        return Err(AttributeError);
      }
      imageUrl := Get(thumbnail.fields, ImageUrlAttr);
    }
    assert ImageOf(m) == FirstHit(m, rest[1..], imageUrl);
    rest := rest[1..];
    if !Truthy(imageUrl) {
      var enclosure := GetOr(m, ImageRootEnclosure, Map(map[]));
      if !enclosure.Map? {
        return Err(AttributeError);
      }
      var mime := GetOr(enclosure.fields, TypeAttr, Str(""));
      if !mime.Str? {
        return Err(AttributeError);
      }
      if StartsWith(mime.text, ImageMimePrefix) {
        imageUrl := Get(enclosure.fields, ImageUrlAttr);
      }
    }
    assert ImageOf(m) == FirstHit(m, rest[1..], imageUrl);
    r := Ok(imageUrl);
  }

  /** A non-empty direct `image` field is the result, whatever the other places hold. */
  lemma DirectImageWins(m: map<string, Node>)
    requires Truthy(Get(m, ImageRoot))
    ensures ImageOf(m) == Ok(Get(m, ImageRoot))
  {
    ImageOfSteps(m);
  }

  /** Without a direct image, `media:content` is looked at next. */
  lemma MediaContentSecond(m: map<string, Node>)
    requires !Truthy(Get(m, ImageRoot))
    ensures var content := GetOr(m, ImageRootMediaContent, Map(map[]));
      && (!content.Map? ==> ImageOf(m) == Err(AttributeError))
      && (content.Map? && Truthy(Get(content.fields, ImageUrlAttr)) ==> ImageOf(m) == Ok(Get(content.fields, ImageUrlAttr)))
  {
    ImageOfSteps(m);
  }

  /** Without a direct image or a `media:content` url, `media:thumbnail` is next. */
  lemma MediaThumbnailThird(m: map<string, Node>, content: map<string, Node>)
    requires !Truthy(Get(m, ImageRoot))
    requires GetOr(m, ImageRootMediaContent, Map(map[])) == Map(content)
    requires !Truthy(Get(content, ImageUrlAttr))
    ensures var thumb := GetOr(m, ImageRootMediaThumbnail, Map(map[]));
      && (!thumb.Map? ==> ImageOf(m) == Err(AttributeError))
      && (thumb.Map? && Truthy(Get(thumb.fields, ImageUrlAttr)) ==> ImageOf(m) == Ok(Get(thumb.fields, ImageUrlAttr)))
  {
    ImageOfSteps(m);
    assert ImageOf(m) == FirstHit(m, ImageSources[1..][1..], Get(content, ImageUrlAttr));
    var thumb := GetOr(m, ImageRootMediaThumbnail, Map(map[]));
    if thumb.Map? {
      assert ImageOf(m) == FirstHit(m, ImageSources[1..][1..][1..], Get(thumb.fields, ImageUrlAttr));
    }
  }

  /** Last comes the enclosure, taken only when its type starts with "image/";
      otherwise the (falsy) thumbnail value stays. An absent enclosure or an
      absent type counts as empty and does not raise. */
  lemma EnclosureLast(m: map<string, Node>, content: map<string, Node>, thumb: map<string, Node>)
    requires !Truthy(Get(m, ImageRoot))
    requires GetOr(m, ImageRootMediaContent, Map(map[])) == Map(content)
    requires !Truthy(Get(content, ImageUrlAttr))
    requires GetOr(m, ImageRootMediaThumbnail, Map(map[])) == Map(thumb)
    requires !Truthy(Get(thumb, ImageUrlAttr))
    ensures var enc := GetOr(m, ImageRootEnclosure, Map(map[]));
      && (!enc.Map? ==> ImageOf(m) == Err(AttributeError))
      && (enc.Map? ==>
            ImageOf(m) ==
              match GetOr(enc.fields, TypeAttr, Str(""))
              case Str(t) =>
                if StartsWith(t, ImageMimePrefix) then Ok(Get(enc.fields, ImageUrlAttr)) else Ok(Get(thumb, ImageUrlAttr))
              case _ => Err(AttributeError))
  {
    ImageOfSteps(m);
    assert ImageOf(m) == FirstHit(m, ImageSources[1..][1..], Get(content, ImageUrlAttr));
    assert ImageOf(m) == FirstHit(m, ImageSources[1..][1..][1..], Get(thumb, ImageUrlAttr));
    var enc := GetOr(m, ImageRootEnclosure, Map(map[]));
    if enc.Map? && GetOr(enc.fields, TypeAttr, Str("")).Str? {
      if StartsWith(GetOr(enc.fields, TypeAttr, Str("")).text, ImageMimePrefix) {
        assert ImageOf(m) == FirstHit(m, [], Get(enc.fields, ImageUrlAttr));
      } else {
        assert ImageOf(m) == FirstHit(m, [], Get(thumb, ImageUrlAttr));
      }
    }
  }

  /** The only exception the image chain raises is AttributeError. */
  lemma {:induction false} FirstHitFailsOnlyWithAttributeError(m: map<string, Node>, srcs: seq<ImageSource>, current: Node)
    ensures FirstHit(m, srcs, current).Err? ==> FirstHit(m, srcs, current).error == AttributeError
    decreases |srcs|
  {
    if srcs != [] && !Truthy(current) {
      match Lookup(m, srcs[0])
      case Err(e) =>
      case Ok(None) => FirstHitFailsOnlyWithAttributeError(m, srcs[1..], current);
      case Ok(Some(v)) => FirstHitFailsOnlyWithAttributeError(m, srcs[1..], v);
    }
  }

  // ---------------------------------------------------------------------------
  // One item

  /** parse_item: builds a candidate item from a raw item node. */
  function ParseItem(h: Helpers, raw: Node): (r: Result<Item>)
    ensures r.Ok? <==> raw.Map? && ImageOf(raw.fields).Ok?
    ensures r.Err? ==> r.error == AttributeError
    ensures r.Ok? ==>
      var m := raw.fields;
      && r.value.title == h.sanitizeText(Get(m, ItemTitle))
      && r.value.description == Get(m, ItemDescription)
      && r.value.publicationDate == h.toDate(Get(m, ItemPubDate))
      && r.value.link == Get(m, ItemLink)
      && r.value.imageUrl == ImageOf(m).value
      && r.value.source == None
  {
    match raw
    case Map(m) =>
      FirstHitFailsOnlyWithAttributeError(m, ImageSources, Null);
      (match ImageOf(m)
       case Err(e) => Err(e)
       case Ok(image) =>
         Ok(Item(h.sanitizeText(Get(m, ItemTitle)), Get(m, ItemDescription), h.toDate(Get(m, ItemPubDate)),
                 Get(m, ItemLink), image, None)))
    case _ => Err(AttributeError)  // `.get` on a string, a list or None
  }

  /** __validate_correctness: a truthy title, a publication date and a truthy link. */
  function IsValid(item: Item): (valid: bool)
    ensures !valid <==>
      || item.title in {None, Some("")}
      || item.publicationDate.None?
      || item.link in {Null, Str(""), Seq([]), Map(map[])}
  {
    item.title.Some? && item.title.value != "" && item.publicationDate.Some? && Truthy(item.link)
  }

  // ---------------------------------------------------------------------------
  // The item list

  /** `n[key]`: KeyError for an absent key, TypeError on anything but a mapping. */
  function Subscript(n: Node, key: string): (r: Result<Node>)
    ensures r.Ok? <==> n.Map? && key in n.fields
    ensures r.Ok? ==> r.value == n.fields[key]
    ensures r.Err? ==> r.error == (if n.Map? then KeyError(key) else TypeError)
  {
    match n
    case Map(m) => if key in m then Ok(m[key]) else Err(KeyError(key))
    case _ => Err(TypeError)
  }

  /** The raw item nodes the loop of parse_items visits. Iterating `None` is a
      TypeError. Iterating a mapping or a string visits strings (its keys, its
      characters), and parse_item fails with AttributeError on the first of them
      before anything is logged; so a non-empty mapping or string is that
      failure here, and an empty one visits nothing. */
  function Elements(n: Node): (r: Result<seq<Node>>)
    ensures n.Seq? ==> r == Ok(n.elems)
    ensures n.Null? ==> r == Err(TypeError)
    ensures (n.Str? && n.text != "") || (n.Map? && n.fields != map[]) ==> r == Err(AttributeError)
    ensures n == Str("") || n == Map(map[]) ==> r == Ok([])
  {
    match n
    case Seq(xs) => Ok(xs)
    case Null => Err(TypeError)
    case Str(s) => if s == "" then Ok([]) else Err(AttributeError)
    case Map(m) => if m == map[] then Ok([]) else Err(AttributeError)
  }

  /** `rss_feed_dict[RSS_CHANNEL][RSS_ITEMS]`, iterated. */
  function RawItems(feedDict: Node): (r: Result<seq<Node>>)
    ensures !feedDict.Map? ==> r == Err(TypeError)
    ensures feedDict.Map? && RssChannel !in feedDict.fields ==> r == Err(KeyError(RssChannel))
    ensures feedDict.Map? && RssChannel in feedDict.fields ==>
      var channel := feedDict.fields[RssChannel];
      && (!channel.Map? ==> r == Err(TypeError))
      && (channel.Map? && RssItems !in channel.fields ==> r == Err(KeyError(RssItems)))
      && (channel.Map? && RssItems in channel.fields ==> r == Elements(channel.fields[RssItems]))
  {
    match Subscript(feedDict, RssChannel)
    case Err(e) => Err(e)
    case Ok(channel) =>
      match Subscript(channel, RssItems)
      case Err(e) => Err(e)
      case Ok(items) => Elements(items)
  }

  /** Every raw item yields a candidate item. */
  predicate AllExtract(h: Helpers, raws: seq<Node>) {
    forall i | 0 <= i < |raws| :: ParseItem(h, raws[i]).Ok?
  }

  /** The position of the first raw item on which parse_item raises, or |raws|. */
  function FirstFailure(h: Helpers, raws: seq<Node>): (k: nat)
    ensures k <= |raws|
    ensures forall i | 0 <= i < k :: ParseItem(h, raws[i]).Ok?
    ensures k < |raws| ==> ParseItem(h, raws[k]).Err?
  {
    if raws == [] || ParseItem(h, raws[0]).Err? then 0
    else 1 + FirstFailure(h, raws[1..])
  }

  /** The candidate items that pass validation, in document order. */
  function Kept(h: Helpers, raws: seq<Node>): seq<Item>
    requires AllExtract(h, raws)
  {
    if raws == [] then []
    else
      var item := ParseItem(h, raws[0]).value;
      (if IsValid(item) then [item] else []) + Kept(h, raws[1..])
  }

  /** One skip message for each candidate item that fails validation. */
  function Skips(h: Helpers, raws: seq<Node>): seq<string>
    requires AllExtract(h, raws)
  {
    if raws == [] then []
    else
      var item := ParseItem(h, raws[0]).value;
      (if IsValid(item) then [] else [MsgItemSkipped]) + Skips(h, raws[1..])
  }

  /** What parse_items returns: the kept items, or the first exception raised. */
  function ItemsResult(h: Helpers, feedDict: Node): Result<seq<Item>> {
    match RawItems(feedDict)
    case Err(e) => Err(e)
    case Ok(raws) =>
      if AllExtract(h, raws) then Ok(Kept(h, raws))
      else Err(ParseItem(h, raws[FirstFailure(h, raws)]).error)
  }

  /** What parse_items writes to the sink: a skip message for every invalid
      item it got to before returning or raising. */
  function ItemsMessages(h: Helpers, feedDict: Node): seq<string> {
    match RawItems(feedDict)
    case Err(_) => []
    case Ok(raws) => Skips(h, raws[..FirstFailure(h, raws)])
  }

  /** Kept and Skips of a concatenation are the concatenations: the relative
      order of the surviving items is the document order. */
  lemma {:induction false} KeptAppend(h: Helpers, a: seq<Node>, b: seq<Node>)
    requires AllExtract(h, a) && AllExtract(h, b)
    ensures AllExtract(h, a + b)
    ensures Kept(h, a + b) == Kept(h, a) + Kept(h, b)
    ensures Skips(h, a + b) == Skips(h, a) + Skips(h, b)
  {
    assert forall i | 0 <= i < |a + b| :: (a + b)[i] == if i < |a| then a[i] else b[i - |a|];
    if a == [] {
      assert a + b == b;
    } else {
      assert (a + b)[1..] == a[1..] + b;
      assert AllExtract(h, a[1..]) by {
        forall i | 0 <= i < |a[1..]| ensures ParseItem(h, a[1..][i]).Ok? {
          assert a[1..][i] == a[i + 1];
        }
      }
      KeptAppend(h, a[1..], b);
    }
  }

  /** Every surviving item has a title, a date and a link. */
  lemma {:induction false} KeptAreValid(h: Helpers, raws: seq<Node>)
    requires AllExtract(h, raws)
    ensures forall item | item in Kept(h, raws) :: IsValid(item)
  {
    if raws != [] {
      KeptAreValid(h, raws[1..]);
    }
  }

  /** The surviving items are exactly the valid candidate items. */
  lemma {:induction false} KeptExactly(h: Helpers, raws: seq<Node>, item: Item)
    requires AllExtract(h, raws)
    ensures item in Kept(h, raws) <==>
              IsValid(item) && exists i | 0 <= i < |raws| :: ParseItem(h, raws[i]) == Ok(item)
  {
    if raws != [] {
      KeptExactly(h, raws[1..], item);
      if IsValid(item) && (exists i | 0 <= i < |raws| :: ParseItem(h, raws[i]) == Ok(item)) {
        var i :| 0 <= i < |raws| && ParseItem(h, raws[i]) == Ok(item);
        if i > 0 {
          assert raws[1..][i - 1] == raws[i];
        }
      }
      if exists i | 0 <= i < |raws[1..]| :: ParseItem(h, raws[1..][i]) == Ok(item) {
        var i :| 0 <= i < |raws[1..]| && ParseItem(h, raws[1..][i]) == Ok(item);
        assert raws[i + 1] == raws[1..][i];
      }
    }
  }

  /** Each raw item is either kept or reported by exactly one skip message. */
  lemma {:induction false} KeptPlusSkipped(h: Helpers, raws: seq<Node>)
    requires AllExtract(h, raws)
    ensures |Kept(h, raws)| + |Skips(h, raws)| == |raws|
    ensures forall msg | msg in Skips(h, raws) :: msg == MsgItemSkipped
  {
    if raws != [] {
      KeptPlusSkipped(h, raws[1..]);
    }
  }

  /** One step of the parse_items loop: extending the visited prefix by one
      extracted item appends that item, or a skip message, and nothing else. */
  lemma KeptStep(h: Helpers, raws: seq<Node>, i: nat)
    requires i < |raws| && AllExtract(h, raws[..i]) && ParseItem(h, raws[i]).Ok?
    ensures AllExtract(h, raws[..i + 1])
    ensures var item := ParseItem(h, raws[i]).value;
      && Kept(h, raws[..i + 1]) == Kept(h, raws[..i]) + (if IsValid(item) then [item] else [])
      && Skips(h, raws[..i + 1]) == Skips(h, raws[..i]) + (if IsValid(item) then [] else [MsgItemSkipped])
  {
    assert AllExtract(h, [raws[i]]);
    KeptAppend(h, raws[..i], [raws[i]]);
    assert raws[..i + 1] == raws[..i] + [raws[i]];
  }

  /** parse_items: extract, validate and keep, in one loop. */
  method ParseItems(h: Helpers, feedDict: Node, log: seq<string>) returns (r: Result<seq<Item>>, log': seq<string>)
    ensures r == ItemsResult(h, feedDict)
    ensures log' == log + ItemsMessages(h, feedDict)
  {
    log' := log;
    var rawItems := RawItems(feedDict);
    if rawItems.Err? {
      return Err(rawItems.error), log';
    }
    var raws := rawItems.value;
    var res: seq<Item> := [];
    var i := 0;
    while i < |raws|
      invariant 0 <= i <= |raws|
      invariant AllExtract(h, raws[..i])
      invariant res == Kept(h, raws[..i])
      invariant log' == log + Skips(h, raws[..i])
    {
      var item := ParseItem(h, raws[i]);
      if item.Err? {
        assert FirstFailure(h, raws) == i;
        return Err(item.error), log';
      }
      KeptStep(h, raws, i);
      if IsValid(item.value) {
        res := res + [item.value];
      } else {
        log' := log' + [MsgItemSkipped];
      }
      i := i + 1;
    }
    assert raws[..i] == raws;
    r := Ok(res);
  }

  /** The item-level steps raise only KeyError, TypeError or AttributeError,
      never ParsingException. */
  lemma ItemsNeverRaiseParsingException(h: Helpers, feedDict: Node)
    ensures ItemsResult(h, feedDict).Err? ==> !ItemsResult(h, feedDict).error.ParsingException?
  {
  }

  // ---------------------------------------------------------------------------
  // The XML source

  /** `xmltodict.parse(xml)[RSS_ROOT]`, with both of its failures turned into
      ParsingException. */
  function FeedDict(d: Decoded): (r: Result<Node>)
    ensures r.Ok? <==> d.Document? && RssRoot in d.top
    ensures r.Ok? ==> r.value == d.top[RssRoot]
    ensures r.Err? ==> r.error == ParsingException(MsgInvalidFeed)
  {
    match d
    case ExpatError => Err(ParsingException(MsgInvalidFeed))
    case Document(top) => if RssRoot in top then Ok(top[RssRoot]) else Err(ParsingException(MsgInvalidFeed))
  }

  /** What RssXmlParser.parse returns for an XML text. */
  function XmlResult(h: Helpers, xml: string): Result<Feed> {
    match FeedDict(h.decode(xml))
    case Err(e) => Err(e)
    case Ok(feedDict) =>
      match ItemsResult(h, feedDict)
      case Err(e) => Err(e)
      case Ok(items) => Ok(Feed(items))
  }

  /** What RssXmlParser.parse writes to the sink. */
  function XmlMessages(h: Helpers, xml: string): seq<string> {
    [MsgParsingElements] +
    match FeedDict(h.decode(xml))
    case Err(_) => []
    case Ok(feedDict) =>
      [MsgParsingItems] + ItemsMessages(h, feedDict)
      + (if ItemsResult(h, feedDict).Ok? then [MsgParsingFinished] else [])
  }

  /** RssXmlParser.parse. */
  method Parse(h: Helpers, xml: string, log: seq<string>) returns (r: Result<Feed>, log': seq<string>)
    ensures r == XmlResult(h, xml)
    ensures log' == log + XmlMessages(h, xml)
  {
    log' := log + [MsgParsingElements];
    var feedDict := FeedDict(h.decode(xml));
    if feedDict.Err? {
      return Err(ParsingException(MsgInvalidFeed)), log';
    }
    log' := log' + [MsgParsingItems];
    var items;
    items, log' := ParseItems(h, feedDict.value, log');
    if items.Err? {
      return Err(items.error), log';
    }
    log' := log' + [MsgParsingFinished];
    r := Ok(Feed(items.value));
  }

  /** A text that does not decode, or lacks the root key, is a ParsingException
      raised after the first message and before any item is looked at; no
      other input gives that exception. */
  lemma InvalidDocument(h: Helpers, xml: string)
    ensures XmlResult(h, xml) == Err(ParsingException(MsgInvalidFeed)) <==> FeedDict(h.decode(xml)).Err?
    ensures FeedDict(h.decode(xml)).Err? ==> XmlMessages(h, xml) == [MsgParsingElements]
  {
    if FeedDict(h.decode(xml)).Ok? {
      ItemsNeverRaiseParsingException(h, FeedDict(h.decode(xml)).value);
    }
  }

  /** A successful parse logs the start, the item phase, one skip message per
      rejected item and the end, in this order, and returns as many items as
      there were raw items less the skipped ones. */
  lemma SuccessfulParse(h: Helpers, xml: string)
    requires XmlResult(h, xml).Ok?
    ensures FeedDict(h.decode(xml)).Ok?
    ensures var raws := RawItems(FeedDict(h.decode(xml)).value);
      && raws.Ok? && AllExtract(h, raws.value)
      && XmlMessages(h, xml) == [MsgParsingElements, MsgParsingItems] + Skips(h, raws.value) + [MsgParsingFinished]
      && |XmlResult(h, xml).value.items| == |raws.value| - |Skips(h, raws.value)|
      && forall item | item in XmlResult(h, xml).value.items :: IsValid(item)
  {
    var raws := RawItems(FeedDict(h.decode(xml)).value).value;
    assert raws[..FirstFailure(h, raws)] == raws;
    KeptPlusSkipped(h, raws);
    KeptAreValid(h, raws);
  }

  // ---------------------------------------------------------------------------
  // The URL source

  /** The loop of RssUrlParser.parse that stamps every item with its source. */
  method StampSource(items: seq<Item>, source: string) returns (stamped: seq<Item>)
    ensures |stamped| == |items|
    ensures forall i | 0 <= i < |items| :: stamped[i].source == Some(source)
    ensures forall i | 0 <= i < |items| :: stamped[i].(source := items[i].source) == items[i]
  {
    stamped := items;
    for i := 0 to |stamped|
      invariant |stamped| == |items|
      invariant forall j | 0 <= j < i :: stamped[j] == items[j].(source := Some(source))
      invariant forall j | i <= j < |items| :: stamped[j] == items[j]
    {
      stamped := stamped[i := stamped[i].(source := Some(source))];
    }
  }

  /** RssUrlParser.parse, given the outcome of its request. */
  method ParseUrl(h: Helpers, source: string, fetch: Fetch, log: seq<string>) returns (r: Result<Feed>, log': seq<string>)
    ensures fetch.InvalidUrl? ==>
      r == Err(ParsingException(MsgInvalidSourceUrl(source)))
      && log' == log + [MsgReachingOut(source), MsgReadError]
    ensures (fetch.ConnectionFailure? || (fetch.Response? && fetch.statusCode != 200)) ==>
      r == Err(ParsingException(MsgCannotConnect(source)))
      && log' == log + [MsgReachingOut(source), MsgUnableToConnect]
    ensures fetch.Response? && fetch.statusCode == 200 ==>
      var parsed := XmlResult(h, fetch.text);
      && log' == log + [MsgReachingOut(source)] + XmlMessages(h, fetch.text)
      && r.Ok? == parsed.Ok?
      && (r.Err? ==> r.error == parsed.error)
      && (r.Ok? ==> |r.value.items| == |parsed.value.items|
                    && forall i | 0 <= i < |parsed.value.items| ::
                         r.value.items[i] == parsed.value.items[i].(source := Some(source)))
  {
    log' := log + [MsgReachingOut(source)];
    match fetch
    case InvalidUrl =>
      log' := log' + [MsgReadError];
      return Err(ParsingException(MsgInvalidSourceUrl(source))), log';
    case ConnectionFailure =>
      log' := log' + [MsgUnableToConnect];
      return Err(ParsingException(MsgCannotConnect(source))), log';
    case Response(status, text) =>
      if status != 200 {
        log' := log' + [MsgUnableToConnect];
        return Err(ParsingException(MsgCannotConnect(source))), log';
      }
      var feed;
      feed, log' := Parse(h, text, log');
      if feed.Err? {
        return Err(feed.error), log';
      }
      var items := StampSource(feed.value.items, source);
      r := Ok(Feed(items));
  }
}
