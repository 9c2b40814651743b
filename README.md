# RSS item extraction and HistoryDict, modelled in Dafny

This project models two pieces of the a-khorosheva/Homework repository.

**RSS item extraction** (`rss_parse/parse/rss_parser.py`). `RssXmlParser.parse`
takes an XML text that has been decoded into nested dictionaries. It looks up
`rss → channel → item` and turns every raw item into an `RssItem`. Each item
gets a sanitized title, its description, a parsed publication date, its link,
and an image URL. The image URL is taken from the first of four places that
yields a truthy value: `image`, then `media:content@url`, then
`media:thumbnail@url`, then `enclosure@url` (the last only when the enclosure's
`@type` starts with `image/`). An item whose title, date or link is missing
is skipped, with a message to the message sink. `RssUrlParser.parse` fetches
the text over HTTP. A request that fails or returns a status other than 200
becomes a `ParsingException`. A successful request is parsed as above, and
every item is then stamped with its source URL.

The model works on a `Node` tree (`tree.dfy`): `Null`, strings, lists and
mappings, with Python's truthiness and `dict.get`. Python exceptions are
`Failure` values in a `Result`. This includes the uncaught `KeyError`,
`TypeError` and `AttributeError` the parser raises on unexpected shapes. The
message sink is a log (`seq<string>`) that each method takes and returns. The
loops of the source (`parse_items`, the image fallback steps, the source
stamping) are methods. Each is proved equal to a specification function
(`ItemsResult`/`ItemsMessages`, `ImageOf`, and the stamping `ensures`). Lemmas
then state what those functions promise.

**HistoryDict** (`AleksandraKhorosheva/Task2.py`) is a dictionary that
remembers the last `count` keys passed to `set_value` (10 by default). It is a
`class` with the source's three fields. A ghost field records every key ever
set, and the invariant `Valid()` ties `history` to `Window(sets, count)`.
`Window` is a reference definition: the oldest keys are dropped until `count`
remain. Python's `[-count:]` slice (`SliceFrom`) is proved to maintain that
invariant, including its edge cases. With `count == 0` the slice `[-0:]` keeps
everything. With a negative count the history stays empty.

The model follows the code in these cases, where it behaves differently
from what a reader might expect:

- xmltodict decodes a lone `<item>` as a mapping, not a one-element list. The
  loop at rss_parser.py:78 then iterates the mapping's keys, and `parse_item`
  raises AttributeError on the first of them (`RssExamples.LoneItemNotIterated`).
- A feed without `channel` or `item` raises a KeyError at rss_parser.py:76.
  That line is outside the `try` of lines 64-67, so the KeyError is not turned
  into a ParsingException. Only a decoding error and a missing `rss` root are.
- A status other than 200 raises a bare `Exception` inside the `try`
  (rss_parser.py:125-126). The bare `except` at line 131 catches it, so it is
  reported as "Unable to connect", the same as a connection failure.
- When the enclosure is not an image (rss_parser.py:103), the image URL stays
  the value last looked up at line 100. That is the thumbnail's falsy url,
  e.g. `None` or an empty string.

## Model

| member | source | states |
|---|---|---|
| RssParser.ParseImage | rss_parse/parse/rss_parser.py:95-105 | the step-by-step reassignment of the image URL returns exactly the first-truthy-value result of the ordered fallback chain `ImageOf`, including the AttributeError when a sub-object is not a mapping |
| RssParser.DirectImageWins | rss_parse/parse/rss_parser.py:96-97 | a truthy `image` field is the result, whatever the other three places hold |
| RssParser.MediaContentSecond | rss_parse/parse/rss_parser.py:97-98 | without a direct image, a non-mapping `media:content` raises AttributeError and a truthy `media:content@url` is the result |
| RssParser.MediaThumbnailThird | rss_parse/parse/rss_parser.py:99-100 | without a direct image or media:content url, a non-mapping `media:thumbnail` raises AttributeError and a truthy thumbnail url is the result |
| RssParser.EnclosureLast | rss_parse/parse/rss_parser.py:101-104 | last, the enclosure url is taken exactly when `@type` starts with `image/`; otherwise the falsy thumbnail value stays; a non-string type or non-mapping enclosure raises AttributeError; absent ones count as empty |
| RssParser.FirstHitFailsOnlyWithAttributeError | rss_parse/parse/rss_parser.py:95-105 | the only exception the image lookup can raise, at any point of the chain, is AttributeError |
| RssParser.ParseItem | rss_parse/parse/rss_parser.py:86-93 | an item is built exactly when the raw item is a mapping and its image lookup succeeds; its fields are the sanitized title, the description, the parsed date, the link and the image, with no source; any failure is AttributeError |
| RssParser.Subscript | rss_parse/parse/rss_parser.py:76 | `n[key]` succeeds exactly on a mapping holding the key, with its value; a KeyError on a mapping without it, a TypeError otherwise |
| RssParser.Elements | rss_parse/parse/rss_parser.py:78-79 | iterating a list visits its elements; iterating None is a TypeError; a non-empty string or mapping fails with AttributeError on its first element; an empty one visits nothing |
| RssParser.RawItems | rss_parse/parse/rss_parser.py:76-78 | `rss_feed_dict[channel][item]`, iterated: TypeError when the feed or the channel is not a mapping, KeyError naming the missing key, otherwise the elements the loop visits |
| RssParser.FirstFailure | rss_parse/parse/rss_parser.py:78-79 | the loop stops at the first raw item on which parse_item raises: every item before it extracts, and the one at it fails |
| RssParser.KeptAppend | rss_parse/parse/rss_parser.py:78-83 | the kept items and skip messages of a concatenation are the concatenations, so the loop keeps document order |
| RssParser.IsValid | rss_parse/parse/rss_parser.py:107-108 | an item is invalid exactly when its title is None or empty, its date is None, or its link is one of Python's falsy values (None, an empty string, list or mapping) |
| RssParser.KeptAreValid | rss_parse/parse/rss_parser.py:107-108 | every kept item has a non-empty title, a publication date and a truthy link |
| RssParser.KeptExactly | rss_parse/parse/rss_parser.py:78-83 | an item is kept if and only if it is valid and some raw item extracts to it |
| RssParser.KeptPlusSkipped | rss_parse/parse/rss_parser.py:78-83 | every raw item is either kept or reported by exactly one skip message, and every skip message is the "Item skipped" text |
| RssParser.ParseItems | rss_parse/parse/rss_parser.py:75-84 | the loop returns the valid items in order, or the first exception raised, and logs one skip message per invalid item it reached |
| RssParser.ItemsNeverRaiseParsingException | rss_parse/parse/rss_parser.py:75-93 | the item phase never raises ParsingException; its failures are the Python errors of unexpected shapes |
| RssParser.FeedDict | rss_parse/parse/rss_parser.py:64-67 | the feed dictionary is the `rss` entry of a decoded document; a decoding error or a missing root both become ParsingException("Source doesn't contain a valid RSS Feed.") |
| RssParser.Parse | rss_parse/parse/rss_parser.py:61-73 | RssXmlParser.parse returns the feed of `ItemsResult` and logs the start, item-phase, skip and finish messages of `XmlMessages` in order |
| RssParser.InvalidDocument | rss_parse/parse/rss_parser.py:63-67 | the invalid-feed ParsingException is raised if and only if the text does not decode or lacks the root, and then only the first message has been logged |
| RssParser.SuccessfulParse | rss_parse/parse/rss_parser.py:63-84 | a successful parse logs start, item phase, one skip message per rejected item and finish, and returns the raw item count less the skipped ones, all valid |
| RssParser.StampSource | rss_parse/parse/rss_parser.py:138-139 | every item gets the source URL, and nothing else about any item changes |
| RssParser.ParseUrl | rss_parse/parse/rss_parser.py:121-141 | an invalid URL gives "Invalid source URL" after the read-error message; a connection failure or non-200 status gives "Unable to connect to"; a 200 response is parsed as XML with the same messages and result, each item stamped with the source |
| RssExamples.TwoItemFeed | rss_parse/parse/rss_parser.py:61-93 | a feed with two complete, distinct items parses to those two items in document order, and logs the three progress messages |
| RssExamples.UndatedItemSkipped | rss_parse/parse/rss_parser.py:78-83 | an item whose date does not parse is skipped with one message and the feed is empty |
| RssExamples.LoneItemNotIterated | rss_parse/parse/rss_parser.py:76-79 | a lone item decoded as a mapping fails with AttributeError after two messages |
| RssExamples.MissingChannelIsKeyError | rss_parse/parse/rss_parser.py:64-76 | a root without a channel raises KeyError("channel"), not ParsingException, after two messages |
| RssExamples.DirectImageBeatsMediaContent | rss_parse/parse/rss_parser.py:96-98 | a direct image wins over media:content |
| RssExamples.MediaContentBeatsThumbnail | rss_parse/parse/rss_parser.py:97-100 | media:content wins over media:thumbnail |
| RssExamples.EnclosureTypes | rss_parse/parse/rss_parser.py:101-104 | an enclosure of type text/html yields no image; one of type image/jpeg yields its url |
| Task2.SliceFromIsTail | AleksandraKhorosheva/Task2.py:28 | Python's `s[start:]` is a tail of `s`: all but the first `start` elements for a non-negative start, the last `-start` (or all, when fewer) for a negative one |
| Task2.WindowIsTail | AleksandraKhorosheva/Task2.py:27-28 | for a capacity of at least 0 the history is the tail of the keys set: `count` of them, or all when fewer were set or the capacity is 0 |
| Task2.WindowStep | AleksandraKhorosheva/Task2.py:27-28 | appending a key and slicing with `[-count:]` turns the history of the keys set so far into the history of those keys and the new one, for every count |
| Task2.WindowBounded | AleksandraKhorosheva/Task2.py:22-28 | with a positive capacity the history holds min(keys set, count) keys, never more than count |
| Task2.WindowDegenerate | AleksandraKhorosheva/Task2.py:22-28 | with capacity 0 nothing is dropped; with a negative capacity nothing is kept |
| Task2.WindowRecent | AleksandraKhorosheva/Task2.py:27-28 | the last key set is the last entry of the history, and the history is a contiguous tail of the keys set, duplicates included |
| Task2.HistoryDict.constructor | AleksandraKhorosheva/Task2.py:20-23 | stores the dictionary and the capacity (10 by default) and starts with an empty history, ignoring the initial keys |
| Task2.HistoryDict.SetValue | AleksandraKhorosheva/Task2.py:25-28 | writes the value, keeps the capacity, and sets history to `(history + [key])[-count:]`, which keeps the history equal to the window of all keys set |
| Task2.HistoryDict.GetHistory | AleksandraKhorosheva/Task2.py:30-31 | returns the window of the last `count` keys set, oldest first |
| Task2.ExampleOneKey | AleksandraKhorosheva/Task2.py:8-12 | the docstring example: after setting "bar" the history is ["bar"] and the dictionary holds both keys |
| Task2.ExampleFourKeys | AleksandraKhorosheva/Task2.py:34-39 | four keys under the default capacity are all remembered in order |
| Task2.ExampleCapacityTwo | AleksandraKhorosheva/Task2.py:25-28 | with capacity 2 and keys a, b, b the history is ["b", "b"] and the dictionary holds the last value of each key |

## Left out

- The XML decoder (xmltodict) is the `decode` field of `Helpers`, an arbitrary function. Nothing is assumed about how it maps text to a tree, only that it yields a syntax error or a top-level mapping.
- `sanitize_text` and `to_date` are the `sanitizeText` and `toDate` fields of `Helpers`. Their code is not part of this model. They are assumed to return without raising on every node the tree can hold, including a mapping or a list: `sanitize_text` returns a string or None, and `to_date` returns a date or None. The properties hold for any such behaviour. If either could raise, `RssParser.ParseItem`'s "any failure is AttributeError", `RssParser.ItemsNeverRaiseParsingException` and the log at the first failure would not cover that exception.
- The values of the key names (`RSS_ROOT`, `RSS_ITEMS`, …) come from rss_keys.py, which is not part of this model. The constants use the RSS element names. Only the concrete example lemmas depend on those values.
- The HTTP request is not performed. Its outcome is the `Fetch` parameter of `RssParser.ParseUrl`: one of the invalid-URL errors, any other failure, or a status code with a body.
- RssParser.ParseItem: the `source` of a fresh RssItem is `None`. This is assumed to be the default of RssItem's constructor, whose file (rss_feed.py) is not part of this model.
- The message sink is a returned log. The model assumes a sink is always supplied: with the default `mc=None` the source raises an AttributeError on its first message.
- RssParser.StampSource: items are values, so the model returns stamped copies instead of mutating the `RssItem` objects in place. Aliasing of those objects by other holders is not captured.
- RssParser.Elements: iterating a non-empty mapping or string is shortened to the AttributeError that parse_item raises on its first element. The per-key or per-character visits that come before it are not modelled, since nothing is logged before that failure.
- Task2.HistoryDict.constructor: the dictionary is stored as a value, so the aliasing of the caller's dict that `self.dict = dict` creates, and its later mutation, are not captured. The same goes for the list that `get_history` returns, which the source shares with the object.
- The module-level `print` of Task2.py is not modelled; `Task2.ExampleFourKeys` states the history it prints.
- RssJsonParser, the JSON source in the same file, is not part of this model: it is file I/O plus a JSON mapper whose code is not part of this model. The abstract RssParser base class only stores the sink.
