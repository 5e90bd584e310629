/** The records the plugin decodes from the helper binary's JSON output,
    with their declared defaults and the `safeItems` getters. */
module DataModels {
  import opened Wrappers

  /** One entry of a bucket listing. */
  datatype BoltKey = BoltKey(keyBase64: string, valueSize: int, isBucket: bool)

  /** A page of a bucket listing; `nextAfterKey == None` marks the end of data. */
  datatype KeysResult = KeysResult(
    items: Option<seq<BoltKey>> := None,
    nextAfterKey: Option<string> := None,
    approxReturned: int)
  {
    /** `items ?: emptyList()` */
    function SafeItems(): (r: seq<BoltKey>)
      ensures items.Some? ==> r == items.value
      ensures items.None? ==> r == []
    {
      items.GetOr([])
    }
  }

  /** The leading bytes of a value, or the acknowledgement of a save. */
  datatype HeadResult = HeadResult(mode: string, totalSize: int, valueHeadBase64: string)

  /** One search match: the bucket path to the entry's parent and the entry. */
  datatype SearchItem = SearchItem(
    path: seq<string>, keyBase64: string, valueSize: int, isBucket: bool, kind: string)

  datatype SearchResult = SearchResult(
    items: Option<seq<SearchItem>> := None,
    total: int := 0,
    limited: bool := false)
  {
    /** `items ?: emptyList()` */
    function SafeItems(): (r: seq<SearchItem>)
      ensures items.Some? ==> r == items.value
      ensures items.None? ==> r == []
    {
      items.GetOr([])
    }
  }

  /** The deserialiser's complaint about required properties absent from the
      JSON object, named in declaration order. */
  datatype DecodeError = MissingFields(names: seq<string>)

  /** Decoding a `KeysResult` object whose fields are given as present or
      absent (`None`; for the nullable fields, JSON `null` reads the same). */
  function DecodeKeysResult(
    items: Option<seq<BoltKey>>, nextAfterKey: Option<string>, approxReturned: Option<int>)
    : (r: Result<KeysResult, DecodeError>)
    ensures r.Ok? <==> approxReturned.Some?
    ensures r.Err? ==> r.error == MissingFields(["approxReturned"])
    ensures r.Ok? ==>
      r.value.items == items && r.value.nextAfterKey == nextAfterKey
      && r.value.approxReturned == approxReturned.value
  {
    match approxReturned
    case None => Err(MissingFields(["approxReturned"]))
    case Some(n) => Ok(KeysResult(items := items, nextAfterKey := nextAfterKey, approxReturned := n))
  }

  /** Decoding a `SearchResult` object: every field has a default, so decoding
      never fails, and an absent field takes its default. */
  function DecodeSearchResult(
    items: Option<seq<SearchItem>>, total: Option<int>, limited: Option<bool>)
    : (r: Result<SearchResult, DecodeError>)
    ensures r.Ok?
    ensures r.value.items == items
    ensures r.value.total == (if total.Some? then total.value else 0)
    ensures r.value.limited == (limited.Some? && limited.value)
  {
    var base := SearchResult(items := items);
    Ok(base.(total := total.GetOr(base.total), limited := limited.GetOr(base.limited)))
  }

  /** Names of the absent fields among `mode`, `totalSize`, `valueHeadBase64`. */
  function MissingHeadFields(mode: Option<string>, totalSize: Option<int>, head: Option<string>)
    : (names: seq<string>)
    ensures "mode" in names <==> mode.None?
    ensures "totalSize" in names <==> totalSize.None?
    ensures "valueHeadBase64" in names <==> head.None?
    ensures forall i :: 0 <= i < |names| ==> names[i] in ["mode", "totalSize", "valueHeadBase64"]
  {
    (if mode.None? then ["mode"] else [])
    + (if totalSize.None? then ["totalSize"] else [])
    + (if head.None? then ["valueHeadBase64"] else [])
  }

  /** Decoding a `HeadResult`: all three fields are required. */
  function DecodeHeadResult(mode: Option<string>, totalSize: Option<int>, head: Option<string>)
    : (r: Result<HeadResult, DecodeError>)
    ensures r.Ok? <==> mode.Some? && totalSize.Some? && head.Some?
    ensures r.Ok? ==> r.value == HeadResult(mode.value, totalSize.value, head.value)
    ensures r.Err? ==> r.error == MissingFields(MissingHeadFields(mode, totalSize, head))
    ensures r.Err? ==> |r.error.names| >= 1
  {
    if mode.Some? && totalSize.Some? && head.Some? then
      Ok(HeadResult(mode.value, totalSize.value, head.value))
    else
      Err(MissingFields(MissingHeadFields(mode, totalSize, head)))
  }
}
