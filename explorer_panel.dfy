/** The explorer panel's own state and the values it derives from a listing:
    the current bucket path, the rows of the keys table and the pagination
    cursor; the size column, the item-count label and the bucket statistics. */
module ExplorerPanel {
  import opened Wrappers
  import opened Text
  import opened DataModels
  import opened PanelJson
  import opened PanelPaths

  // ----- formatSize -----

  /** `size / unit` rounded half up to tenths, as `%.1f` rounds it; the
      quotient of a size by 1024 or 1024 * 1024 is exact in a `Double`. */
  function RoundedTenths(size: nat, unit: nat): (t: nat)
    requires unit > 0 && unit % 2 == 0
    ensures 10 * size - unit / 2 < t * unit <= 10 * size + unit / 2
  {
    (10 * size + unit / 2) / unit
  }

  /** A number of tenths written with one decimal place and a '.' separator. */
  function OneDecimal(tenths: nat): (r: string)
    ensures |r| >= 3 && r[|r| - 2] == '.' && IsDigit(r[|r| - 1])
    ensures forall i :: 0 <= i < |r| - 2 ==> IsDigit(r[i])
  {
    NatToString(tenths / 10) + "." + [DigitChar(tenths % 10)]
  }

  /** Reading the digits of `OneDecimal(t)` back, point ignored, gives `t`. */
  lemma OneDecimalValue(tenths: nat)
    ensures var r := OneDecimal(tenths);
      DecimalValue(r[..|r| - 2]) * 10 + (r[|r| - 1] as int - '0' as int) == tenths
  {
    var r := OneDecimal(tenths);
    assert r[..|r| - 2] == NatToString(tenths / 10);
    NatToStringValue(tenths / 10);
  }

  const KiB: nat := 1024
  const MiB: nat := 1024 * 1024

  /** `formatSize`: bytes below 1 KiB, else KiB below 1 MiB, else MiB. */
  function FormatSize(size: int): (r: string)
    ensures |r| >= 3 && r[|r| - 1] == 'B'
    ensures r[|r| - 2] == (if size < KiB then ' ' else if size < MiB then 'K' else 'M')
  {
    if size < KiB then IntToString(size) + " B"
    else if size < MiB then OneDecimal(RoundedTenths(size, KiB)) + " KB"
    else OneDecimal(RoundedTenths(size, MiB)) + " MB"
  }

  /** The unit follows the thresholds, and a KB or MB figure is within half
      a tenth of the exact quotient. */
  lemma FormatSizeUnit(size: int)
    ensures size < KiB ==> FormatSize(size) == IntToString(size) + " B"
    ensures size >= KiB ==>
      var unit := if size < MiB then KiB else MiB;
      var t := RoundedTenths(size, unit);
      && FormatSize(size) == OneDecimal(t) + (if size < MiB then " KB" else " MB")
      && 10 * size - unit / 2 < t * unit <= 10 * size + unit / 2
  {
  }

  // ----- the keys table -----

  /** A row of the keys table: the Key, Size and Type columns. */
  datatype KeyRow = KeyRow(key: string, size: string, kind: string)

  /** The row `updateKeysTable` adds for one listed entry; `decode` stands
      for base64 decoding followed by UTF-8 decoding, `None` when the key is
      not valid base64. */
  function KeyRowOf(k: BoltKey, decode: string -> Option<string>): (row: KeyRow)
    ensures row.kind == "Bucket" <==> k.isBucket
    ensures row.kind == "Key" <==> !k.isBucket
    ensures row.size == "Loading..." <==> k.isBucket
    ensures !k.isBucket ==> row.size == FormatSize(k.valueSize)
    ensures row.key == (if decode(k.keyBase64).Some? then decode(k.keyBase64).value else k.keyBase64)
  {
    assert "Loading..."[|"Loading..."| - 1] == '.';
    var name := match decode(k.keyBase64) case Some(s) => s case None => k.keyBase64;
    var size := if k.isBucket then "Loading..." else FormatSize(k.valueSize);
    KeyRow(name, size, if k.isBucket then "Bucket" else "Key")
  }

  function KeyRows(items: seq<BoltKey>, decode: string -> Option<string>): (rows: seq<KeyRow>)
    ensures |rows| == |items|
    ensures forall i :: 0 <= i < |items| ==> rows[i] == KeyRowOf(items[i], decode)
  {
    seq(|items|, i requires 0 <= i < |items| => KeyRowOf(items[i], decode))
  }

  /** The body of `updateKeysTable`'s loop: the row for one entry. */
  method MakeKeyRow(key: BoltKey, decode: string -> Option<string>) returns (row: KeyRow)
    ensures row == KeyRowOf(key, decode)
  {
    var kind := if key.isBucket then "Bucket" else "Key";
    var decodedKeyName := match decode(key.keyBase64) case Some(s) => s case None => key.keyBase64;
    var sizeDisplay := if key.isBucket then "Loading..." else FormatSize(key.valueSize);
    row := KeyRow(decodedKeyName, sizeDisplay, kind);
  }

  lemma KeyRowsSnoc(items: seq<BoltKey>, i: nat, decode: string -> Option<string>)
    requires i < |items|
    ensures KeyRows(items[..i + 1], decode) == KeyRows(items[..i], decode) + [KeyRowOf(items[i], decode)]
  {
    var a := KeyRows(items[..i + 1], decode);
    var b := KeyRows(items[..i], decode) + [KeyRowOf(items[i], decode)];
    forall j | 0 <= j < |a| ensures a[j] == b[j] {
      assert items[..i + 1][j] == items[j];
      if j < i {
        assert items[..i][j] == items[j];
      }
    }
  }

  /** The first row showing bucket `name`, if any. */
  function FirstBucketRow(rows: seq<KeyRow>, name: string): (j: Option<nat>)
    ensures j.Some? ==> j.value < |rows| && rows[j.value].key == name && rows[j.value].kind == "Bucket"
    ensures j.Some? ==> forall i :: 0 <= i < j.value ==> !(rows[i].key == name && rows[i].kind == "Bucket")
    ensures j.None? ==> forall i :: 0 <= i < |rows| ==> !(rows[i].key == name && rows[i].kind == "Bucket")
    decreases |rows|
  {
    if rows == [] then None
    else if rows[0].key == name && rows[0].kind == "Bucket" then Some(0)
    else
      match FirstBucketRow(rows[1..], name)
      case None => None
      case Some(j) => Some(j + 1)
  }

  /** The label a bucket's Size cell gets once its listing is in: the count,
      with a `+` exactly when the listing has a next page. */
  function ItemCountLabel(count: nat, hasMore: bool): (r: string)
    ensures r == NatToString(count) + "+ items" <==> hasMore
    ensures r == NatToString(count) + " items" <==> !hasMore
  {
    var n := NatToString(count);
    if hasMore then
      assert (n + "+ items")[|n|] == '+';
      n + "+ items"
    else
      assert |n + " items"| != |n + "+ items"|;
      n + " items"
  }

  /** The label for a bucket's own listing. */
  function CountLabel(listing: KeysResult): (r: string)
    ensures r == ItemCountLabel(|listing.SafeItems()|, listing.nextAfterKey.Some?)
  {
    var itemCount := |listing.SafeItems()|;
    if listing.nextAfterKey.Some? then NatToString(itemCount) + "+ items"
    else NatToString(itemCount) + " items"
  }

  /** The rows after the first row showing bucket `name`, if any, gets
      `text` in its Size cell. */
  function SetCount(rows: seq<KeyRow>, name: string, text: string): (r: seq<KeyRow>)
    ensures |r| == |rows|
    ensures forall i :: 0 <= i < |rows| ==> r[i].key == rows[i].key && r[i].kind == rows[i].kind
    ensures FirstBucketRow(rows, name).None? ==> r == rows
    ensures FirstBucketRow(rows, name).Some? ==>
      var j := FirstBucketRow(rows, name).value;
      r[j].size == text && forall i :: 0 <= i < |rows| && i != j ==> r[i] == rows[i]
  {
    match FirstBucketRow(rows, name)
    case None => rows
    case Some(j) => rows[j := rows[j].(size := text)]
  }

  /** The name a listed bucket is shown under. */
  function BucketName(key: BoltKey, decode: string -> Option<string>): string {
    match decode(key.keyBase64) case Some(s) => s case None => key.keyBase64
  }

  /** What one listed entry does to the rows: a bucket whose own listing
      succeeds labels its row with that listing's count. */
  function CountStep(rows: seq<KeyRow>, key: BoltKey, path: string, decode: string -> Option<string>,
                     listing: string -> Option<KeysResult>): (r: seq<KeyRow>)
    ensures |r| == |rows|
  {
    var name := BucketName(key, decode);
    if !key.isBucket then rows
    else match listing(ChildPath(path, name))
      case None => rows
      case Some(contents) => SetCount(rows, name, CountLabel(contents))
  }

  /** The rows after the entries are counted one after another, in order. */
  function CountedRows(rows: seq<KeyRow>, items: seq<BoltKey>, path: string, decode: string -> Option<string>,
                       listing: string -> Option<KeysResult>): (r: seq<KeyRow>)
    ensures |r| == |rows|
    decreases |items|
  {
    if items == [] then rows
    else CountStep(CountedRows(rows, items[..|items| - 1], path, decode, listing), items[|items| - 1],
                   path, decode, listing)
  }

  /** Counting keeps every row's key and type, and changes only the Size
      cells of bucket rows; so the first row of each bucket stays where it
      was. */
  lemma {:induction false} CountedRowsFrame(rows: seq<KeyRow>, items: seq<BoltKey>, path: string,
                                            decode: string -> Option<string>, listing: string -> Option<KeysResult>)
    ensures var r := CountedRows(rows, items, path, decode, listing);
      && |r| == |rows|
      && (forall i :: 0 <= i < |rows| ==>
            r[i].key == rows[i].key && r[i].kind == rows[i].kind && (r[i].size == rows[i].size || rows[i].kind == "Bucket"))
      && (forall name :: FirstBucketRow(r, name) == FirstBucketRow(rows, name))
    decreases |items|
  {
    if items != [] {
      var before := CountedRows(rows, items[..|items| - 1], path, decode, listing);
      CountedRowsFrame(rows, items[..|items| - 1], path, decode, listing);
      var key := items[|items| - 1];
      var name := BucketName(key, decode);
      if key.isBucket && listing(ChildPath(path, name)).Some? {
        var after := SetCount(before, name, CountLabel(listing(ChildPath(path, name)).value));
        forall i | 0 <= i < |rows| ensures after[i].size == rows[i].size || rows[i].kind == "Bucket" {
          if FirstBucketRow(before, name).Some? && i == FirstBucketRow(before, name).value {
            assert before[i].kind == "Bucket";
          }
        }
        forall n ensures FirstBucketRow(after, n) == FirstBucketRow(rows, n) {
          SameHeadersFirst(after, before, n);
        }
      }
    }
  }

  /** Rows with the same keys and types have the same first row per bucket. */
  lemma {:induction false} SameHeadersFirst(a: seq<KeyRow>, b: seq<KeyRow>, name: string)
    requires |a| == |b|
    requires forall i :: 0 <= i < |a| ==> a[i].key == b[i].key && a[i].kind == b[i].kind
    ensures FirstBucketRow(a, name) == FirstBucketRow(b, name)
    decreases |a|
  {
    if a != [] {
      SameHeadersFirst(a[1..], b[1..], name);
    }
  }

  /** The row of a bucket gets the count of the last listed bucket of that
      name whose listing succeeded. */
  lemma {:induction false} CountedRowsLabel(rows: seq<KeyRow>, items: seq<BoltKey>, path: string,
                                            decode: string -> Option<string>, listing: string -> Option<KeysResult>, i: nat)
    requires i < |items| && items[i].isBucket
    requires listing(ChildPath(path, BucketName(items[i], decode))).Some?
    requires FirstBucketRow(rows, BucketName(items[i], decode)).Some?
    requires forall k :: i < k < |items| && items[k].isBucket ==>
      BucketName(items[k], decode) != BucketName(items[i], decode) || listing(ChildPath(path, BucketName(items[k], decode))).None?
    ensures var name := BucketName(items[i], decode);
      CountedRows(rows, items, path, decode, listing)[FirstBucketRow(rows, name).value].size
        == CountLabel(listing(ChildPath(path, name)).value)
    decreases |items|
  {
    var name := BucketName(items[i], decode);
    var j := FirstBucketRow(rows, name).value;
    var init := items[..|items| - 1];
    var before := CountedRows(rows, init, path, decode, listing);
    CountedRowsFrame(rows, init, path, decode, listing);
    assert FirstBucketRow(before, name) == Some(j);
    if i < |items| - 1 {
      CountedRowsLabel(rows, init, path, decode, listing, i);
      var key := items[|items| - 1];
      var n := BucketName(key, decode);
      if key.isBucket && listing(ChildPath(path, n)).Some? {
        assert n != name;
        if FirstBucketRow(before, n).Some? {
          assert before[FirstBucketRow(before, n).value].key == n;
        }
      }
    }
  }

  /** A row whose name no listed bucket with a successful listing carries
      keeps its Size cell. */
  lemma {:induction false} CountedRowsUntouched(rows: seq<KeyRow>, items: seq<BoltKey>, path: string,
                                                decode: string -> Option<string>, listing: string -> Option<KeysResult>, j: nat)
    requires j < |rows|
    requires forall k :: 0 <= k < |items| && items[k].isBucket ==>
      BucketName(items[k], decode) != rows[j].key || listing(ChildPath(path, BucketName(items[k], decode))).None?
    ensures CountedRows(rows, items, path, decode, listing)[j] == rows[j]
    decreases |items|
  {
    if items != [] {
      var init := items[..|items| - 1];
      CountedRowsUntouched(rows, init, path, decode, listing, j);
      CountedRowsFrame(rows, init, path, decode, listing);
      var before := CountedRows(rows, init, path, decode, listing);
      var key := items[|items| - 1];
      var n := BucketName(key, decode);
      if key.isBucket && listing(ChildPath(path, n)).Some? && FirstBucketRow(before, n).Some? {
        assert before[FirstBucketRow(before, n).value].key == n;
      }
    }
  }

  /** The panel's state. */
  class Panel {
    var currentPath: string
    var selectedKey: Option<BoltKey>
    var rows: seq<KeyRow>
    var nextAfterKey: Option<string>

    constructor ()
      ensures currentPath == "" && selectedKey == None && rows == [] && nextAfterKey == None
    {
      currentPath := "";
      selectedKey := None;
      rows := [];
      nextAfterKey := None;
    }

    /** `updateKeysTable`: empty the table when asked, then one row per
        listed entry in order, then take the listing's cursor. */
    method UpdateKeysTable(result: KeysResult, clearExisting: bool, decode: string -> Option<string>)
      modifies this
      ensures rows == (if clearExisting then [] else old(rows)) + KeyRows(result.SafeItems(), decode)
      ensures nextAfterKey == result.nextAfterKey
      ensures currentPath == old(currentPath) && selectedKey == old(selectedKey)
    {
      if clearExisting {
        rows := [];
      }
      ghost var start := rows;
      var items := result.SafeItems();
      for i := 0 to |items|
        invariant rows == start + KeyRows(items[..i], decode)
        invariant currentPath == old(currentPath) && selectedKey == old(selectedKey)
      {
        var row := MakeKeyRow(items[i], decode);
        KeyRowsSnoc(items, i, decode);
        rows := rows + [row];
      }
      assert items[..|items|] == items;
      nextAfterKey := result.nextAfterKey;
    }

    /** The search in `loadBucketItemCounts` for the row of a counted bucket:
        the first row with that name and type "Bucket" gets the label in its
        Size cell; nothing changes when there is none. */
    method SetItemCount(bucketName: string, displayText: string)
      modifies this
      ensures rows == SetCount(old(rows), bucketName, displayText)
      ensures currentPath == old(currentPath) && selectedKey == old(selectedKey)
      ensures nextAfterKey == old(nextAfterKey)
    {
      var row := 0;
      while row < |rows|
        invariant 0 <= row <= |rows| && rows == old(rows)
        invariant forall i :: 0 <= i < row ==> !(rows[i].key == bucketName && rows[i].kind == "Bucket")
      {
        if rows[row].key == bucketName && rows[row].kind == "Bucket" {
          rows := rows[row := rows[row].(size := displayText)];
          return;
        }
        row := row + 1;
      }
    }

    /** `loadBucketItemCounts`, run in sequence: for every listed bucket, the
        listing of its path (`listing`, the helper's answer; `None` when that
        call fails, which is ignored) labels the bucket's row. */
    method LoadBucketItemCounts(items: seq<BoltKey>, decode: string -> Option<string>,
                                listing: string -> Option<KeysResult>)
      modifies this
      ensures rows == CountedRows(old(rows), items, currentPath, decode, listing)
      ensures currentPath == old(currentPath) && selectedKey == old(selectedKey)
      ensures nextAfterKey == old(nextAfterKey)
    {
      for k := 0 to |items|
        invariant rows == CountedRows(old(rows), items[..k], currentPath, decode, listing)
        invariant currentPath == old(currentPath) && selectedKey == old(selectedKey)
        invariant nextAfterKey == old(nextAfterKey)
      {
        var key := items[k];
        assert items[..k + 1][..k] == items[..k];
        if key.isBucket {
          var decodedBucketName := match decode(key.keyBase64) case Some(s) => s case None => key.keyBase64;
          var bucketPath := ChildPath(currentPath, decodedBucketName);
          match listing(bucketPath) {
            case None =>
            case Some(bucketContents) =>
              SetItemCount(decodedBucketName, CountLabel(bucketContents));
          }
        }
      }
      assert items[..|items|] == items;
    }

    /** `navigateToPath`: the new path, with the selection cleared. */
    method NavigateToPath(path: string)
      modifies this
      ensures currentPath == path && selectedKey == None
      ensures rows == old(rows) && nextAfterKey == old(nextAfterKey)
    {
      currentPath := path;
      selectedKey := None;
    }

    /** A double click on a bucket row navigates into that bucket. */
    method OpenBucket(keyName: string)
      modifies this
      ensures currentPath == ChildPath(old(currentPath), keyName) && selectedKey == None
      ensures rows == old(rows) && nextAfterKey == old(nextAfterKey)
    {
      var newPath := if currentPath == "" then keyName else currentPath + "/" + keyName;
      NavigateToPath(newPath);
    }

    /** The statistics text `updateBucketPreviewPanel` shows for a bucket of
        the current path. */
    method BucketPreviewText(bucketName: string, result: KeysResult) returns (text: string)
      ensures text == JsonText(BucketStats(currentPath, bucketName, result))
    {
      text := FormatJson(BucketStats(currentPath, bucketName, result));
    }
  }

  // ----- bucket statistics -----

  /** The entries whose bucket flag is `bucket`, in order (`filter`). */
  function OfKind(items: seq<BoltKey>, bucket: bool): (r: seq<BoltKey>)
    ensures |r| <= |items|
    ensures forall i :: 0 <= i < |r| ==> r[i].isBucket == bucket && r[i] in items
    decreases |items|
  {
    if items == [] then []
    else (if items[0].isBucket == bucket then [items[0]] else []) + OfKind(items[1..], bucket)
  }

  /** The filter keeps every entry with the requested flag, as often as the
      listing holds it, and nothing else. */
  lemma {:induction false} OfKindMultiset(items: seq<BoltKey>, bucket: bool)
    ensures forall x :: multiset(OfKind(items, bucket))[x] == if x.isBucket == bucket then multiset(items)[x] else 0
    decreases |items|
  {
    if items != [] {
      OfKindMultiset(items[1..], bucket);
      assert items == [items[0]] + items[1..];
    }
  }

  /** Every entry with the requested flag is kept by the filter. */
  lemma OfKindComplete(items: seq<BoltKey>, bucket: bool, i: nat)
    requires i < |items| && items[i].isBucket == bucket
    ensures exists j :: 0 <= j < |OfKind(items, bucket)| && OfKind(items, bucket)[j] == items[i]
  {
    OfKindMultiset(items, bucket);
    assert multiset(items)[items[i]] > 0;
    assert items[i] in multiset(OfKind(items, bucket));
  }

  lemma {:induction false} OfKindSplit(items: seq<BoltKey>)
    ensures |OfKind(items, true)| + |OfKind(items, false)| == |items|
    decreases |items|
  {
    if items != [] {
      OfKindSplit(items[1..]);
    }
  }

  /** The sum of the value sizes, in unbounded integers. */
  function SizeSum(keys: seq<BoltKey>): int
    decreases |keys|
  {
    if keys == [] then 0 else keys[0].valueSize + SizeSum(keys[1..])
  }

  function MaxSize(keys: seq<BoltKey>): (m: int)
    requires |keys| > 0
    ensures forall i :: 0 <= i < |keys| ==> keys[i].valueSize <= m
    ensures exists i :: 0 <= i < |keys| && keys[i].valueSize == m
    decreases |keys|
  {
    if |keys| == 1 then keys[0].valueSize
    else
      var rest := MaxSize(keys[1..]);
      assert forall i :: 1 <= i < |keys| ==> keys[i] == keys[1..][i - 1];
      if keys[0].valueSize >= rest then keys[0].valueSize else rest
  }

  function MinSize(keys: seq<BoltKey>): (m: int)
    requires |keys| > 0
    ensures forall i :: 0 <= i < |keys| ==> m <= keys[i].valueSize
    ensures exists i :: 0 <= i < |keys| && keys[i].valueSize == m
    decreases |keys|
  {
    if |keys| == 1 then keys[0].valueSize
    else
      var rest := MinSize(keys[1..]);
      assert forall i :: 1 <= i < |keys| ==> keys[i] == keys[1..][i - 1];
      if keys[0].valueSize <= rest then keys[0].valueSize else rest
  }

  /** `Double.toInt()` of a quotient: truncation toward zero. */
  function TruncDiv(a: int, b: nat): (q: int)
    requires b > 0
    ensures a >= 0 ==> q * b <= a < q * b + b
    ensures a < 0 ==> q * b >= a > q * b - b
  {
    if a >= 0 then a / b else -((-a) / b)
  }

  /** Reduction of an integer to Kotlin's 32-bit `Int`, two's complement. */
  function Int32(x: int): (r: int)
    ensures -0x8000_0000 <= r < 0x8000_0000
    ensures (r - x) % 0x1_0000_0000 == 0
  {
    var m := x % 0x1_0000_0000;
    if m >= 0x8000_0000 then m - 0x1_0000_0000 else m
  }

  /** `keys.sumOf { it.valueSize }` as written: an `Int` sum, which wraps. */
  function TotalKeySizeAsWritten(keys: seq<BoltKey>): (r: int)
    ensures -0x8000_0000 <= r < 0x8000_0000
  {
    Int32(SizeSum(keys))
  }

  /** Three values of 10^9 bytes, each a valid `Int`, are reported with a
      negative total. */
  lemma TotalKeySizeWraps()
    ensures var k := BoltKey("", 1_000_000_000, false);
      TotalKeySizeAsWritten([k, k, k]) == -1_294_967_296
  {
    var k := BoltKey("", 1_000_000_000, false);
    assert [k, k, k][1..] == [k, k];
    assert [k, k][1..] == [k];
    assert [k][1..] == [];
    assert SizeSum([k]) == 1_000_000_000;
    assert SizeSum([k, k]) == 2_000_000_000;
    assert SizeSum([k, k, k]) == 3_000_000_000;
  }

  /** The total as evidently intended: the true sum, which for sizes that
      are not negative is at least the largest one. */
  function TotalKeySize(keys: seq<BoltKey>): (r: int)
    ensures (forall i :: 0 <= i < |keys| ==> keys[i].valueSize >= 0) ==>
      r >= 0 && forall i :: 0 <= i < |keys| ==> keys[i].valueSize <= r
    decreases |keys|
  {
    if keys == [] then 0
    else
      var rest := TotalKeySize(keys[1..]);
      assert forall i :: 1 <= i < |keys| ==> keys[i] == keys[1..][i - 1];
      keys[0].valueSize + rest
  }

  lemma {:induction false} TotalKeySizeIsSum(keys: seq<BoltKey>)
    ensures TotalKeySize(keys) == SizeSum(keys)
    ensures -0x8000_0000 <= SizeSum(keys) < 0x8000_0000 ==> TotalKeySizeAsWritten(keys) == TotalKeySize(keys)
    decreases |keys|
  {
    if keys != [] {
      TotalKeySizeIsSum(keys[1..]);
    }
  }

  /** The map `updateBucketPreviewPanel` hands to `formatJson`, in insertion
      order: the fields every bucket gets, the note on an incomplete count,
      and the statistics of the keys when there are any. */
  function BucketStats(currentPath: string, bucketName: string, result: KeysResult): seq<(string, Value)> {
    var items := result.SafeItems();
    var more := result.nextAfterKey.Some?;
    BaseStats(currentPath, bucketName, result)
    + NoteStats(|items|, more)
    + KeyStats(OfKind(items, false))
  }

  function BaseStats(currentPath: string, bucketName: string, result: KeysResult): seq<(string, Value)> {
    var items := result.SafeItems();
    var totalItems := |items|;
    [("name", Str(bucketName)),
     ("path", Str(ChildPath(currentPath, bucketName))),
     ("totalItems", if result.nextAfterKey.Some? then Str(NatToString(totalItems) + "+") else Num(totalItems)),
     ("buckets", Num(|OfKind(items, true)|)),
     ("keys", Num(|OfKind(items, false)|)),
     ("approximateReturned", Num(result.approxReturned))]
  }

  function NoteStats(totalItems: nat, more: bool): seq<(string, Value)> {
    if more then [("note", Str(IncompleteNote(totalItems)))] else []
  }

  function IncompleteNote(totalItems: nat): string {
    "Counts may be incomplete - bucket has more than " + NatToString(totalItems) + " items"
  }

  function KeyStats(keys: seq<BoltKey>): seq<(string, Value)> {
    if |keys| > 0 then
      [("totalKeySize", Num(TotalKeySize(keys))),
       ("averageKeySize", Num(TruncDiv(SizeSum(keys), |keys|))),
       ("largestKey", Num(MaxSize(keys))),
       ("smallestKey", Num(MinSize(keys)))]
    else []
  }

  /** The value of the first entry called `name`. */
  function Field(entries: seq<(string, Value)>, name: string): Option<Value>
    decreases |entries|
  {
    if entries == [] then None
    else if entries[0].0 == name then Some(entries[0].1)
    else Field(entries[1..], name)
  }

  /** A name is looked up in the later entries only when the earlier ones
      lack it. */
  lemma {:induction false} FieldAppend(a: seq<(string, Value)>, b: seq<(string, Value)>, name: string)
    ensures Field(a + b, name) == if Field(a, name).Some? then Field(a, name) else Field(b, name)
    decreases |a|
  {
    if a != [] {
      assert (a + b)[0] == a[0];
      assert (a + b)[1..] == a[1..] + b;
      FieldAppend(a[1..], b, name);
    } else {
      assert a + b == b;
    }
  }

  lemma {:induction false} FieldAt(entries: seq<(string, Value)>, i: nat)
    requires i < |entries|
    requires forall j :: 0 <= j < i ==> entries[j].0 != entries[i].0
    ensures Field(entries, entries[i].0) == Some(entries[i].1)
    decreases i
  {
    if i > 0 {
      FieldAt(entries[1..], i - 1);
    }
  }

  lemma {:induction false} FieldAbsent(entries: seq<(string, Value)>, name: string)
    requires forall j :: 0 <= j < |entries| ==> entries[j].0 != name
    ensures Field(entries, name) == None
    decreases |entries|
  {
    if entries != [] {
      FieldAbsent(entries[1..], name);
    }
  }

  /** A lookup in three consecutive groups of entries. */
  lemma FieldOf3(a: seq<(string, Value)>, b: seq<(string, Value)>, c: seq<(string, Value)>, name: string)
    ensures Field(a + b + c, name) ==
      if Field(a, name).Some? then Field(a, name)
      else if Field(b, name).Some? then Field(b, name) else Field(c, name)
  {
    assert a + b + c == a + (b + c);
    FieldAppend(a, b + c, name);
    FieldAppend(b, c, name);
  }

  lemma BaseStatsFields(currentPath: string, bucketName: string, result: KeysResult)
    ensures var e := BaseStats(currentPath, bucketName, result);
      var items := result.SafeItems();
      var n := |items|;
      && Field(e, "totalItems") == Some(if result.nextAfterKey.Some? then Str(NatToString(n) + "+") else Num(n))
      && Field(e, "buckets") == Some(Num(|OfKind(items, true)|))
      && Field(e, "keys") == Some(Num(|OfKind(items, false)|))
      && Field(e, "note") == None && Field(e, "largestKey") == None && Field(e, "smallestKey") == None
  {
    var e := BaseStats(currentPath, bucketName, result);
    FieldAt(e, 2);
    FieldAt(e, 3);
    FieldAt(e, 4);
    FieldAbsent(e, "note");
    FieldAbsent(e, "largestKey");
    FieldAbsent(e, "smallestKey");
  }

  lemma NoteStatsFields(totalItems: nat, more: bool)
    ensures var e := NoteStats(totalItems, more);
      && (Field(e, "note").Some? <==> more)
      && Field(e, "largestKey") == None && Field(e, "smallestKey") == None
  {
    var e := NoteStats(totalItems, more);
    if more {
      FieldAt(e, 0);
    }
    FieldAbsent(e, "largestKey");
    FieldAbsent(e, "smallestKey");
  }

  /** A lookup in a list of four entries. */
  lemma Field4(p: (string, Value), q: (string, Value), u: (string, Value), w: (string, Value), name: string)
    ensures Field([p, q, u, w], name) ==
      if p.0 == name then Some(p.1) else if q.0 == name then Some(q.1)
      else if u.0 == name then Some(u.1) else if w.0 == name then Some(w.1) else None
  {
    assert [p, q, u, w][1..] == [q, u, w];
    assert [q, u, w][1..] == [u, w];
    assert [u, w][1..] == [w];
    assert [w][1..] == [];
    assert Field([w], name) == if w.0 == name then Some(w.1) else None;
    assert Field([u, w], name) == if u.0 == name then Some(u.1) else Field([w], name);
    assert Field([q, u, w], name) == if q.0 == name then Some(q.1) else Field([u, w], name);
  }

  lemma KeyStatsFields(keys: seq<BoltKey>)
    ensures var e := KeyStats(keys);
      && Field(e, "totalKeySize") == (if |keys| > 0 then Some(Num(TotalKeySize(keys))) else None)
      && Field(e, "averageKeySize") == (if |keys| > 0 then Some(Num(TruncDiv(SizeSum(keys), |keys|))) else None)
      && Field(e, "largestKey") == (if |keys| > 0 then Some(Num(MaxSize(keys))) else None)
      && Field(e, "smallestKey") == (if |keys| > 0 then Some(Num(MinSize(keys))) else None)
  {
    if |keys| > 0 {
      var p := ("totalKeySize", Num(TotalKeySize(keys)));
      var q := ("averageKeySize", Num(TruncDiv(SizeSum(keys), |keys|)));
      var u := ("largestKey", Num(MaxSize(keys)));
      var w := ("smallestKey", Num(MinSize(keys)));
      assert KeyStats(keys) == [p, q, u, w];
      Field4(p, q, u, w, "totalKeySize");
      Field4(p, q, u, w, "averageKeySize");
      Field4(p, q, u, w, "largestKey");
      Field4(p, q, u, w, "smallestKey");
    }
  }

  lemma KeyStatsNoNote(keys: seq<BoltKey>)
    ensures Field(KeyStats(keys), "note") == None
  {
    if |keys| > 0 {
      var p := ("totalKeySize", Num(TotalKeySize(keys)));
      var q := ("averageKeySize", Num(TruncDiv(SizeSum(keys), |keys|)));
      var u := ("largestKey", Num(MaxSize(keys)));
      var w := ("smallestKey", Num(MinSize(keys)));
      assert KeyStats(keys) == [p, q, u, w];
      Field4(p, q, u, w, "note");
    }
  }

  /** Buckets and keys add up to the number of listed entries. */
  lemma BucketStatsCounts(currentPath: string, bucketName: string, result: KeysResult)
    ensures var e := BucketStats(currentPath, bucketName, result);
      var items := result.SafeItems();
      && Field(e, "buckets") == Some(Num(|OfKind(items, true)|))
      && Field(e, "keys") == Some(Num(|OfKind(items, false)|))
      && |OfKind(items, true)| + |OfKind(items, false)| == |items|
  {
    var items := result.SafeItems();
    var base := BaseStats(currentPath, bucketName, result);
    var note := NoteStats(|items|, result.nextAfterKey.Some?);
    var stats := KeyStats(OfKind(items, false));
    assert BucketStats(currentPath, bucketName, result) == base + note + stats;
    OfKindSplit(items);
    BaseStatsFields(currentPath, bucketName, result);
    FieldOf3(base, note, stats, "buckets");
    FieldOf3(base, note, stats, "keys");
  }

  /** The total carries a `+` exactly when the listing has a next page. */
  lemma BucketStatsTotal(currentPath: string, bucketName: string, result: KeysResult)
    ensures var n := |result.SafeItems()|;
      Field(BucketStats(currentPath, bucketName, result), "totalItems")
        == Some(if result.nextAfterKey.Some? then Str(NatToString(n) + "+") else Num(n))
  {
    var items := result.SafeItems();
    var base := BaseStats(currentPath, bucketName, result);
    var note := NoteStats(|items|, result.nextAfterKey.Some?);
    var stats := KeyStats(OfKind(items, false));
    assert BucketStats(currentPath, bucketName, result) == base + note + stats;
    BaseStatsFields(currentPath, bucketName, result);
    FieldOf3(base, note, stats, "totalItems");
  }

  /** A note on the count comes exactly when the listing has a next page. */
  lemma BucketStatsNote(currentPath: string, bucketName: string, result: KeysResult)
    ensures Field(BucketStats(currentPath, bucketName, result), "note").Some?
      <==> result.nextAfterKey.Some?
  {
    var items := result.SafeItems();
    var more := result.nextAfterKey.Some?;
    var base := BaseStats(currentPath, bucketName, result);
    var note := NoteStats(|items|, more);
    var stats := KeyStats(OfKind(items, false));
    assert BucketStats(currentPath, bucketName, result) == base + note + stats;
    BaseStatsFields(currentPath, bucketName, result);
    NoteStatsFields(|items|, more);
    KeyStatsNoNote(OfKind(items, false));
    FieldOf3(base, note, stats, "note");
  }

  /** The largest and smallest key sizes appear exactly when there are
      keys, and then bound every key size, smallest first. */
  lemma BucketStatsExtremes(currentPath: string, bucketName: string, result: KeysResult)
    ensures var e := BucketStats(currentPath, bucketName, result);
      var keys := OfKind(result.SafeItems(), false);
      && (Field(e, "largestKey").Some? <==> |keys| > 0)
      && (Field(e, "smallestKey").Some? <==> |keys| > 0)
      && (|keys| > 0 ==>
            && Field(e, "largestKey").value.Num? && Field(e, "smallestKey").value.Num?
            && Field(e, "smallestKey").value.n <= Field(e, "largestKey").value.n
            && forall i :: 0 <= i < |keys| ==>
                 Field(e, "smallestKey").value.n <= keys[i].valueSize <= Field(e, "largestKey").value.n)
  {
    var items := result.SafeItems();
    var keys := OfKind(items, false);
    var base := BaseStats(currentPath, bucketName, result);
    var note := NoteStats(|items|, result.nextAfterKey.Some?);
    var stats := KeyStats(keys);
    assert BucketStats(currentPath, bucketName, result) == base + note + stats;
    BaseStatsFields(currentPath, bucketName, result);
    NoteStatsFields(|items|, result.nextAfterKey.Some?);
    KeyStatsFields(keys);
    FieldOf3(base, note, stats, "largestKey");
    FieldOf3(base, note, stats, "smallestKey");
    if |keys| > 0 {
      assert MinSize(keys) <= keys[0].valueSize <= MaxSize(keys);
    }
  }

  /** Stated over the listing itself: the extremes appear exactly when some
      entry is not a bucket, and bound the size of every such entry. */
  lemma BucketStatsBoundKeys(currentPath: string, bucketName: string, result: KeysResult)
    ensures var e := BucketStats(currentPath, bucketName, result);
      var items := result.SafeItems();
      && (Field(e, "largestKey").Some? <==> exists i :: 0 <= i < |items| && !items[i].isBucket)
      && (Field(e, "smallestKey").Some? <==> exists i :: 0 <= i < |items| && !items[i].isBucket)
      && forall i :: 0 <= i < |items| && !items[i].isBucket ==>
           && Field(e, "smallestKey").Some? && Field(e, "smallestKey").value.Num?
           && Field(e, "largestKey").Some? && Field(e, "largestKey").value.Num?
           && Field(e, "smallestKey").value.n <= items[i].valueSize <= Field(e, "largestKey").value.n
  {
    var items := result.SafeItems();
    var keys := OfKind(items, false);
    BucketStatsExtremes(currentPath, bucketName, result);
    if |keys| > 0 {
      assert keys[0] in items;
    }
    forall i | 0 <= i < |items| && !items[i].isBucket
      ensures exists j :: 0 <= j < |keys| && keys[j] == items[i]
    {
      OfKindComplete(items, false, i);
    }
  }
}
