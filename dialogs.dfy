/** The dialogs: the search-results table and its navigation, and the
    validation of the add-key and edit-value dialogs. */
module Dialogs {
  import opened Wrappers
  import opened Text
  import opened DataModels

  /** What the Name column shows for a key that is not valid base64. */
  const InvalidBase64: string := "[invalid base64]"

  /** A row of the results table: the Name, Path and Type columns. */
  datatype ResultRow = ResultRow(name: string, path: string, kind: string)

  /** The Name column: the decoded key, or the marker when `decode` (base64
      then UTF-8) fails. */
  function DisplayName(keyBase64: string, decode: string -> Option<string>): (r: string)
    ensures decode(keyBase64).Some? ==> r == decode(keyBase64).value
    ensures decode(keyBase64).None? ==> r == InvalidBase64
  {
    match decode(keyBase64)
    case Some(s) => s
    case None => InvalidBase64
  }

  predicate IsLowerAscii(c: char) {
    'a' <= c <= 'z'
  }

  /** Title case of an ASCII lower-case letter. */
  function TitleChar(c: char): (r: char)
    requires IsLowerAscii(c)
    ensures 'A' <= r <= 'Z' && LowerChar(r) == c
  {
    (c as int - 32) as char
  }

  /** The Type column: the first character title-cased when it is lower
      case, everything else as it is. */
  function TypeLabel(t: string): (r: string)
    ensures |r| == |t|
    ensures |t| > 0 ==> r[1..] == t[1..]
    ensures |t| > 0 ==> r[0] == (if IsLowerAscii(t[0]) then TitleChar(t[0]) else t[0])
  {
    if |t| > 0 && IsLowerAscii(t[0]) then [TitleChar(t[0])] + t[1..] else t
  }

  /** The label differs from the type only in the case of its first letter. */
  lemma TypeLabelLower(t: string)
    ensures Lower(TypeLabel(t)) == Lower(t)
  {
    var r := TypeLabel(t);
    assert forall i :: 0 <= i < |t| ==> LowerChar(r[i]) == LowerChar(t[i]) by {
      forall i | 0 <= i < |t| ensures LowerChar(r[i]) == LowerChar(t[i]) {
        if i > 0 {
          assert r[i] == r[1..][i - 1] == t[1..][i - 1] == t[i];
        }
      }
    }
  }

  /** Labelling a label changes nothing. */
  lemma TypeLabelIdempotent(t: string)
    ensures TypeLabel(TypeLabel(t)) == TypeLabel(t)
  {
  }

  /** The row `populateResults` adds for one match. */
  function ResultRowOf(item: SearchItem, decode: string -> Option<string>): (row: ResultRow)
    ensures row.name == DisplayName(item.keyBase64, decode)
    ensures row.path == Join(item.path, '/')
    ensures |row.kind| == |item.kind| && Lower(row.kind) == Lower(item.kind)
  {
    TypeLabelLower(item.kind);
    ResultRow(DisplayName(item.keyBase64, decode), Join(item.path, '/'), TypeLabel(item.kind))
  }

  /** The Path column gives back the bucket names of a match whose names
      have no '/' in them. */
  lemma ResultPathSplit(item: SearchItem, decode: string -> Option<string>)
    requires |item.path| >= 1
    requires forall i :: 0 <= i < |item.path| ==> '/' !in item.path[i]
    ensures Split(ResultRowOf(item, decode).path, '/') == item.path
  {
    SplitJoin(item.path, '/');
  }

  function ResultRows(items: seq<SearchItem>, decode: string -> Option<string>): (rows: seq<ResultRow>)
    ensures |rows| == |items|
    ensures forall i :: 0 <= i < |items| ==> rows[i] == ResultRowOf(items[i], decode)
  {
    seq(|items|, i requires 0 <= i < |items| => ResultRowOf(items[i], decode))
  }

  lemma ResultRowsSnoc(items: seq<SearchItem>, i: nat, decode: string -> Option<string>)
    requires i < |items|
    ensures ResultRows(items[..i + 1], decode) == ResultRows(items[..i], decode) + [ResultRowOf(items[i], decode)]
  {
    var a := ResultRows(items[..i + 1], decode);
    var b := ResultRows(items[..i], decode) + [ResultRowOf(items[i], decode)];
    forall j | 0 <= j < |a| ensures a[j] == b[j] {
      assert items[..i + 1][j] == items[j];
      if j < i {
        assert items[..i][j] == items[j];
      }
    }
  }

  /** The title of the dialog's header, with the number of matches shown. */
  function HeaderTitle(result: SearchResult): (r: string)
    ensures |r| > 17 && r[..16] == "Search Results ("  && r[|r| - 1] == ')'
    ensures r[16..|r| - 1] == NatToString(|result.SafeItems()|)
  {
    var title := "Search Results (" + NatToString(|result.SafeItems()|) + ")";
    assert title[..16] == "Search Results (";
    title
  }

  /** The count in the title reads back as the number of matches, one per
      row of the table. */
  lemma HeaderTitleCount(result: SearchResult)
    ensures var r := HeaderTitle(result);
      DecimalValue(r[16..|r| - 1]) == |result.SafeItems()|
  {
    NatToStringValue(|result.SafeItems()|);
  }

  /** The orange label, shown exactly when the helper cut the results short. */
  function LimitedLabel(result: SearchResult): (r: Option<string>)
    ensures r.Some? <==> result.limited
    ensures r.Some? ==> r.value == "Results limited to " + NatToString(|result.SafeItems()|) + " items"
  {
    if result.limited then
      Some("Results limited to " + NatToString(|result.SafeItems()|) + " items")
    else None
  }

  /** The search-results dialog: its results, the rows of its table and
      whether it has been closed. */
  class SearchResultsDialog {
    const searchResult: SearchResult
    var rows: seq<ResultRow>
    var disposed: bool

    constructor (result: SearchResult, decode: string -> Option<string>)
      ensures searchResult == result
      ensures rows == ResultRows(result.SafeItems(), decode)
      ensures !disposed
    {
      searchResult := result;
      rows := [];
      disposed := false;
      new;
      PopulateResults(decode);
    }

    /** `populateResults`: one row per match, in order. */
    method PopulateResults(decode: string -> Option<string>)
      modifies this
      ensures rows == old(rows) + ResultRows(searchResult.SafeItems(), decode)
      ensures disposed == old(disposed)
    {
      var items := searchResult.SafeItems();
      for i := 0 to |items|
        invariant rows == old(rows) + ResultRows(items[..i], decode)
        invariant disposed == old(disposed)
      {
        var item := items[i];
        var decodedName := match decode(item.keyBase64) case Some(s) => s case None => InvalidBase64;
        var typeLabel := if |item.kind| > 0 && IsLowerAscii(item.kind[0])
                         then [TitleChar(item.kind[0])] + item.kind[1..] else item.kind;
        var row := ResultRow(decodedName, Join(item.path, '/'), typeLabel);
        assert row == ResultRowOf(item, decode);
        ResultRowsSnoc(items, i, decode);
        rows := rows + [row];
      }
      assert items[..|items|] == items;
    }

    /** `navigateToResult`: close the dialog and hand the panel the bucket
        path and the name of the chosen match, the same two strings its row
        shows. */
    method NavigateToResult(row: int, decode: string -> Option<string>)
      returns (bucketPath: string, decodedName: string)
      requires 0 <= row < |searchResult.SafeItems()|
      modifies this
      ensures bucketPath == Join(searchResult.SafeItems()[row].path, '/')
      ensures decodedName == DisplayName(searchResult.SafeItems()[row].keyBase64, decode)
      ensures rows == ResultRows(searchResult.SafeItems(), decode) ==>
        bucketPath == rows[row].path && decodedName == rows[row].name
      ensures disposed && rows == old(rows)
    {
      var item := searchResult.SafeItems()[row];
      bucketPath := Join(item.path, '/');
      decodedName := match decode(item.keyBase64) case Some(s) => s case None => InvalidBase64;
      disposed := true;
    }
  }

  /** What a dialog button leads to: an error message and the dialog stays
      open, or the dialog closes. */
  datatype Outcome = Rejected(message: string) | Closed

  /** `AddKeyDialog.addKey`: a key name that is empty once trimmed is
      refused; otherwise the dialog closes, handing nothing on. */
  function AddKey(keyNameText: string, valueText: string): (r: Outcome)
    ensures r.Rejected? <==> IsBlank(keyNameText)
    ensures r.Rejected? ==> r.message == "Key name cannot be empty"
  {
    var keyName := Trim(keyNameText);
    if keyName == "" then Rejected("Key name cannot be empty") else Closed
  }

  /** `EditValueDialog.saveValue`: the dialog closes, handing nothing on. */
  function SaveValue(newValue: string): (r: Outcome)
    ensures r == Closed
  {
    Closed
  }
}
