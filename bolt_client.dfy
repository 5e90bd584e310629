/** The client the UI talks to: it keeps the database path and forwards each
    call to the helper protocol with fixed defaults. A call is modelled by the
    argv it sends; decoding the helper's JSON answer is left out. */
module BoltDBClient {
  import opened Wrappers
  import opened Text
  import opened BoltHelper

  /** The page size the UI asks for unless told otherwise. */
  const DefaultLimit: int := 100

  class Client {
    var dbPath: string

    constructor ()
      ensures dbPath == ""
    {
      dbPath := "";
    }

    method SetDatabasePath(path: string)
      modifies this
      ensures dbPath == path
    {
      dbPath := path;
    }

    /** `listKeys`: the limit is always sent, the cursor when non-empty, and
        never a prefix. */
    method ListKeys(bucketPath: string, afterKey: Option<string> := None, limit: int := DefaultLimit)
      returns (args: seq<string>)
      ensures Encodes(args, "lsk",
        [Flag("--db", dbPath), Flag("--path", bucketPath), Flag("--limit", IntToString(limit))]
        + (if Present(afterKey) then [Flag("--after-key", afterKey.value)] else []))
      ensures var flags := ParseFlags(args[1..]).value;
        && Lookup(flags, "--db") == Some(dbPath)
        && Lookup(flags, "--limit") == Some(IntToString(limit))
        && Lookup(flags, "--prefix") == None
        && Lookup(flags, "--after-key") == (if Present(afterKey) then afterKey else None)
    {
      var opts := ListKeysOptions(limit := Some(limit), afterKey := afterKey);
      args := BoltHelper.ListKeys(dbPath, bucketPath, opts);
      var db, path, lim := Flag("--db", dbPath), Flag("--path", bucketPath), Flag("--limit", IntToString(limit));
      var cursor := if Present(afterKey) then [Flag("--after-key", afterKey.value)] else [];
      assert [db, path] + [] + [lim] + cursor == [db, path, lim] + cursor;
      LookupCons3(db, path, lim, cursor);
      assert Lookup(cursor, "--prefix") == None;
      assert Lookup(cursor, "--after-key") == (if Present(afterKey) then afterKey else None);
    }

    /** `getKeyHead`: always head mode with the default byte count. */
    method GetKeyHead(bucketPath: string, keyBase64: string) returns (args: seq<string>)
      ensures Encodes(args, "get", [Flag("--db", dbPath), Flag("--path", bucketPath),
        Flag("--key", keyBase64), Flag("--mode", "head"), Flag("--n", IntToString(DefaultHeadBytes))])
    {
      args := ReadHeadArgs(dbPath, bucketPath, keyBase64);
    }

    /** `search`: case-insensitive and 100 results unless told otherwise,
        handed on in the helper's (query, limit, caseSensitive) order. */
    method Search(query: string, caseSensitive: bool := false, limit: int := DefaultLimit)
      returns (args: seq<string>)
      ensures Encodes(args, "search",
        [Flag("--db", dbPath), Flag("--query", query), Flag("--limit", IntToString(limit))]
        + (if caseSensitive then [Flag(CaseSensitiveFlag, "true")] else []))
    {
      args := BoltHelper.Search(dbPath, query, limit, caseSensitive);
    }

    method CreateBucket(bucketPath: string) returns (args: seq<string>)
      ensures args == WriteArgs(dbPath, bucketPath, WriteOp.CreateBucket)
      ensures Encodes(args, "write",
        [Flag("--db", dbPath), Flag("--op", "create-bucket"), Flag("--path", bucketPath)])
    {
      args := CreateBucketArgs(dbPath, bucketPath);
    }

    method PutKey(bucketPath: string, keyBase64: string, valueBase64: string) returns (args: seq<string>)
      ensures args == WriteArgs(dbPath, bucketPath, Put(keyBase64, valueBase64))
      ensures Encodes(args, "write", [Flag("--db", dbPath), Flag("--op", "put"),
        Flag("--path", bucketPath), Flag("--key", keyBase64), Flag("--value", valueBase64)])
    {
      args := PutKeyValueArgs(dbPath, bucketPath, keyBase64, valueBase64);
    }

    method DeleteKey(bucketPath: string, keyBase64: string) returns (args: seq<string>)
      ensures args == WriteArgs(dbPath, bucketPath, WriteOp.DeleteKey(keyBase64))
      ensures Encodes(args, "write", [Flag("--db", dbPath), Flag("--op", "delete-key"),
        Flag("--path", bucketPath), Flag("--key", keyBase64)])
    {
      args := DeleteKeyArgs(dbPath, bucketPath, keyBase64);
    }

    method DeleteBucket(bucketPath: string) returns (args: seq<string>)
      ensures args == WriteArgs(dbPath, bucketPath, WriteOp.DeleteBucket)
      ensures Encodes(args, "write",
        [Flag("--db", dbPath), Flag("--op", "delete-bucket"), Flag("--path", bucketPath)])
    {
      args := DeleteBucketArgs(dbPath, bucketPath);
    }

    /** `exportValue`: always save mode with the given output path. */
    method ExportValue(bucketPath: string, keyBase64: string, outputPath: string) returns (args: seq<string>)
      ensures Encodes(args, "get", [Flag("--db", dbPath), Flag("--path", bucketPath),
        Flag("--key", keyBase64), Flag("--mode", "save"), Flag("--out", outputPath)])
    {
      args := SaveToFileArgs(dbPath, bucketPath, keyBase64, outputPath);
    }
  }

  /** After the path is set, a listing names that database. */
  method ListAfterSet(path: string, bucketPath: string) returns (args: seq<string>)
    ensures |args| >= 1 && args[0] == "lsk" && ParseFlags(args[1..]).Some?
    ensures Lookup(ParseFlags(args[1..]).value, "--db") == Some(path)
    ensures Lookup(ParseFlags(args[1..]).value, "--limit") == Some(IntToString(DefaultLimit))
  {
    var client := new Client();
    client.SetDatabasePath(path);
    args := client.ListKeys(bucketPath);
  }
}
