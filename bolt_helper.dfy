/** The plugin's side of the helper-binary protocol: the command line each
    public call hands to `execJson`, the name of the platform binary, the
    exit-code decision and the collector of the output streams. Running the
    process is left out; a call is modelled by the argv it sends and by what
    `execJson` makes of the exit code and the two streams it gets back. */
module BoltHelper {
  import opened Wrappers
  import opened Text

  // ----- reading an argv back -----

  /** One option as the helper receives it. */
  datatype Flag = Flag(name: string, value: string)

  /** The one option of the protocol that takes no value. */
  const CaseSensitiveFlag: string := "-case-sensitive"

  /** The tokens that carry one option: the name and then its value, or the
      name alone for the valueless option. */
  function FlagTokens(f: Flag): seq<string> {
    if f.name == CaseSensitiveFlag then [f.name] else [f.name, f.value]
  }

  function Tokens(flags: seq<Flag>): seq<string>
    decreases |flags|
  {
    if flags == [] then [] else FlagTokens(flags[0]) + Tokens(flags[1..])
  }

  /** How the tokens after the command word read as options: each name takes
      the token after it as its value, except the valueless option, which
      reads as "true". `None` when a name has no value after it. */
  function ParseFlags(tokens: seq<string>): Option<seq<Flag>>
    decreases |tokens|
  {
    if tokens == [] then Some([])
    else if tokens[0] == CaseSensitiveFlag then
      match ParseFlags(tokens[1..])
      case None => None
      case Some(rest) => Some([Flag(CaseSensitiveFlag, "true")] + rest)
    else if |tokens| == 1 then None
    else
      match ParseFlags(tokens[2..])
      case None => None
      case Some(rest) => Some([Flag(tokens[0], tokens[1])] + rest)
  }

  /** The value of the first option called `name`. */
  function Lookup(flags: seq<Flag>, name: string): Option<string>
    decreases |flags|
  {
    if flags == [] then None
    else if flags[0].name == name then Some(flags[0].value)
    else Lookup(flags[1..], name)
  }

  /** The valueless option, if present, is written as "true". */
  predicate WellFormed(flags: seq<Flag>) {
    forall i :: 0 <= i < |flags| && flags[i].name == CaseSensitiveFlag ==> flags[i].value == "true"
  }

  lemma {:induction false} TokensAppend(a: seq<Flag>, b: seq<Flag>)
    ensures Tokens(a + b) == Tokens(a) + Tokens(b)
    decreases |a|
  {
    if a == [] {
      assert a + b == b;
    } else {
      assert (a + b)[1..] == a[1..] + b;
      TokensAppend(a[1..], b);
    }
  }

  lemma TokensCons(f: Flag, rest: seq<Flag>)
    ensures Tokens([f] + rest) == FlagTokens(f) + Tokens(rest)
  {
    assert ([f] + rest)[1..] == rest;
  }

  /** `Tokens` of short literal lists, one option after another. */
  lemma Tokens1(a: Flag)
    ensures Tokens([a]) == FlagTokens(a)
  {
    TokensCons(a, []);
    assert [a] + [] == [a];
  }

  lemma Tokens2(a: Flag, b: Flag)
    ensures Tokens([a, b]) == FlagTokens(a) + FlagTokens(b)
  {
    Tokens1(b);
    TokensCons(a, [b]);
    assert [a] + [b] == [a, b];
  }

  lemma Tokens3(a: Flag, b: Flag, c: Flag)
    ensures Tokens([a, b, c]) == FlagTokens(a) + FlagTokens(b) + FlagTokens(c)
  {
    Tokens2(b, c);
    TokensCons(a, [b, c]);
    assert [a] + [b, c] == [a, b, c];
  }

  lemma Tokens4(a: Flag, b: Flag, c: Flag, d: Flag)
    ensures Tokens([a, b, c, d]) == FlagTokens(a) + FlagTokens(b) + FlagTokens(c) + FlagTokens(d)
  {
    Tokens3(b, c, d);
    TokensCons(a, [b, c, d]);
    assert [a] + [b, c, d] == [a, b, c, d];
  }

  lemma Tokens5(a: Flag, b: Flag, c: Flag, d: Flag, e: Flag)
    ensures Tokens([a, b, c, d, e])
      == FlagTokens(a) + FlagTokens(b) + FlagTokens(c) + FlagTokens(d) + FlagTokens(e)
  {
    Tokens4(b, c, d, e);
    TokensCons(a, [b, c, d, e]);
    assert [a] + [b, c, d, e] == [a, b, c, d, e];
  }

  /** Reading back the tokens of well-formed options gives the options. */
  lemma {:induction false} ParseTokens(flags: seq<Flag>)
    requires WellFormed(flags)
    ensures ParseFlags(Tokens(flags)) == Some(flags)
    decreases |flags|
  {
    if flags != [] {
      var f := flags[0];
      var rest := Tokens(flags[1..]);
      assert WellFormed(flags[1..]) by {
        forall i | 0 <= i < |flags[1..]| && flags[1..][i].name == CaseSensitiveFlag
          ensures flags[1..][i].value == "true"
        {
          assert flags[1..][i] == flags[i + 1];
        }
      }
      ParseTokens(flags[1..]);
      assert [f] + flags[1..] == flags;
      if f.name == CaseSensitiveFlag {
        assert f.value == "true";
        assert ([f.name] + rest)[1..] == rest;
      } else {
        assert ([f.name, f.value] + rest)[2..] == rest;
      }
    }
  }

  /** An argv reads as its command word followed by the given options. */
  predicate Encodes(args: seq<string>, command: string, flags: seq<Flag>) {
    |args| >= 1 && args[0] == command && ParseFlags(args[1..]) == Some(flags)
  }

  lemma EncodesTokens(args: seq<string>, command: string, flags: seq<Flag>)
    requires WellFormed(flags)
    requires args == [command] + Tokens(flags)
    ensures Encodes(args, command, flags)
  {
    assert args[1..] == Tokens(flags);
    ParseTokens(flags);
  }

  /** Reading is the inverse of `Tokens` on the other side too: whatever
      reads as options is their tokens, and the options read are well formed. */
  lemma {:induction false} ParseFlagsTokens(tokens: seq<string>)
    requires ParseFlags(tokens).Some?
    ensures Tokens(ParseFlags(tokens).value) == tokens
    ensures WellFormed(ParseFlags(tokens).value)
    decreases |tokens|
  {
    if tokens != [] {
      var flags := ParseFlags(tokens).value;
      var n := if tokens[0] == CaseSensitiveFlag then 1 else 2;
      var rest := ParseFlags(tokens[n..]).value;
      ParseFlagsTokens(tokens[n..]);
      assert flags == [flags[0]] + rest;
      TokensCons(flags[0], rest);
      assert tokens == tokens[..n] + tokens[n..];
      forall i | 0 <= i < |flags| && flags[i].name == CaseSensitiveFlag ensures flags[i].value == "true" {
        if i > 0 {
          assert flags[i] == rest[i - 1];
        }
      }
    }
  }

  /** An argv is fixed by what it encodes: the command word followed by the
      tokens of the options, which are well formed. So every builder below
      whose contract is an `Encodes` fixes its argv token for token. */
  lemma EncodesExactly(args: seq<string>, command: string, flags: seq<Flag>)
    requires Encodes(args, command, flags)
    ensures args == [command] + Tokens(flags)
    ensures WellFormed(flags)
  {
    ParseFlagsTokens(args[1..]);
    assert args == [args[0]] + args[1..];
  }

  /** Appending the tokens of at most one more option keeps an argv in step
      with its options. */
  lemma ExtendArgs(before: seq<string>, after: seq<string>, command: string,
                   flags: seq<Flag>, more: seq<Flag>)
    requires before == [command] + Tokens(flags)
    requires |more| <= 1
    requires after == before + (if more == [] then [] else FlagTokens(more[0]))
    ensures after == [command] + Tokens(flags + more)
  {
    if more == [] {
      assert flags + more == flags;
      assert after == before;
    } else {
      var tail := FlagTokens(more[0]);
      assert more == [more[0]];
      Tokens1(more[0]);
      TokensAppend(flags, more);
      assert Tokens(flags + more) == Tokens(flags) + tail;
      assert after == [command] + (Tokens(flags) + tail);
    }
  }

  // ----- the argv of each public call -----

  /** `listKeys`' optional parameters, all null by default. */
  datatype ListKeysOptions = ListKeysOptions(
    prefix: Option<string> := None, limit: Option<int> := None, afterKey: Option<string> := None)

  /** `!s.isNullOrEmpty()` */
  predicate Present(s: Option<string>) {
    s.Some? && s.value != ""
  }

  /** `!s.isNullOrBlank()` */
  predicate NotBlank(s: Option<string>) {
    s.Some? && !IsBlank(s.value)
  }

  /** `getMeta` */
  function MetaArgs(dbPath: string): (args: seq<string>)
    ensures Encodes(args, "meta", [Flag("--db", dbPath)])
  {
    Tokens1(Flag("--db", dbPath));
    EncodesTokens(["meta", "--db", dbPath], "meta", [Flag("--db", dbPath)]);
    ["meta", "--db", dbPath]
  }

  /** `listBuckets` */
  function ListBucketsArgs(dbPath: string, bucketPath: string): (args: seq<string>)
    ensures Encodes(args, "lsb", [Flag("--db", dbPath), Flag("--path", bucketPath)])
  {
    var flags := [Flag("--db", dbPath), Flag("--path", bucketPath)];
    Tokens2(flags[0], flags[1]);
    EncodesTokens(["lsb", "--db", dbPath, "--path", bucketPath], "lsb", flags);
    ["lsb", "--db", dbPath, "--path", bucketPath]
  }

  /** `listKeys`: `--prefix` only for a non-empty prefix, `--limit` only for
      a given limit, `--after-key` only for a non-empty cursor, in that order. */
  method ListKeys(dbPath: string, bucketPath: string, opts: ListKeysOptions := ListKeysOptions())
    returns (args: seq<string>)
    ensures Encodes(args, "lsk",
      [Flag("--db", dbPath), Flag("--path", bucketPath)]
      + (if Present(opts.prefix) then [Flag("--prefix", opts.prefix.value)] else [])
      + (if opts.limit.Some? then [Flag("--limit", IntToString(opts.limit.value))] else [])
      + (if Present(opts.afterKey) then [Flag("--after-key", opts.afterKey.value)] else []))
  {
    ghost var p := if Present(opts.prefix) then [Flag("--prefix", opts.prefix.value)] else [];
    ghost var l := if opts.limit.Some? then [Flag("--limit", IntToString(opts.limit.value))] else [];
    ghost var k := if Present(opts.afterKey) then [Flag("--after-key", opts.afterKey.value)] else [];
    ghost var flags := [Flag("--db", dbPath), Flag("--path", bucketPath)];
    args := ["lsk", "--db", dbPath, "--path", bucketPath];
    Tokens2(flags[0], flags[1]);
    ghost var before := args;
    if Present(opts.prefix) {
      args := args + ["--prefix", opts.prefix.value];
    }
    ExtendArgs(before, args, "lsk", flags, p);
    flags, before := flags + p, args;
    if opts.limit.Some? {
      args := args + ["--limit", IntToString(opts.limit.value)];
    }
    ExtendArgs(before, args, "lsk", flags, l);
    flags, before := flags + l, args;
    if Present(opts.afterKey) {
      args := args + ["--after-key", opts.afterKey.value];
    }
    ExtendArgs(before, args, "lsk", flags, k);
    flags := flags + k;
    EncodesTokens(args, "lsk", flags);
  }

  /** The default number of leading bytes `readHead` asks for. */
  const DefaultHeadBytes: int := 65536

  /** `readHead`: head mode with `--n`, 65536 unless given. */
  function ReadHeadArgs(dbPath: string, bucketPath: string, keyBase64: string, n: int := DefaultHeadBytes)
    : (args: seq<string>)
    ensures Encodes(args, "get", [Flag("--db", dbPath), Flag("--path", bucketPath),
      Flag("--key", keyBase64), Flag("--mode", "head"), Flag("--n", IntToString(n))])
  {
    var flags := [Flag("--db", dbPath), Flag("--path", bucketPath),
      Flag("--key", keyBase64), Flag("--mode", "head"), Flag("--n", IntToString(n))];
    var args := ["get", "--db", dbPath, "--path", bucketPath, "--key", keyBase64,
      "--mode", "head", "--n", IntToString(n)];
    Tokens5(flags[0], flags[1], flags[2], flags[3], flags[4]);
    EncodesTokens(args, "get", flags);
    args
  }

  /** `saveToFile`: save mode with the output path. */
  function SaveToFileArgs(dbPath: string, bucketPath: string, keyBase64: string, outPath: string)
    : (args: seq<string>)
    ensures Encodes(args, "get", [Flag("--db", dbPath), Flag("--path", bucketPath),
      Flag("--key", keyBase64), Flag("--mode", "save"), Flag("--out", outPath)])
  {
    var flags := [Flag("--db", dbPath), Flag("--path", bucketPath),
      Flag("--key", keyBase64), Flag("--mode", "save"), Flag("--out", outPath)];
    var args := ["get", "--db", dbPath, "--path", bucketPath, "--key", keyBase64,
      "--mode", "save", "--out", outPath];
    Tokens5(flags[0], flags[1], flags[2], flags[3], flags[4]);
    EncodesTokens(args, "get", flags);
    args
  }

  /** `exportBucket`: `--path` and `--prefix` only when not blank (a blank
      test, unlike the empty test of `listKeys`). */
  method ExportBucket(dbPath: string, bucketPath: Option<string>, outPath: string,
                      prefix: Option<string> := None)
    returns (args: seq<string>)
    ensures Encodes(args, "export",
      [Flag("--db", dbPath), Flag("--out", outPath)]
      + (if NotBlank(bucketPath) then [Flag("--path", bucketPath.value)] else [])
      + (if NotBlank(prefix) then [Flag("--prefix", prefix.value)] else []))
  {
    ghost var b := if NotBlank(bucketPath) then [Flag("--path", bucketPath.value)] else [];
    ghost var p := if NotBlank(prefix) then [Flag("--prefix", prefix.value)] else [];
    ghost var flags := [Flag("--db", dbPath), Flag("--out", outPath)];
    args := ["export", "--db", dbPath, "--out", outPath];
    Tokens2(flags[0], flags[1]);
    ghost var before := args;
    if NotBlank(bucketPath) {
      args := args + ["--path", bucketPath.value];
    }
    ExtendArgs(before, args, "export", flags, b);
    flags, before := flags + b, args;
    if NotBlank(prefix) {
      args := args + ["--prefix", prefix.value];
    }
    ExtendArgs(before, args, "export", flags, p);
    flags := flags + p;
    EncodesTokens(args, "export", flags);
  }

  /** `search`: the valueless `-case-sensitive` comes last, exactly when
      asked for. */
  method Search(dbPath: string, query: string, limit: int := 100, caseSensitive: bool := false)
    returns (args: seq<string>)
    ensures Encodes(args, "search",
      [Flag("--db", dbPath), Flag("--query", query), Flag("--limit", IntToString(limit))]
      + (if caseSensitive then [Flag(CaseSensitiveFlag, "true")] else []))
  {
    ghost var c := if caseSensitive then [Flag(CaseSensitiveFlag, "true")] else [];
    ghost var flags := [Flag("--db", dbPath), Flag("--query", query), Flag("--limit", IntToString(limit))];
    args := ["search", "--db", dbPath, "--query", query, "--limit", IntToString(limit)];
    Tokens3(flags[0], flags[1], flags[2]);
    ghost var before := args;
    if caseSensitive {
      args := args + [CaseSensitiveFlag];
    }
    ExtendArgs(before, args, "search", flags, c);
    flags := flags + c;
    EncodesTokens(args, "search", flags);
  }

  /** `createBucket` */
  function CreateBucketArgs(dbPath: string, bucketPath: string): (args: seq<string>)
    ensures Encodes(args, "write",
      [Flag("--db", dbPath), Flag("--op", "create-bucket"), Flag("--path", bucketPath)])
  {
    var flags := [Flag("--db", dbPath), Flag("--op", "create-bucket"), Flag("--path", bucketPath)];
    var args := ["write", "--db", dbPath, "--op", "create-bucket", "--path", bucketPath];
    Tokens3(flags[0], flags[1], flags[2]);
    EncodesTokens(args, "write", flags);
    args
  }

  /** `putKeyValue` */
  function PutKeyValueArgs(dbPath: string, bucketPath: string, keyBase64: string, valueBase64: string)
    : (args: seq<string>)
    ensures Encodes(args, "write", [Flag("--db", dbPath), Flag("--op", "put"),
      Flag("--path", bucketPath), Flag("--key", keyBase64), Flag("--value", valueBase64)])
  {
    var flags := [Flag("--db", dbPath), Flag("--op", "put"),
      Flag("--path", bucketPath), Flag("--key", keyBase64), Flag("--value", valueBase64)];
    var args := ["write", "--db", dbPath, "--op", "put",
      "--path", bucketPath, "--key", keyBase64, "--value", valueBase64];
    Tokens5(flags[0], flags[1], flags[2], flags[3], flags[4]);
    EncodesTokens(args, "write", flags);
    args
  }

  /** `deleteKey` */
  function DeleteKeyArgs(dbPath: string, bucketPath: string, keyBase64: string): (args: seq<string>)
    ensures Encodes(args, "write", [Flag("--db", dbPath), Flag("--op", "delete-key"),
      Flag("--path", bucketPath), Flag("--key", keyBase64)])
  {
    var flags := [Flag("--db", dbPath), Flag("--op", "delete-key"),
      Flag("--path", bucketPath), Flag("--key", keyBase64)];
    var args := ["write", "--db", dbPath, "--op", "delete-key",
      "--path", bucketPath, "--key", keyBase64];
    Tokens4(flags[0], flags[1], flags[2], flags[3]);
    EncodesTokens(args, "write", flags);
    args
  }

  /** `deleteBucket` */
  function DeleteBucketArgs(dbPath: string, bucketPath: string): (args: seq<string>)
    ensures Encodes(args, "write",
      [Flag("--db", dbPath), Flag("--op", "delete-bucket"), Flag("--path", bucketPath)])
  {
    var flags := [Flag("--db", dbPath), Flag("--op", "delete-bucket"), Flag("--path", bucketPath)];
    var args := ["write", "--db", dbPath, "--op", "delete-bucket", "--path", bucketPath];
    Tokens3(flags[0], flags[1], flags[2]);
    EncodesTokens(args, "write", flags);
    args
  }

  /** The four write operations, each with the arguments it needs. */
  datatype WriteOp =
    | CreateBucket
    | Put(keyBase64: string, valueBase64: string)
    | DeleteKey(keyBase64: string)
    | DeleteBucket

  function OpName(op: WriteOp): string {
    match op
    case CreateBucket => "create-bucket"
    case Put(_, _) => "put"
    case DeleteKey(_) => "delete-key"
    case DeleteBucket => "delete-bucket"
  }

  /** The argv of the write call for `op`. */
  function WriteArgs(dbPath: string, bucketPath: string, op: WriteOp): seq<string> {
    match op
    case CreateBucket => CreateBucketArgs(dbPath, bucketPath)
    case Put(k, v) => PutKeyValueArgs(dbPath, bucketPath, k, v)
    case DeleteKey(k) => DeleteKeyArgs(dbPath, bucketPath, k)
    case DeleteBucket => DeleteBucketArgs(dbPath, bucketPath)
  }

  /** Every write argv starts `write --db D --op X --path P`; only put carries
      a value, and exactly put and delete-key carry a key. */
  lemma WriteArgsShape(dbPath: string, bucketPath: string, op: WriteOp)
    ensures var args := WriteArgs(dbPath, bucketPath, op);
      && args[..7] == ["write", "--db", dbPath, "--op", OpName(op), "--path", bucketPath]
      && exists flags :: Encodes(args, "write", flags)
           && Lookup(flags, "--db") == Some(dbPath)
           && Lookup(flags, "--op") == Some(OpName(op))
           && Lookup(flags, "--path") == Some(bucketPath)
           && (Lookup(flags, "--key").Some? <==> op.Put? || op.DeleteKey?)
           && (Lookup(flags, "--value").Some? <==> op.Put?)
           && (op.Put? ==> Lookup(flags, "--key") == Some(op.keyBase64)
                           && Lookup(flags, "--value") == Some(op.valueBase64))
           && (op.DeleteKey? ==> Lookup(flags, "--key") == Some(op.keyBase64))
  {
    var db, o, path := Flag("--db", dbPath), Flag("--op", OpName(op)), Flag("--path", bucketPath);
    match op {
      case CreateBucket =>
        LookupCons3(db, o, path, []);
        assert [db, o, path] + [] == [db, o, path];
        assert Encodes(WriteArgs(dbPath, bucketPath, op), "write", [db, o, path]);
      case DeleteBucket =>
        LookupCons3(db, o, path, []);
        assert [db, o, path] + [] == [db, o, path];
        assert Encodes(WriteArgs(dbPath, bucketPath, op), "write", [db, o, path]);
      case DeleteKey(k) =>
        var key := Flag("--key", k);
        LookupCons3(db, o, path, [key]);
        assert Lookup([key], "--key") == Some(k);
        assert Lookup([key], "--value") == None;
        assert [db, o, path] + [key] == [db, o, path, key];
        assert Encodes(WriteArgs(dbPath, bucketPath, op), "write", [db, o, path, key]);
      case Put(k, v) =>
        var key, value := Flag("--key", k), Flag("--value", v);
        LookupCons3(db, o, path, [key, value]);
        assert [key, value][1..] == [value];
        assert Lookup([key, value], "--value") == Some(v);
        assert Lookup([key, value], "--key") == Some(k);
        assert [db, o, path] + [key, value] == [db, o, path, key, value];
        assert Encodes(WriteArgs(dbPath, bucketPath, op), "write", [db, o, path, key, value]);
    }
  }

  /** Looking a name up past three leading options. */
  lemma LookupCons3(a: Flag, b: Flag, c: Flag, rest: seq<Flag>)
    ensures forall name ::
              Lookup([a, b, c] + rest, name)
              == (if a.name == name then Some(a.value)
                  else if b.name == name then Some(b.value)
                  else if c.name == name then Some(c.value)
                  else Lookup(rest, name))
  {
    var s := [a, b, c] + rest;
    assert s[1..] == [b, c] + rest;
    assert s[1..][1..] == [c] + rest;
    assert s[1..][1..][1..] == rest;
    forall name
      ensures Lookup(s, name)
              == (if a.name == name then Some(a.value)
                  else if b.name == name then Some(b.value)
                  else if c.name == name then Some(c.value)
                  else Lookup(rest, name))
    {
      assert Lookup(s[1..][1..], name) == (if c.name == name then Some(c.value) else Lookup(rest, name));
      assert Lookup(s[1..], name) == (if b.name == name then Some(b.value) else Lookup(s[1..][1..], name));
    }
  }

  // ----- the platform binary -----

  function OsSegment(osName: string): Option<string> {
    if Contains(osName, "mac") || Contains(osName, "darwin") then Some("darwin")
    else if Contains(osName, "linux") then Some("linux")
    else if Contains(osName, "win") then Some("windows")
    else None
  }

  function ArchSegment(arch: string): Option<string> {
    if arch == "aarch64" || arch == "arm64" then Some("arm64")
    else if arch == "x86_64" || arch == "amd64" || arch == "x64" then Some("amd64")
    else None
  }

  /** `getPlatformBinary` as written: the name of the packaged binary for the
      JVM's `os.name` and `os.arch`, or the message of the exception thrown
      for an unsupported platform (checked first) or architecture. `.exe` is
      appended whenever the lower-cased OS name contains "win". */
  method PlatformBinary(osNameRaw: string, archRaw: string) returns (r: Result<string, string>)
    ensures var os := Lower(osNameRaw); var arch := Lower(archRaw);
      && (OsSegment(os).None? ==> r == Err("Unsupported platform: " + os))
      && (OsSegment(os).Some? && ArchSegment(arch).None? ==> r == Err("Unsupported arch: " + arch))
      && (OsSegment(os).Some? && ArchSegment(arch).Some? ==>
            r == Ok("bolthelper-" + OsSegment(os).value + "-" + ArchSegment(arch).value
                    + (if Contains(os, "win") then ".exe" else "")))
  {
    var osName := Lower(osNameRaw);
    var arch := Lower(archRaw);
    var bin := "bolthelper-";
    if Contains(osName, "mac") || Contains(osName, "darwin") {
      bin := bin + "darwin-";
    } else if Contains(osName, "linux") {
      bin := bin + "linux-";
    } else if Contains(osName, "win") {
      bin := bin + "windows-";
    } else {
      return Err("Unsupported platform: " + osName);
    }
    ghost var os := OsSegment(osName).value;
    assert bin == "bolthelper-" + os + "-";
    if arch == "aarch64" || arch == "arm64" {
      bin := bin + "arm64";
    } else if arch == "x86_64" || arch == "amd64" || arch == "x64" {
      bin := bin + "amd64";
    } else {
      return Err("Unsupported arch: " + arch);
    }
    ghost var stem := "bolthelper-" + os + "-" + ArchSegment(arch).value;
    assert bin == stem;
    if Contains(osName, "win") {
      bin := bin + ".exe";
      assert bin == stem + ".exe";
    } else {
      assert bin == stem + "";
    }
    return Ok(bin);
  }

  /** The name with `.exe` tied to the Windows branch, as evidently intended. */
  function PlatformBinaryName(osNameRaw: string, archRaw: string): (r: Result<string, string>)
    ensures r.Ok? <==> OsSegment(Lower(osNameRaw)).Some? && ArchSegment(Lower(archRaw)).Some?
  {
    var os := Lower(osNameRaw);
    var arch := Lower(archRaw);
    match OsSegment(os)
    case None => Err("Unsupported platform: " + os)
    case Some(seg) =>
      match ArchSegment(arch)
      case None => Err("Unsupported arch: " + arch)
      case Some(a) => Ok("bolthelper-" + seg + "-" + a + (if seg == "windows" then ".exe" else ""))
  }

  /** The corrected name ends in `.exe` exactly on Windows. */
  lemma PlatformBinaryNameExe(osNameRaw: string, archRaw: string)
    requires PlatformBinaryName(osNameRaw, archRaw).Ok?
    ensures var name := PlatformBinaryName(osNameRaw, archRaw).value;
      (|name| >= 4 && name[|name| - 4..] == ".exe") <==> OsSegment(Lower(osNameRaw)) == Some("windows")
  {
    var name := PlatformBinaryName(osNameRaw, archRaw).value;
    var a := ArchSegment(Lower(archRaw)).value;
    assert name[|name| - 1] == (if OsSegment(Lower(osNameRaw)) == Some("windows") then 'e' else a[|a| - 1]);
  }

  /** The source and the corrected rule agree on every input, down to the
      error messages, except that the source also appends `.exe` when a
      non-Windows branch was chosen for a name containing "win". */
  method BinaryNamesAgree(osNameRaw: string, archRaw: string)
    returns (asWritten: Result<string, string>, intended: Result<string, string>)
    ensures asWritten.Err? <==> intended.Err?
    ensures intended.Err? ==> asWritten == intended
    ensures intended.Ok? ==>
      var os := Lower(osNameRaw);
      asWritten.value == intended.value
        + (if OsSegment(os) != Some("windows") && Contains(os, "win") then ".exe" else "")
  {
    asWritten := PlatformBinary(osNameRaw, archRaw);
    intended := PlatformBinaryName(osNameRaw, archRaw);
  }

  lemma DarwinLower()
    ensures Lower("Darwin") == "darwin" && Lower("aarch64") == "aarch64"
  {
  }

  lemma DarwinSegments()
    ensures OsSegment("darwin") == Some("darwin") && Contains("darwin", "win")
    ensures ArchSegment("aarch64") == Some("arm64")
  {
    ContainsAt("darwin", "darwin", 0);
    ContainsAt("darwin", "win", 3);
  }

  lemma DarwinNames()
    ensures "bolthelper-" + "darwin" + "-" + "arm64" + ".exe" == "bolthelper-darwin-arm64.exe"
    ensures "bolthelper-" + "darwin" + "-" + "arm64" + "" == "bolthelper-darwin-arm64"
  {
  }

  /** On the JVM property values "Darwin" and "aarch64" the source picks the
      darwin branch and, because "darwin" contains "win", still appends
      `.exe`; the corrected name has no `.exe`. */
  method DarwinBinary() returns (asWritten: Result<string, string>, intended: Result<string, string>)
    ensures asWritten == Ok("bolthelper-darwin-arm64.exe")
    ensures intended == Ok("bolthelper-darwin-arm64")
  {
    DarwinLower();
    DarwinSegments();
    DarwinNames();
    asWritten := PlatformBinary("Darwin", "aarch64");
    intended := PlatformBinaryName("Darwin", "aarch64");
  }

  // ----- the output streams -----

  /** Index of the first line terminator ('\n' or '\r') at or after `i`,
      or `|s|`. */
  function LineEndFrom(s: string, i: nat): (k: nat)
    requires i <= |s|
    ensures i <= k <= |s|
    decreases |s| - i
  {
    if i == |s| || s[i] == '\n' || s[i] == '\r' then i else LineEndFrom(s, i + 1)
  }

  /** Index of the first line terminator ('\n' or '\r'), or `|s|`. */
  function LineEnd(s: string): (k: nat)
    ensures k <= |s|
  {
    LineEndFrom(s, 0)
  }

  /** `LineEndFrom` stops at a terminator, and at the first one. */
  lemma {:induction false} LineEndFromFirst(s: string, i: nat, j: nat)
    requires i <= j <= |s| && j <= LineEndFrom(s, i)
    ensures j < LineEndFrom(s, i) ==> s[j] != '\n' && s[j] != '\r'
    ensures j == LineEndFrom(s, i) < |s| ==> s[j] == '\n' || s[j] == '\r'
    decreases j - i
  {
    if i < j {
      LineEndFromFirst(s, i + 1, j);
    }
  }

  /** `LineEnd` stops at a terminator, and at the first one. */
  lemma LineEndFirst(s: string, i: nat)
    requires i <= LineEnd(s) < |s| || i < LineEnd(s)
    ensures i < LineEnd(s) ==> s[i] != '\n' && s[i] != '\r'
    ensures i == LineEnd(s) ==> s[i] == '\n' || s[i] == '\r'
  {
    LineEndFromFirst(s, 0, i);
  }

  /** Length of the terminator at `k`: "\r\n" counts as one terminator. */
  function TerminatorLength(s: string, k: nat): (n: nat)
    ensures n == 1 || n == 2
    ensures n == 2 <==> k + 1 < |s| && s[k] == '\r' && s[k + 1] == '\n'
  {
    if k + 1 < |s| && s[k] == '\r' && s[k + 1] == '\n' then 2 else 1
  }

  /** The lines a `BufferedReader` yields: terminated by "\n", "\r" or
      "\r\n", terminators dropped, a last unterminated line kept, no empty
      line after a final terminator. */
  function ReadLines(s: string): seq<string>
    decreases |s|
  {
    if LineEnd(s) == |s| then (if s == [] then [] else [s])
    else [s[..LineEnd(s)]] + ReadLines(s[LineEnd(s) + TerminatorLength(s, LineEnd(s))..])
  }

  /** The first line of a text that has a terminator, and the rest. */
  lemma ReadLinesStep(s: string)
    requires LineEnd(s) < |s|
    ensures ReadLines(s) == [s[..LineEnd(s)]] + ReadLines(s[LineEnd(s) + TerminatorLength(s, LineEnd(s))..])
  {
  }

  /** No line the reader yields holds a terminator character. */
  lemma {:induction false} ReadLinesClean(s: string)
    ensures forall j, i :: 0 <= j < |ReadLines(s)| && 0 <= i < |ReadLines(s)[j]| ==>
      ReadLines(s)[j][i] != '\n' && ReadLines(s)[j][i] != '\r'
    decreases |s|
  {
    var k := LineEnd(s);
    var first := if k == |s| then s else s[..k];
    forall i | 0 <= i < |first| ensures first[i] != '\n' && first[i] != '\r' {
      LineEndFirst(s, i);
    }
    if k < |s| {
      var rest := s[k + TerminatorLength(s, k)..];
      ReadLinesClean(rest);
      ReadLinesStep(s);
    }
  }

  lemma TerminatedCons(line: string, lines: seq<string>)
    ensures Terminated([line] + lines) == line + "\n" + Terminated(lines)
  {
    assert ([line] + lines)[1..] == lines;
  }

  /** A text without '\r' that ends in '\n' has a first line ending in a
      one-character '\n' terminator. */
  lemma PlainFirstLine(s: string)
    requires '\r' !in s && s != [] && s[|s| - 1] == '\n'
    ensures LineEnd(s) < |s| && s[LineEnd(s)] == '\n' && TerminatorLength(s, LineEnd(s)) == 1
  {
    var k := LineEnd(s);
    if k == |s| {
      LineEndFirst(s, |s| - 1);
    }
    LineEndFirst(s, k);
    assert s[k] in s;
  }

  lemma NoReturnSuffix(s: string, j: nat)
    requires '\r' !in s && j <= |s|
    ensures '\r' !in s[j..]
  {
    forall i | 0 <= i < |s| - j ensures s[j..][i] != '\r' {
      assert s[j..][i] == s[j + i];
      assert s[j + i] in s;
    }
  }

  /** A text without '\r' that is empty or ends in '\n' is collected
      unchanged; the collector only normalises line ends. */
  lemma {:induction false} TerminatedPlainText(s: string)
    requires '\r' !in s
    requires s == [] || s[|s| - 1] == '\n'
    ensures Terminated(ReadLines(s)) == s
    decreases |s|
  {
    if s == [] {
      assert ReadLines(s) == [];
    } else {
      PlainFirstLine(s);
      var k := LineEnd(s);
      var rest := s[k + 1..];
      ReadLinesStep(s);
      NoReturnSuffix(s, k + 1);
      assert rest != [] ==> rest[|rest| - 1] == s[|s| - 1];
      TerminatedPlainText(rest);
      TerminatedCons(s[..k], ReadLines(rest));
      SplitAround(s, k);
    }
  }

  lemma SplitAround(s: string, k: nat)
    requires k < |s|
    ensures s == s[..k] + [s[k]] + s[k + 1..]
  {
  }

  lemma SplitThree(s: string, i: nat, j: nat)
    requires i <= j <= |s|
    ensures s == s[..i] + s[i..j] + s[j..]
  {
  }

  /** The terminator `LineEnd` finds is whitespace. */
  lemma TerminatorBlank(s: string)
    requires LineEnd(s) < |s|
    ensures var k := LineEnd(s); IsBlank(s[k..k + TerminatorLength(s, k)])
  {
    var k := LineEnd(s);
    LineEndFirst(s, k);
    if TerminatorLength(s, k) == 2 {
      assert s[k..k + 2] == "\r\n";
      assert IsBlank("\r\n");
    } else if s[k] == '\n' {
      assert s[k..k + 1] == "\n";
      assert IsBlank("\n");
    } else {
      assert s[k..k + 1] == "\r";
      assert IsBlank("\r");
    }
  }

  lemma BlankConcat(a: string, b: string, c: string)
    ensures IsBlank(a + b + c) <==> IsBlank(a) && IsBlank(b) && IsBlank(c)
  {
    var s := a + b + c;
    if IsBlank(s) {
      forall i | 0 <= i < |a| ensures IsWhitespace(a[i]) { assert s[i] == a[i]; }
      forall i | 0 <= i < |b| ensures IsWhitespace(b[i]) { assert s[|a| + i] == b[i]; }
      forall i | 0 <= i < |c| ensures IsWhitespace(c[i]) { assert s[|a| + |b| + i] == c[i]; }
    }
  }

  /** Collecting keeps a text blank exactly when it was blank: terminators
      are whitespace, and only terminators are added or dropped. */
  lemma {:induction false} TerminatedBlank(s: string)
    ensures IsBlank(Terminated(ReadLines(s))) <==> IsBlank(s)
    decreases |s|
  {
    var k := LineEnd(s);
    if s == [] {
      assert ReadLines(s) == [];
    } else if k == |s| {
      assert ReadLines(s) == [s];
      assert Terminated([s]) == s + "\n" + "";
      BlankConcat(s, "\n", "");
    } else {
      var line := s[..k];
      var skip := TerminatorLength(s, k);
      var rest := s[k + skip..];
      var term := s[k..k + skip];
      TerminatorBlank(s);
      SplitThree(s, k, k + skip);
      TerminatedBlank(rest);
      ReadLinesStep(s);
      TerminatedCons(line, ReadLines(rest));
      BlankConcat(line, "\n", Terminated(ReadLines(rest)));
      BlankConcat(line, term, rest);
    }
  }

  /** `StreamCollector`: reads its stream line by line into a buffer. */
  class StreamCollector {
    var sb: string

    constructor ()
      ensures sb == ""
    {
      sb := "";
    }

    /** `run()`, with the stream given as its whole text. */
    method Run(input: string)
      modifies this
      ensures sb == old(sb) + Terminated(ReadLines(input))
    {
      var lines := ReadLines(input);
      for i := 0 to |lines|
        invariant sb == old(sb) + Terminated(lines[..i])
      {
        TerminatedSnoc(lines[..i], lines[i]);
        assert lines[..i + 1] == lines[..i] + [lines[i]];
        sb := sb + lines[i] + "\n";
      }
      assert lines[..|lines|] == lines;
    }

    /** `result()` */
    function Output(): string
      reads this
    {
      sb
    }
  }

  /** The decision `execJson` takes once the process has exited: for exit
      code 0 the collected stdout goes to the JSON parser (`Ok`); otherwise
      the call throws with the trimmed stderr, or "exit code N" when stderr
      is blank. The streams are given as their whole texts. */
  method ExecJson(exitCode: int, stdoutText: string, stderrText: string)
    returns (r: Result<string, string>)
    ensures r.Ok? <==> exitCode == 0
    ensures r.Ok? ==> r.value == Terminated(ReadLines(stdoutText))
    ensures r.Err? ==> !IsBlank(r.error)
    ensures r.Err? && !IsBlank(stderrText) ==> r.error == Trim(Terminated(ReadLines(stderrText)))
    ensures r.Err? && IsBlank(stderrText) ==> r.error == "exit code " + IntToString(exitCode)
  {
    var outCollector := new StreamCollector();
    var errCollector := new StreamCollector();
    outCollector.Run(stdoutText);
    errCollector.Run(stderrText);
    var stderr := errCollector.Output();
    var stdout := outCollector.Output();
    assert stderr == Terminated(ReadLines(stderrText));
    TerminatedBlank(stderrText);
    if exitCode == 0 {
      r := Ok(stdout);
    } else if !IsBlank(stderr) {
      var msg := Trim(stderr);
      assert !IsWhitespace(msg[0]);
      r := Err(msg);
    } else {
      var msg := "exit code " + IntToString(exitCode);
      assert !IsWhitespace(msg[0]);
      r := Err(msg);
    }
  }

  /** A failed call's message is stderr itself, trimmed, when the helper wrote
      plain '\n'-terminated lines. */
  lemma ExecErrorPlainStderr(stderrText: string)
    requires '\r' !in stderrText
    requires stderrText != [] && stderrText[|stderrText| - 1] == '\n'
    ensures Trim(Terminated(ReadLines(stderrText))) == Trim(stderrText)
  {
    TerminatedPlainText(stderrText);
  }

  /** `isBoltDB`: true exactly when `getMeta` does not throw, that is when
      the meta call's process exits with 0 and its collected stdout parses as
      JSON. `args` is the argv sent; the exit code and the streams are what
      running it gave back, and `parses` stands for the JSON parser, which is
      not modelled. */
  method IsBoltDB(dbPath: string, exitCode: int, stdoutText: string, stderrText: string, parses: string -> bool)
    returns (args: seq<string>, b: bool)
    ensures Encodes(args, "meta", [Flag("--db", dbPath)])
    ensures b <==> exitCode == 0 && parses(Terminated(ReadLines(stdoutText)))
    ensures '\r' !in stdoutText && (stdoutText == [] || stdoutText[|stdoutText| - 1] == '\n') ==>
      (b <==> exitCode == 0 && parses(stdoutText))
  {
    args := MetaArgs(dbPath);
    var meta := ExecJson(exitCode, stdoutText, stderrText);
    b := meta.Ok? && parses(meta.value);
    if '\r' !in stdoutText && (stdoutText == [] || stdoutText[|stdoutText| - 1] == '\n') {
      TerminatedPlainText(stdoutText);
    }
  }
}
