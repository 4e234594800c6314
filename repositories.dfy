/**
 * `getTargetRepositories` of src/lib/repositories.ts: the value of the
 * TARGET_REPOSITORIES variable is split on ',', each piece is trimmed and split
 * on '/', the first two segments are the owner and the name, and a piece whose
 * owner or name is empty or missing is dropped. The environment is a parameter.
 */
module Repositories {
  import opened Wrappers
  import opened JsString

  datatype Repository = Repository(owner: string, name: string)

  /** `const [owner, name] = repo.trim().split('/')`, kept when both are non-empty. */
  function ParsePiece(piece: string): (r: Option<Repository>)
    ensures r.Some? ==> r.value.owner != "" && r.value.name != ""
    ensures r.Some? ==> '/' !in r.value.owner && '/' !in r.value.name
  {
    var segments := Split(Trim(piece), '/');
    if |segments| >= 2 && segments[0] != "" && segments[1] != "" then
      Some(Repository(segments[0], segments[1]))
    else None
  }

  /** The `map` and `filter` over the comma pieces, in order. */
  function ParsePieces(pieces: seq<string>): (r: seq<Repository>)
    ensures |r| <= |pieces|
    decreases |pieces|
  {
    if pieces == [] then []
    else
      (match ParsePiece(pieces[0]) case Some(repo) => [repo] case None => []) + ParsePieces(pieces[1..])
  }

  function ParseRepositories(raw: string): seq<Repository> {
    ParsePieces(Split(raw, ','))
  }

  /** `process.env.TARGET_REPOSITORIES || ''`: an unset or empty variable gives "". */
  function GetTargetRepositories(env: Option<string>): seq<Repository> {
    ParseRepositories(if env.Some? then env.value else "")
  }

  // ---------------------------------------------------------------------------
  // Properties

  lemma EmptyInput()
    ensures GetTargetRepositories(None) == []
    ensures GetTargetRepositories(Some("")) == []
  {
    assert Split("", ',') == [""];
    assert Trim("") == "";
  }

  /** Every repository comes from one comma piece; there are never more than pieces. */
  lemma AtMostOnePerPiece(raw: string)
    ensures |ParseRepositories(raw)| <= |Split(raw, ',')|
    ensures forall r :: r in ParseRepositories(raw) ==>
      r.owner != "" && r.name != "" && '/' !in r.owner && '/' !in r.name && ',' !in r.owner + r.name
  {
    ParsedFromPieces(Split(raw, ','));
  }

  lemma {:induction false} ParsedFromPieces(pieces: seq<string>)
    requires forall i :: 0 <= i < |pieces| ==> ',' !in pieces[i]
    ensures forall r :: r in ParsePieces(pieces) ==>
      r.owner != "" && r.name != "" && '/' !in r.owner && '/' !in r.name && ',' !in r.owner + r.name
    decreases |pieces|
  {
    if pieces != [] {
      ParsedFromPieces(pieces[1..]);
      var p := pieces[0];
      if ParsePiece(p).Some? {
        var segments := Split(Trim(p), '/');
        TrimIsSlice(p);
        JoinSplit(Trim(p), '/');
        SegmentsOf(segments, Trim(p));
      }
    }
  }

  /** What is not in a string is in none of its first two '/'-segments. */
  lemma SegmentsOf(segments: seq<string>, s: string)
    requires |segments| >= 2 && Join(segments, "/") == s
    ensures forall c :: c in segments[0] + segments[1] ==> c in s
  {
    if |segments| == 2 {
      assert s == segments[0] + "/" + segments[1];
    } else {
      assert s == segments[0] + "/" + (segments[1] + "/" + Join(segments[2..], "/"));
    }
  }

  /** The result follows the input order: pieces parse independently. */
  lemma {:induction false} ParsePiecesAppend(a: seq<string>, b: seq<string>)
    ensures ParsePieces(a + b) == ParsePieces(a) + ParsePieces(b)
    decreases |a|
  {
    if a == [] {
      assert a + b == b;
    } else {
      assert (a + b)[0] == a[0] && (a + b)[1..] == a[1..] + b;
      ParsePiecesAppend(a[1..], b);
    }
  }

  lemma ParseConcat(a: string, b: string)
    ensures ParseRepositories(a + "," + b) == ParseRepositories(a) + ParseRepositories(b)
  {
    SplitAppend(a, b, ',');
    ParsePiecesAppend(Split(a, ','), Split(b, ','));
  }

  /** A piece `owner/name/...`: the third and later segments are ignored. */
  lemma OwnerAndNameFirst(piece: string, owner: string, name: string, rest: string)
    requires owner != "" && name != "" && '/' !in owner && '/' !in name
    requires Trim(piece) == owner + "/" + name + rest
    requires rest == [] || rest[0] == '/'
    ensures ParsePiece(piece) == Some(Repository(owner, name))
  {
    SplitNoSeparator(owner, '/');
    SplitNoSeparator(name, '/');
    if rest == [] {
      SplitAppend(owner, name, '/');
      assert owner + "/" + name + rest == owner + [ '/' ] + name;
    } else {
      SplitAppend(name, rest[1..], '/');
      assert name + rest == name + ['/'] + rest[1..];
      SplitAppend(owner, name + rest, '/');
      assert owner + "/" + name + rest == owner + ['/'] + (name + rest);
    }
  }

  /** A piece without '/' has no name and is dropped. */
  lemma NoSlashDropped(piece: string)
    requires '/' !in Trim(piece)
    ensures ParsePiece(piece) == None
  {
    SplitNoSeparator(Trim(piece), '/');
  }

  /** A piece that starts with '/' has an empty owner and is dropped. */
  lemma EmptyOwnerDropped(piece: string, rest: string)
    requires Trim(piece) == "/" + rest
    ensures ParsePiece(piece) == None
  {
    SplitAppend([], rest, '/');
    assert [] + ['/'] + rest == "/" + rest;
  }

  /** A piece with nothing between its first '/' and the next one or the end is dropped. */
  lemma EmptyNameDropped(piece: string, owner: string, rest: string)
    requires '/' !in owner
    requires Trim(piece) == owner + "/" + rest
    requires rest == [] || rest[0] == '/'
    ensures ParsePiece(piece) == None
  {
    SplitNoSeparator(owner, '/');
    SplitAppend(owner, rest, '/');
    assert Split([], '/') == [""];
    if rest != [] {
      SplitAppend([], rest[1..], '/');
      assert rest == [] + ['/'] + rest[1..];
    }
  }

  lemma ExtraSegmentsIgnored()
    ensures ParsePiece("a/b/c") == Some(Repository("a", "b"))
  {
    TrimNoOp("a/b/c");
    assert "a/b/c" == "a" + "/" + "b" + "/c";
    OwnerAndNameFirst("a/b/c", "a", "b", "/c");
  }

  /** Only the whole piece is trimmed: the spaces around '/' stay in owner and name. */
  lemma InnerSpacesKept()
    ensures ParsePiece("a / b") == Some(Repository("a ", " b"))
  {
    TrimNoOp("a / b");
    assert "a / b" == "a " + "/" + " b" + "";
    OwnerAndNameFirst("a / b", "a ", " b", "");
  }

  lemma OwnerOnlyDropped()
    ensures ParsePiece("a") == None
  {
    TrimNoOp("a");
    NoSlashDropped("a");
  }

  lemma SlashFirstDropped()
    ensures ParsePiece("/b") == None
  {
    TrimNoOp("/b");
    assert "/b" == "/" + "b";
    EmptyOwnerDropped("/b", "b");
  }

  lemma SlashLastDropped()
    ensures ParsePiece("a/") == None
  {
    TrimNoOp("a/");
    assert "a/" == "a" + "/" + "";
    EmptyNameDropped("a/", "a", "");
  }

  lemma EmptyPieceDropped()
    ensures ParsePiece("") == None
  {
    assert Trim("") == "";
    NoSlashDropped("");
  }

  // ---------------------------------------------------------------------------
  // Round trip with the documented format

  /** The `owner/name,owner/name` form of a list. */
  function Format(repos: seq<Repository>): string {
    Join(FormatPieces(repos), ",")
  }

  function FormatPieces(repos: seq<Repository>): (r: seq<string>)
    ensures |r| == |repos|
    ensures forall i :: 0 <= i < |r| ==> r[i] == repos[i].owner + "/" + repos[i].name
  {
    seq(|repos|, i requires 0 <= i < |repos| => repos[i].owner + "/" + repos[i].name)
  }

  /** A repository that survives being written as `owner/name` and read back. */
  predicate Listable(r: Repository) {
    && r.owner != "" && r.name != ""
    && '/' !in r.owner && '/' !in r.name && ',' !in r.owner && ',' !in r.name
    && !IsSpace(r.owner[0]) && !IsSpace(r.name[|r.name| - 1])
  }

  lemma ListableParses(r: Repository)
    requires Listable(r)
    ensures ParsePiece(r.owner + "/" + r.name) == Some(r)
  {
    var p := r.owner + "/" + r.name;
    assert p[0] == r.owner[0] && p[|p| - 1] == r.name[|r.name| - 1];
    TrimNoOp(p);
    assert p == r.owner + "/" + r.name + [];
    OwnerAndNameFirst(p, r.owner, r.name, []);
  }

  lemma {:induction false} ParseFormattedPieces(repos: seq<Repository>)
    requires forall i :: 0 <= i < |repos| ==> Listable(repos[i])
    ensures ParsePieces(FormatPieces(repos)) == repos
    decreases |repos|
  {
    if repos != [] {
      ListableParses(repos[0]);
      ParseFormattedPieces(repos[1..]);
      assert FormatPieces(repos)[1..] == FormatPieces(repos[1..]);
    }
  }

  /** Parsing the formatted list gives the list back. */
  lemma FormatRoundTrip(repos: seq<Repository>)
    requires |repos| >= 1
    requires forall i :: 0 <= i < |repos| ==> Listable(repos[i])
    ensures ParseRepositories(Format(repos)) == repos
  {
    var pieces := FormatPieces(repos);
    forall i | 0 <= i < |pieces|
      ensures ',' !in pieces[i]
    {
      assert pieces[i] == repos[i].owner + "/" + repos[i].name;
    }
    SplitJoin(pieces, ',');
    ParseFormattedPieces(repos);
  }
}
