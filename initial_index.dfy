/**
 * `indexRepository` of scripts/initial-index.ts: the repository row is upserted,
 * every blob of the repository tree is fetched, chunked, preprocessed chunk by
 * chunk, embedded and upserted under a path that numbers the parts, and every
 * issue with a body of at least 50 characters is embedded and upserted.
 *
 * The database is the `Database` class: one map per table, keyed as the Prisma
 * upserts are (`id` for repositories, `(repoId, path)` for documents). What the
 * script fetches (repository data, tree, file contents, issues) and what the
 * embedder returns are parameters; the one-second pauses are counted.
 */
module InitialIndex {
  import opened Wrappers
  import opened JsString
  import opened Preprocessor
  import opened Chunker
  import opened Search
  import opened GithubFetch

  // ---------------------------------------------------------------------------
  // The classifier of line 58, as written

  /** `/\\.(js|ts|py|java|go|rb|php|cs|cpp|h)$/i`: the extension at the end of the
      path, preceded by one character other than a line terminator, preceded by a
      backslash. */
  predicate IsCodePathAsWritten(path: string) {
    exists i :: 0 <= i < |CodeExtensions| && BackslashExtension(ToLower(path), CodeExtensions[i])
  }

  predicate BackslashExtension(l: string, ext: string) {
    && |ext| + 2 <= |l|
    && l[|l| - |ext| - 2] == '\\'
    && !IsLineTerminator(l[|l| - |ext| - 1])
    && EndsWith(l, ext)
  }

  // ---------------------------------------------------------------------------
  // The tables

  /** `repoData.id` and `repoData.license?.spdx_id`. */
  datatype RepoInfo = RepoInfo(id: nat, license: Option<string>)

  /** A row of the repository table; `lastIndexed` is a timestamp. */
  datatype RepositoryRecord =
    RepositoryRecord(id: string, name: string, owner: string, license: Option<string>, lastIndexed: Option<nat>)

  type Embedding = seq<real>

  datatype DocumentKey = DocumentKey(repoId: string, path: string)

  /** A row of the document table. */
  datatype DocumentRecord = DocumentRecord(
    repoId: string, kind: ContentType, content: string, embedding: Embedding, path: string, license: Option<string>)

  /** The argument of `upsertToVectorStore`. */
  datatype VectorStoreInput = VectorStoreInput(
    repoId: string, kind: ContentType, content: string, embedding: Embedding, path: string, license: Option<string>)

  /** The repository upsert: a new row gets id, name, owner and license; an existing
      row gets only a new `lastIndexed`. */
  function RepositoryUpsert(existing: Option<RepositoryRecord>, id: string, name: string, owner: string,
                            license: Option<string>, now: nat): RepositoryRecord
  {
    if existing.Some? then existing.value.(lastIndexed := Some(now))
    else RepositoryRecord(id, name, owner, license, None)
  }

  function KeyOf(input: VectorStoreInput): DocumentKey {
    DocumentKey(input.repoId, input.path)
  }

  /** The document upsert: a new row gets every field; an existing row gets the new
      content and embedding, and the new license unless it is `undefined`. */
  function DocumentUpsert(existing: Option<DocumentRecord>, input: VectorStoreInput): DocumentRecord {
    if existing.Some? then
      existing.value.(content := input.content, embedding := input.embedding,
                      license := if input.license.Some? then input.license else existing.value.license)
    else DocumentRecord(input.repoId, input.kind, input.content, input.embedding, input.path, input.license)
  }

  function PutDocument(docs: map<DocumentKey, DocumentRecord>, input: VectorStoreInput): map<DocumentKey, DocumentRecord> {
    var k := KeyOf(input);
    docs[k := DocumentUpsert(if k in docs then Some(docs[k]) else None, input)]
  }

  // ---------------------------------------------------------------------------
  // What the script is given

  /** An entry of `tree.tree`: its `type` and its `path`, which may be missing. */
  datatype TreeItem = TreeItem(kind: string, path: Option<string>)

  /** What `getContent` gives for a path: the decoded file, no file content, or an error. */
  datatype Fetched = FileContent(raw: string) | NotAFile | FetchError(error: string)

  type Fetcher = string -> Fetched

  type Embedder = string -> Result<Embedding, string>

  /** What every upsert of one run shares: the repository id and license, and the services. */
  datatype Scope = Scope(repoId: string, license: Option<string>, fetch: Fetcher, embed: Embedder)

  /** The state the loops carry: the document table, the pauses taken and the paths logged as failed. */
  datatype Progress = Progress(docs: map<DocumentKey, DocumentRecord>, pauses: nat, errors: seq<string>)

  // ---------------------------------------------------------------------------
  // One file

  /** The path of a tree item that passes the two gates: a blob with a non-empty path. */
  function ItemPath(item: TreeItem): Option<string> {
    if item.kind == "blob" && item.path.Some? && item.path.value != "" then item.path else None
  }

  /** The chunker terminates on the item's content (otherwise the script never finishes). */
  predicate Chunkable(item: TreeItem, fetch: Fetcher) {
    ItemPath(item).Some? && fetch(ItemPath(item).value).FileContent? ==>
      Chunks(fetch(ItemPath(item).value).raw, 0).Some?
  }

  /** ` (part k)` after the path when the file has more than one chunk. */
  function PartLabel(path: string, k: nat, n: nat): string {
    path + (if n > 1 then " (part " + NatToString(k + 1) + ")" else "")
  }

  function Prepare(isCode: bool, chunk: string): string {
    if isCode then PreprocessCode(chunk) else PreprocessDocument(chunk)
  }

  function KindOf(isCode: bool): ContentType {
    if isCode then Code else Document
  }

  /** The chunks of a file, each preprocessed on its own. */
  function PreparedChunks(isCode: bool, chunks: seq<string>): (r: seq<string>)
    ensures |r| == |chunks|
    ensures forall k :: 0 <= k < |chunks| ==> r[k] == Prepare(isCode, chunks[k])
  {
    seq(|chunks|, k requires 0 <= k < |chunks| => Prepare(isCode, chunks[k]))
  }

  /** The upsert of part `k` of a file: its preprocessed chunk `contents[k]` with that text's embedding. */
  function PartInput(sc: Scope, path: string, kind: ContentType, contents: seq<string>, k: nat, e: Embedding): VectorStoreInput
    requires k < |contents|
  {
    VectorStoreInput(sc.repoId, kind, contents[k], e, PartLabel(path, k, |contents|), sc.license)
  }

  datatype ChunksDone = ChunksDone(docs: map<DocumentKey, DocumentRecord>, error: Option<string>)

  /** The chunk loop over the first `m` preprocessed chunks: it stops at the first failed embedding. */
  function UpsertChunks(docs: map<DocumentKey, DocumentRecord>, sc: Scope, path: string, kind: ContentType,
                        contents: seq<string>, m: nat): ChunksDone
    requires m <= |contents|
    decreases m
  {
    if m == 0 then ChunksDone(docs, None)
    else
      var prev := UpsertChunks(docs, sc, path, kind, contents, m - 1);
      if prev.error.Some? then prev
      else match sc.embed(contents[m - 1])
        case Failure(e) => ChunksDone(prev.docs, Some(e))
        case Success(v) => ChunksDone(PutDocument(prev.docs, PartInput(sc, path, kind, contents, m - 1, v)), None)
  }

  /** One pass of the tree loop, lines 43-88. */
  function FileStep(p: Progress, item: TreeItem, sc: Scope): Progress
    requires Chunkable(item, sc.fetch)
  {
    match ItemPath(item)
    case None => p
    case Some(path) =>
      match sc.fetch(path)
      case NotAFile => p
      case FetchError(_) => p.(errors := p.errors + [path])
      case FileContent(raw) =>
        var isCode := IsCodePathAsWritten(path);
        var contents := PreparedChunks(isCode, Chunks(raw, 0).value);
        var done := UpsertChunks(p.docs, sc, path, KindOf(isCode), contents, |contents|);
        if done.error.Some? then Progress(done.docs, p.pauses, p.errors + [path])
        else Progress(done.docs, p.pauses + 1, p.errors)
  }

  function RunFiles(p: Progress, items: seq<TreeItem>, sc: Scope): Progress
    requires forall i :: 0 <= i < |items| ==> Chunkable(items[i], sc.fetch)
    decreases |items|
  {
    if items == [] then p else RunFiles(FileStep(p, items[0], sc), items[1..], sc)
  }

  // ---------------------------------------------------------------------------
  // Issues

  /** `!issue.body || issue.body.length < 50`, negated. */
  predicate IssueGate(issue: Item) {
    issue.body.Some? && |issue.body.value| >= 50
  }

  datatype IssuesDone = IssuesDone(progress: Progress, error: Option<string>)

  /** One pass of the issue loop, lines 101-117; a failed embedding ends the run. */
  function IssueStep(p: Progress, issue: Item, sc: Scope): IssuesDone {
    if !IssueGate(issue) then IssuesDone(p, None)
    else
      var content := PreprocessDocument(issue.body.value);
      match sc.embed(content)
      case Failure(e) => IssuesDone(p, Some(e))
      case Success(v) =>
        IssuesDone(p.(docs := PutDocument(p.docs, IssueInput(sc, issue, v)), pauses := p.pauses + 1), None)
  }

  /** The upsert of an admitted issue: a document under `Issue #<n>: <title>`. */
  function IssueInput(sc: Scope, issue: Item, e: Embedding): VectorStoreInput
    requires issue.body.Some?
  {
    VectorStoreInput(sc.repoId, Document, PreprocessDocument(issue.body.value), e,
                     ItemLabel("Issue", issue.number, issue.title), sc.license)
  }

  function RunIssues(p: Progress, issues: seq<Item>, sc: Scope): IssuesDone
    decreases |issues|
  {
    if issues == [] then IssuesDone(p, None)
    else
      var r := IssueStep(p, issues[0], sc);
      if r.error.Some? then r else RunIssues(r.progress, issues[1..], sc)
  }

  // ---------------------------------------------------------------------------
  // The run

  predicate TreeChunkable(tree: Result<seq<TreeItem>, string>, fetch: Fetcher) {
    tree.Success? ==> forall i :: 0 <= i < |tree.value| ==> Chunkable(tree.value[i], fetch)
  }

  datatype Report = Report(
    repositories: map<string, RepositoryRecord>, documents: map<DocumentKey, DocumentRecord>,
    outcome: Outcome<string>, pauses: nat, errors: seq<string>)

  /** `indexRepository(owner, repo)`: every fetch that fails outside the file loop is rethrown. */
  function IndexRun(repos: map<string, RepositoryRecord>, docs: map<DocumentKey, DocumentRecord>,
                    owner: string, repo: string, repoData: Result<RepoInfo, string>,
                    tree: Result<seq<TreeItem>, string>, issues: Result<seq<Item>, string>,
                    now: nat, fetch: Fetcher, embed: Embedder): Report
    requires TreeChunkable(tree, fetch)
  {
    if repoData.Failure? then Report(repos, docs, Fail(repoData.error), 0, [])
    else
      var info := repoData.value;
      var id := NatToString(info.id);
      var repos' := repos[id := RepositoryUpsert(if id in repos then Some(repos[id]) else None, id, repo, owner, info.license, now)];
      var sc := Scope(id, info.license, fetch, embed);
      if tree.Failure? then Report(repos', docs, Fail(tree.error), 0, [])
      else
        var files := RunFiles(Progress(docs, 0, []), tree.value, sc);
        if issues.Failure? then Report(repos', files.docs, Fail(issues.error), files.pauses, files.errors)
        else
          var done := RunIssues(files, issues.value, sc);
          Report(repos', done.progress.docs, if done.error.Some? then Fail(done.error.value) else Pass,
                 done.progress.pauses, done.progress.errors)
  }

  // ---------------------------------------------------------------------------
  // The script

  /** The two tables the script writes. */
  class Database {
    var repositories: map<string, RepositoryRecord>
    var documents: map<DocumentKey, DocumentRecord>

    /** Each repository row is stored under its own id. */
    ghost predicate Valid()
      reads this
    {
      forall k :: k in repositories ==> repositories[k].id == k
    }

    constructor()
      ensures Valid() && repositories == map[] && documents == map[]
    {
      repositories := map[];
      documents := map[];
    }

    /** `prisma.repository.upsert`, returning the stored row. */
    method UpsertRepository(id: string, name: string, owner: string, license: Option<string>, now: nat)
      returns (rec: RepositoryRecord)
      requires Valid()
      modifies this
      ensures Valid()
      ensures rec == RepositoryUpsert(if id in old(repositories) then Some(old(repositories)[id]) else None,
                                      id, name, owner, license, now)
      ensures rec.id == id
      ensures repositories == old(repositories)[id := rec] && documents == old(documents)
    {
      if id in repositories {
        rec := repositories[id].(lastIndexed := Some(now));
      } else {
        rec := RepositoryRecord(id, name, owner, license, None);
      }
      repositories := repositories[id := rec];
    }

    /** `upsertToVectorStore`. */
    method UpsertDocument(input: VectorStoreInput)
      modifies this
      ensures documents == PutDocument(old(documents), input) && repositories == old(repositories)
    {
      var k := KeyOf(input);
      if k in documents {
        var d := documents[k];
        var license := if input.license.Some? then input.license else d.license;
        documents := documents[k := d.(content := input.content, embedding := input.embedding, license := license)];
      } else {
        documents := documents[k := DocumentRecord(input.repoId, input.kind, input.content, input.embedding,
                                                   input.path, input.license)];
      }
    }

    /** The loop over `chunks.entries()`, lines 64-81; an embedding failure leaves it. */
    method IndexChunks(sc: Scope, path: string, isCode: bool, chunks: seq<string>) returns (error: Option<string>)
      modifies this
      ensures ChunksDone(documents, error) ==
        UpsertChunks(old(documents), sc, path, KindOf(isCode), PreparedChunks(isCode, chunks), |chunks|)
      ensures repositories == old(repositories)
    {
      ghost var docs0 := documents;
      ghost var contents := PreparedChunks(isCode, chunks);
      var kind := KindOf(isCode);
      error := None;
      var k := 0;
      while k < |chunks|
        invariant k <= |chunks|
        invariant repositories == old(repositories)
        invariant error == None
        invariant ChunksDone(documents, None) == UpsertChunks(docs0, sc, path, kind, contents, k)
        decreases |chunks| - k
      {
        var preprocessed := Prepare(isCode, chunks[k]);
        var embedding := sc.embed(preprocessed);
        IndexChunkStep(docs0, sc, path, isCode, chunks, k, documents);
        if embedding.Failure? {
          error := Some(embedding.error);
          return;
        }
        UpsertDocument(VectorStoreInput(sc.repoId, kind, preprocessed, embedding.value,
                                        PartLabel(path, k, |chunks|), sc.license));
        k := k + 1;
      }
    }

    /** The tree loop, lines 42-89. */
    method IndexFiles(items: seq<TreeItem>, sc: Scope) returns (pauses: nat, errors: seq<string>)
      requires forall i :: 0 <= i < |items| ==> Chunkable(items[i], sc.fetch)
      modifies this
      ensures Progress(documents, pauses, errors) == RunFiles(Progress(old(documents), 0, []), items, sc)
      ensures repositories == old(repositories)
    {
      ghost var p0 := Progress(documents, 0, []);
      pauses, errors := 0, [];
      for i := 0 to |items|
        invariant repositories == old(repositories)
        invariant RunFiles(Progress(documents, pauses, errors), items[i..], sc) == RunFiles(p0, items, sc)
      {
        ghost var p := Progress(documents, pauses, errors);
        assert items[i..][1..] == items[i + 1..];
        assert RunFiles(p, items[i..], sc) == RunFiles(FileStep(p, items[i], sc), items[i + 1..], sc);
        var item := items[i];
        if item.kind != "blob" {
          continue;
        }
        if item.path.None? || item.path.value == "" {
          continue;
        }
        var path := item.path.value;
        var content := sc.fetch(path);
        if content.FetchError? {
          errors := errors + [path];
          continue;
        }
        if content.NotAFile? {
          continue;
        }
        var isCode := IsCodePathAsWritten(path);
        var chunks := SplitIntoChunks(content.raw);
        var error := IndexChunks(sc, path, isCode, chunks);
        FileStepContent(p, item, sc, path, content.raw);
        if error.Some? {
          errors := errors + [path];
          continue;
        }
        pauses := pauses + 1;
      }
    }

    /** The issue loop, lines 100-118; a failed embedding is returned as the error. */
    method IndexIssues(issues: seq<Item>, sc: Scope, pauses0: nat, errors: seq<string>)
      returns (pauses: nat, error: Option<string>)
      modifies this
      ensures IssuesDone(Progress(documents, pauses, errors), error) ==
        RunIssues(Progress(old(documents), pauses0, errors), issues, sc)
      ensures repositories == old(repositories)
    {
      ghost var p0 := Progress(documents, pauses0, errors);
      pauses := pauses0;
      for i := 0 to |issues|
        invariant repositories == old(repositories)
        invariant RunIssues(Progress(documents, pauses, errors), issues[i..], sc) == RunIssues(p0, issues, sc)
      {
        var issue := issues[i];
        IssueNext(Progress(documents, pauses, errors), issues, i, sc);
        if issue.body.None? || |issue.body.value| < 50 {
          continue;
        }
        var preprocessed := PreprocessDocument(issue.body.value);
        var embedding := sc.embed(preprocessed);
        if embedding.Failure? {
          return pauses, Some(embedding.error);
        }
        UpsertDocument(IssueInput(sc, issue, embedding.value));
        pauses := pauses + 1;
      }
      assert issues[|issues|..] == [];
      error := None;
    }

    /** `indexRepository`: the outcome, the pauses taken, and the paths logged as failed. */
    method IndexRepository(owner: string, repo: string, repoData: Result<RepoInfo, string>,
                           tree: Result<seq<TreeItem>, string>, issues: Result<seq<Item>, string>,
                           now: nat, fetch: Fetcher, embed: Embedder)
      returns (outcome: Outcome<string>, pauses: nat, errors: seq<string>)
      requires Valid()
      requires TreeChunkable(tree, fetch)
      modifies this
      ensures Valid()
      ensures Report(repositories, documents, outcome, pauses, errors) ==
        IndexRun(old(repositories), old(documents), owner, repo, repoData, tree, issues, now, fetch, embed)
    {
      if repoData.Failure? {
        return Fail(repoData.error), 0, [];
      }
      var info := repoData.value;
      var repository := UpsertRepository(NatToString(info.id), repo, owner, info.license, now);
      if tree.Failure? {
        return Fail(tree.error), 0, [];
      }
      var sc := Scope(repository.id, info.license, fetch, embed);
      pauses, errors := IndexFiles(tree.value, sc);
      if issues.Failure? {
        return Fail(issues.error), pauses, errors;
      }
      var error;
      pauses, error := IndexIssues(issues.value, sc, pauses, errors);
      outcome := if error.Some? then Fail(error.value) else Pass;
    }
  }

  /** One more issue of the loop, from the state `p` reached before it. */
  lemma IssueNext(p: Progress, issues: seq<Item>, i: nat, sc: Scope)
    requires i < |issues|
    ensures var step := IssueStep(p, issues[i], sc);
      RunIssues(p, issues[i..], sc) == if step.error.Some? then step else RunIssues(step.progress, issues[i + 1..], sc)
  {
    var rest := issues[i..];
    assert rest[0] == issues[i] && rest[1..] == issues[i + 1..];
  }

  /** One pass of the chunk loop, lines 65-80, as the method writes it. */
  lemma IndexChunkStep(docs0: map<DocumentKey, DocumentRecord>, sc: Scope, path: string, isCode: bool,
                       chunks: seq<string>, k: nat, docs: map<DocumentKey, DocumentRecord>)
    requires k < |chunks|
    requires UpsertChunks(docs0, sc, path, KindOf(isCode), PreparedChunks(isCode, chunks), k) == ChunksDone(docs, None)
    ensures var e := sc.embed(Prepare(isCode, chunks[k]));
      var contents := PreparedChunks(isCode, chunks);
      && (e.Failure? ==> UpsertChunks(docs0, sc, path, KindOf(isCode), contents, |chunks|) == ChunksDone(docs, Some(e.error)))
      && (e.Success? ==>
            UpsertChunks(docs0, sc, path, KindOf(isCode), contents, k + 1) ==
            ChunksDone(PutDocument(docs, VectorStoreInput(sc.repoId, KindOf(isCode), Prepare(isCode, chunks[k]), e.value,
                                                          PartLabel(path, k, |chunks|), sc.license)), None))
  {
    var contents := PreparedChunks(isCode, chunks);
    assert contents[k] == Prepare(isCode, chunks[k]);
    UpsertChunksNext(docs0, sc, path, KindOf(isCode), contents, k, docs);
    if sc.embed(contents[k]).Failure? {
      UpsertChunksStops(docs0, sc, path, KindOf(isCode), contents, k + 1, |chunks|);
    }
  }

  // ---------------------------------------------------------------------------
  // Properties of the chunk loop

  /** One more chunk: a failed embedding ends the loop, a successful one upserts the part. */
  lemma UpsertChunksNext(docs0: map<DocumentKey, DocumentRecord>, sc: Scope, path: string, kind: ContentType,
                         contents: seq<string>, k: nat, docs: map<DocumentKey, DocumentRecord>)
    requires k < |contents|
    requires UpsertChunks(docs0, sc, path, kind, contents, k) == ChunksDone(docs, None)
    ensures var e := sc.embed(contents[k]);
      UpsertChunks(docs0, sc, path, kind, contents, k + 1) ==
        if e.Failure? then ChunksDone(docs, Some(e.error))
        else ChunksDone(PutDocument(docs, PartInput(sc, path, kind, contents, k, e.value)), None)
  {
  }

  /** Once an embedding has failed, later chunks change nothing. */
  lemma {:induction false} UpsertChunksStops(docs: map<DocumentKey, DocumentRecord>, sc: Scope, path: string,
                                             kind: ContentType, contents: seq<string>, k: nat, m: nat)
    requires k <= m <= |contents|
    requires UpsertChunks(docs, sc, path, kind, contents, k).error.Some?
    ensures UpsertChunks(docs, sc, path, kind, contents, m) == UpsertChunks(docs, sc, path, kind, contents, k)
    decreases m - k
  {
    if k < m {
      UpsertChunksStops(docs, sc, path, kind, contents, k, m - 1);
    }
  }

  /** Part `k` of the file is in `docs` with the text `contents[k]` and that text's embedding. */
  predicate PartStored(docs: map<DocumentKey, DocumentRecord>, sc: Scope, path: string,
                       contents: seq<string>, k: nat)
    requires k < |contents|
  {
    var key := DocumentKey(sc.repoId, PartLabel(path, k, |contents|));
    key in docs && docs[key].content == contents[k] && sc.embed(contents[k]) == Success(docs[key].embedding)
  }

  /** A file with one chunk keeps its bare path. */
  lemma SinglePartKeepsPath(path: string)
    ensures PartLabel(path, 0, 1) == path
  {
  }

  /** The parts of one file have pairwise different labels. */
  lemma PartLabelsDistinct(path: string, n: nat, j: nat, k: nat)
    requires j < n && k < n && j != k
    ensures PartLabel(path, j, n) != PartLabel(path, k, n)
  {
    var a := " (part " + NatToString(j + 1) + ")";
    var b := " (part " + NatToString(k + 1) + ")";
    assert PartLabel(path, j, n) == path + a && PartLabel(path, k, n) == path + b;
    if path + a == path + b {
      assert a == (path + a)[|path|..] == (path + b)[|path|..] == b;
      assert NatToString(j + 1) == a[7..|a| - 1] == b[7..|b| - 1] == NatToString(k + 1);
      NatToStringInjective(j + 1, k + 1);
    }
  }

  /** The upsert writes exactly the row under the input's key. */
  lemma PutDocumentOthers(docs: map<DocumentKey, DocumentRecord>, input: VectorStoreInput, key: DocumentKey)
    ensures KeyOf(input) in PutDocument(docs, input)
    ensures key != KeyOf(input) ==>
      (key in PutDocument(docs, input) <==> key in docs) && (key in docs ==> PutDocument(docs, input)[key] == docs[key])
  {
  }

  /** Upserting part `m` keeps every part stored under another label. */
  lemma PartStoredAfterPut(docs: map<DocumentKey, DocumentRecord>, sc: Scope, path: string, kind: ContentType,
                           contents: seq<string>, k: nat, m: nat, e: Embedding)
    requires k < m < |contents|
    requires PartStored(docs, sc, path, contents, k)
    ensures PartStored(PutDocument(docs, PartInput(sc, path, kind, contents, m, e)), sc, path, contents, k)
  {
    PartLabelsDistinct(path, |contents|, k, m);
    PutDocumentOthers(docs, PartInput(sc, path, kind, contents, m, e), DocumentKey(sc.repoId, PartLabel(path, k, |contents|)));
  }

  /** When every embedding succeeds, every part of the file is stored under its own label. */
  lemma {:induction false} PartsStored(docs: map<DocumentKey, DocumentRecord>, sc: Scope, path: string,
                                       kind: ContentType, contents: seq<string>, m: nat)
    requires m <= |contents|
    requires UpsertChunks(docs, sc, path, kind, contents, m).error.None?
    ensures forall k :: 0 <= k < m ==> PartStored(UpsertChunks(docs, sc, path, kind, contents, m).docs, sc, path, contents, k)
    decreases m
  {
    if m > 0 {
      var prev := UpsertChunks(docs, sc, path, kind, contents, m - 1);
      var e := sc.embed(contents[m - 1]);
      assert prev.error.None? && e.Success?;
      PartsStored(docs, sc, path, kind, contents, m - 1);
      var next := PutDocument(prev.docs, PartInput(sc, path, kind, contents, m - 1, e.value));
      forall k | 0 <= k < m - 1
        ensures PartStored(next, sc, path, contents, k)
      {
        PartStoredAfterPut(prev.docs, sc, path, kind, contents, k, m - 1, e.value);
      }
    }
  }

  /** Parts stored after the first `j` chunks are still stored after `m >= j` chunks. */
  lemma {:induction false} EarlierPartsKept(docs: map<DocumentKey, DocumentRecord>, sc: Scope, path: string,
                                            kind: ContentType, contents: seq<string>, j: nat, m: nat)
    requires j <= m <= |contents|
    requires UpsertChunks(docs, sc, path, kind, contents, j).error.None?
    ensures forall k :: 0 <= k < j ==> PartStored(UpsertChunks(docs, sc, path, kind, contents, m).docs, sc, path, contents, k)
    decreases m
  {
    if m == j {
      PartsStored(docs, sc, path, kind, contents, j);
    } else {
      EarlierPartsKept(docs, sc, path, kind, contents, j, m - 1);
      var prev := UpsertChunks(docs, sc, path, kind, contents, m - 1);
      var e := sc.embed(contents[m - 1]);
      if prev.error.None? && e.Success? {
        var next := PutDocument(prev.docs, PartInput(sc, path, kind, contents, m - 1, e.value));
        forall k | 0 <= k < j
          ensures PartStored(next, sc, path, contents, k)
        {
          PartStoredAfterPut(prev.docs, sc, path, kind, contents, k, m - 1, e.value);
        }
      }
    }
  }

  /** Rows that are no part of the file are left as they were. */
  lemma {:induction false} OtherRowsUnchanged(docs: map<DocumentKey, DocumentRecord>, sc: Scope, path: string,
                                              kind: ContentType, contents: seq<string>, m: nat, key: DocumentKey)
    requires m <= |contents|
    requires forall k :: 0 <= k < |contents| ==> key != DocumentKey(sc.repoId, PartLabel(path, k, |contents|))
    ensures key in UpsertChunks(docs, sc, path, kind, contents, m).docs <==> key in docs
    ensures key in docs ==> UpsertChunks(docs, sc, path, kind, contents, m).docs[key] == docs[key]
    decreases m
  {
    if m > 0 {
      OtherRowsUnchanged(docs, sc, path, kind, contents, m - 1, key);
      var prev := UpsertChunks(docs, sc, path, kind, contents, m - 1);
      var e := sc.embed(contents[m - 1]);
      if prev.error.None? && e.Success? {
        PutDocumentOthers(prev.docs, PartInput(sc, path, kind, contents, m - 1, e.value), key);
      }
    }
  }

  // ---------------------------------------------------------------------------
  // Properties of one file

  /** Items that are not blobs, have no path, or are not files change nothing and take no pause. */
  lemma SkippedItemsChangeNothing(p: Progress, item: TreeItem, sc: Scope)
    requires Chunkable(item, sc.fetch)
    requires || item.kind != "blob" || item.path.None? || item.path == Some("")
             || (item.path.Some? && sc.fetch(item.path.value).NotAFile?)
    ensures FileStep(p, item, sc) == p
  {
  }

  /** A failed fetch is logged and skips the pause; the table is unchanged. */
  lemma FetchErrorLogged(p: Progress, item: TreeItem, sc: Scope)
    requires ItemPath(item).Some? && sc.fetch(ItemPath(item).value).FetchError?
    ensures FileStep(p, item, sc) == p.(errors := p.errors + [ItemPath(item).value])
  {
  }

  /** A file is chunked first and each chunk preprocessed: when every embedding succeeds,
      part `k` holds the preprocessed `k`-th chunk of the raw content, and one pause follows. */
  lemma FileIndexed(p: Progress, item: TreeItem, sc: Scope, path: string, raw: string)
    requires ItemPath(item) == Some(path) && sc.fetch(path) == FileContent(raw)
    requires Chunks(raw, 0).Some?
    requires var isCode := IsCodePathAsWritten(path); var contents := PreparedChunks(isCode, Chunks(raw, 0).value);
      UpsertChunks(p.docs, sc, path, KindOf(isCode), contents, |contents|).error.None?
    ensures var r := FileStep(p, item, sc); var chunks := Chunks(raw, 0).value;
      var contents := PreparedChunks(IsCodePathAsWritten(path), chunks);
      && r.pauses == p.pauses + 1 && r.errors == p.errors
      && forall k :: 0 <= k < |chunks| ==> PartStored(r.docs, sc, path, contents, k)
  {
    var isCode := IsCodePathAsWritten(path);
    var contents := PreparedChunks(isCode, Chunks(raw, 0).value);
    PartsStored(p.docs, sc, path, KindOf(isCode), contents, |contents|);
    FileStepContent(p, item, sc, path, raw);
  }

  /** A failed embedding keeps the parts upserted before it, logs the path and skips the pause. */
  lemma EmbedFailureKeepsEarlierParts(p: Progress, item: TreeItem, sc: Scope, path: string, raw: string, j: nat)
    requires ItemPath(item) == Some(path) && sc.fetch(path) == FileContent(raw)
    requires Chunks(raw, 0).Some? && j < |Chunks(raw, 0).value|
    requires var isCode := IsCodePathAsWritten(path); var contents := PreparedChunks(isCode, Chunks(raw, 0).value);
      && UpsertChunks(p.docs, sc, path, KindOf(isCode), contents, j).error.None?
      && sc.embed(contents[j]).Failure?
    ensures var r := FileStep(p, item, sc);
      var contents := PreparedChunks(IsCodePathAsWritten(path), Chunks(raw, 0).value);
      && r.pauses == p.pauses && r.errors == p.errors + [path]
      && forall k :: 0 <= k < j ==> PartStored(r.docs, sc, path, contents, k)
  {
    var isCode := IsCodePathAsWritten(path);
    var contents := PreparedChunks(isCode, Chunks(raw, 0).value);
    ChunkLoopFails(p.docs, sc, path, KindOf(isCode), contents, j);
    FileStepContent(p, item, sc, path, raw);
  }

  /** A failed embedding of chunk `j` ends the chunk loop with an error and the parts before it stored. */
  lemma ChunkLoopFails(docs: map<DocumentKey, DocumentRecord>, sc: Scope, path: string, kind: ContentType,
                       contents: seq<string>, j: nat)
    requires j < |contents|
    requires UpsertChunks(docs, sc, path, kind, contents, j).error.None? && sc.embed(contents[j]).Failure?
    ensures var done := UpsertChunks(docs, sc, path, kind, contents, |contents|);
      && done.error.Some?
      && forall k :: 0 <= k < j ==> PartStored(done.docs, sc, path, contents, k)
  {
    EarlierPartsKept(docs, sc, path, kind, contents, j, |contents|);
    UpsertChunksStops(docs, sc, path, kind, contents, j + 1, |contents|);
  }

  /** The pass over a file whose content was fetched: the chunk loop, then a pause or a log line. */
  lemma FileStepContent(p: Progress, item: TreeItem, sc: Scope, path: string, raw: string)
    requires ItemPath(item) == Some(path) && sc.fetch(path) == FileContent(raw)
    requires Chunks(raw, 0).Some?
    ensures var isCode := IsCodePathAsWritten(path); var contents := PreparedChunks(isCode, Chunks(raw, 0).value);
      var done := UpsertChunks(p.docs, sc, path, KindOf(isCode), contents, |contents|);
      FileStep(p, item, sc) ==
        if done.error.Some? then Progress(done.docs, p.pauses, p.errors + [path])
        else Progress(done.docs, p.pauses + 1, p.errors)
  {
  }

  /** Each tree item takes at most one pause or one log line; logged paths accumulate in order. */
  lemma {:induction false} RunFilesCounts(p: Progress, items: seq<TreeItem>, sc: Scope)
    requires forall i :: 0 <= i < |items| ==> Chunkable(items[i], sc.fetch)
    ensures var r := RunFiles(p, items, sc);
      && p.pauses <= r.pauses && |p.errors| <= |r.errors| && r.errors[..|p.errors|] == p.errors
      && (r.pauses - p.pauses) + (|r.errors| - |p.errors|) <= |items|
    decreases |items|
  {
    if items != [] {
      var q := FileStep(p, items[0], sc);
      assert q.pauses + |q.errors| <= p.pauses + |p.errors| + 1 && p.pauses <= q.pauses;
      assert q.errors[..|p.errors|] == p.errors;
      RunFilesCounts(q, items[1..], sc);
      var r := RunFiles(q, items[1..], sc);
      assert r.errors[..|p.errors|] == r.errors[..|q.errors|][..|p.errors|];
    }
  }

  // ---------------------------------------------------------------------------
  // The classifier as written

  /** Without a backslash in the path nothing is classified as code. */
  lemma NoBackslashNeverCode(path: string)
    requires '\\' !in path
    ensures !IsCodePathAsWritten(path)
  {
    var l := ToLower(path);
    forall i | 0 <= i < |CodeExtensions|
      ensures !BackslashExtension(l, CodeExtensions[i])
    {
      var e := CodeExtensions[i];
      if |e| + 2 <= |l| {
        var k := |l| - |e| - 2;
        assert l[k] == LowerChar(path[k]);
      }
    }
  }

  /** `src/a.ts` is code for the webhook's classifier but a document here. */
  lemma SlashPathIsDocument()
    ensures !IsCodePathAsWritten("src/a.ts")
    ensures IsCodeFile("src/a.ts")
  {
    NoBackslashNeverCode("src/a.ts");
    LowerExample("src/a.ts", "src/a.ts");
    assert EndsWith("src/a.ts", "." + CodeExtensions[1]);
  }

  /** What the pattern does match: a backslash and any one character before the extension. */
  lemma BackslashPathIsCode()
    ensures IsCodePathAsWritten("a\\.ts")
    ensures IsCodePathAsWritten("a\\xts")
  {
    LowerExample("a\\.ts", "a\\.ts");
    assert BackslashExtension("a\\.ts", CodeExtensions[1]);
    LowerExample("a\\xts", "a\\xts");
    assert BackslashExtension("a\\xts", CodeExtensions[1]);
  }

  /** Every file of an ordinary `/`-separated tree is therefore stored as a preprocessed document. */
  lemma SlashPartsAreDocuments(path: string, chunks: seq<string>, k: nat)
    requires '\\' !in path && k < |chunks|
    ensures KindOf(IsCodePathAsWritten(path)) == Document
    ensures PreparedChunks(IsCodePathAsWritten(path), chunks)[k] == PreprocessDocument(chunks[k])
  {
    NoBackslashNeverCode(path);
  }

  // ---------------------------------------------------------------------------
  // The upserts

  /** Re-indexing an existing row changes only `lastIndexed`: the license is never refreshed. */
  lemma RepositoryReindexed(existing: RepositoryRecord, id: string, name: string, owner: string,
                            license: Option<string>, now: nat)
    ensures var r := RepositoryUpsert(Some(existing), id, name, owner, license, now);
      && r.license == existing.license && r.name == existing.name && r.owner == existing.owner
      && r.id == existing.id && r.lastIndexed == Some(now)
  {
  }

  /** A first run creates the row from the fetched repository. */
  lemma RepositoryCreated(id: string, name: string, owner: string, license: Option<string>, now: nat)
    ensures RepositoryUpsert(None, id, name, owner, license, now) == RepositoryRecord(id, name, owner, license, None)
  {
  }

  /** An update keeps the row's repository, type and path, and keeps its license when none is given. */
  lemma DocumentUpdated(existing: DocumentRecord, input: VectorStoreInput)
    ensures var r := DocumentUpsert(Some(existing), input);
      && r.repoId == existing.repoId && r.kind == existing.kind && r.path == existing.path
      && r.content == input.content && r.embedding == input.embedding
      && r.license == (if input.license.Some? then input.license else existing.license)
  {
  }

  /** A run keeps every other repository row and re-indexes or creates its own. */
  lemma RunRepositories(repos: map<string, RepositoryRecord>, docs: map<DocumentKey, DocumentRecord>,
                        owner: string, repo: string, info: RepoInfo,
                        tree: Result<seq<TreeItem>, string>, issues: Result<seq<Item>, string>,
                        now: nat, fetch: Fetcher, embed: Embedder)
    requires TreeChunkable(tree, fetch)
    ensures var id := NatToString(info.id);
      var out := IndexRun(repos, docs, owner, repo, Success(info), tree, issues, now, fetch, embed).repositories;
      && id in out
      && (id in repos ==> out[id] == repos[id].(lastIndexed := Some(now)))
      && (id !in repos ==> out[id] == RepositoryRecord(id, repo, owner, info.license, None))
      && (forall k :: k != id ==> (k in out <==> k in repos) && (k in repos ==> out[k] == repos[k]))
  {
  }

  /** A failed repository fetch is rethrown before anything is written. */
  lemma RepositoryFetchFails(repos: map<string, RepositoryRecord>, docs: map<DocumentKey, DocumentRecord>,
                             owner: string, repo: string, e: string,
                             tree: Result<seq<TreeItem>, string>, issues: Result<seq<Item>, string>,
                             now: nat, fetch: Fetcher, embed: Embedder)
    requires TreeChunkable(tree, fetch)
    ensures IndexRun(repos, docs, owner, repo, Failure(e), tree, issues, now, fetch, embed) == Report(repos, docs, Fail(e), 0, [])
  {
  }

  // ---------------------------------------------------------------------------
  // Issues

  /** A missing or short body is skipped without a pause. */
  lemma ShortIssueSkipped(p: Progress, issue: Item, sc: Scope)
    requires issue.body.None? || |issue.body.value| < 50
    ensures IssueStep(p, issue, sc) == IssuesDone(p, None)
  {
  }

  /** An admitted issue is stored as a document under `Issue #<n>: <title>`, then a pause follows. */
  lemma IssueStored(p: Progress, issue: Item, sc: Scope)
    requires IssueGate(issue) && sc.embed(PreprocessDocument(issue.body.value)).Success?
    ensures var r := IssueStep(p, issue, sc); var key := DocumentKey(sc.repoId, ItemLabel("Issue", issue.number, issue.title));
      && r.error.None? && r.progress.pauses == p.pauses + 1 && r.progress.errors == p.errors
      && key in r.progress.docs && r.progress.docs[key].content == PreprocessDocument(issue.body.value)
      && (key !in p.docs ==> r.progress.docs[key].kind == Document)
  {
  }

  /** A failed issue embedding ends the run: later issues are not looked at. */
  lemma IssueFailureAborts(p: Progress, issues: seq<Item>, sc: Scope)
    requires issues != [] && IssueGate(issues[0])
    requires sc.embed(PreprocessDocument(issues[0].body.value)).Failure?
    ensures RunIssues(p, issues, sc) == IssuesDone(p, Some(sc.embed(PreprocessDocument(issues[0].body.value)).error))
  {
  }

  /** Each issue takes at most one pause, and issues log nothing. */
  lemma {:induction false} RunIssuesCounts(p: Progress, issues: seq<Item>, sc: Scope)
    ensures var r := RunIssues(p, issues, sc).progress;
      p.pauses <= r.pauses <= p.pauses + |issues| && r.errors == p.errors
    decreases |issues|
  {
    if issues != [] {
      var step := IssueStep(p, issues[0], sc);
      if step.error.None? {
        RunIssuesCounts(step.progress, issues[1..], sc);
      }
    }
  }

  /** A run pauses at most once per tree item and issue. */
  lemma RunPauses(repos: map<string, RepositoryRecord>, docs: map<DocumentKey, DocumentRecord>,
                  owner: string, repo: string, repoData: Result<RepoInfo, string>,
                  tree: seq<TreeItem>, issues: seq<Item>, now: nat, fetch: Fetcher, embed: Embedder)
    requires TreeChunkable(Success(tree), fetch)
    ensures IndexRun(repos, docs, owner, repo, repoData, Success(tree), Success(issues), now, fetch, embed).pauses
      <= |tree| + |issues|
  {
    if repoData.Success? {
      var sc := Scope(NatToString(repoData.value.id), repoData.value.license, fetch, embed);
      var files := RunFiles(Progress(docs, 0, []), tree, sc);
      RunFilesCounts(Progress(docs, 0, []), tree, sc);
      RunIssuesCounts(files, issues, sc);
    }
  }
}
