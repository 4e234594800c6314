/**
 * `processGitHubEvent` of src/lib/github-fetch.ts: a webhook event is admitted
 * only while at least a tenth of the API rate limit remains, then a push saves
 * every changed file that was not removed, and an opened or edited pull request
 * or issue with a body of at least 50 characters saves that body, all through
 * `saveToIndex`. The Octokit calls become parameters: the rate-limit reading,
 * and each changed file carrying the content that `getContent` returns for it.
 */
module GithubFetch {
  import opened Wrappers
  import opened JsString
  import opened Preprocessor
  import opened Search

  /** `rateLimit.resources.core`. */
  datatype RateLimit = RateLimit(remaining: nat, limit: nat)

  /** `remaining < limit * 0.1`, over the integers. */
  predicate RateLimitTooLow(rate: RateLimit) {
    10 * rate.remaining < rate.limit
  }

  const RateLimitMessage := "Rate limit is too low"

  /** A pull request or issue of the payload; a missing body is `None`. */
  datatype Item = Item(number: nat, title: string, body: Option<string>)

  /** One entry of `files.files`, with the content fetched for it. */
  datatype ChangedFile = ChangedFile(filename: string, status: string, content: string)

  /** A pushed commit; `files` is `None` when the commit listing has no `files`. */
  datatype Commit = Commit(id: string, files: Option<seq<ChangedFile>>)

  datatype Payload = Payload(action: string, commits: seq<Commit>, pullRequest: Item, issue: Item)

  // ---------------------------------------------------------------------------
  // Push events

  /** The alternatives of `/\.(js|ts|py|java|go|rb|php|cs|cpp|h)$/i`. */
  const CodeExtensions: seq<string> := ["js", "ts", "py", "java", "go", "rb", "php", "cs", "cpp", "h"]

  /** The regular expression matches: the name ends, in any letter case, with '.' and an extension. */
  predicate IsCodeFile(filename: string) {
    exists i :: 0 <= i < |CodeExtensions| && EndsWith(ToLower(filename), "." + CodeExtensions[i])
  }

  /** The document saved for a changed file. */
  function FileDocument(f: ChangedFile): SearchResult {
    if IsCodeFile(f.filename) then SearchResult(PreprocessCode(f.content), Metadata(f.filename, Code))
    else SearchResult(PreprocessDocument(f.content), Metadata(f.filename, Document))
  }

  /** `files.files || []`. */
  function CommitFiles(c: Commit): seq<ChangedFile> {
    if c.files.Some? then c.files.value else []
  }

  /** The documents of one commit's files, in order, skipping removed files. */
  function FileDocuments(files: seq<ChangedFile>): seq<SearchResult>
    decreases |files|
  {
    if files == [] then []
    else
      var f := files[|files| - 1];
      FileDocuments(files[..|files| - 1]) + (if f.status == "removed" then [] else [FileDocument(f)])
  }

  /** The documents of a push, commit after commit. */
  function PushDocuments(commits: seq<Commit>): seq<SearchResult>
    decreases |commits|
  {
    if commits == [] then []
    else PushDocuments(commits[..|commits| - 1]) + FileDocuments(CommitFiles(commits[|commits| - 1]))
  }

  // ---------------------------------------------------------------------------
  // Pull-request and issue events

  /** The action gate and the spam filter `!body || body.length < 50`, negated. */
  predicate ItemGate(action: string, item: Item) {
    && (action == "opened" || action == "edited")
    && item.body.Some? && |item.body.value| >= 50
  }

  /** `${prefix} #${number}: ${title}`. */
  function ItemLabel(prefix: string, number: nat, title: string): string {
    prefix + " #" + NatToString(number) + ": " + title
  }

  /** The document an item event saves: none, or its preprocessed body under its label. */
  function ItemDocuments(prefix: string, action: string, item: Item): seq<SearchResult> {
    if ItemGate(action, item) then
      [SearchResult(PreprocessDocument(item.body.value), Metadata(ItemLabel(prefix, item.number, item.title), Document))]
    else []
  }

  /** The `switch` of `processGitHubEvent`: what an admitted event saves, in order. */
  function EventDocuments(eventType: string, payload: Payload): seq<SearchResult> {
    if eventType == "push" then PushDocuments(payload.commits)
    else if eventType == "pull_request" then ItemDocuments("PR", payload.action, payload.pullRequest)
    else if eventType == "issues" then ItemDocuments("Issue", payload.action, payload.issue)
    else []
  }

  // ---------------------------------------------------------------------------
  // The handlers

  /** `processGitHubEvent`: the rate-limit check first, then the dispatch. */
  method ProcessGitHubEvent(index: SearchIndex, rate: RateLimit, eventType: string, payload: Payload)
    returns (r: Outcome<string>)
    requires index.Valid()
    modifies index
    ensures index.Valid()
    ensures RateLimitTooLow(rate) ==> r == Fail(RateLimitMessage) && index.State() == old(index.State())
    ensures !RateLimitTooLow(rate) ==>
      r == Pass && index.State() == SaveAll(old(index.State()), EventDocuments(eventType, payload))
  {
    if RateLimitTooLow(rate) {
      return Fail(RateLimitMessage);
    }
    if eventType == "push" {
      HandlePushEvent(index, payload.commits);
    } else if eventType == "pull_request" {
      HandlePREvent(index, payload);
    } else if eventType == "issues" {
      HandleIssueEvent(index, payload);
    }
    return Pass;
  }

  /** `handlePushEvent`: every file of every commit, in order, one save at a time. */
  method HandlePushEvent(index: SearchIndex, commits: seq<Commit>)
    requires index.Valid()
    modifies index
    ensures index.Valid()
    ensures index.State() == SaveAll(old(index.State()), PushDocuments(commits))
  {
    ghost var st0 := index.State();
    for i := 0 to |commits|
      invariant index.Valid()
      invariant index.State() == SaveAll(st0, PushDocuments(commits[..i]))
    {
      var files := CommitFiles(commits[i]);
      ghost var done := PushDocuments(commits[..i]);
      assert done + FileDocuments(files[..0]) == done;
      for j := 0 to |files|
        invariant index.Valid()
        invariant index.State() == SaveAll(st0, done + FileDocuments(files[..j]))
      {
        PushFileStep(st0, done, files, j);
        if files[j].status == "removed" {
          continue;
        }
        var data := FileDocument(files[j]);
        index.Save(data);
      }
      PushCommitStep(commits, i);
    }
    assert commits[..|commits|] == commits;
  }

  /** One file of the inner loop: a removed file saves nothing, any other file saves its document. */
  lemma PushFileStep(st0: IndexState, done: seq<SearchResult>, files: seq<ChangedFile>, j: nat)
    requires j < |files|
    ensures var before := SaveAll(st0, done + FileDocuments(files[..j]));
      SaveAll(st0, done + FileDocuments(files[..j + 1])) ==
        if files[j].status == "removed" then before else Put(before, FileDocument(files[j]))
  {
    FileDocumentsPrefix(files, j);
    var saved := done + FileDocuments(files[..j]);
    if files[j].status == "removed" {
      assert done + FileDocuments(files[..j + 1]) == saved;
    } else {
      var data := FileDocument(files[j]);
      assert done + FileDocuments(files[..j + 1]) == saved + [data];
      SaveAllSnoc(st0, saved, data);
    }
  }

  /** The outer loop: after commit `i` every file of the first `i + 1` commits is handled. */
  lemma PushCommitStep(commits: seq<Commit>, i: nat)
    requires i < |commits|
    ensures var files := CommitFiles(commits[i]);
      PushDocuments(commits[..i + 1]) == PushDocuments(commits[..i]) + FileDocuments(files[..|files|])
  {
    var files := CommitFiles(commits[i]);
    assert files[..|files|] == files;
    assert commits[..i + 1][..i] == commits[..i];
  }

  /** `handlePREvent`. */
  method HandlePREvent(index: SearchIndex, payload: Payload)
    requires index.Valid()
    modifies index
    ensures index.Valid()
    ensures index.State() == SaveAll(old(index.State()), ItemDocuments("PR", payload.action, payload.pullRequest))
  {
    if payload.action != "opened" && payload.action != "edited" {
      return;
    }
    var pr := payload.pullRequest;
    if pr.body.None? || |pr.body.value| < 50 {
      return;
    }
    var preprocessed := PreprocessDocument(pr.body.value);
    var data := SearchResult(preprocessed, Metadata(ItemLabel("PR", pr.number, pr.title), Document));
    assert ItemGate(payload.action, pr);
    assert ItemDocuments("PR", payload.action, payload.pullRequest) == [data];
    index.Save(data);
    assert [] + [data] == [data];
    SaveAllSnoc(old(index.State()), [], data);
  }

  /** `handleIssueEvent`. */
  method HandleIssueEvent(index: SearchIndex, payload: Payload)
    requires index.Valid()
    modifies index
    ensures index.Valid()
    ensures index.State() == SaveAll(old(index.State()), ItemDocuments("Issue", payload.action, payload.issue))
  {
    if payload.action != "opened" && payload.action != "edited" {
      return;
    }
    var issue := payload.issue;
    if issue.body.None? || |issue.body.value| < 50 {
      return;
    }
    var preprocessed := PreprocessDocument(issue.body.value);
    var data := SearchResult(preprocessed, Metadata(ItemLabel("Issue", issue.number, issue.title), Document));
    assert ItemGate(payload.action, issue);
    assert ItemDocuments("Issue", payload.action, payload.issue) == [data];
    index.Save(data);
    assert [] + [data] == [data];
    SaveAllSnoc(old(index.State()), [], data);
  }

  // ---------------------------------------------------------------------------
  // Properties

  /** The integer form of the gate is exactly the comparison `remaining < limit * 0.1` on reals. */
  lemma RateLimitThreshold(rate: RateLimit)
    ensures RateLimitTooLow(rate) <==> (rate.remaining as real) < (rate.limit as real) * 0.1
  {
  }

  /** The gate runs before the dispatch: a low limit rejects even an event that is not handled. */
  lemma UnhandledEventSavesNothing(eventType: string, payload: Payload)
    requires eventType != "push" && eventType != "pull_request" && eventType != "issues"
    ensures EventDocuments(eventType, payload) == []
    ensures SaveAll(Empty, EventDocuments(eventType, payload)) == Empty
  {
  }

  /** An item event saves at most one document, and saves one exactly when the gate holds. */
  lemma ItemGateExact(prefix: string, action: string, item: Item)
    ensures |ItemDocuments(prefix, action, item)| <= 1
    ensures ItemDocuments(prefix, action, item) != [] <==>
      (action == "opened" || action == "edited") && item.body.Some? && |item.body.value| >= 50
  {
  }

  /** A body of 49 characters is filtered out; one of exactly 50 is saved. */
  lemma BodyThreshold(prefix: string, action: string, n: nat, title: string, body: string)
    requires action == "opened" || action == "edited"
    ensures |body| == 49 ==> ItemDocuments(prefix, action, Item(n, title, Some(body))) == []
    ensures |body| == 50 ==> |ItemDocuments(prefix, action, Item(n, title, Some(body)))| == 1
    ensures ItemDocuments(prefix, "closed", Item(n, title, Some(body))) == []
    ensures ItemDocuments(prefix, action, Item(n, title, None)) == []
  {
  }

  /** A saved item is a document holding the preprocessed body under `<prefix> #<n>: <title>`. */
  lemma ItemDocumentShape(prefix: string, action: string, item: Item, d: SearchResult)
    requires d in ItemDocuments(prefix, action, item)
    ensures d.metadata.kind == Document
    ensures d.content == PreprocessDocument(item.body.value)
    ensures StartsWith(d.metadata.path, prefix + " #")
    ensures EndsWith(d.metadata.path, ": " + item.title)
  {
    var lab := ItemLabel(prefix, item.number, item.title);
    assert lab == (prefix + " #") + (NatToString(item.number) + ": " + item.title);
    assert lab == (prefix + " #" + NatToString(item.number)) + (": " + item.title);
  }

  /** Two labels with the same prefix are equal only for the same number and title. */
  lemma LabelDeterminesItem(prefix: string, n: nat, t: string, m: nat, u: string)
    requires ItemLabel(prefix, n, t) == ItemLabel(prefix, m, u)
    ensures n == m && t == u
  {
    var head := prefix + " #";
    var a := NatToString(n) + ": " + t;
    var b := NatToString(m) + ": " + u;
    assert ItemLabel(prefix, n, t) == head + a;
    assert ItemLabel(prefix, m, u) == head + b;
    assert a == (head + a)[|head|..] == (head + b)[|head|..] == b;
    DigitsThenColon(NatToString(n), t, NatToString(m), u);
    NatToStringInjective(n, m);
  }

  /** A run of digits followed by ": " is recognised unambiguously. */
  lemma DigitsThenColon(x: string, t: string, y: string, u: string)
    requires forall i :: 0 <= i < |x| ==> IsDigit(x[i])
    requires forall i :: 0 <= i < |y| ==> IsDigit(y[i])
    requires x + ": " + t == y + ": " + u
    ensures x == y && t == u
  {
    var s := x + ": " + t;
    assert s[|x|] == ':' && (y + ": " + u)[|y|] == ':';
    if |x| != |y| {
      assert false;
    }
    assert x == s[..|x|] == y;
    assert t == s[|x| + 2..] == u;
  }

  /** A pull request and an issue never share a label, so neither overwrites the other. */
  lemma PullRequestAndIssueLabelsDiffer(n: nat, t: string, m: nat, u: string)
    ensures ItemLabel("PR", n, t) != ItemLabel("Issue", m, u)
  {
    assert ItemLabel("PR", n, t)[0] == 'P';
    assert ItemLabel("Issue", m, u)[0] == 'I';
  }

  /** The code classifier ignores letter case. */
  lemma UpperCaseExtensionIsCode()
    ensures IsCodeFile("Main.TS")
  {
    LowerExample("Main.TS", "main.ts");
    assert EndsWith("main.ts", "." + CodeExtensions[1]);
  }

  lemma HeaderIsCode()
    ensures IsCodeFile("lib/x.h")
  {
    LowerExample("lib/x.h", "lib/x.h");
    assert EndsWith("lib/x.h", "." + CodeExtensions[9]);
  }

  /** A markdown file is a document, and so is a longer extension: `$` anchors the match. */
  lemma DocumentNames()
    ensures !IsCodeFile("README.md")
    ensures !IsCodeFile("a.tsx")
  {
    LowerExample("README.md", "readme.md");
    NotCodeByLastChar("README.md");
    LowerExample("a.tsx", "a.tsx");
    NotCodeByLastChar("a.tsx");
  }

  lemma LowerExample(s: string, t: string)
    requires |s| == |t| && forall i :: 0 <= i < |s| ==> LowerChar(s[i]) == t[i]
    ensures ToLower(s) == t
  {
  }

  /** A name whose lower-cased last character ends no extension is not code. */
  lemma NotCodeByLastChar(filename: string)
    requires var l := ToLower(filename); l != [] && l[|l| - 1] !in {'s', 'a', 'y', 'o', 'b', 'p', 'h'}
    ensures !IsCodeFile(filename)
  {
    var l := ToLower(filename);
    forall i | 0 <= i < |CodeExtensions|
      ensures !EndsWith(l, "." + CodeExtensions[i])
    {
      var e := "." + CodeExtensions[i];
      assert e[|e| - 1] in {'s', 'a', 'y', 'o', 'b', 'p', 'h'};
    }
  }

  /** Saving one more result after a series is one more `Put`. */
  lemma SaveAllSnoc(st: IndexState, docs: seq<SearchResult>, data: SearchResult)
    ensures SaveAll(st, docs + [data]) == Put(SaveAll(st, docs), data)
  {
    assert (docs + [data])[..|docs|] == docs;
  }

  lemma FileDocumentsPrefix(files: seq<ChangedFile>, j: nat)
    requires j < |files|
    ensures FileDocuments(files[..j + 1]) ==
      FileDocuments(files[..j]) + (if files[j].status == "removed" then [] else [FileDocument(files[j])])
  {
    assert files[..j + 1][..j] == files[..j];
  }

  /** Every document of a file list is the document of one of its files that was not removed. */
  lemma {:induction false} FileDocumentsSound(files: seq<ChangedFile>, d: SearchResult)
    requires d in FileDocuments(files)
    ensures exists j :: 0 <= j < |files| && files[j].status != "removed" && d == FileDocument(files[j])
    decreases |files|
  {
    var n := |files| - 1;
    FileDocumentsPrefix(files, n);
    assert files[..n + 1] == files;
    if d in FileDocuments(files[..n]) {
      FileDocumentsSound(files[..n], d);
      var j :| 0 <= j < n && files[..n][j].status != "removed" && d == FileDocument(files[..n][j]);
      assert files[j] == files[..n][j];
    }
  }

  /** Every file that was not removed has its document in the list. */
  lemma {:induction false} FileDocumentsComplete(files: seq<ChangedFile>, j: nat)
    requires j < |files| && files[j].status != "removed"
    ensures FileDocument(files[j]) in FileDocuments(files)
    decreases |files|
  {
    var n := |files| - 1;
    var d := FileDocument(files[j]);
    var pre := FileDocuments(files[..n]);
    var last := if files[n].status == "removed" then [] else [FileDocument(files[n])];
    FileDocumentsPrefix(files, n);
    assert files[..n + 1] == files;
    assert FileDocuments(files) == pre + last;
    if j < n {
      assert files[..n][j] == files[j];
      FileDocumentsComplete(files[..n], j);
      assert d in pre;
    } else {
      assert j == n && files[j] == files[n];
      assert d in last;
    }
  }

  /** A push of files that were all removed saves nothing. */
  lemma {:induction false} OnlyRemovedSavesNothing(files: seq<ChangedFile>)
    requires forall j :: 0 <= j < |files| ==> files[j].status == "removed"
    ensures FileDocuments(files) == []
    decreases |files|
  {
    if files != [] {
      var init := files[..|files| - 1];
      assert forall j :: 0 <= j < |init| ==> init[j] == files[j];
      OnlyRemovedSavesNothing(init);
    }
  }

  /** Every document of a push is a kept file's document, under its file name and kind. */
  lemma {:induction false} PushDocumentsFromFiles(commits: seq<Commit>, d: SearchResult)
    requires d in PushDocuments(commits)
    ensures exists i, j ::
      && 0 <= i < |commits| && 0 <= j < |CommitFiles(commits[i])|
      && CommitFiles(commits[i])[j].status != "removed" && d == FileDocument(CommitFiles(commits[i])[j])
    decreases |commits|
  {
    var n := |commits| - 1;
    var init := commits[..n];
    if d in PushDocuments(init) {
      PushDocumentsFromFiles(init, d);
      var i, j :| 0 <= i < |init| && 0 <= j < |CommitFiles(init[i])| &&
        CommitFiles(init[i])[j].status != "removed" && d == FileDocument(CommitFiles(init[i])[j]);
      assert init[i] == commits[i];
    } else {
      FileDocumentsSound(CommitFiles(commits[n]), d);
    }
  }

  /** A file is saved with kind `Code` exactly when its name has a code extension. */
  lemma FileKind(f: ChangedFile)
    ensures FileDocument(f).metadata.path == f.filename
    ensures FileDocument(f).metadata.kind == Code <==> IsCodeFile(f.filename)
    ensures FileDocument(f).content ==
      if IsCodeFile(f.filename) then PreprocessCode(f.content) else PreprocessDocument(f.content)
  {
  }

  /** An admitted pull-request event leaves the index holding its document under its label. */
  lemma PullRequestSaved(st: IndexState, payload: Payload)
    requires ItemGate(payload.action, payload.pullRequest)
    ensures var pr := payload.pullRequest; var k := ItemLabel("PR", pr.number, pr.title);
      var st' := SaveAll(st, EventDocuments("pull_request", payload));
      && k in st'.entries && st'.entries[k].content == PreprocessDocument(pr.body.value)
      && (forall p :: p != k ==>
            (p in st'.entries <==> p in st.entries) && (p in st.entries ==> st'.entries[p] == st.entries[p]))
  {
    var docs := EventDocuments("pull_request", payload);
    assert SaveAll(st, docs) == Put(SaveAll(st, []), docs[0]);
    PutEntries(st, docs[0]);
  }

  /** A path that only removed files of a push name keeps what the index held. */
  lemma RemovedPathUntouched(st: IndexState, commits: seq<Commit>, k: string)
    requires forall i, j ::
      (0 <= i < |commits| && 0 <= j < |CommitFiles(commits[i])| && CommitFiles(commits[i])[j].filename == k) ==>
        CommitFiles(commits[i])[j].status == "removed"
    ensures k in SaveAll(st, PushDocuments(commits)).entries <==> k in st.entries
    ensures k in st.entries ==> SaveAll(st, PushDocuments(commits)).entries[k] == st.entries[k]
  {
    var docs := PushDocuments(commits);
    forall l | 0 <= l < |docs|
      ensures docs[l].metadata.path != k
    {
      PushDocumentsFromFiles(commits, docs[l]);
    }
    SaveAllUntouched(st, docs, k);
  }
}
