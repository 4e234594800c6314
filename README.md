# GH-RAG text pipeline and ingestion rules in Dafny

This project models the core of GH-RAG, a small retrieval tool that answers questions about GitHub repositories. The model covers the following parts:

- **Text pipeline** (`preprocessCode`, `preprocessDocument`, `splitIntoChunks`).
  - Each regular-expression rewrite is a leftmost-match scanner over `string`.
  - The chunker is an imperative method, proved against a loop function `Chunks`.
- **In-memory keyword index** (`saveToIndex`, `searchContent`). This is a class over a JavaScript `Map`: an insertion-ordered key list plus a map.
- **Repository-list parser** (`getTargetRepositories`). This is a function of the raw variable.
- **Context and prompt builder** of `generateResponse`.
- **Webhook handler** (`processGitHubEvent` and its three handlers). It runs over the keyword index.
- **Indexing script** (`indexRepository`). This is a `Database` class with one map per table, written by the tree, chunk and issue loops.

Modules:

| module | file | contents |
|---|---|---|
| `Wrappers` | `wrappers.dfy` | `Option`, `Result` and `Outcome` |
| `JsString` | `js_string.dfy` | the JavaScript string built-ins used: `trim`, `toLowerCase`, `includes`, `split`, `join`, `slice`, number printing |
| `Preprocessor` | `preprocessor.dfy` | the two `.replace` chains |
| `Chunker` | `chunker.dfy` | `splitIntoChunks` |
| `Search` | `search.dfy` | `searchIndex`, `saveToIndex`, `searchContent` |
| `Repositories` | `repositories.dfy` | `getTargetRepositories` |
| `RagPipeline` | `rag_pipeline.dfy` | context entries, their join, the prompt template, the generation result |
| `GithubFetch` | `github_fetch.dfy` | the rate-limit gate; dispatch; the push, pull-request and issue handlers |
| `InitialIndex` | `initial_index.dfy` | `indexRepository` with `upsertToVectorStore` |

A `char` stands for one UTF-16 code unit that is not a surrogate. Text with characters outside the Basic Multilingual Plane is outside the model. `\s` and `trim` both use the exact ECMAScript white-space and line-terminator set. The `.` of a regular expression excludes exactly the line terminators.

The model follows the code as written at three points where the code's evident intent differs:
- The link rule has no capture group, so every `[text](url)` becomes the literal `$1`.
- A text of at most 1000 characters is returned in one chunk, untrimmed.
- The classifier of the indexing script is written `\\.`, so it needs a backslash before the extension. An ordinary `/`-separated path is therefore never code.

The chunker can also loop forever: `StallIsFixpoint` shows that a window cut within the overlap leaves the cursor stuck for ever, and `StallExample` shows an input for which this happens.

## Model

| member | source | states |
|---|---|---|
| `JsString.TrimStartSpec` | src/lib/preprocessor.ts:5 | `trimStart` removes exactly the leading white space: what remains is a suffix of the input that is empty or starts with a non-space |
| `JsString.TrimEndSpec` | src/lib/preprocessor.ts:5 | `trimEnd` removes exactly the trailing white space: what remains is a prefix that is empty or ends with a non-space |
| `JsString.TrimIsSlice` | src/lib/preprocessor.ts:14 | `trim` returns a contiguous slice of its input, with no white space at either end |
| `JsString.TrimNoOp` | src/lib/repositories.ts:10 | a string with no white space at either end is its own trim |
| `JsString.IncludesAt` | src/lib/search.ts:23-24 | `includes` holds exactly when the substring occurs at some index (both directions) |
| `JsString.Split` | src/lib/repositories.ts:9 | `split` with a one-character separator gives at least one piece, and no piece contains the separator |
| `JsString.JoinSplit` | src/lib/repositories.ts:9 | joining the pieces of a split with the separator restores the string |
| `JsString.SplitJoin` | src/lib/repositories.ts:9 | splitting joined separator-free pieces gives the pieces back |
| `JsString.SplitAppend` | src/lib/repositories.ts:9 | splitting `a + sep + b` gives the pieces of `a` followed by the pieces of `b` |
| `JsString.JsSliceIndex` | src/lib/preprocessor.ts:42 | a `slice` index, negative or beyond the end, is clamped into `0..length` |
| `JsString.NatToString` | src/lib/github-fetch.ts:81 | the decimal form of a number is a non-empty run of digits, with at least two digits from 10 on |
| `JsString.NatToStringInjective` | scripts/initial-index.ts:77 | different numbers print differently |
| `Preprocessor.PreprocessCode` | src/lib/preprocessor.ts:1-6 | the comment rule, then `\s+` → `' '`, then `trim`, in that order; specified by `PreprocessCodeShape`, `PreprocessCodeKeepsText`, `PreprocessCodeIdempotent` and `CodeCutAtComment` |
| `Preprocessor.PreprocessDocument` | src/lib/preprocessor.ts:8-15 | white space, images, links, decoration, then `trim`, in that order; specified by `PreprocessDocumentShape`, `DocumentExample` and `GreetingExample` |
| `Preprocessor.StripComments` | src/lib/preprocessor.ts:3 | the leftmost scan of the comment rule: a closed block comment or a line comment is deleted, any other character is kept; specified by `BlockCommentDeleted`, `LineCommentDeleted`, `NoSlashKept` and `StripCommentsShorter` |
| `Preprocessor.CollapseWhitespace` | src/lib/preprocessor.ts:4 | each maximal run of white space becomes one space; specified by `CollapseShape`, `CollapseKeepsText` and `CollapseNoOp` |
| `Preprocessor.RemoveImages` | src/lib/preprocessor.ts:11 | the leftmost scan deleting each `![alt](url)`; specified by `ImageRemoved`, `NoImageKept` and `RemoveImagesChars` |
| `Preprocessor.ReplaceLinks` | src/lib/preprocessor.ts:12 | the leftmost scan replacing each `[text](url)` by `$1`; specified by `LinkBecomesDollarOne` and `ReplaceLinksChars` |
| `Preprocessor.StripDecoration` | src/lib/preprocessor.ts:13 | deletes each of `#*_~` and backquote; specified by `StripDecorationChars` and `StripDecorationAppend` |
| `Preprocessor.BlockCloseFirst` | src/lib/preprocessor.ts:3 | the lazy `[\s\S]*?\*\/` ends at the first `*/`, with no `*/` before it; when there is no `*/`, there is no match |
| `Preprocessor.LineLengthSpec` | src/lib/preprocessor.ts:3 | `.*` extends up to the first line terminator, or to the end of the text |
| `Preprocessor.BlockCommentDeleted` | src/lib/preprocessor.ts:3 | `/*a*/b` without `*/` inside `a` is deleted up to its first closer, and the scan resumes at `b` |
| `Preprocessor.LineCommentDeleted` | src/lib/preprocessor.ts:3 | `//a` is deleted up to, not including, the line terminator, so the next line survives |
| `Preprocessor.LineCommentAtEnd` | src/lib/preprocessor.ts:3 | a line comment on the last line removes the rest of the text |
| `Preprocessor.NoSlashKept` | src/lib/preprocessor.ts:3 | text without `/` passes the comment rule unchanged |
| `Preprocessor.StripCommentsShorter` | src/lib/preprocessor.ts:3 | deleting comments never lengthens the text |
| `Preprocessor.LineCommentCutsLine` | src/lib/preprocessor.ts:3 | after slash-free text, a `//` cuts off the rest of the line whatever quotes surround it |
| `Preprocessor.CodeCutAtComment` | src/lib/preprocessor.ts:1-6 | code that is already normalised before a `//` comes out of `preprocessCode` as that text alone |
| `Preprocessor.UrlInStringLiteralTruncated` | src/lib/preprocessor.ts:1-6 | `"http://x"` becomes `"http:`: the rule does not know about string literals |
| `Preprocessor.CollapseShorter` | src/lib/preprocessor.ts:4 | collapsing white space never lengthens the text |
| `Preprocessor.CollapseShape` | src/lib/preprocessor.ts:4 | after `\s+` → `' '` the only white space is single plain spaces; the output is empty exactly when the input is; it starts with white space exactly when the input does |
| `Preprocessor.CollapseKeepsText` | src/lib/preprocessor.ts:4 | collapsing keeps every non-space character, in order |
| `Preprocessor.CollapseNoOp` | src/lib/preprocessor.ts:4 | text already made of single plain spaces is unchanged |
| `Preprocessor.CollapseSpacedWords` | src/lib/preprocessor.ts:10 | words joined by single spaces are already collapsed |
| `Preprocessor.PreprocessCodeShape` | src/lib/preprocessor.ts:1-6 | `preprocessCode` is no longer than its input, uses only plain single spaces, and has no white space at either end |
| `Preprocessor.PreprocessCodeKeepsText` | src/lib/preprocessor.ts:1-6 | `preprocessCode` keeps every non-space character that the comment rule left, in order |
| `Preprocessor.PreprocessCodeCommentFree` | src/lib/preprocessor.ts:1-6 | the output of `preprocessCode` contains no `//` and no `/*` closed by a later `*/`, so the comment rule finds nothing in it |
| `Preprocessor.StripCommentsId` | src/lib/preprocessor.ts:3 | text in which no comment starts passes the comment rule unchanged |
| `Preprocessor.StripCommentsFree` | src/lib/preprocessor.ts:3 | what the comment rule leaves contains no comment start: deleting comments never brings a `/` next to another `/` or to a closed `/*` |
| `Preprocessor.CollapseFree` | src/lib/preprocessor.ts:4 | collapsing white space in comment-free text creates no comment |
| `Preprocessor.TrimFree` | src/lib/preprocessor.ts:5 | trimming comment-free text creates no comment |
| `Preprocessor.PreprocessCodeIdempotent` | src/lib/preprocessor.ts:1-6 | `preprocessCode` applied to its own output changes nothing |
| `Preprocessor.LinkTailSpec` | src/lib/preprocessor.ts:11-12 | a match of `.*?\]\(.*?\)` lies inside the text, with `](` where the text part ends |
| `Preprocessor.RemoveImagesChars` | src/lib/preprocessor.ts:11 | removing images only deletes characters |
| `Preprocessor.ImageRemoved` | src/lib/preprocessor.ts:11 | `![alt](url)` disappears entirely, and the scan resumes after it |
| `Preprocessor.NoImageKept` | src/lib/preprocessor.ts:11 | text with no `![` passes the image rule unchanged |
| `Preprocessor.ReplaceLinksChars` | src/lib/preprocessor.ts:12 | the link rule only deletes characters and inserts `$` and `1` |
| `Preprocessor.LinkBecomesDollarOne` | src/lib/preprocessor.ts:12 | `[text](url)` becomes the literal `$1` |
| `Preprocessor.StripDecorationChars` | src/lib/preprocessor.ts:13 | what remains after `[#*_~\`]` → `''` are input characters, none of them a decoration mark |
| `Preprocessor.StripDecorationAppend` | src/lib/preprocessor.ts:13 | the decoration rule works character by character |
| `Preprocessor.PreprocessDocumentShape` | src/lib/preprocessor.ts:8-15 | `preprocessDocument` output has only plain spaces as white space, no white space at either end, and no `#`, `*`, `_`, `~` or backquote |
| `Preprocessor.EmphasisThenLink` | src/lib/preprocessor.ts:8-15 | an emphasised word followed by a link becomes the bare word followed by ` $1` |
| `Preprocessor.DocumentExample` | src/lib/preprocessor.ts:8-15 | `**hi** [a](b)` becomes `hi $1` |
| `Preprocessor.GreetingExample` | src/lib/preprocessor.ts:8-15 | `Hello **world**! [link](http://x)` becomes `Hello world! $1` |
| `Preprocessor.DoubleSpaceAfterImage` | src/lib/preprocessor.ts:10-11 | `a ![i](u) b` becomes `a  b`: white space is collapsed before the image goes, so a double space remains |
| `Chunker.ScanBack` | src/lib/preprocessor.ts:34-36 | the inner loop moving `end` down to a boundary or to `start`; specified by `ScanBackSpec` |
| `Chunker.LoopStep` | src/lib/preprocessor.ts:25-43 | one pass of the outer loop: leave, push the rest and break, or push the window and move the cursor to the cut minus 100; specified by `LoopStepInside` and `StallIsFixpoint` |
| `Chunker.Chunks` | src/lib/preprocessor.ts:21-47 | the chunk list the loop builds from a cursor, or `None` when a pass does not advance the cursor; specified by `ChunksSizes`, `ChunksOverlap`, `ChunksReassemble`, `ChunksLastIsSuffix` and `StallNoProgress` |
| `Chunker.BoundaryAtAgrees` | src/lib/preprocessor.ts:34 | inside the text, the test on `text.slice(end - 1, end + 1)` holds exactly when a sentence end is followed by white space |
| `Chunker.ScanBackSpec` | src/lib/preprocessor.ts:34-36 | the inner loop stops at the highest boundary above `start`, or at `start` when there is none |
| `Chunker.CutWindow` | src/lib/preprocessor.ts:34-40 | the inner loop and the hard-cut fallback compute `Cut` |
| `Chunker.Cut` | src/lib/preprocessor.ts:34-40 | a cut lies in `(start, start + 1000]` |
| `Chunker.CutSpec` | src/lib/preprocessor.ts:34-40 | a window with a boundary is cut at its rightmost boundary; a window without one is cut at exactly 1000 characters |
| `Chunker.LoopStepInside` | src/lib/preprocessor.ts:25-43 | one pass either pushes `text.slice(start)` and stops, or pushes the window up to the cut and steps back 100 characters |
| `Chunker.SplitIntoChunks` | src/lib/preprocessor.ts:21-47 | when the loop makes progress, the method returns the chunk list of `Chunks`; `""` gives `[]`, and a text of at most 1000 characters gives itself, untrimmed |
| `Chunker.ShortText` | src/lib/preprocessor.ts:26-30 | a text of at most 1000 characters is one chunk equal to the text, and `""` gives no chunk |
| `Chunker.ChunksSizes` | src/lib/preprocessor.ts:25-44 | every chunk is non-empty and at most 1000 characters long |
| `Chunker.ChunksOverlap` | src/lib/preprocessor.ts:42-43 | each chunk starts with the last 100 characters of the one before |
| `Chunker.ChunksReassemble` | src/lib/preprocessor.ts:25-44 | the first chunk plus every later chunk without its first 100 characters is the text from the cursor on |
| `Chunker.ChunksLastIsSuffix` | src/lib/preprocessor.ts:28-30 | the last chunk ends at the end of the text |
| `Chunker.NoBoundaryExample` | src/lib/preprocessor.ts:26-43 | 1050 characters without a boundary give `text[0..1000]` and `text[900..1050]` |
| `Chunker.StallNoProgress` | src/lib/preprocessor.ts:34-43 | a cut within 100 characters of the cursor sends the cursor back, so the loop makes no progress |
| `Chunker.StallIsFixpoint` | src/lib/preprocessor.ts:34-43 | whenever a window is cut within 100 characters of the cursor, the next cursor is mapped to itself by every later pass, so the loop never ends |
| `Chunker.FixpointLoopsForever` | src/lib/preprocessor.ts:25-43 | a cursor that a pass maps to itself is kept for any number of passes |
| `Chunker.StallExample` | src/lib/preprocessor.ts:34-43 | for `"Hi. "` followed by 1200 `x`, the cursor becomes -97 and stays there, and each pass pushes the empty `text.slice(-97, 3)` |
| `Search.Put` | src/lib/search.ts:14 | `Map.set` on the key list and the map; specified by `PutWellFormed`, `PutEntries`, `PutNewAppends` and `PutExistingKeepsPosition` |
| `Search.Filter` | src/lib/search.ts:22-25 | the `filter` on lower-cased content or path; specified by `FilterMembers` and `FilterAppend` |
| `Search.SearchIndex.constructor` | src/lib/search.ts:10 | the index starts empty |
| `Search.SearchIndex.Save` | src/lib/search.ts:13-15 | `saveToIndex` keeps one entry per path, each stored under its own path, and makes the state `Put(old, data)` |
| `Search.PutWellFormed` | src/lib/search.ts:10-14 | `set` keeps each key listed once, and the listed keys are exactly the keys of the map |
| `Search.PutEntries` | src/lib/search.ts:14 | after a save the path holds exactly the saved result, and every other path is unchanged |
| `Search.PutNewAppends` | src/lib/search.ts:14 | a new path goes to the end of the iteration order |
| `Search.PutExistingKeepsPosition` | src/lib/search.ts:14 | saving an existing path replaces its value at its original position |
| `Search.SaveAllLastWins` | src/lib/search.ts:14 | after several saves, a path holds the last result saved under it |
| `Search.SaveAllUntouched` | src/lib/search.ts:14 | a path that none of several saves uses keeps its value |
| `Search.SearchIndex.Search` | src/lib/search.ts:18-27 | `searchContent` reads the index without changing it and returns at most 5 entries, all of them matching |
| `Search.SearchIn` | src/lib/search.ts:26 | at most 5 results |
| `Search.SearchResults` | src/lib/search.ts:19-26 | the results are the first at most 5 matching entries in insertion order; when at most 5 match, every match is returned |
| `Search.FilterMembers` | src/lib/search.ts:22-25 | an entry is kept exactly when its lower-cased content or path contains the lower-cased query |
| `Search.FilterAppend` | src/lib/search.ts:21-25 | the filter keeps the iteration order |
| `Search.EmptyQueryTakesFirst` | src/lib/search.ts:19-26 | the empty query returns the first `min(5, n)` entries |
| `Search.EmptyIndexFindsNothing` | src/lib/search.ts:21-26 | an empty index returns `[]` |
| `Search.SaveNewThenFilter` | src/lib/search.ts:14-25 | saving a new path adds that result, and only it, to the end of any query's matches when it matches |
| `Repositories.GetTargetRepositories` | src/lib/repositories.ts:7-13 | `getTargetRepositories` on the value of the variable, `''` when unset; specified by `EmptyInput` and `FormatRoundTrip` |
| `Repositories.ParseRepositories` | src/lib/repositories.ts:9-12 | split at commas, then parse and filter each piece; specified by `ParseConcat`, `AtMostOnePerPiece` and `FormatRoundTrip` |
| `Repositories.ParsePiece` | src/lib/repositories.ts:10-12 | a kept piece has a non-empty owner and name, neither containing `/` |
| `Repositories.ParsePieces` | src/lib/repositories.ts:9-12 | no more repositories than comma pieces |
| `Repositories.EmptyInput` | src/lib/repositories.ts:8-12 | an unset or empty variable gives `[]` |
| `Repositories.AtMostOnePerPiece` | src/lib/repositories.ts:9-12 | at most one repository per comma piece, each with a non-empty owner and name free of `/` and `,` |
| `Repositories.ParsePiecesAppend` | src/lib/repositories.ts:9-12 | pieces are parsed independently, in input order |
| `Repositories.ParseConcat` | src/lib/repositories.ts:9-12 | the list of `a,b` is the list of `a` followed by the list of `b` |
| `Repositories.OwnerAndNameFirst` | src/lib/repositories.ts:10 | the first two `/`-segments of the trimmed piece are taken as owner and name, and later segments are ignored |
| `Repositories.ExtraSegmentsIgnored` | src/lib/repositories.ts:10 | `a/b/c` gives owner `a`, name `b` |
| `Repositories.InnerSpacesKept` | src/lib/repositories.ts:10 | `a / b` gives owner `a ` and name ` b`: only the whole piece is trimmed |
| `Repositories.NoSlashDropped` | src/lib/repositories.ts:10-12 | a piece without `/` is dropped |
| `Repositories.EmptyOwnerDropped` | src/lib/repositories.ts:10-12 | a piece starting with `/` is dropped |
| `Repositories.EmptyNameDropped` | src/lib/repositories.ts:10-12 | a piece with nothing after its first `/` before the next one is dropped |
| `Repositories.OwnerOnlyDropped` | src/lib/repositories.ts:12 | `a` is dropped |
| `Repositories.SlashFirstDropped` | src/lib/repositories.ts:12 | `/b` is dropped |
| `Repositories.SlashLastDropped` | src/lib/repositories.ts:12 | `a/` is dropped |
| `Repositories.EmptyPieceDropped` | src/lib/repositories.ts:12 | an empty piece is dropped |
| `Repositories.FormatRoundTrip` | src/lib/repositories.ts:7-13 | a non-empty list of listable repositories, each with a non-empty owner and name free of `/` and `,`, no white space at the start of the owner and none at the end of the name, written as `owner/name,owner/name` parses back to itself |
| `RagPipeline.ContextEntry` | src/lib/rag-pipeline.ts:12-15 | the content followed by its citation; specified by `EntryStartsWithContent`, `LicenseAppended` and `EmptyLicenseIsAbsent` |
| `RagPipeline.BuildContext` | src/lib/rag-pipeline.ts:11-16 | the entries joined by a blank line; specified by `NoChunksEmptyContext` and `ContextAppend` |
| `RagPipeline.BuildPrompt` | src/lib/rag-pipeline.ts:19-34 | the prompt template around context and query; specified by `PromptLayout`, `PromptDeterminesContext` and `PromptDeterminesQuery` |
| `RagPipeline.GenerateResponse` | src/lib/rag-pipeline.ts:6-47 | the generator applied to the prompt built from the retrieved chunks; specified by `GenerationPassedThrough` |
| `RagPipeline.EmptyLicenseIsAbsent` | src/lib/rag-pipeline.ts:12-14 | an empty-string license is treated like a missing one |
| `RagPipeline.LicenseAppended` | src/lib/rag-pipeline.ts:12-15 | a non-empty license appends exactly ` (License: …)` after the source line |
| `RagPipeline.EntryStartsWithContent` | src/lib/rag-pipeline.ts:12-15 | each entry starts with the content, a newline and `Source: <path>` |
| `RagPipeline.NoChunksEmptyContext` | src/lib/rag-pipeline.ts:11-16 | no chunks give the empty context |
| `RagPipeline.ContextAppend` | src/lib/rag-pipeline.ts:11-16 | entries follow the retrieval order, separated by a blank line, with no separator after the last |
| `RagPipeline.PromptLayout` | src/lib/rag-pipeline.ts:19-34 | the prompt is the fixed opening, the context verbatim, `質問: `, the query verbatim, then the fixed requirements |
| `RagPipeline.PromptDeterminesContext` | src/lib/rag-pipeline.ts:19-34 | equal prompts for one query have equal contexts |
| `RagPipeline.PromptDeterminesQuery` | src/lib/rag-pipeline.ts:19-34 | equal prompts for one context have equal queries |
| `RagPipeline.GenerationPassedThrough` | src/lib/rag-pipeline.ts:39-46 | a generation error is passed on unchanged, with no retry, and a response text is returned unchanged |
| `GithubFetch.RateLimitTooLow` | src/lib/github-fetch.ts:13-16 | the rate-limit gate on exact integers; specified by `RateLimitThreshold` |
| `GithubFetch.EventDocuments` | src/lib/github-fetch.ts:18-28 | the documents the dispatched handler saves; others save none; specified by `ProcessGitHubEvent` and `UnhandledEventSavesNothing` |
| `GithubFetch.PushDocuments` | src/lib/github-fetch.ts:31-68 | the documents of a push, commit by commit; specified by `FileDocumentsSound`, `FileDocumentsComplete` and `PushDocumentsFromFiles` |
| `GithubFetch.IsCodeFile` | src/lib/github-fetch.ts:54 | the extension test `/\.(js|…|h)$/i`; specified by `FileKind` and the examples below |
| `GithubFetch.ItemGate` | src/lib/github-fetch.ts:71-74 | the action and spam gate of the item handlers; specified by `ItemGateExact` and `BodyThreshold` |
| `GithubFetch.ItemLabel` | src/lib/github-fetch.ts:81 | the path `<prefix> #<n>: <title>`; specified by `LabelDeterminesItem` and `PullRequestAndIssueLabelsDiffer` |
| `GithubFetch.ProcessGitHubEvent` | src/lib/github-fetch.ts:5-29 | a low rate limit fails with `Rate limit is too low` and leaves the index alone; otherwise the index receives exactly the event's documents, in order |
| `GithubFetch.RateLimitThreshold` | src/lib/github-fetch.ts:14 | the integer gate `10 * remaining < limit` is exactly `remaining < limit * 0.1` over the reals |
| `GithubFetch.UnhandledEventSavesNothing` | src/lib/github-fetch.ts:18-28 | an event type other than `push`, `pull_request`, `issues` saves nothing |
| `GithubFetch.HandlePushEvent` | src/lib/github-fetch.ts:31-68 | the intended push handler: every file of every commit, in order, is saved one at a time, with the file's text in place of the `getContent` response (see Left out) |
| `GithubFetch.PushFileStep` | src/lib/github-fetch.ts:41-65 | a removed file saves nothing; any other file saves its document, made from the file's text |
| `GithubFetch.FileDocumentsSound` | src/lib/github-fetch.ts:41-65 | every saved document belongs to a file of the commit that was not removed |
| `GithubFetch.FileDocumentsComplete` | src/lib/github-fetch.ts:41-65 | every file of the commit that was not removed has its document saved, made from the file's text |
| `GithubFetch.OnlyRemovedSavesNothing` | src/lib/github-fetch.ts:42-44 | a commit whose files were all removed saves nothing |
| `GithubFetch.PushDocumentsFromFiles` | src/lib/github-fetch.ts:33-66 | every document of a push comes from a file, not removed, of one of its commits |
| `GithubFetch.RemovedPathUntouched` | src/lib/github-fetch.ts:41-65 | a path named only by removed files keeps what the index held |
| `GithubFetch.FileKind` | src/lib/github-fetch.ts:54-64 | a file is saved under its name, as code exactly when its name has a code extension, with the matching preprocessing |
| `GithubFetch.UpperCaseExtensionIsCode` | src/lib/github-fetch.ts:54 | `Main.TS` is code: the match ignores letter case |
| `GithubFetch.HeaderIsCode` | src/lib/github-fetch.ts:54 | `lib/x.h` is code |
| `GithubFetch.DocumentNames` | src/lib/github-fetch.ts:54 | `README.md` is a document, and so is `a.tsx`: `$` anchors the extension |
| `GithubFetch.NotCodeByLastChar` | src/lib/github-fetch.ts:54 | a name whose last letter ends no extension is not code |
| `GithubFetch.HandlePREvent` | src/lib/github-fetch.ts:70-85 | the index receives the pull request's document when the gate admits it, and nothing otherwise |
| `GithubFetch.HandleIssueEvent` | src/lib/github-fetch.ts:87-102 | the index receives the issue's document when the gate admits it, and nothing otherwise |
| `GithubFetch.ItemGateExact` | src/lib/github-fetch.ts:71-74 | an item event saves one document exactly when the action is `opened` or `edited` and the body has at least 50 characters, and none otherwise |
| `GithubFetch.BodyThreshold` | src/lib/github-fetch.ts:74 | a 49-character body, another action or a missing body saves nothing; a 50-character body is saved |
| `GithubFetch.ItemDocumentShape` | src/lib/github-fetch.ts:76-84 | a saved item is a document holding the preprocessed body under `<prefix> #<n>: <title>` |
| `GithubFetch.LabelDeterminesItem` | src/lib/github-fetch.ts:81 | equal labels with one prefix have equal numbers and titles |
| `GithubFetch.PullRequestAndIssueLabelsDiffer` | src/lib/github-fetch.ts:81-98 | a pull-request label is never an issue label |
| `GithubFetch.PullRequestSaved` | src/lib/github-fetch.ts:70-85 | an admitted pull request is stored under its label with the preprocessed body, and every other path is unchanged |
| `InitialIndex.IsCodePathAsWritten` | scripts/initial-index.ts:58 | the classifier as written, with `\\.`; specified by `NoBackslashNeverCode`, `SlashPathIsDocument` and `BackslashPathIsCode` |
| `InitialIndex.RepositoryUpsert` | scripts/initial-index.ts:20-31 | the row the repository upsert stores; specified by `RepositoryCreated` and `RepositoryReindexed` |
| `InitialIndex.DocumentUpsert` | src/lib/vector-store.ts:14-36 | the row the document upsert stores; specified by `DocumentUpdated` |
| `InitialIndex.PartLabel` | scripts/initial-index.ts:77 | the path of part `k` of `n`; specified by `SinglePartKeepsPath` and `PartLabelsDistinct` |
| `InitialIndex.UpsertChunks` | scripts/initial-index.ts:64-81 | the document table after the first `m` chunks, with the first embedding error; specified by `PartsStored`, `EarlierPartsKept`, `UpsertChunksStops` and `OtherRowsUnchanged` |
| `InitialIndex.FileStep` | scripts/initial-index.ts:43-88 | one tree item; specified by `SkippedItemsChangeNothing`, `FetchErrorLogged`, `FileIndexed` and `EmbedFailureKeepsEarlierParts` |
| `InitialIndex.IssueStep` | scripts/initial-index.ts:101-117 | one issue; specified by `ShortIssueSkipped`, `IssueStored` and `IssueFailureAborts` |
| `InitialIndex.IndexRun` | scripts/initial-index.ts:11-125 | the whole run: repository row, documents, outcome, pauses and logged paths; specified by `RepositoryFetchFails`, `RunRepositories` and `RunPauses` |
| `InitialIndex.NoBackslashNeverCode` | scripts/initial-index.ts:58 | without a backslash in the path, nothing is classified as code |
| `InitialIndex.SlashPathIsDocument` | scripts/initial-index.ts:58 | `src/a.ts` is a document here, although the webhook classifier calls it code |
| `InitialIndex.BackslashPathIsCode` | scripts/initial-index.ts:58 | `a\.ts` and `a\xts` are code: the pattern wants a backslash and then any one character |
| `InitialIndex.SlashPartsAreDocuments` | scripts/initial-index.ts:58-73 | every chunk of a `/`-separated path is typed `document` and preprocessed with `preprocessDocument` |
| `InitialIndex.Database.UpsertRepository` | scripts/initial-index.ts:20-31 | the repository upsert stores the created or updated row under its id |
| `InitialIndex.RepositoryCreated` | scripts/initial-index.ts:22-27 | a new row gets id, name, owner and license |
| `InitialIndex.RepositoryReindexed` | scripts/initial-index.ts:28-30 | re-indexing changes only `lastIndexed`, so the license is never refreshed |
| `InitialIndex.RunRepositories` | scripts/initial-index.ts:20-31 | a run re-indexes or creates its own repository row and keeps every other row |
| `InitialIndex.RepositoryFetchFails` | scripts/initial-index.ts:121-124 | a failed repository fetch is rethrown before anything is written |
| `InitialIndex.Database.UpsertDocument` | src/lib/vector-store.ts:14-36 | the document upsert is `PutDocument`, keyed by `(repoId, path)`, and leaves the repository table alone |
| `InitialIndex.DocumentUpdated` | src/lib/vector-store.ts:30-34 | an update replaces content and embedding, replaces the license only when one is given, and keeps repository, type and path |
| `InitialIndex.PutDocumentOthers` | src/lib/vector-store.ts:15-20 | the upsert writes only the row under its own key |
| `InitialIndex.Database.IndexChunks` | scripts/initial-index.ts:64-81 | the chunk loop upserts the parts in order and stops at the first failed embedding, as `UpsertChunks` says |
| `InitialIndex.IndexChunkStep` | scripts/initial-index.ts:65-80 | one pass: a failed embedding ends the loop with that error; otherwise the part is upserted under its label |
| `InitialIndex.UpsertChunksNext` | scripts/initial-index.ts:64-81 | one more chunk either fails with its embedding error or upserts its part |
| `InitialIndex.UpsertChunksStops` | scripts/initial-index.ts:64-85 | once an embedding has failed, later chunks change nothing |
| `InitialIndex.SinglePartKeepsPath` | scripts/initial-index.ts:77 | a single chunk keeps the bare path |
| `InitialIndex.PartLabelsDistinct` | scripts/initial-index.ts:77 | the `(part i)` labels of one file are pairwise different |
| `InitialIndex.PartStoredAfterPut` | scripts/initial-index.ts:71-80 | upserting one part keeps every other part stored |
| `InitialIndex.PartsStored` | scripts/initial-index.ts:64-81 | when every embedding succeeds, every part is stored under its own label with its preprocessed text and that text's embedding |
| `InitialIndex.EarlierPartsKept` | scripts/initial-index.ts:64-85 | parts stored before a failure are still stored at the end |
| `InitialIndex.OtherRowsUnchanged` | scripts/initial-index.ts:64-81 | rows that are no part of the file are unchanged |
| `InitialIndex.Database.IndexFiles` | scripts/initial-index.ts:42-89 | the tree loop computes `RunFiles`: the document table, the pauses and the logged paths |
| `InitialIndex.SkippedItemsChangeNothing` | scripts/initial-index.ts:43-56 | non-blobs, items without a path and non-file contents change nothing and take no pause |
| `InitialIndex.FetchErrorLogged` | scripts/initial-index.ts:82-85 | a failed content fetch logs the path, skips the pause and leaves the table unchanged |
| `InitialIndex.FileStepContent` | scripts/initial-index.ts:58-88 | a fetched file runs the chunk loop, then takes a pause, or logs the path when an embedding failed |
| `InitialIndex.FileIndexed` | scripts/initial-index.ts:58-88 | the raw content is chunked first, then each chunk is preprocessed: part `k` holds the preprocessed `k`-th chunk, and one pause follows |
| `InitialIndex.ChunkLoopFails` | scripts/initial-index.ts:64-84 | a failed embedding of chunk `j` ends the loop with an error, with the parts before `j` stored |
| `InitialIndex.EmbedFailureKeepsEarlierParts` | scripts/initial-index.ts:69-85 | a failed embedding keeps the earlier parts, logs the path and skips the pause |
| `InitialIndex.RunFilesCounts` | scripts/initial-index.ts:42-89 | each tree item takes at most one pause or one log line, and logged paths accumulate in order |
| `InitialIndex.Database.IndexIssues` | scripts/initial-index.ts:100-118 | the issue loop computes `RunIssues` and returns the first failed embedding as the error |
| `InitialIndex.IssueNext` | scripts/initial-index.ts:100-118 | one more issue: an error ends the loop; otherwise the loop goes on from the new state |
| `InitialIndex.ShortIssueSkipped` | scripts/initial-index.ts:101 | an issue with a missing or shorter-than-50 body is skipped without a pause |
| `InitialIndex.IssueStored` | scripts/initial-index.ts:101-117 | an admitted issue is stored under `Issue #<n>: <title>` with its preprocessed body (typed `document` when new), and a pause follows |
| `InitialIndex.IssueFailureAborts` | scripts/initial-index.ts:100-124 | a failed issue embedding ends the run with that error, and later issues are not looked at |
| `InitialIndex.RunIssuesCounts` | scripts/initial-index.ts:100-118 | each issue takes at most one pause, and issues log nothing |
| `InitialIndex.Database.IndexRepository` | scripts/initial-index.ts:11-125 | `indexRepository` computes `IndexRun`: repository row, documents, outcome, pauses and logged paths |
| `InitialIndex.RunPauses` | scripts/initial-index.ts:42-118 | a run pauses at most once per tree item and issue |

## Left out

- Octokit calls are parameters, not calls: the rate-limit reading, the pushed files with their fetched content, the repository data, the tree, the issue list and each file's content. A failure of the webhook's own Octokit calls (`rateLimit.get`, `getCommit`, `getContent`) is not modelled.
- The push handler passes the whole `getContent` response to the preprocessors (src/lib/github-fetch.ts:47-57). For a file that response is an object, not a string, so `content.replace` is not a function. As written, the handler throws a `TypeError` at the first file that was not removed, `processGitHubEvent` rejects, and nothing more of that push is saved. `GithubFetch.HandlePushEvent` models the intended behaviour instead: it passes the file's text. The crash is not modelled.
- Base64 decoding of file contents is left out: the fetcher returns the decoded text.
- Embeddings (`createEmbedding`) come from an embedder function returning a vector of `real` or an error. Embeddings are opaque values.
- `searchVectorStore` (SQL cosine similarity over floats) and the Gemini call are inputs of `RagPipeline.GenerateResponse`.
- `setTimeout` pauses are counted, not timed.
- Console output is left out. The paths logged as failed are kept as a list; the warning for an item without a path is not.
- `process.env`, `process.argv`, the script's entry point and `prisma.$disconnect` are left out. The value of `TARGET_REPOSITORIES` is a parameter.
- Database upserts never fail in the model. A failing upsert inside the file loop would be logged like a failed fetch.
- New repository rows get no `lastIndexed`: the Prisma schema and its defaults are not part of this model.
- An `undefined` license leaves the stored license unchanged on update, as Prisma treats `undefined`.
- Calls are awaited one after the other, so the model is sequential; concurrency is left out.
- The UI, the API routes and `src/lib/embedder.ts` are not part of this model.
- `listForRepo` also lists pull requests. Here every listed item is treated as an issue, as the script does.
- `toLowerCase` and the `/i` flag are modelled on ASCII letters only. Other characters are left unchanged.
- Text is a sequence of non-surrogate UTF-16 code units: a Dafny `char` has no surrogate values. Text with characters outside the Basic Multilingual Plane, which JavaScript stores as two code units, is outside the model. So is the chunker splitting such a pair at a window edge.
- `GithubFetch.RateLimitThreshold`: the gate is compared over exact integers (`10 * remaining < limit`). Floating-point rounding of `limit * 0.1` is not modelled.
- `Chunker.SplitIntoChunks`: requires that the loop makes progress (`Chunks(text, 0).Some?`). The source loops forever otherwise: `Chunker.StallIsFixpoint` shows that every stall is a cursor that no later pass moves, and `Chunker.StallExample` gives such a text.
- `InitialIndex.Database.IndexFiles`: requires every fetched file to be chunkable, because the source does not terminate on a file where the chunker stalls.
- `InitialIndex.Database.IndexRepository`: requires every fetched file of the tree to be chunkable, for the same reason.
