/**
 * Context and prompt assembly in `generateResponse` of src/lib/rag-pipeline.ts.
 * Retrieval (`searchVectorStore`) and generation (the Gemini call) are inputs:
 * the retrieved chunks are a parameter and the model is a function from the
 * prompt to its text or an error.
 */
module RagPipeline {
  import opened Wrappers
  import opened JsString

  /** A row returned by `searchVectorStore`; the stored license may be null. */
  datatype RetrievedChunk = RetrievedChunk(content: string, path: string, license: Option<string>)

  /** `chunk.metadata.license ? ... : ...`: only a non-empty string is truthy. */
  predicate HasLicense(c: RetrievedChunk) {
    c.license.Some? && c.license.value != ""
  }

  function Citation(c: RetrievedChunk): string {
    if HasLicense(c) then "\nSource: " + c.path + " (License: " + c.license.value + ")"
    else "\nSource: " + c.path
  }

  function ContextEntry(c: RetrievedChunk): string {
    c.content + Citation(c)
  }

  function ContextEntries(chunks: seq<RetrievedChunk>): (r: seq<string>)
    ensures |r| == |chunks|
    ensures forall i :: 0 <= i < |r| ==> r[i] == ContextEntry(chunks[i])
  {
    seq(|chunks|, i requires 0 <= i < |chunks| => ContextEntry(chunks[i]))
  }

  /** `relevantChunks.map(...).join('\n\n')`. */
  function BuildContext(chunks: seq<RetrievedChunk>): string {
    Join(ContextEntries(chunks), "\n\n")
  }

  const PromptHead: string := "あなたはGitHubリポジトリのコードベースに関する質問に答えるアシスタントです。\n以下のコンテキストを使用して、質問に対して正確で具体的な回答を提供してください。\n\nコンテキスト情報:\n"
  const QuestionLabel: string := "\n\n質問: "
  const PromptTail: string := "\n\n回答の要件:\n1. 提供されたコンテキストに基づいて、具体的かつ正確に回答してください\n2. コードを引用する場合は、必ずそのファイルパスを明記してください\n3. 該当する場合は、コードのライセンス情報も含めてください\n4. コンテキストに含まれていない情報について推測する場合は、その旨を明確に示してください\n5. 回答は簡潔にまとめ、箇条書きを活用してください\n\n回答："

  /** The template literal of lines 19-34. */
  function BuildPrompt(context: string, query: string): string {
    PromptHead + context + QuestionLabel + query + PromptTail
  }

  /** The model call: the prompt goes in, the response text or the error comes out. */
  type Generator = string -> Result<string, string>

  /** `generateResponse(query)` given what retrieval returned. */
  function GenerateResponse(query: string, retrieved: seq<RetrievedChunk>, generate: Generator): Result<string, string> {
    generate(BuildPrompt(BuildContext(retrieved), query))
  }

  // ---------------------------------------------------------------------------
  // Properties

  /** An empty-string license is treated like a missing one. */
  lemma EmptyLicenseIsAbsent(content: string, path: string)
    ensures ContextEntry(RetrievedChunk(content, path, Some(""))) ==
      ContextEntry(RetrievedChunk(content, path, None))
  {
  }

  /** A non-empty license adds exactly the license note after the path. */
  lemma LicenseAppended(content: string, path: string, license: string)
    requires license != ""
    ensures ContextEntry(RetrievedChunk(content, path, Some(license))) ==
      ContextEntry(RetrievedChunk(content, path, None)) + " (License: " + license + ")"
  {
    var base := content + "\nSource: " + path;
    assert ContextEntry(RetrievedChunk(content, path, None)) == base;
  }

  /** Each entry starts with the chunk's content and then its source line. */
  lemma EntryStartsWithContent(c: RetrievedChunk)
    ensures StartsWith(ContextEntry(c), c.content + "\nSource: " + c.path)
  {
    var p := c.content + "\nSource: " + c.path;
    if HasLicense(c) {
      assert ContextEntry(c) == p + (" (License: " + c.license.value + ")");
    } else {
      assert ContextEntry(c) == p;
    }
  }

  lemma NoChunksEmptyContext()
    ensures BuildContext([]) == ""
  {
  }

  /**
   * Entries follow the retrieval order, separated by a blank line and with no
   * separator after the last one.
   */
  lemma {:induction false} ContextAppend(chunks: seq<RetrievedChunk>, c: RetrievedChunk)
    ensures BuildContext(chunks + [c]) ==
      (if chunks == [] then ContextEntry(c) else BuildContext(chunks) + "\n\n" + ContextEntry(c))
    decreases |chunks|
  {
    var es := ContextEntries(chunks + [c]);
    if |chunks| == 1 {
      assert es == [ContextEntry(chunks[0]), ContextEntry(c)];
      assert es[1..] == [ContextEntry(c)];
      assert ContextEntries(chunks) == [ContextEntry(chunks[0])];
      assert Join(es, "\n\n") == es[0] + "\n\n" + Join(es[1..], "\n\n");
    } else if |chunks| > 1 {
      ContextAppend(chunks[1..], c);
      assert (chunks + [c])[1..] == chunks[1..] + [c];
      assert es[1..] == ContextEntries(chunks[1..] + [c]);
      assert ContextEntries(chunks)[1..] == ContextEntries(chunks[1..]);
      assert es[0] == ContextEntries(chunks)[0];
    }
  }

  /** The context sits verbatim right after the fixed opening of the prompt, and the query after its label. */
  lemma PromptLayout(context: string, query: string)
    ensures var p := BuildPrompt(context, query);
      var q0 := |PromptHead| + |context| + |QuestionLabel|;
      && |p| == q0 + |query| + |PromptTail|
      && p[|PromptHead|..|PromptHead| + |context|] == context
      && p[q0..q0 + |query|] == query
      && p[q0 + |query|..] == PromptTail
  {
    var p := BuildPrompt(context, query);
    assert p == PromptHead + context + QuestionLabel + query + PromptTail;
  }

  /** Different contexts give different prompts for the same question. */
  lemma PromptDeterminesContext(c1: string, c2: string, query: string)
    requires BuildPrompt(c1, query) == BuildPrompt(c2, query)
    ensures c1 == c2
  {
    PromptLayout(c1, query);
    PromptLayout(c2, query);
  }

  /** Different questions give different prompts for the same context. */
  lemma PromptDeterminesQuery(context: string, q1: string, q2: string)
    requires BuildPrompt(context, q1) == BuildPrompt(context, q2)
    ensures q1 == q2
  {
    PromptLayout(context, q1);
    PromptLayout(context, q2);
  }

  /** A generation error is passed on unchanged; a success is the response text unchanged. */
  lemma GenerationPassedThrough(query: string, retrieved: seq<RetrievedChunk>, generate: Generator)
    ensures var prompt := BuildPrompt(BuildContext(retrieved), query);
      && (GenerateResponse(query, retrieved, generate).Failure? <==> generate(prompt).Failure?)
      && (generate(prompt).Failure? ==> GenerateResponse(query, retrieved, generate).error == generate(prompt).error)
      && (generate(prompt).Success? ==> GenerateResponse(query, retrieved, generate).value == generate(prompt).value)
  {
  }
}
