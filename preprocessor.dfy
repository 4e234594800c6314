/**
 * The two normalisers of src/lib/preprocessor.ts. Each global regular-expression
 * `replace` is written out as the left-to-right scan JavaScript performs: at each
 * position the pattern is tried, a match is replaced and scanning resumes after
 * it, otherwise the character is kept and scanning moves on by one.
 */
module Preprocessor {
  import opened Wrappers
  import opened JsString

  // ---------------------------------------------------------------------------
  // Shape of normalised text

  /** The only white-space character left is the ASCII space. */
  ghost predicate SpacesArePlain(s: string) {
    forall c :: c in s && IsSpace(c) ==> c == ' '
  }

  /** No two white-space characters are adjacent. */
  ghost predicate NoDoubleSpace(s: string) {
    forall i :: 0 <= i < |s| - 1 ==> !(IsSpace(s[i]) && IsSpace(s[i + 1]))
  }

  /** Neither end is white space. */
  ghost predicate Trimmed(s: string) {
    s == [] || (!IsSpace(s[0]) && !IsSpace(s[|s| - 1]))
  }

  /** The characters of `s` other than white space, in order. */
  function NonSpace(s: string): string
    decreases |s|
  {
    if s == [] then [] else (if IsSpace(s[0]) then [] else [s[0]]) + NonSpace(s[1..])
  }

  // ---------------------------------------------------------------------------
  // preprocessCode, step 1: /\/\*[\s\S]*?\*\/|\/\/.*/g replaced by ''

  /** `t` contains no "*" immediately followed by "/". */
  ghost predicate NoCloser(t: string) {
    forall k :: 0 <= k < |t| - 1 ==> !(t[k] == '*' && t[k + 1] == '/')
  }

  /** `[\s\S]*?\*\/` at the start of `t`: the length up to and including the first "*" "/". */
  function BlockCloseEnd(t: string): Option<nat>
    decreases |t|
  {
    if |t| < 2 then None
    else if t[0] == '*' && t[1] == '/' then Some(2)
    else match BlockCloseEnd(t[1..])
      case None => None
      case Some(n) => Some(n + 1)
  }

  /** The match ends with the first closing delimiter; without one there is no match. */
  lemma {:induction false} BlockCloseFirst(t: string)
    ensures var r := BlockCloseEnd(t);
      && (r.Some? ==> 2 <= r.value <= |t| && t[r.value - 2] == '*' && t[r.value - 1] == '/')
      && (r.Some? ==> NoCloser(t[..r.value - 1]))
      && (r.None? ==> NoCloser(t))
    decreases |t|
  {
    if |t| >= 2 && !(t[0] == '*' && t[1] == '/') {
      BlockCloseFirst(t[1..]);
      var r := BlockCloseEnd(t);
      if r.Some? {
        assert t[..r.value - 1][1..] == t[1..][..r.value - 2];
      }
    }
  }

  /** `.*` at the start of `t`: the number of characters before the first line terminator. */
  function LineLength(t: string): nat
    decreases |t|
  {
    if t == [] || IsLineTerminator(t[0]) then 0 else 1 + LineLength(t[1..])
  }

  /** `.*` stops at the first line terminator, or at the end of the text. */
  lemma {:induction false} LineLengthSpec(t: string)
    ensures var n := LineLength(t);
      && n <= |t|
      && (forall k :: 0 <= k < n ==> !IsLineTerminator(t[k]))
      && (n < |t| ==> IsLineTerminator(t[n]))
    decreases |t|
  {
    if t != [] && !IsLineTerminator(t[0]) {
      LineLengthSpec(t[1..]);
    }
  }

  /** Deletes block comments (up to the first closing delimiter) and line comments
      (up to, not including, the line terminator), blind to string literals. */
  function StripComments(s: string): string
    decreases |s|
  {
    if |s| >= 2 && s[0] == '/' && s[1] == '*' && BlockCloseEnd(s[2..]).Some? then
      BlockCloseFirst(s[2..]);
      StripComments(s[2 + BlockCloseEnd(s[2..]).value..])
    else if |s| >= 2 && s[0] == '/' && s[1] == '/' then
      LineLengthSpec(s[2..]);
      StripComments(s[2 + LineLength(s[2..])..])
    else if s == [] then []
    else [s[0]] + StripComments(s[1..])
  }

  /** Deleting comments never lengthens the text. */
  lemma {:induction false} StripCommentsShorter(s: string)
    ensures |StripComments(s)| <= |s|
    decreases |s|
  {
    if |s| >= 2 && s[0] == '/' && s[1] == '*' && BlockCloseEnd(s[2..]).Some? {
      BlockCloseFirst(s[2..]);
      StripCommentsShorter(s[2 + BlockCloseEnd(s[2..]).value..]);
    } else if |s| >= 2 && s[0] == '/' && s[1] == '/' {
      LineLengthSpec(s[2..]);
      StripCommentsShorter(s[2 + LineLength(s[2..])..]);
    } else if s != [] {
      StripCommentsShorter(s[1..]);
    }
  }

  // ---------------------------------------------------------------------------
  // Both normalisers: /\s+/g replaced by ' '

  /** Every maximal run of white space becomes one space. */
  function CollapseWhitespace(s: string): string
    decreases |s|
  {
    if s == [] then []
    else if IsSpace(s[0]) then
      TrimStartSpec(s);
      [' '] + CollapseWhitespace(TrimStart(s))
    else [s[0]] + CollapseWhitespace(s[1..])
  }

  /** Collapsing never lengthens the text. */
  lemma {:induction false} CollapseShorter(s: string)
    ensures |CollapseWhitespace(s)| <= |s|
    decreases |s|
  {
    if s != [] {
      TrimStartSpec(s);
      CollapseShorter(if IsSpace(s[0]) then TrimStart(s) else s[1..]);
    }
  }

  /** After collapsing, white space is single plain spaces; the first character
      is white space exactly when the input's was. */
  lemma {:induction false} CollapseShape(s: string)
    ensures SpacesArePlain(CollapseWhitespace(s)) && NoDoubleSpace(CollapseWhitespace(s))
    ensures CollapseWhitespace(s) != [] ==> (IsSpace(CollapseWhitespace(s)[0]) <==> IsSpace(s[0]))
    ensures CollapseWhitespace(s) == [] <==> s == []
    decreases |s|
  {
    if s != [] {
      var t := if IsSpace(s[0]) then TrimStart(s) else s[1..];
      TrimStartSpec(s);
      CollapseShape(t);
      var r := CollapseWhitespace(s);
      var rt := CollapseWhitespace(t);
      assert r == [if IsSpace(s[0]) then ' ' else s[0]] + rt;
      assert r[1..] == rt;
      forall c | c in r && IsSpace(c) ensures c == ' ' {
        if c != r[0] {
          assert c in rt;
        }
      }
      forall i | 0 <= i < |r| - 1 ensures !(IsSpace(r[i]) && IsSpace(r[i + 1])) {
        if i > 0 {
          assert r[i] == rt[i - 1] && r[i + 1] == rt[i];
        } else if IsSpace(s[0]) {
          assert rt != [] ==> !IsSpace(t[0]);
        }
      }
    }
  }

  // ---------------------------------------------------------------------------
  // preprocessDocument, steps 2 and 3: /!\[.*?\]\(.*?\)/g and /\[.*?\]\(.*?\)/g

  /** `.*?\)` at the start of `u`: the length up to and including the first ")"
      that no line terminator precedes. */
  function ParenCloseEnd(u: string): Option<nat>
    decreases |u|
  {
    if u == [] || IsLineTerminator(u[0]) then None
    else if u[0] == ')' then Some(1)
    else match ParenCloseEnd(u[1..])
      case None => None
      case Some(n) => Some(n + 1)
  }

  /** A match ends with a ")" inside `u`. */
  lemma {:induction false} ParenCloseSpec(u: string)
    ensures var r := ParenCloseEnd(u);
      r.Some? ==> 1 <= r.value <= |u| && u[r.value - 1] == ')'
    decreases |u|
  {
    if u != [] && !IsLineTerminator(u[0]) && u[0] != ')' {
      ParenCloseSpec(u[1..]);
    }
  }

  /** A match of `.*?\]\(.*?\)`: the lazy text ends at `textEnd`, the match at `end`. */
  datatype LinkMatch = LinkMatch(textEnd: nat, end: nat)

  /** `.*?\]\(.*?\)` at the start of `t`, with the backtracking of the lazy `.*?`:
      the text part grows one character at a time until the rest matches. */
  function LinkTail(t: string): Option<LinkMatch>
    decreases |t|
  {
    if |t| >= 2 && t[0] == ']' && t[1] == '(' && ParenCloseEnd(t[2..]).Some? then
      Some(LinkMatch(0, 2 + ParenCloseEnd(t[2..]).value))
    else if t == [] || IsLineTerminator(t[0]) then None
    else match LinkTail(t[1..])
      case None => None
      case Some(m) => Some(LinkMatch(m.textEnd + 1, m.end + 1))
  }

  /** A match lies inside `t`, with "](" where the text part ends. */
  lemma {:induction false} LinkTailSpec(t: string)
    ensures var r := LinkTail(t);
      && (r.Some? ==> r.value.textEnd + 3 <= r.value.end <= |t|)
      && (r.Some? ==> t[r.value.textEnd] == ']' && t[r.value.textEnd + 1] == '(')
    decreases |t|
  {
    if |t| >= 2 && t[0] == ']' && t[1] == '(' && ParenCloseEnd(t[2..]).Some? {
      ParenCloseSpec(t[2..]);
    } else if t != [] && !IsLineTerminator(t[0]) {
      LinkTailSpec(t[1..]);
    }
  }

  /** Deletes every `![alt](url)`. */
  function RemoveImages(s: string): string
    decreases |s|
  {
    if |s| >= 2 && s[0] == '!' && s[1] == '[' && LinkTail(s[2..]).Some? then
      LinkTailSpec(s[2..]);
      RemoveImages(s[2 + LinkTail(s[2..]).value.end..])
    else if s == [] then []
    else [s[0]] + RemoveImages(s[1..])
  }

  /** Removing images only deletes characters. */
  lemma {:induction false} RemoveImagesChars(s: string)
    ensures forall c :: c in RemoveImages(s) ==> c in s
    decreases |s|
  {
    if |s| >= 2 && s[0] == '!' && s[1] == '[' && LinkTail(s[2..]).Some? {
      LinkTailSpec(s[2..]);
      var rest := s[2 + LinkTail(s[2..]).value.end..];
      RemoveImagesChars(rest);
      assert forall c :: c in rest ==> c in s;
    } else if s != [] {
      RemoveImagesChars(s[1..]);
      assert forall c :: c in s[1..] ==> c in s;
    }
  }

  /** Replaces every `[text](url)` by the two characters "$1": the pattern has no
      capture group, so `$1` is not a group reference and is inserted literally. */
  function ReplaceLinks(s: string): (r: string)
    decreases |s|
  {
    if s != [] && s[0] == '[' && LinkTail(s[1..]).Some? then
      LinkTailSpec(s[1..]);
      "$1" + ReplaceLinks(s[1 + LinkTail(s[1..]).value.end..])
    else if s == [] then []
    else [s[0]] + ReplaceLinks(s[1..])
  }

  /** Replacing links only deletes characters and inserts `$` and `1`. */
  lemma {:induction false} ReplaceLinksChars(s: string)
    ensures forall c :: c in ReplaceLinks(s) ==> c in s || c == '$' || c == '1'
    decreases |s|
  {
    if s != [] && s[0] == '[' && LinkTail(s[1..]).Some? {
      LinkTailSpec(s[1..]);
      var rest := s[1 + LinkTail(s[1..]).value.end..];
      ReplaceLinksChars(rest);
      assert forall c :: c in rest ==> c in s;
    } else if s != [] {
      ReplaceLinksChars(s[1..]);
      assert forall c :: c in s[1..] ==> c in s;
    }
  }

  // ---------------------------------------------------------------------------
  // preprocessDocument, step 4: /[#*_~`]/g replaced by ''

  predicate IsDecoration(c: char) {
    c == '#' || c == '*' || c == '_' || c == '~' || c == '`'
  }

  function StripDecoration(s: string): string
    decreases |s|
  {
    if s == [] then [] else (if IsDecoration(s[0]) then [] else [s[0]]) + StripDecoration(s[1..])
  }

  /** Every character left is one of the input's and is no decoration. */
  lemma {:induction false} StripDecorationChars(s: string)
    ensures forall c :: c in StripDecoration(s) ==> c in s && !IsDecoration(c)
    decreases |s|
  {
    if s != [] {
      StripDecorationChars(s[1..]);
      assert forall c :: c in s[1..] ==> c in s;
    }
  }

  // ---------------------------------------------------------------------------
  // The two pipelines

  /** `preprocessCode`: strip comments, collapse white space, trim. */
  function PreprocessCode(content: string): string {
    Trim(CollapseWhitespace(StripComments(content)))
  }

  /** Code comes out as single plain spaces between non-space text, with no space at either end. */
  lemma PreprocessCodeShape(content: string)
    ensures var r := PreprocessCode(content);
      |r| <= |content| && SpacesArePlain(r) && NoDoubleSpace(r) && Trimmed(r)
  {
    var collapsed := CollapseWhitespace(StripComments(content));
    StripCommentsShorter(content);
    CollapseShorter(StripComments(content));
    CollapseShape(StripComments(content));
    TrimIsSlice(collapsed);
    SliceKeepsShape(collapsed);
  }

  /** `preprocessDocument`: collapse white space, drop images, replace links,
      strip decoration, trim. */
  function PreprocessDocument(content: string): string {
    Trim(StripDecoration(ReplaceLinks(RemoveImages(CollapseWhitespace(content)))))
  }

  /** A document comes out with plain spaces only, no space at either end, and no decoration. */
  lemma PreprocessDocumentShape(content: string)
    ensures var r := PreprocessDocument(content);
      SpacesArePlain(r) && Trimmed(r) && forall c :: c in r ==> !IsDecoration(c)
  {
    CollapseShape(content);
    var collapsed := CollapseWhitespace(content);
    var images := RemoveImages(collapsed);
    var links := ReplaceLinks(images);
    var stripped := StripDecoration(links);
    RemoveImagesChars(collapsed);
    ReplaceLinksChars(images);
    StripDecorationChars(links);
    assert SpacesArePlain(stripped);
    TrimIsSlice(stripped);
    SliceKeepsShape(stripped);
  }

  /** Trimming a string keeps its white-space shape. */
  lemma SliceKeepsShape(s: string)
    ensures SpacesArePlain(s) ==> SpacesArePlain(Trim(s))
    ensures NoDoubleSpace(s) ==> NoDoubleSpace(Trim(s))
    ensures forall c :: c in Trim(s) ==> c in s
  {
    TrimIsSlice(s);
    var i, j :| 0 <= i <= j <= |s| && Trim(s) == s[i..j];
    forall c | c in Trim(s) ensures c in s {
      var k :| 0 <= k < |Trim(s)| && Trim(s)[k] == c;
      assert s[i + k] == c;
    }
    if NoDoubleSpace(s) {
      forall k | 0 <= k < |Trim(s)| - 1 ensures !(IsSpace(Trim(s)[k]) && IsSpace(Trim(s)[k + 1])) {
        assert Trim(s)[k] == s[i + k] && Trim(s)[k + 1] == s[i + k + 1];
      }
    }
  }

  // ---------------------------------------------------------------------------
  // Comment deletion

  lemma {:induction false} BlockCloseAfter(a: string, b: string)
    requires NoCloser(a)
    ensures BlockCloseEnd(a + "*/" + b) == Some(|a| + 2)
    decreases |a|
  {
    if a != [] {
      assert (a + "*/" + b)[1..] == a[1..] + "*/" + b;
      BlockCloseAfter(a[1..], b);
      if |a| == 1 {
        assert (a + "*/" + b)[1] == '*';
      }
    }
  }

  lemma {:induction false} LineLengthAfter(a: string, nl: char, b: string)
    requires forall c :: c in a ==> !IsLineTerminator(c)
    requires IsLineTerminator(nl)
    ensures LineLength(a + [nl] + b) == |a|
    decreases |a|
  {
    if a != [] {
      assert (a + [nl] + b)[1..] == a[1..] + [nl] + b;
      assert a[0] in a;
      LineLengthAfter(a[1..], nl, b);
    }
  }

  /** A block comment is deleted up to the first closing delimiter, and the scan
      goes on right after it. */
  lemma BlockCommentDeleted(a: string, b: string)
    requires NoCloser(a)
    ensures StripComments("/*" + a + "*/" + b) == StripComments(b)
  {
    var s := "/*" + a + "*/" + b;
    assert s[2..] == a + "*/" + b;
    BlockCloseAfter(a, b);
    assert s[2 + |a| + 2..] == b;
  }

  /** A line comment is deleted up to the line terminator; the terminator and the
      following line survive. */
  lemma LineCommentDeleted(a: string, nl: char, b: string)
    requires forall c :: c in a ==> !IsLineTerminator(c)
    requires IsLineTerminator(nl)
    ensures StripComments("//" + a + [nl] + b) == [nl] + StripComments(b)
  {
    var s := "//" + a + [nl] + b;
    assert s[2..] == a + [nl] + b;
    LineLengthAfter(a, nl, b);
    assert s[2 + |a|..] == [nl] + b;
    assert ([nl] + b)[1..] == b;
  }

  /** A line comment on the last line runs to the end of the text. */
  lemma {:induction false} LineCommentAtEnd(a: string)
    requires forall c :: c in a ==> !IsLineTerminator(c)
    ensures StripComments("//" + a) == ""
  {
    var s := "//" + a;
    assert s[2..] == a;
    NoTerminatorLineLength(a);
    assert s[2 + |a|..] == [];
  }

  lemma {:induction false} NoTerminatorLineLength(a: string)
    requires forall c :: c in a ==> !IsLineTerminator(c)
    ensures LineLength(a) == |a|
    decreases |a|
  {
    if a != [] {
      assert a[0] in a;
      NoTerminatorLineLength(a[1..]);
    }
  }

  /** Text without a slash passes through the comment scan unchanged. */
  lemma {:induction false} NoSlashKept(a: string, b: string)
    requires '/' !in a
    ensures StripComments(a + b) == a + StripComments(b)
    decreases |a|
  {
    if a != [] {
      var s := a + b;
      assert s[0] == a[0] && a[0] in a;
      assert s[1..] == a[1..] + b;
      NoSlashKept(a[1..], b);
      assert a == [a[0]] + a[1..];
    } else {
      assert a + b == b;
    }
  }

  /** Text after a "//" that no slash precedes is cut off, whatever quotes surround it. */
  lemma LineCommentCutsLine(head: string, tail: string)
    requires '/' !in head
    requires forall c :: c in tail ==> !IsLineTerminator(c)
    ensures StripComments(head + ("//" + tail)) == head
  {
    NoSlashKept(head, "//" + tail);
    LineCommentAtEnd(tail);
    assert head + "" == head;
  }

  /** Code cut at a line comment keeps the text before it, when that text is already normal. */
  lemma CodeCutAtComment(head: string, tail: string)
    requires '/' !in head && SpacesArePlain(head) && NoDoubleSpace(head) && Trimmed(head)
    requires forall c :: c in tail ==> !IsLineTerminator(c)
    ensures StripComments(head + ("//" + tail)) == head
    ensures PreprocessCode(head + ("//" + tail)) == head
  {
    LineCommentCutsLine(head, tail);
    CollapseNoOp(head);
    TrimNoOp(head);
  }

  lemma UrlPieces(head: string, tail: string)
    requires head == "\"http:" && tail == "x\""
    ensures '/' !in head && SpacesArePlain(head) && NoDoubleSpace(head) && Trimmed(head)
    ensures forall c :: c in tail ==> !IsLineTerminator(c)
  {
  }

  lemma UrlStages(s: string, head: string, tail: string)
    requires s == "\"http://x\"" && head == "\"http:" && tail == "x\""
    ensures StripComments(s) == head && PreprocessCode(s) == head
  {
    assert s == head + ("//" + tail);
    UrlPieces(head, tail);
    CodeCutAtComment(head, tail);
  }

  /** The scan does not know string literals: the "//" inside a quoted URL starts a
      comment that swallows the rest of the line. */
  lemma UrlInStringLiteralTruncated()
    ensures StripComments("\"http://x\"") == "\"http:"
    ensures PreprocessCode("\"http://x\"") == "\"http:"
  {
    UrlStages("\"http://x\"", "\"http:", "x\"");
  }

  // ---------------------------------------------------------------------------
  // White space

  lemma {:induction false} NonSpaceTrimStart(s: string)
    ensures NonSpace(TrimStart(s)) == NonSpace(s)
    decreases |s|
  {
    if s != [] && IsSpace(s[0]) {
      NonSpaceTrimStart(s[1..]);
    }
  }

  /** Collapsing white space keeps every other character, in order. */
  lemma {:induction false} CollapseKeepsText(s: string)
    ensures NonSpace(CollapseWhitespace(s)) == NonSpace(s)
    decreases |s|
  {
    if s != [] {
      if IsSpace(s[0]) {
        var t := TrimStart(s);
        TrimStartSpec(s);
        CollapseKeepsText(t);
        NonSpaceTrimStart(s);
        assert NonSpace([' '] + CollapseWhitespace(t)) == NonSpace(CollapseWhitespace(t)) by {
          assert ([' '] + CollapseWhitespace(t))[1..] == CollapseWhitespace(t);
        }
      } else {
        CollapseKeepsText(s[1..]);
        assert ([s[0]] + CollapseWhitespace(s[1..]))[1..] == CollapseWhitespace(s[1..]);
      }
    }
  }

  /** Text whose white space is already single plain spaces is left as it is. */
  lemma {:induction false} CollapseNoOp(s: string)
    requires SpacesArePlain(s) && NoDoubleSpace(s)
    ensures CollapseWhitespace(s) == s
    decreases |s|
  {
    if s != [] {
      assert s[0] in s;
      assert SpacesArePlain(s[1..]) by {
        forall c | c in s[1..] ensures c in s { }
      }
      assert NoDoubleSpace(s[1..]) by {
        forall i | 0 <= i < |s[1..]| - 1 ensures !(IsSpace(s[1..][i]) && IsSpace(s[1..][i + 1])) {
          assert s[1..][i] == s[i + 1] && s[1..][i + 1] == s[i + 2];
        }
      }
      CollapseNoOp(s[1..]);
      if IsSpace(s[0]) {
        assert |s| > 1 ==> !IsSpace(s[1]);
        assert TrimStart(s) == s[1..];
      }
    }
  }

  /** The code normaliser's output never carries a leading, trailing or doubled
      space, and its only white space is U+0020; it keeps every non-space
      character that the comment scan kept. */
  lemma PreprocessCodeKeepsText(content: string)
    ensures NonSpace(PreprocessCode(content)) == NonSpace(StripComments(content))
  {
    var c := CollapseWhitespace(StripComments(content));
    CollapseKeepsText(StripComments(content));
    NonSpaceTrim(c);
  }

  lemma NonSpaceTrim(s: string)
    ensures NonSpace(Trim(s)) == NonSpace(s)
  {
    NonSpaceTrimStart(s);
    NonSpaceTrimEnd(TrimStart(s));
  }

  lemma {:induction false} NonSpaceTrimEnd(s: string)
    ensures NonSpace(TrimEnd(s)) == NonSpace(s)
    decreases |s|
  {
    if s != [] && IsSpace(s[|s| - 1]) {
      var p := s[..|s| - 1];
      NonSpaceTrimEnd(p);
      NonSpaceAppend(p, [s[|s| - 1]]);
      assert s == p + [s[|s| - 1]];
    }
  }

  lemma {:induction false} NonSpaceAppend(a: string, b: string)
    ensures NonSpace(a + b) == NonSpace(a) + NonSpace(b)
    decreases |a|
  {
    if a != [] {
      assert (a + b)[1..] == a[1..] + b;
      NonSpaceAppend(a[1..], b);
      assert (a + b)[0] == a[0];
    } else {
      assert a + b == b;
    }
  }

  // ---------------------------------------------------------------------------
  // preprocessCode is idempotent

  /** No comment of the comment rule starts at the front of `s`: a "/" is followed
      neither by "/" nor by a "*" that a later "*" "/" closes. */
  ghost predicate NoCommentAtStart(s: string)
    requires |s| >= 2
  {
    s[0] == '/' ==> s[1] != '/' && (s[1] == '*' ==> NoCloser(s[2..]))
  }

  /** No position of `s` starts a comment. */
  ghost predicate CommentFree(s: string)
    decreases |s|
  {
    |s| < 2 || (NoCommentAtStart(s) && CommentFree(s[1..]))
  }

  lemma NoCloserSlice(t: string, a: int, b: int)
    requires 0 <= a <= b <= |t| && NoCloser(t)
    ensures NoCloser(t[a..b])
  {
    forall k | 0 <= k < b - a - 1
      ensures !(t[a..b][k] == '*' && t[a..b][k + 1] == '/')
    {
      assert t[a..b][k] == t[a + k] && t[a..b][k + 1] == t[a + k + 1];
    }
  }

  lemma NoCloserCons(x: char, r: string)
    requires NoCloser(r)
    requires !(x == '*' && r != [] && r[0] == '/')
    ensures NoCloser([x] + r)
  {
    forall k | 0 <= k < |r|
      ensures !(([x] + r)[k] == '*' && ([x] + r)[k + 1] == '/')
    {
      if k > 0 {
        assert ([x] + r)[k] == r[k - 1] && ([x] + r)[k + 1] == r[k];
      }
    }
  }

  /** Without a closing delimiter a block comment does not match. */
  lemma NoCloserNoBlock(t: string)
    requires NoCloser(t)
    ensures BlockCloseEnd(t).None?
  {
    BlockCloseFirst(t);
  }

  lemma FreeCons(x: char, r: string)
    requires CommentFree(r)
    requires x == '/' && r != [] ==> r[0] != '/' && (r[0] == '*' ==> NoCloser(r[1..]))
    ensures CommentFree([x] + r)
  {
    var s := [x] + r;
    assert s[1..] == r;
    if r != [] {
      assert s[0] == x && s[1] == r[0] && s[2..] == r[1..];
    }
  }

  lemma {:induction false} CommentFreeSuffix(s: string, k: nat)
    requires CommentFree(s) && k <= |s|
    ensures CommentFree(s[k..])
    decreases k
  {
    if k > 0 && |s| >= 2 {
      CommentFreeSuffix(s[1..], k - 1);
      assert s[1..][k - 1..] == s[k..];
    }
  }

  lemma {:induction false} CommentFreePrefix(s: string, k: nat)
    requires CommentFree(s) && k <= |s|
    ensures CommentFree(s[..k])
    decreases k
  {
    if k >= 2 {
      var p := s[..k];
      CommentFreePrefix(s[1..], k - 1);
      assert p[1..] == s[1..][..k - 1];
      assert p[0] == s[0] && p[1] == s[1];
      if s[0] == '/' && s[1] == '*' {
        NoCloserSlice(s[2..], 0, k - 2);
        assert p[2..] == s[2..][0..k - 2];
      }
    }
  }

  /** Comment deletion never creates a closing delimiter. */
  lemma {:induction false} StripCommentsNoCloser(t: string)
    requires NoCloser(t)
    ensures NoCloser(StripComments(t))
    decreases |t|
  {
    if |t| >= 2 {
      // no block comment can close inside `t`
      NoCloserSlice(t, 2, |t|);
      assert t[2..|t|] == t[2..];
      NoCloserNoBlock(t[2..]);
    }
    if |t| >= 2 && t[0] == '/' && t[1] == '/' {
      LineLengthSpec(t[2..]);
      var k := 2 + LineLength(t[2..]);
      NoCloserSlice(t, k, |t|);
      assert t[k..|t|] == t[k..];
      StripCommentsNoCloser(t[k..]);
    } else if t != [] {
      NoCloserSlice(t, 1, |t|);
      assert t[1..|t|] == t[1..];
      StripCommentsNoCloser(t[1..]);
      if t[0] == '*' && |t| >= 2 {
        assert t[1] != '/';
        assert t[1..][0] == t[1];
      }
      NoCloserCons(t[0], StripComments(t[1..]));
    }
  }

  /** What the comment rule leaves starts no comment anywhere. */
  lemma {:induction false} StripCommentsFree(s: string)
    ensures CommentFree(StripComments(s))
    decreases |s|
  {
    if |s| >= 2 && s[0] == '/' && s[1] == '*' && BlockCloseEnd(s[2..]).Some? {
      BlockCloseFirst(s[2..]);
      StripCommentsFree(s[2 + BlockCloseEnd(s[2..]).value..]);
    } else if |s| >= 2 && s[0] == '/' && s[1] == '/' {
      LineLengthSpec(s[2..]);
      StripCommentsFree(s[2 + LineLength(s[2..])..]);
    } else if s != [] {
      StripCommentsFree(s[1..]);
      var r := StripComments(s[1..]);
      if s[0] == '/' && |s| >= 2 {
        assert s[1..][0] == s[1] && s[1..][1..] == s[2..];
        assert r == [s[1]] + StripComments(s[2..]);
        if s[1] == '*' {
          BlockCloseFirst(s[2..]);
          StripCommentsNoCloser(s[2..]);
        }
      }
      FreeCons(s[0], r);
    }
  }

  /** Comment-free text passes the comment rule unchanged. */
  lemma {:induction false} StripCommentsId(s: string)
    requires CommentFree(s)
    ensures StripComments(s) == s
    decreases |s|
  {
    if |s| >= 2 {
      if s[0] == '/' && s[1] == '*' {
        NoCloserNoBlock(s[2..]);
      }
      StripCommentsId(s[1..]);
      assert s == [s[0]] + s[1..];
    }
  }

  /** Collapsing white space never creates a closing delimiter. */
  lemma {:induction false} CollapseNoCloser(t: string)
    requires NoCloser(t)
    ensures NoCloser(CollapseWhitespace(t))
    decreases |t|
  {
    if t != [] {
      if IsSpace(t[0]) {
        var u := TrimStart(t);
        TrimStartSpec(t);
        NoCloserSlice(t, |t| - |u|, |t|);
        assert u == t[|t| - |u|..|t|];
        CollapseNoCloser(u);
        NoCloserCons(' ', CollapseWhitespace(u));
      } else {
        NoCloserSlice(t, 1, |t|);
        assert t[1..|t|] == t[1..];
        CollapseNoCloser(t[1..]);
        if t[0] == '*' && |t| >= 2 {
          assert t[1] != '/';
          assert t[1..][0] == t[1];
        }
        NoCloserCons(t[0], CollapseWhitespace(t[1..]));
      }
    }
  }

  /** Collapsing white space never makes a comment start. */
  lemma {:induction false} CollapseFree(s: string)
    requires CommentFree(s)
    ensures CommentFree(CollapseWhitespace(s))
    decreases |s|
  {
    if s != [] {
      if IsSpace(s[0]) {
        var u := TrimStart(s);
        TrimStartSpec(s);
        CommentFreeSuffix(s, |s| - |u|);
        CollapseFree(u);
        FreeCons(' ', CollapseWhitespace(u));
      } else {
        CommentFreeSuffix(s, 1);
        CollapseFree(s[1..]);
        var r := CollapseWhitespace(s[1..]);
        if s[0] == '/' && |s| >= 2 {
          assert NoCommentAtStart(s);
          assert s[1..][0] == s[1] && s[1..][1..] == s[2..];
          if s[1] == '*' {
            assert r == [s[1]] + CollapseWhitespace(s[2..]);
            CollapseNoCloser(s[2..]);
          }
        }
        FreeCons(s[0], r);
      }
    }
  }

  /** Trimming keeps text comment-free. */
  lemma TrimFree(s: string)
    requires CommentFree(s)
    ensures CommentFree(Trim(s))
  {
    var t := TrimStart(s);
    TrimStartSpec(s);
    CommentFreeSuffix(s, |s| - |t|);
    TrimEndSpec(t);
    CommentFreePrefix(t, |TrimEnd(t)|);
  }

  /** The code normaliser leaves nothing the comment rule would delete. */
  lemma PreprocessCodeCommentFree(content: string)
    ensures CommentFree(PreprocessCode(content))
  {
    StripCommentsFree(content);
    CollapseFree(StripComments(content));
    TrimFree(CollapseWhitespace(StripComments(content)));
  }

  /** Normalising code twice gives what normalising it once gives. */
  lemma PreprocessCodeIdempotent(content: string)
    ensures PreprocessCode(PreprocessCode(content)) == PreprocessCode(content)
  {
    var r := PreprocessCode(content);
    PreprocessCodeCommentFree(content);
    StripCommentsId(r);
    PreprocessCodeShape(content);
    CollapseNoOp(r);
    TrimNoOp(r);
  }

  // ---------------------------------------------------------------------------
  // Images and links

  lemma {:induction false} ParenCloseAfter(u: string, b: string)
    requires forall c :: c in u ==> c != ')' && !IsLineTerminator(c)
    ensures ParenCloseEnd(u + ")" + b) == Some(|u| + 1)
    decreases |u|
  {
    if u != [] {
      assert u[0] in u;
      assert (u + ")" + b)[1..] == u[1..] + ")" + b;
      assert forall c :: c in u[1..] ==> c in u;
      ParenCloseAfter(u[1..], b);
    }
  }

  lemma {:induction false} LinkTailAfter(t: string, u: string, b: string)
    requires forall c :: c in t ==> c != ']' && !IsLineTerminator(c)
    requires forall c :: c in u ==> c != ')' && !IsLineTerminator(c)
    ensures LinkTail(t + "](" + u + ")" + b) == Some(LinkMatch(|t|, |t| + |u| + 3))
    decreases |t|
  {
    var s := t + "](" + u + ")" + b;
    if t == [] {
      assert s[2..] == u + ")" + b;
      ParenCloseAfter(u, b);
    } else {
      assert t[0] in t;
      assert s[1..] == t[1..] + "](" + u + ")" + b;
      assert forall c :: c in t[1..] ==> c in t;
      LinkTailAfter(t[1..], u, b);
    }
  }

  /** `![alt](url)` disappears entirely. */
  lemma ImageRemoved(alt: string, url: string, b: string)
    requires forall c :: c in alt ==> c != ']' && !IsLineTerminator(c)
    requires forall c :: c in url ==> c != ')' && !IsLineTerminator(c)
    ensures RemoveImages("![" + alt + "](" + url + ")" + b) == RemoveImages(b)
  {
    var s := "![" + alt + "](" + url + ")" + b;
    assert s[2..] == alt + "](" + url + ")" + b;
    LinkTailAfter(alt, url, b);
    assert s[2 + |alt| + |url| + 3..] == b;
  }

  /** `[text](url)` becomes the literal "$1": the link text is lost. */
  lemma LinkBecomesDollarOne(text: string, url: string, b: string)
    requires forall c :: c in text ==> c != ']' && !IsLineTerminator(c)
    requires forall c :: c in url ==> c != ')' && !IsLineTerminator(c)
    ensures ReplaceLinks("[" + text + "](" + url + ")" + b) == "$1" + ReplaceLinks(b)
  {
    var s := "[" + text + "](" + url + ")" + b;
    assert s[1..] == text + "](" + url + ")" + b;
    LinkTailAfter(text, url, b);
    assert s[1 + |text| + |url| + 3..] == b;
  }

  lemma {:induction false} NoBangKept(a: string, b: string)
    requires '!' !in a
    ensures RemoveImages(a + b) == a + RemoveImages(b)
    decreases |a|
  {
    if a != [] {
      var s := a + b;
      assert s[0] == a[0] && a[0] in a;
      assert s[1..] == a[1..] + b;
      NoBangKept(a[1..], b);
      assert a == [a[0]] + a[1..];
    } else {
      assert a + b == b;
    }
  }

  lemma {:induction false} NoImageKept(s: string)
    requires forall i :: 0 <= i < |s| - 1 ==> !(s[i] == '!' && s[i + 1] == '[')
    ensures RemoveImages(s) == s
    decreases |s|
  {
    if s != [] {
      NoImageKept(s[1..]);
    }
  }

  lemma {:induction false} NoBracketKept(a: string, b: string)
    requires '[' !in a
    ensures ReplaceLinks(a + b) == a + ReplaceLinks(b)
    decreases |a|
  {
    if a != [] {
      var s := a + b;
      assert s[0] == a[0] && a[0] in a;
      assert s[1..] == a[1..] + b;
      NoBracketKept(a[1..], b);
      assert a == [a[0]] + a[1..];
    } else {
      assert a + b == b;
    }
  }

  lemma {:induction false} StripDecorationAppend(a: string, b: string)
    ensures StripDecoration(a + b) == StripDecoration(a) + StripDecoration(b)
    decreases |a|
  {
    if a != [] {
      assert (a + b)[1..] == a[1..] + b;
      StripDecorationAppend(a[1..], b);
      assert (a + b)[0] == a[0];
    } else {
      assert a + b == b;
    }
  }

  lemma {:induction false} NoDecorationKept(a: string)
    requires forall c :: c in a ==> !IsDecoration(c)
    ensures StripDecoration(a) == a
    decreases |a|
  {
    if a != [] {
      assert a[0] in a;
      NoDecorationKept(a[1..]);
    }
  }

  lemma {:induction false} NoSpaceKept(a: string, b: string)
    requires forall c :: c in a ==> !IsSpace(c)
    ensures CollapseWhitespace(a + b) == a + CollapseWhitespace(b)
    decreases |a|
  {
    if a != [] {
      var s := a + b;
      assert s[0] == a[0] && a[0] in a;
      assert s[1..] == a[1..] + b;
      assert forall c :: c in a[1..] ==> c in a;
      NoSpaceKept(a[1..], b);
      assert a == [a[0]] + a[1..];
    } else {
      assert a + b == b;
    }
  }

  lemma OneSpaceKept(b: string)
    requires b == [] || !IsSpace(b[0])
    ensures CollapseWhitespace(" " + b) == " " + CollapseWhitespace(b)
  {
    assert (" " + b)[1..] == b;
    assert TrimStart(" " + b) == b;
  }

  /** Words without white space, joined by single spaces, are already collapsed. */
  lemma {:induction false} CollapseSpacedWords(ws: seq<string>)
    requires |ws| >= 1
    requires forall i :: 0 <= i < |ws| ==> ws[i] != [] && forall c :: c in ws[i] ==> !IsSpace(c)
    ensures CollapseWhitespace(Join(ws, " ")) == Join(ws, " ")
    decreases |ws|
  {
    if |ws| == 1 {
      NoSpaceKept(ws[0], "");
      assert ws[0] + "" == ws[0];
    } else {
      var rest := Join(ws[1..], " ");
      CollapseSpacedWords(ws[1..]);
      assert rest[0] == ws[1][0] by {
        if |ws| > 2 {
          assert rest == ws[1] + " " + Join(ws[2..], " ");
        }
      }
      assert ws[1][0] in ws[1];
      OneSpaceKept(rest);
      NoSpaceKept(ws[0], " " + rest);
      assert Join(ws, " ") == ws[0] + (" " + rest);
    }
  }

  /** Decoration characters on both sides of a word vanish; the rest is kept. */
  lemma {:induction false} DecorationDropped(d: string)
    requires forall c :: c in d ==> IsDecoration(c)
    ensures StripDecoration(d) == []
    decreases |d|
  {
    if d != [] {
      assert d[0] in d;
      assert forall c :: c in d[1..] ==> c in d;
      DecorationDropped(d[1..]);
    }
  }

  lemma EmphasisStripped(a: string, d: string, w: string, e: string)
    requires forall c :: c in a ==> !IsDecoration(c)
    requires forall c :: c in d ==> IsDecoration(c)
    requires forall c :: c in w ==> !IsDecoration(c)
    requires forall c :: c in e ==> !IsDecoration(c)
    ensures StripDecoration(a + (d + (w + (d + e)))) == a + (w + e)
  {
    DecorationDropped(d);
    NoDecorationKept(e);
    var x1 := d + e;
    StripDecorationAppend(d, e);
    assert StripDecoration(x1) == e;
    var x2 := w + x1;
    StripDecorationAppend(w, x1);
    NoDecorationKept(w);
    assert StripDecoration(x2) == w + e;
    var x3 := d + x2;
    StripDecorationAppend(d, x2);
    assert StripDecoration(x3) == w + e;
    StripDecorationAppend(a, x3);
    NoDecorationKept(a);
  }

  /** A link after bracket-free text is the only thing the link rule rewrites. */
  lemma LinkAfter(head: string, text: string, url: string)
    requires '[' !in head
    requires forall c :: c in text ==> c != ']' && !IsLineTerminator(c)
    requires forall c :: c in url ==> c != ')' && !IsLineTerminator(c)
    ensures ReplaceLinks(head + ("[" + text + "](" + url + ")")) == head + "$1"
  {
    var l := "[" + text + "](" + url + ")";
    NoBracketKept(head, l);
    LinkBecomesDollarOne(text, url, "");
    assert l + "" == l;
  }

  lemma ThreeWordsKept(x: string, y: string, z: string)
    requires x != [] && y != [] && z != []
    requires forall c :: c in x + y + z ==> !IsSpace(c)
    ensures CollapseWhitespace(x + " " + y + " " + z) == x + " " + y + " " + z
  {
    var ws := [x, y, z];
    assert ws[1..] == [y, z] && ws[1..][1..] == [z];
    assert Join(ws[1..], " ") == y + " " + z;
    assert Join(ws, " ") == x + " " + (y + " " + z);
    assert x + " " + (y + " " + z) == x + " " + y + " " + z;
    forall i | 0 <= i < |ws|
      ensures ws[i] != [] && forall c :: c in ws[i] ==> !IsSpace(c)
    {
      assert forall c :: c in ws[i] ==> c in x + y + z;
    }
    CollapseSpacedWords(ws);
  }

  /** The document pipeline, one stage at a time. */
  lemma DocumentStages(s: string, c1: string, c2: string, c3: string, c4: string)
    requires CollapseWhitespace(s) == c1 && RemoveImages(c1) == c2
    requires ReplaceLinks(c2) == c3 && StripDecoration(c3) == c4
    ensures PreprocessDocument(s) == Trim(c4)
  {
  }

  // The worked examples below are proved stage by stage on a string parameter
  // that equals the literal, so that no function is unrolled over the literal.

  lemma TwoWordsKept(x: string, y: string)
    requires y != [] && !IsSpace(y[0])
    requires forall c :: c in x ==> !IsSpace(c)
    requires forall c :: c in y ==> !IsSpace(c)
    ensures CollapseWhitespace(x + " " + y) == x + " " + y
  {
    NoSpaceKept(y, "");
    assert y + "" == y;
    OneSpaceKept(y);
    NoSpaceKept(x, " " + y);
    assert x + (" " + y) == x + " " + y;
  }

  lemma NoBangAnywhere(s: string)
    requires '!' !in s
    ensures RemoveImages(s) == s
  {
    NoBangKept(s, "");
    assert s + "" == s;
  }

  /** Emphasised word followed by a link: decoration goes, the link becomes "$1". */
  lemma EmphasisThenLink(d: string, w: string, text: string, url: string)
    requires w != [] && !IsSpace(w[0])
    requires forall c :: c in d ==> IsDecoration(c)
    requires forall c :: c in w ==> !IsDecoration(c)
    requires forall c :: c in d + w + text + url ==> !IsSpace(c) && c != '!'
    requires '[' !in d + w
    requires forall c :: c in text ==> c != ']' && !IsLineTerminator(c)
    requires forall c :: c in url ==> c != ')' && !IsLineTerminator(c)
    ensures PreprocessDocument(d + w + d + " " + ("[" + text + "](" + url + ")")) == w + " $1"
  {
    var x := d + w + d;
    var l := "[" + text + "](" + url + ")";
    var s := x + " " + l;
    EmphasisLinkShape(d, w, text, url);
    TwoWordsKept(x, l);
    NoBangAnywhere(s);
    LinkAfter(x + " ", text, url);
    var r := "" + (d + (w + (d + " $1")));
    assert (x + " ") + "$1" == r;
    EmphasisStripped("", d, w, " $1");
    assert w + " $1" == "" + (w + " $1");
    DocumentStages(s, s, s, r, w + " $1");
    TrimNoOp(w + " $1");
  }

  lemma EmphasisLinkShape(d: string, w: string, text: string, url: string)
    requires forall c :: c in d + w + text + url ==> !IsSpace(c) && c != '!'
    requires '[' !in d + w
    ensures forall c :: c in d + w + d ==> !IsSpace(c)
    ensures forall c :: c in "[" + text + "](" + url + ")" ==> !IsSpace(c)
    ensures '!' !in (d + w + d) + " " + ("[" + text + "](" + url + ")")
    ensures '[' !in (d + w + d) + " "
  {
    assert forall c :: c in d ==> c in d + w + text + url;
    assert forall c :: c in w ==> c in d + w + text + url;
    assert forall c :: c in text ==> c in d + w + text + url;
    assert forall c :: c in url ==> c in d + w + text + url;
    assert forall c :: c in d ==> c in d + w;
  }

  lemma EmphasisStages(s: string, t: string)
    requires s == "**hi** [a](b)"
    requires t == "hi $1"
    ensures PreprocessDocument(s) == t
  {
    assert s == "**" + "hi" + "**" + " " + ("[" + "a" + "](" + "b" + ")");
    assert t == "hi" + " $1";
    EmphasisThenLink("**", "hi", "a", "b");
  }

  /** Emphasis markers are stripped and a link turns into the literal "$1". */
  lemma DocumentExample()
    ensures PreprocessDocument("**hi** [a](b)") == "hi $1"
  {
    EmphasisStages("**hi** [a](b)", "hi $1");
  }

  /** A `!` that is not followed by `[` starts no image and is kept. */
  lemma BangWithoutBracketKept(r: string)
    requires r != [] && r[0] != '['
    ensures RemoveImages("!" + r) == "!" + RemoveImages(r)
  {
    assert ("!" + r)[1..] == r;
  }

  lemma BangSpaceKept(pre: string, l: string)
    requires '!' !in pre && '!' !in l
    ensures RemoveImages(pre + ("!" + (" " + l))) == pre + ("!" + (" " + l))
  {
    var r := " " + l;
    NoBangKept(r, "");
    assert r + "" == r;
    BangWithoutBracketKept(r);
    NoBangKept(pre, "!" + r);
  }

  lemma GreetingCollapsed(s: string, l: string)
    requires s == "Hello **world**! [link](http://x)"
    requires l == "[" + "link" + "](" + "http://x" + ")"
    ensures CollapseWhitespace(s) == s
  {
    assert s == "Hello" + " " + "**world**!" + " " + l;
    ThreeWordsKept("Hello", "**world**!", l);
  }

  lemma GreetingWithoutImage(s: string, l: string)
    requires s == "Hello **world**! [link](http://x)"
    requires l == "[" + "link" + "](" + "http://x" + ")"
    ensures RemoveImages(s) == s
  {
    assert s == "Hello **world**" + ("!" + (" " + l));
    BangSpaceKept("Hello **world**", l);
  }

  lemma GreetingLinked(s: string, l: string, c3: string)
    requires s == "Hello **world**! [link](http://x)"
    requires l == "[" + "link" + "](" + "http://x" + ")"
    requires c3 == "Hello **world**! $1"
    ensures ReplaceLinks(s) == c3
  {
    assert s == "Hello **world**! " + l;
    LinkAfter("Hello **world**! ", "link", "http://x");
  }

  lemma GreetingStripped(c3: string, t: string)
    requires c3 == "Hello **world**! $1"
    requires t == "Hello world! $1"
    ensures StripDecoration(c3) == t && Trim(t) == t
  {
    assert c3 == "Hello " + ("**" + ("world" + ("**" + "! $1")));
    EmphasisStripped("Hello ", "**", "world", "! $1");
    assert t == "Hello " + ("world" + "! $1");
    TrimNoOp(t);
  }

  lemma GreetingStages(s: string, t: string)
    requires s == "Hello **world**! [link](http://x)"
    requires t == "Hello world! $1"
    ensures PreprocessDocument(s) == t
  {
    var l := "[" + "link" + "](" + "http://x" + ")";
    var c3 := "Hello **world**! $1";
    GreetingCollapsed(s, l);
    GreetingWithoutImage(s, l);
    GreetingLinked(s, l, c3);
    GreetingStripped(c3, t);
    DocumentStages(s, s, s, c3, t);
  }

  /** Emphasis inside a sentence and a following link: the marks go, `!` stays, and
      the link becomes the literal "$1". */
  lemma GreetingExample()
    ensures PreprocessDocument("Hello **world**! [link](http://x)") == "Hello world! $1"
  {
    GreetingStages("Hello **world**! [link](http://x)", "Hello world! $1");
  }

  lemma ImageCollapsed(s: string)
    requires s == "a ![i](u) b"
    ensures CollapseWhitespace(s) == s
  {
    assert s == "a" + " " + "![i](u)" + " " + "b";
    ThreeWordsKept("a", "![i](u)", "b");
  }

  lemma ImagePieces()
    ensures "a ![i](u) b" == "a " + ("![" + "i" + "](" + "u" + ")" + " b")
  {
  }

  lemma ImageDropped()
    ensures RemoveImages("a " + ("![" + "i" + "](" + "u" + ")" + " b")) == "a " + " b"
  {
    NoBangKept("a ", "![" + "i" + "](" + "u" + ")" + " b");
    ImageRemoved("i", "u", " b");
    NoImageKept(" b");
  }

  lemma ImageRestKept(r: string)
    requires r == "a " + " b"
    ensures ReplaceLinks(r) == r && StripDecoration(r) == r && Trim(r) == r
  {
    NoBracketKept(r, "");
    assert r + "" == r;
    NoDecorationKept(r);
    TrimNoOp(r);
  }

  lemma ImageStages(s: string, t: string)
    requires s == "a ![i](u) b"
    requires t == "a  b"
    ensures PreprocessDocument(s) == t
  {
    assert t == "a " + " b";
    ImageCollapsed(s);
    ImagePieces();
    ImageDropped();
    ImageRestKept(t);
    DocumentStages(s, s, t, t, t);
  }

  /** White space is collapsed before images are removed, so the spaces on both
      sides of an image remain as a double space. */
  lemma DoubleSpaceAfterImage()
    ensures PreprocessDocument("a ![i](u) b") == "a  b"
  {
    ImageStages("a ![i](u) b", "a  b");
  }
}
