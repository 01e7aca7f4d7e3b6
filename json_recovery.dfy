/** The tolerant recovery of one JSON object from the final reply
    (`Baseline.get_final_result` after its `ask`): slice to the interior of a
    fence, cut `//` comments line by line, slice from the first `{` to the
    last `}`, then decode. The decoder (`json.loads`) is a parameter: a
    partial function that either gives a value or the text of its
    `JSONDecodeError`. */
module JsonRecovery {
  import opened Common
  import opened Text

  const FENCE := "```"
  const JSON_FENCE := "```json"
  const COMMENT := "//"
  const NOT_FOUND := "Could not find a valid JSON object in the response."
  const DECODE_FAILED := "Failed to decode JSON: "

  /** The outcome of `get_final_result`: the decoded value, or the error
      record `{"error": ..., "raw_response": ...}`. */
  datatype FinalResult = Decoded(value: Value) | ErrorRecord(error: string, rawResponse: string)

  /** Step (i): the stripped interior of the first ```json fence when it is
      closed, else of the first bare fence when it is closed, else the reply
      unchanged. A ```json fence that is never closed keeps the whole reply:
      the bare-fence branch is not tried then. */
  function FenceInterior(reply: string): string {
    if Contains(reply, JSON_FENCE) then
      var start := Find(reply, JSON_FENCE, 0) + 7;
      var end := Find(reply, FENCE, start);
      if end != -1 then Strip(Slice(reply, start, end)) else reply
    else if Contains(reply, FENCE) then
      var start := Find(reply, FENCE, 0) + 3;
      var end := Find(reply, FENCE, start);
      if end != -1 then Strip(Slice(reply, start, end)) else reply
    else reply
  }

  /** One line with everything from its first `//` on removed. */
  function CutComment(line: string): string {
    if Contains(line, COMMENT) then line[..Find(line, COMMENT, 0)] else line
  }

  /** A cut line holds no `//`, is a prefix of the line, and is the line
      itself when the line had no `//`. */
  lemma CutCommentFacts(line: string)
    ensures !Contains(CutComment(line), COMMENT)
    ensures CutComment(line) <= line
    ensures Contains(line, COMMENT) || CutComment(line) == line
  {
    if Contains(line, COMMENT) {
      var i := Find(line, COMMENT, 0);
      FindSpec(line, COMMENT, 0);
      forall k | 0 <= k
        ensures !OccursAt(line[..i], COMMENT, k)
      {
        OccursInSlice(line, COMMENT, 0, i, k);
      }
    }
  }

  function CutComments(lines: seq<string>): (r: seq<string>)
    ensures |r| == |lines|
  {
    seq(|lines|, k requires 0 <= k < |lines| => CutComment(lines[k]))
  }

  /** Step (ii): the text with every line cut at its first `//`. */
  function StripComments(text: string): string {
    Join(CutComments(Split(text, '\n')), '\n')
  }

  /** Steps (i) and (ii): the text the braces are looked for in, and the
      `raw_response` of an error record. */
  function CleanedText(reply: string): string {
    StripComments(FenceInterior(reply))
  }

  /** Step (iii): the slice from the first `{` to the last `}` inclusive, when
      the text has both. When the last `}` comes before the first `{` the
      slice is empty. */
  function BraceSlice(text: string): Option<string> {
    var start := Find(text, "{", 0);
    var end := RFind(text, "}") + 1;
    if start != -1 && end != 0 then Some(Slice(text, start, end)) else None
  }

  /** Steps (iii) and (iv) on the cleaned text: decode the brace slice, or
      report why not. */
  function Decide(text: string, loads: string -> Result<Value, string>): FinalResult {
    match BraceSlice(text)
    case None => ErrorRecord(NOT_FOUND, text)
    case Some(candidate) =>
      match loads(candidate)
      case Success(v) => Decoded(v)
      case Failure(msg) => ErrorRecord(DECODE_FAILED + msg, text)
  }

  /** The whole of the recovery, as the source orders it. */
  function Recover(reply: string, loads: string -> Result<Value, string>): FinalResult {
    Decide(CleanedText(reply), loads)
  }

  /** `get_final_result` after its `ask`: `json_reply` is reassigned step by
      step, and the decoder's value or the error record is returned. */
  method RecoverJson(reply: string, loads: string -> Result<Value, string>) returns (r: FinalResult)
    ensures r == Recover(reply, loads)
  {
    var text := SliceFence(reply);
    text := RemoveComments(text);
    var start := Find(text, "{", 0);
    var end := RFind(text, "}") + 1;
    if start != -1 && end != 0 {
      var decoded := loads(Slice(text, start, end));
      match decoded {
        case Success(v) => r := Decoded(v);
        case Failure(msg) => r := ErrorRecord(DECODE_FAILED + msg, text);
      }
    } else {
      r := ErrorRecord(NOT_FOUND, text);
    }
  }

  /** The fence step of the recovery. */
  method SliceFence(reply: string) returns (text: string)
    ensures text == FenceInterior(reply)
  {
    text := reply;
    if Contains(text, JSON_FENCE) {
      var start := Find(text, JSON_FENCE, 0) + 7;
      var end := Find(text, FENCE, start);
      if end != -1 {
        text := Strip(Slice(text, start, end));
      }
    } else if Contains(text, FENCE) {
      var start := Find(text, FENCE, 0) + 3;
      var end := Find(text, FENCE, start);
      if end != -1 {
        text := Strip(Slice(text, start, end));
      }
    }
  }

  /** The comment-removal loop of the recovery: the lines are collected one
      by one, each cut at its first `//`, and joined again. */
  method RemoveComments(text: string) returns (cleanedText: string)
    ensures cleanedText == StripComments(text)
  {
    var lines := Split(text, '\n');
    var cleaned: seq<string> := [];
    for i := 0 to |lines|
      invariant |cleaned| == i
      invariant forall k :: 0 <= k < i ==> cleaned[k] == CutComment(lines[k])
    {
      var line := lines[i];
      if Contains(line, COMMENT) {
        line := line[..Find(line, COMMENT, 0)];
      }
      cleaned := cleaned + [line];
    }
    CutCommentsPointwise(lines, cleaned);
    cleanedText := Join(cleaned, '\n');
  }

  lemma CutCommentsPointwise(lines: seq<string>, cut: seq<string>)
    requires |cut| == |lines|
    requires forall k :: 0 <= k < |lines| ==> cut[k] == CutComment(lines[k])
    ensures cut == CutComments(lines)
  {
  }

  /** After comment stripping no line contains `//`, the number of lines is
      unchanged, and each line is a prefix of the line it came from. */
  lemma StripCommentsLines(text: string)
    ensures var before := Split(text, '\n');
            var after := Split(StripComments(text), '\n');
            && |after| == |before|
            && forall k :: 0 <= k < |after| ==> !Contains(after[k], COMMENT) && after[k] <= before[k]
  {
    var before := Split(text, '\n');
    SplitNoSep(text, '\n');
    var cut := CutComments(before);
    forall k | 0 <= k < |cut|
      ensures '\n' !in cut[k] && !Contains(cut[k], COMMENT) && cut[k] <= before[k]
    {
      CutCommentFacts(before[k]);
      PrefixKeepsOut(cut[k], before[k], '\n');
    }
    SplitJoin(cut, '\n');
  }

  lemma PrefixKeepsOut(p: string, s: string, c: char)
    requires p <= s && c !in s
    ensures c !in p
  {
    forall i | 0 <= i < |p|
      ensures p[i] != c
    {
      assert p[i] == s[i];
    }
  }

  /** Comment stripping leaves no `//` anywhere in the text. */
  lemma StripCommentsFree(text: string)
    ensures !Contains(StripComments(text), COMMENT)
  {
    var cut := CutComments(Split(text, '\n'));
    forall k | 0 <= k < |cut|
      ensures !Contains(cut[k], COMMENT)
    {
      CutCommentFacts(Split(text, '\n')[k]);
    }
    NoCommentInJoin(cut);
  }

  /** Text without `//` goes through comment stripping unchanged. */
  lemma StripCommentsNoComment(text: string)
    requires !Contains(text, COMMENT)
    ensures StripComments(text) == text
  {
    var lines := Split(text, '\n');
    forall k | 0 <= k < |lines|
      ensures CutComment(lines[k]) == lines[k]
    {
      PieceInside(text, '\n', k);
      NoCommentInPiece(text, lines[k], PieceStart(text, '\n', k));
    }
    CutCommentsPointwise(lines, lines);
    JoinSplit(text, '\n');
  }

  lemma NoCommentInPiece(text: string, piece: string, a: nat)
    requires !Contains(text, COMMENT) && OccursAt(text, piece, a)
    ensures !Contains(piece, COMMENT)
  {
    FindSpec(text, COMMENT, 0);
    forall j | 0 <= j
      ensures !OccursAt(piece, COMMENT, j)
    {
      OccursInSlice(text, COMMENT, a, a + |piece|, j);
    }
  }

  /** Comment stripping is idempotent. */
  lemma StripCommentsIdempotent(text: string)
    ensures StripComments(StripComments(text)) == StripComments(text)
  {
    StripCommentsFree(text);
    StripCommentsNoComment(StripComments(text));
  }

  /** Joining comment-free lines with newlines cannot create a `//`. */
  lemma {:induction false} NoCommentInJoin(lines: seq<string>)
    requires forall k :: 0 <= k < |lines| ==> !Contains(lines[k], COMMENT)
    ensures !Contains(Join(lines, '\n'), COMMENT)
    decreases |lines|
  {
    if |lines| > 1 {
      NoCommentInJoin(lines[1..]);
      NoCommentAcross(lines[0], Join(lines[1..], '\n'));
    }
  }

  /** A newline between two comment-free texts cannot complete a `//`. */
  lemma NoCommentAcross(head: string, rest: string)
    requires !Contains(head, COMMENT) && !Contains(rest, COMMENT)
    ensures !Contains(head + "\n" + rest, COMMENT)
  {
    FindSpec(head, COMMENT, 0);
    FindSpec(rest, COMMENT, 0);
    var s := head + "\n" + rest;
    forall j | 0 <= j
      ensures !OccursAt(s, COMMENT, j)
    {
      if j + 2 <= |head| {
        assert s[j..j + 2] == head[j..j + 2];
        assert !OccursAt(head, COMMENT, j);
      } else if j + 2 <= |s| && j <= |head| {
        assert s[|head|] == '\n';
        assert s[j..j + 2][0] == s[j] && s[j..j + 2][1] == s[j + 1];
      } else if j + 2 <= |s| {
        assert s[j..j + 2] == rest[j - |head| - 1..j - |head| + 1];
        assert !OccursAt(rest, COMMENT, j - |head| - 1);
      }
    }
  }

  /** A brace slice exists exactly when the text has both a `{` and a `}`. */
  lemma BraceSliceFound(text: string)
    ensures BraceSlice(text).Some? <==> Contains(text, "{") && Contains(text, "}")
  {
    RFindSpec(text, "}");
    FindSpec(text, "}", 0);
  }

  /** When the first `{` precedes the last `}` the slice starts with `{` and
      ends with `}`; when the last `}` precedes the first `{` it is empty. A
      text without `//` gives a slice without `//`. */
  lemma BraceSliceShape(text: string)
    requires BraceSlice(text).Some?
    ensures var c := BraceSlice(text).value;
            && (Find(text, "{", 0) < RFind(text, "}") ==> c[0] == '{' && c[|c| - 1] == '}')
            && (RFind(text, "}") < Find(text, "{", 0) ==> c == "")
            && (!Contains(text, COMMENT) ==> !Contains(c, COMMENT))
  {
    var s := Find(text, "{", 0);
    var e := RFind(text, "}") + 1;
    if s <= e {
      assert text[s..s + 1] == "{" && text[e - 1..e] == "}";
      assert text[s] == text[s..s + 1][0] && text[e - 1] == text[e - 1..e][0];
      var c := BraceSlice(text).value;
      assert c == text[s..e];
      if s < e - 1 {
        assert c[0] == text[s] == '{';
        assert c[|c| - 1] == text[e - 1] == '}';
      }
      if !Contains(text, COMMENT) {
        NoCommentInPiece(text, text[s..e], s);
      }
    }
  }

  /** An error record always carries the cleaned text (fence-sliced and
      comment-stripped), not the reply as received. The not-found record is
      returned when the cleaned text lacks a `{` or a `}`; otherwise the
      decoder's value, or its message behind the decode-failure prefix. */
  lemma ErrorRecordContents(reply: string, loads: string -> Result<Value, string>)
    ensures Recover(reply, loads).ErrorRecord? ==> Recover(reply, loads).rawResponse == CleanedText(reply)
    ensures var text := CleanedText(reply);
            !Contains(text, "{") || !Contains(text, "}") ==> Recover(reply, loads) == ErrorRecord(NOT_FOUND, text)
    ensures var text := CleanedText(reply);
            BraceSlice(text).Some? ==>
              match loads(BraceSlice(text).value)
              case Success(v) => Recover(reply, loads) == Decoded(v)
              case Failure(msg) => Recover(reply, loads) == ErrorRecord(DECODE_FAILED + msg, text)
  {
    BraceSliceFound(CleanedText(reply));
  }

  /** When both braces are present and the first `{` precedes the last `}`,
      the decoder is given a text that starts with `{`, ends with `}` and
      contains no `//`. When the last `}` precedes the first `{`, it is given
      the empty string. */
  lemma DecoderInput(reply: string)
    requires BraceSlice(CleanedText(reply)).Some?
    ensures var text := CleanedText(reply);
            var c := BraceSlice(text).value;
            && (Find(text, "{", 0) < RFind(text, "}") ==> c[0] == '{' && c[|c| - 1] == '}')
            && (RFind(text, "}") < Find(text, "{", 0) ==> c == "")
            && !Contains(c, COMMENT)
  {
    StripCommentsFree(FenceInterior(reply));
    BraceSliceShape(CleanedText(reply));
  }

  /** Round trip: a reply holding prose without backticks, then a ```json
      fence whose interior is a JSON object text padded with white space, then
      anything, gives exactly what the decoder makes of the object text. The
      object text must not contain backticks or `//`. */
  lemma RecoverFencedObject(prose: string, pre: string, obj: string, post: string,
                            after: string, loads: string -> Result<Value, string>)
    requires '`' !in prose
    requires AllSpace(pre) && AllSpace(post) && '`' !in pre && '`' !in post
    requires |obj| >= 2 && obj[0] == '{' && obj[|obj| - 1] == '}'
    requires '`' !in obj && !Contains(obj, COMMENT)
    ensures Recover(prose + JSON_FENCE + (pre + obj + post) + FENCE + after, loads)
            == match loads(obj)
               case Success(v) => Decoded(v)
               case Failure(msg) => ErrorRecord(DECODE_FAILED + msg, obj)
  {
    var reply := prose + JSON_FENCE + (pre + obj + post) + FENCE + after;
    NoBacktickJoined(pre, obj, post);
    JsonFenceInterior(prose, pre + obj + post, after);
    StripPadded(pre, obj, post);
    StripCommentsNoComment(obj);
    ObjectBraces(obj);
    RecoverCleaned(reply, loads, obj);
  }

  /** A line of a commented object text: the JSON code, followed by `//`
      and a comment when there is one. */
  function Annotated(code: string, comment: Option<string>): string {
    match comment
    case None => code
    case Some(c) => code + COMMENT + c
  }

  function AnnotateAll(code: seq<string>, comments: seq<Option<string>>): (lines: seq<string>)
    requires |comments| == |code|
    ensures |lines| == |code|
  {
    seq(|code|, k requires 0 <= k < |code| => Annotated(code[k], comments[k]))
  }

  /** A line a comment can be added to and cut from again: neither part
      holds a newline or a backtick, the code holds no `//`, and code that a
      comment follows does not end with `/` (the cut would then fall one
      character early). */
  predicate Commentable(code: string, comment: Option<string>) {
    && '\n' !in code && '`' !in code && !Contains(code, COMMENT)
    && match comment
       case None => true
       case Some(c) => '\n' !in c && '`' !in c && (code == [] || code[|code| - 1] != '/')
  }

  /** Cutting an annotated line at its first `//` gives back its code. */
  lemma CutAnnotated(code: string, comment: Option<string>)
    requires Commentable(code, comment)
    ensures CutComment(Annotated(code, comment)) == code
  {
    if comment.Some? {
      var line := Annotated(code, comment);
      assert line == code + COMMENT + comment.value;
      assert line[|code|..|code| + 2] == COMMENT;
      assert OccursAt(line, COMMENT, |code|);
      FindSpec(code, COMMENT, 0);
      FindSpec(line, COMMENT, 0);
      forall j | 0 <= j < |code|
        ensures !OccursAt(line, COMMENT, j)
      {
        if j + 2 <= |code| {
          assert line[j..j + 2] == code[j..j + 2];
          assert !OccursAt(code, COMMENT, j);
        } else if j + 2 <= |line| {
          assert line[j] == code[|code| - 1];
          assert line[j..j + 2][0] == line[j];
        }
      }
      var f := Find(line, COMMENT, 0);
      assert f != -1;
      assert f == |code|;
      assert line[..|code|] == code;
    } else {
      assert !Contains(code, COMMENT);
    }
  }

  /** Stripping the comments of an annotated text gives back the code lines
      joined. */
  lemma StripCommentsAnnotated(code: seq<string>, comments: seq<Option<string>>)
    requires |code| == |comments| >= 1
    requires forall k :: 0 <= k < |code| ==> Commentable(code[k], comments[k])
    ensures StripComments(Join(AnnotateAll(code, comments), '\n')) == Join(code, '\n')
  {
    var lines := AnnotateAll(code, comments);
    forall k | 0 <= k < |lines|
      ensures '\n' !in lines[k] && CutComment(lines[k]) == code[k]
    {
      assert Commentable(code[k], comments[k]);
      CutAnnotated(code[k], comments[k]);
    }
    SplitJoin(lines, '\n');
    CutCommentsPointwise(lines, code);
  }

  /** A comment right-stripped. */
  function TrimComment(comment: Option<string>): Option<string> {
    match comment
    case None => None
    case Some(c) => Some(RStrip(c))
  }

  /** The comments with the last one right-stripped, as stripping the whole
      fence interior leaves them. */
  function TrimLastComment(comments: seq<Option<string>>): (r: seq<Option<string>>)
    requires |comments| >= 1
    ensures |r| == |comments| && r[..|r| - 1] == comments[..|comments| - 1]
    ensures r[|r| - 1] == TrimComment(comments[|comments| - 1])
  {
    comments[..|comments| - 1] + [TrimComment(comments[|comments| - 1])]
  }

  /** Round trip with comments: a reply holding prose without backticks,
      then a ```json fence around the JSON object text `obj` written as the
      lines `code`, some of them followed by a `//` comment, padded with
      white space, then anything, gives exactly what the decoder makes of
      `obj`. */
  lemma RecoverCommentedObject(prose: string, pre: string, obj: string, code: seq<string>,
                               comments: seq<Option<string>>, post: string, after: string,
                               loads: string -> Result<Value, string>)
    requires '`' !in prose
    requires AllSpace(pre) && AllSpace(post) && '`' !in pre && '`' !in post
    requires |code| == |comments| >= 1
    requires forall k :: 0 <= k < |code| ==> Commentable(code[k], comments[k])
    requires obj == Join(code, '\n')
    requires |obj| >= 2 && obj[0] == '{' && obj[|obj| - 1] == '}'
    ensures Recover(prose + JSON_FENCE + (pre + Join(AnnotateAll(code, comments), '\n') + post) + FENCE + after, loads)
            == match loads(obj)
               case Success(v) => Decoded(v)
               case Failure(msg) => ErrorRecord(DECODE_FAILED + msg, obj)
  {
    var reply := prose + JSON_FENCE + (pre + Join(AnnotateAll(code, comments), '\n') + post) + FENCE + after;
    CleanedCommented(prose, pre, code, comments, post, after);
    ObjectBraces(obj);
    RecoverCleaned(reply, loads, obj);
  }

  /** The first two steps leave exactly the object text. */
  lemma CleanedCommented(prose: string, pre: string, code: seq<string>, comments: seq<Option<string>>,
                         post: string, after: string)
    requires '`' !in prose
    requires AllSpace(pre) && AllSpace(post) && '`' !in pre && '`' !in post
    requires |code| == |comments| >= 1
    requires forall k :: 0 <= k < |code| ==> Commentable(code[k], comments[k])
    requires |Join(code, '\n')| >= 2 && Join(code, '\n')[0] == '{'
    requires Join(code, '\n')[|Join(code, '\n')| - 1] == '}'
    ensures CleanedText(prose + JSON_FENCE + (pre + Join(AnnotateAll(code, comments), '\n') + post) + FENCE + after)
            == Join(code, '\n')
  {
    CommentedInterior(prose, pre, code, comments, post, after);
    TrimKeepsCommentable(code, comments);
    StripCommentsAnnotated(code, TrimLastComment(comments));
  }

  /** The fence step keeps the annotated text with the last comment's
      trailing white space gone. */
  lemma CommentedInterior(prose: string, pre: string, code: seq<string>, comments: seq<Option<string>>,
                          post: string, after: string)
    requires '`' !in prose
    requires AllSpace(pre) && AllSpace(post) && '`' !in pre && '`' !in post
    requires |code| == |comments| >= 1
    requires forall k :: 0 <= k < |code| ==> Commentable(code[k], comments[k])
    requires |Join(code, '\n')| >= 2 && Join(code, '\n')[0] == '{'
    requires Join(code, '\n')[|Join(code, '\n')| - 1] == '}'
    ensures FenceInterior(prose + JSON_FENCE + (pre + Join(AnnotateAll(code, comments), '\n') + post) + FENCE + after)
            == Join(AnnotateAll(code, TrimLastComment(comments)), '\n')
  {
    var text := Join(AnnotateAll(code, comments), '\n');
    CodeEnds(code);
    NoBacktickAnnotated(code, comments);
    NoBacktickJoined(pre, text, post);
    JsonFenceInterior(prose, pre + text + post, after);
    StripAnnotated(pre, code, comments, post);
  }

  lemma TrimKeepsCommentable(code: seq<string>, comments: seq<Option<string>>)
    requires |code| == |comments| >= 1
    requires forall k :: 0 <= k < |code| ==> Commentable(code[k], comments[k])
    ensures forall k :: 0 <= k < |code| ==> Commentable(code[k], TrimLastComment(comments)[k])
  {
    var trimmed := TrimLastComment(comments);
    forall k | 0 <= k < |code|
      ensures Commentable(code[k], trimmed[k])
    {
      assert Commentable(code[k], comments[k]);
      if k < |code| - 1 {
        assert trimmed[k] == trimmed[..|code| - 1][k];
      } else if comments[k].Some? {
        PrefixKeepsOut(RStrip(comments[k].value), comments[k].value, '\n');
        PrefixKeepsOut(RStrip(comments[k].value), comments[k].value, '`');
      }
    }
  }

  /** The object text begins with its first line's `{` and ends with its last
      line's `}`. */
  lemma CodeEnds(code: seq<string>)
    requires |code| >= 1
    requires |Join(code, '\n')| >= 2 && Join(code, '\n')[0] == '{' && Join(code, '\n')[|Join(code, '\n')| - 1] == '}'
    ensures code[0] != [] && code[0][0] == '{'
    ensures code[|code| - 1] != [] && code[|code| - 1][|code[|code| - 1]| - 1] == '}'
  {
    JoinFirst(code, '\n');
    if |code| > 1 {
      assert code == code[..|code| - 1] + [code[|code| - 1]];
      JoinSnoc(code[..|code| - 1], code[|code| - 1], '\n');
    }
  }

  lemma NoBacktickAnnotated(code: seq<string>, comments: seq<Option<string>>)
    requires |code| == |comments|
    requires forall k :: 0 <= k < |code| ==> Commentable(code[k], comments[k])
    ensures '`' !in Join(AnnotateAll(code, comments), '\n')
  {
    var lines := AnnotateAll(code, comments);
    forall k | 0 <= k < |lines|
      ensures '`' !in lines[k]
    {
      assert Commentable(code[k], comments[k]);
    }
    NoCharInJoin(lines, '`', '\n');
  }

  /** Stripping an annotated text padded with white space leaves the text
      with only the last comment's trailing white space gone. */
  lemma StripAnnotated(pre: string, code: seq<string>, comments: seq<Option<string>>, post: string)
    requires AllSpace(pre) && AllSpace(post)
    requires |code| == |comments| >= 1
    requires code[0] != [] && code[0][0] == '{'
    requires code[|code| - 1] != [] && code[|code| - 1][|code[|code| - 1]| - 1] == '}'
    ensures Strip(pre + Join(AnnotateAll(code, comments), '\n') + post)
            == Join(AnnotateAll(code, TrimLastComment(comments)), '\n')
  {
    var text := Join(AnnotateAll(code, comments), '\n');
    var text2 := Join(AnnotateAll(code, TrimLastComment(comments)), '\n');
    AnnotatedTail(code, comments);
    var tail := text[|text2|..];
    assert text == text2 + tail;
    assert pre + text + post == pre + text2 + (tail + post);
    StripPadded(pre, text2, tail + post);
  }

  /** The annotated text with the last comment right-stripped is a prefix of
      the annotated text followed only by white space; it starts with `{` and
      does not end with white space. */
  lemma AnnotatedTail(code: seq<string>, comments: seq<Option<string>>)
    requires |code| == |comments| >= 1
    requires code[0] != [] && code[0][0] == '{'
    requires code[|code| - 1] != [] && code[|code| - 1][|code[|code| - 1]| - 1] == '}'
    ensures var text := Join(AnnotateAll(code, comments), '\n');
            var text2 := Join(AnnotateAll(code, TrimLastComment(comments)), '\n');
            && text2 <= text && AllSpace(text[|text2|..])
            && text2 != [] && text2[0] == '{' && !IsSpace(text2[|text2| - 1])
  {
    var n := |code|;
    var lines := AnnotateAll(code, comments);
    var trimmed := AnnotateAll(code, TrimLastComment(comments));
    assert lines[n - 1] == Annotated(code[n - 1], comments[n - 1]);
    assert trimmed[n - 1] == Annotated(code[n - 1], TrimComment(comments[n - 1]));
    LastLineTrim(code[n - 1], comments[n - 1]);
    JoinFirst(trimmed, '\n');
    AnnotatedStarts(code[0], TrimLastComment(comments)[0]);
    if n > 1 {
      AnnotatedInitSame(code, comments);
      JoinLastLines(lines, trimmed);
    }
  }

  lemma AnnotatedStarts(code: string, comment: Option<string>)
    ensures code <= Annotated(code, comment)
  {
  }

  /** Two texts joined from the same lines but the last, where one last line
      extends the other. */
  lemma JoinLastLines(lines: seq<string>, trimmed: seq<string>)
    requires |lines| == |trimmed| > 1
    requires lines[..|lines| - 1] == trimmed[..|trimmed| - 1]
    requires trimmed[|trimmed| - 1] <= lines[|lines| - 1]
    ensures var text := Join(lines, '\n');
            var text2 := Join(trimmed, '\n');
            && text2 <= text && text[|text2|..] == lines[|lines| - 1][|trimmed[|trimmed| - 1]|..]
            && (trimmed[|trimmed| - 1] != [] ==> text2[|text2| - 1] == trimmed[|trimmed| - 1][|trimmed[|trimmed| - 1]| - 1])
  {
    var n := |lines|;
    var init := lines[..n - 1];
    assert lines == init + [lines[n - 1]];
    assert trimmed == init + [trimmed[n - 1]];
    JoinSnoc(init, lines[n - 1], '\n');
    JoinSnoc(init, trimmed[n - 1], '\n');
    PrefixAfter(Join(init, '\n') + "\n", trimmed[n - 1], lines[n - 1]);
  }

  lemma PrefixAfter(head: string, a: string, b: string)
    requires a <= b
    ensures head + a <= head + b && (head + b)[|head + a|..] == b[|a|..]
    ensures a != [] ==> (head + a)[|head + a| - 1] == a[|a| - 1]
  {
  }

  lemma AnnotatedInitSame(code: seq<string>, comments: seq<Option<string>>)
    requires |code| == |comments| > 1
    ensures AnnotateAll(code, comments)[..|code| - 1] == AnnotateAll(code, TrimLastComment(comments))[..|code| - 1]
  {
    var trimmed := TrimLastComment(comments);
    forall k | 0 <= k < |code| - 1
      ensures AnnotateAll(code, comments)[k] == AnnotateAll(code, trimmed)[k]
    {
      assert trimmed[k] == trimmed[..|code| - 1][k];
    }
  }

  /** The last line right-stripped is the line with its comment
      right-stripped, and what goes is white space. */
  lemma LastLineTrim(code: string, comment: Option<string>)
    requires code != [] && code[|code| - 1] == '}'
    ensures Annotated(code, TrimComment(comment)) <= Annotated(code, comment)
    ensures AllSpace(Annotated(code, comment)[|Annotated(code, TrimComment(comment))|..])
    ensures Annotated(code, TrimComment(comment)) != []
    ensures !IsSpace(Annotated(code, TrimComment(comment))[|Annotated(code, TrimComment(comment))| - 1])
  {
    if comment.Some? {
      var c := comment.value;
      var r := RStrip(c);
      assert code + COMMENT + c == (code + COMMENT + r) + c[|r|..];
    }
  }

  lemma NoBacktickJoined(a: string, b: string, c: string)
    requires '`' !in a && '`' !in b && '`' !in c
    ensures '`' !in a + b + c
  {
  }

  lemma RecoverCleaned(reply: string, loads: string -> Result<Value, string>, obj: string)
    requires CleanedText(reply) == obj && BraceSlice(obj) == Some(obj)
    ensures Recover(reply, loads)
            == match loads(obj)
               case Success(v) => Decoded(v)
               case Failure(msg) => ErrorRecord(DECODE_FAILED + msg, obj)
  {
  }

  /** The interior of the first closed ```json fence, stripped, is what the
      first step keeps. */
  lemma JsonFenceInterior(prose: string, body: string, after: string)
    requires '`' !in prose && '`' !in body
    ensures FenceInterior(prose + JSON_FENCE + body + FENCE + after) == Strip(body)
  {
    var reply := prose + JSON_FENCE + body + FENCE + after;
    var close := |prose| + 7 + |body|;
    JsonFenceBounds(prose, body, after);
    FenceInteriorAt(reply, |prose|, close);
    StripSame(reply[|prose| + 7..close], body);
  }


  lemma StripSame(a: string, b: string)
    requires a == b
    ensures Strip(a) == Strip(b)
  {
  }

  lemma JsonFenceBounds(prose: string, body: string, after: string)
    requires '`' !in prose && '`' !in body
    ensures var reply := prose + JSON_FENCE + body + FENCE + after;
            var p := |prose|;
            && Find(reply, JSON_FENCE, 0) == p
            && Find(reply, FENCE, p + 7) == p + 7 + |body|
            && reply[p + 7..p + 7 + |body|] == body
  {
    var reply := prose + JSON_FENCE + body + FENCE + after;
    var p := |prose|;
    JsonFenceLayout(prose, body, after);
    FirstOccurrence(reply, JSON_FENCE, 0, p);
    FirstOccurrence(reply, FENCE, p + 7, p + 7 + |body|);
  }

  lemma JsonFenceLayout(prose: string, body: string, after: string)
    requires '`' !in prose && '`' !in body
    ensures var reply := prose + JSON_FENCE + body + FENCE + after;
            var p := |prose|;
            && '`' !in reply[0..p]
            && OccursAt(reply, JSON_FENCE, p)
            && OccursAt(reply, FENCE, p + 7 + |body|)
            && reply[p + 7..p + 7 + |body|] == body
            && '`' !in reply[p + 7..p + 7 + |body|]
  {
    var reply := prose + JSON_FENCE + body + FENCE + after;
    var p := |prose|;
    assert reply[0..p] == prose;
    assert reply[p..p + 7] == JSON_FENCE;
    assert reply[p + 7..p + 7 + |body|] == body;
    assert reply[p + 7 + |body|..p + 10 + |body|] == FENCE;
  }

  lemma FenceInteriorAt(reply: string, p: nat, close: nat)
    requires Find(reply, JSON_FENCE, 0) == p && Find(reply, FENCE, p + 7) == close
    ensures FenceInterior(reply) == Strip(reply[p + 7..close])
  {
    assert Contains(reply, JSON_FENCE);
    assert p + 7 <= close && close + 3 <= |reply|;
    assert Slice(reply, p + 7, close) == reply[p + 7..close];
  }

  /** A text that starts with `{` and ends with `}` is its own brace slice. */
  lemma ObjectBraces(obj: string)
    requires |obj| >= 2 && obj[0] == '{' && obj[|obj| - 1] == '}'
    ensures BraceSlice(obj) == Some(obj)
  {
    assert obj[0..1] == "{";
    FindLandsOn(obj, "{", 0, 0);
    assert obj[|obj| - 1..|obj|] == "}";
    assert RFind(obj, "}") == |obj| - 1;
    assert obj[0..|obj|] == obj;
  }

  /** A reply with no backtick, no `//` and no `{` yields the not-found error
      record carrying the reply verbatim. */
  lemma ProseOnlyIsError(reply: string, loads: string -> Result<Value, string>)
    requires '`' !in reply && !Contains(reply, COMMENT) && '{' !in reply
    ensures Recover(reply, loads) == ErrorRecord(NOT_FOUND, reply)
  {
    assert reply[0..] == reply;
    NotFoundFrom(reply, FENCE, 0);
    NotFoundFrom(reply, JSON_FENCE, 0);
    NotFoundFrom(reply, "{", 0);
    StripCommentsNoComment(reply);
  }
}
