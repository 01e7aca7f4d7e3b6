/** `find_code`: the code unit the analysis loop runs is the interior of the
    first fenced block opened by three backticks and the language tag. */
module CodeBlocks {
  import opened Common
  import opened Text

  const FENCE := "```"

  /** The source skips `len("```python")` characters after the opening tag,
      whatever language it was asked to look for. */
  const TAG_LENGTH := 9

  /** `find_code(reply, language)`. */
  function FindCode(reply: string, language: string): Option<string> {
    CodeAfterTag(reply, Find(reply, FENCE + language, 0))
  }

  /** The rest of `find_code` once `reply.find("```" + language)` returned
      `tag`: skip 9 characters, find the closing fence in the tail, and cut
      the code out of the reply. */
  function CodeAfterTag(reply: string, tag: int): Option<string> {
    if tag < 0 then None
    else
      var start := tag + TAG_LENGTH;
      var end := Find(Slice(reply, start, |reply|), FENCE, 0);
      if end == -1 then None
      else Some(Slice(reply, start, end + start))
  }

  /** Reference reading of `find_code`: the first opening tag `t` in the
      whole reply, then the first closing fence at or after `t + 9` in the
      whole reply; the code is what lies between. */
  function CodeBetween(reply: string, language: string): Option<string> {
    BetweenAfterTag(reply, Find(reply, FENCE + language, 0))
  }

  /** The rest of the reference reading once the tag is found at `t`. */
  function BetweenAfterTag(reply: string, t: int): Option<string> {
    if t < 0 then None
    else
      var e := Find(reply, FENCE, t + TAG_LENGTH);
      if e == -1 then None else Some(reply[t + TAG_LENGTH..e])
  }

  /** `find_code`, which searches the tail after the tag, agrees with the
      reference reading that searches the whole reply from `t + 9`. */
  lemma FindCodeMeaning(reply: string, language: string)
    ensures FindCode(reply, language) == CodeBetween(reply, language)
  {
    var t := Find(reply, FENCE + language, 0);
    CodeAfterTagMeaning(reply, t);
  }

  /** The same once the tag is found at `t`. */
  lemma CodeAfterTagMeaning(reply: string, t: int)
    ensures CodeAfterTag(reply, t) == BetweenAfterTag(reply, t)
  {
    if t >= 0 {
      CodeAfterFoundTag(reply, t);
    }
  }

  /** The same for a tag that was found. */
  lemma CodeAfterFoundTag(reply: string, t: nat)
    ensures CodeAfterTag(reply, t) == BetweenAfterTag(reply, t)
  {
    var end := Find(Slice(reply, t + TAG_LENGTH, |reply|), FENCE, 0);
    var e := Find(reply, FENCE, t + TAG_LENGTH);
    CodeAfter(reply, t + TAG_LENGTH, end, e);
    CodeAfterTagIs(reply, t, end);
    BetweenAfterTagIs(reply, t, e);
  }

  /** Searching the tail from `start` for the closing fence is searching
      the whole reply from `start`. */
  lemma CodeAfter(reply: string, start: nat, end: int, e: int)
    requires end == Find(Slice(reply, start, |reply|), FENCE, 0)
    requires e == Find(reply, FENCE, start)
    ensures end == -1 <==> e == -1
    ensures end != -1 ==> start <= e <= |reply| && Slice(reply, start, end + start) == reply[start..e]
  {
    var tail := Slice(reply, start, |reply|);
    if start <= |reply| {
      assert tail == reply[start..];
      FindInSuffix(reply, FENCE, start);
      if end != -1 {
        assert Slice(reply, start, end + start) == reply[start..start + end];
      }
    } else {
      assert tail == "";
      assert Find(reply, FENCE, start) == -1;
    }
  }

  /** `BetweenAfterTag` once the closing fence was found at `e`. */
  lemma BetweenAfterTagIs(reply: string, t: nat, e: int)
    requires e == Find(reply, FENCE, t + TAG_LENGTH)
    ensures e == -1 ==> BetweenAfterTag(reply, t) == None
    ensures e != -1 ==> BetweenAfterTag(reply, t) == Some(reply[t + TAG_LENGTH..e])
  {
  }

  /** `CodeAfterTag` once the closing fence search in the tail gave `end`. */
  lemma CodeAfterTagIs(reply: string, t: nat, end: int)
    requires end == Find(Slice(reply, t + TAG_LENGTH, |reply|), FENCE, 0)
    ensures end == -1 ==> CodeAfterTag(reply, t) == None
    ensures end != -1 ==> CodeAfterTag(reply, t) == Some(Slice(reply, t + TAG_LENGTH, end + (t + TAG_LENGTH)))
  {
  }

  /** Found code never contains a fence, and in the reply it is followed by
      the closing fence. */
  lemma FoundCodeHasNoFence(reply: string, language: string)
    requires FindCode(reply, language).Some?
    ensures !Contains(FindCode(reply, language).value, FENCE)
    ensures var code := FindCode(reply, language).value;
            exists e :: |code| <= e && OccursAt(reply, FENCE, e) && reply[e - |code|..e] == code
  {
    FindCodeMeaning(reply, language);
    var t := Find(reply, FENCE + language, 0);
    var e := Find(reply, FENCE, t + TAG_LENGTH);
    FindSpec(reply, FENCE, t + TAG_LENGTH);
    var code := reply[t + TAG_LENGTH..e];
    forall k | 0 <= k
      ensures !OccursAt(code, FENCE, k)
    {
      OccursInSlice(reply, FENCE, t + TAG_LENGTH, e, k);
      if k + 3 <= |code| {
        assert !OccursAt(reply, FENCE, t + TAG_LENGTH + k);
      }
    }
    assert OccursAt(reply, FENCE, e) && reply[e - |code|..e] == code;
  }

  /** Only the first block counts, and the code starts 9 characters after the
      start of the opening tag: for "python" that is right after the tag, for
      a shorter tag it drops the first `6 - |language|` characters of the
      block. Prose before the block and anything after it (further blocks
      included) do not matter. */
  lemma {:induction false} FirstBlockHonoured(prose: string, language: string, body: string, rest: string)
    requires '`' !in prose && '`' !in language && '`' !in body
    requires |language| <= 6 <= |language| + |body|
    ensures FindCode(prose + FENCE + language + body + FENCE + rest, language)
            == Some(body[6 - |language|..])
  {
    var reply := prose + FENCE + language + body + FENCE + rest;
    var close := |prose| + 3 + |language| + |body|;
    BlockBounds(prose, language, body, rest);
    CodeFromBounds(reply, language, |prose|, close, body[6 - |language|..]);
  }

  /** In a reply holding one closed block, the opening tag is found at the
      end of the prose and the closing fence right after the body. */
  lemma BlockBounds(prose: string, language: string, body: string, rest: string)
    requires '`' !in prose && '`' !in language && '`' !in body
    requires |language| <= 6 <= |language| + |body|
    ensures var reply := prose + FENCE + language + body + FENCE + rest;
            var close := |prose| + 3 + |language| + |body|;
            && Find(reply, FENCE + language, 0) == |prose|
            && Find(reply, FENCE, |prose| + TAG_LENGTH) == close
            && reply[|prose| + TAG_LENGTH..close] == body[6 - |language|..]
  {
    var reply := prose + FENCE + language + body + FENCE + rest;
    var p := |prose|;
    var close := p + 3 + |language| + |body|;
    BlockLayout(prose, language, body, rest);
    FirstOccurrence(reply, FENCE + language, 0, p);
    FirstOccurrence(reply, FENCE, p + TAG_LENGTH, close);
  }

  /** `find_code` in terms of where the tag and the closing fence are found. */
  lemma CodeFromBounds(reply: string, language: string, p: nat, close: nat, code: string)
    requires p + TAG_LENGTH <= close <= |reply|
    requires Find(reply, FENCE + language, 0) == p
    requires Find(reply, FENCE, p + TAG_LENGTH) == close
    requires reply[p + TAG_LENGTH..close] == code
    ensures FindCode(reply, language) == Some(code)
  {
    FindCodeMeaning(reply, language);
  }

  /** Where the parts of a reply holding one closed block lie. */
  lemma BlockLayout(prose: string, language: string, body: string, rest: string)
    requires |language| <= 6 <= |language| + |body|
    ensures var reply := prose + FENCE + language + body + FENCE + rest;
            var p := |prose|;
            var close := p + 3 + |language| + |body|;
            && reply[..p] == prose
            && OccursAt(reply, FENCE + language, p)
            && OccursAt(reply, FENCE, close)
            && reply[p + TAG_LENGTH..close] == body[6 - |language|..]
  {
    var reply := prose + FENCE + language + body + FENCE + rest;
    var p := |prose|;
    var close := p + 3 + |language| + |body|;
    assert reply[p..p + 3 + |language|] == FENCE + language;
    assert reply[close..close + 3] == FENCE;
    assert reply[p + 3 + |language|..close] == body;
  }

  /** A reply without the opening tag yields no code. */
  lemma NoTagNoCode(reply: string, language: string)
    requires !Contains(reply, FENCE + language)
    ensures FindCode(reply, language) == None
  {
  }

  /** An opening tag that is never closed yields no code. */
  lemma {:induction false} UnclosedNoCode(prose: string, language: string, tail: string)
    requires '`' !in prose && '`' !in language && '`' !in tail
    ensures FindCode(prose + FENCE + language + tail, language) == None
  {
    var reply := prose + FENCE + language + tail;
    UnclosedBounds(prose, language, tail);
    FindCodeMeaning(reply, language);
  }

  lemma UnclosedBounds(prose: string, language: string, tail: string)
    requires '`' !in prose && '`' !in language && '`' !in tail
    ensures var reply := prose + FENCE + language + tail;
            && Find(reply, FENCE + language, 0) == |prose|
            && Find(reply, FENCE, |prose| + TAG_LENGTH) == -1
  {
    var reply := prose + FENCE + language + tail;
    var p := |prose|;
    UnclosedLayout(prose, language, tail);
    FirstOccurrence(reply, FENCE + language, 0, p);
    if p + TAG_LENGTH <= |reply| {
      NotFoundFrom(reply, FENCE, p + TAG_LENGTH);
    }
  }

  lemma UnclosedLayout(prose: string, language: string, tail: string)
    requires '`' !in language && '`' !in tail
    ensures var reply := prose + FENCE + language + tail;
            var p := |prose|;
            && reply[..p] == prose
            && OccursAt(reply, FENCE + language, p)
            && (p + TAG_LENGTH <= |reply| ==> '`' !in reply[p + TAG_LENGTH..])
  {
    var reply := prose + FENCE + language + tail;
    var p := |prose|;
    assert reply[p..p + 3 + |language|] == FENCE + language;
    if p + TAG_LENGTH <= |reply| {
      assert reply[p + TAG_LENGTH..] == (language + tail)[TAG_LENGTH - 3..];
    }
  }

}
