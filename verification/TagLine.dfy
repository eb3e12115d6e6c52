/** The trailing tag line of a card body: src/card/TagLineEditor.cpp, with the tag syntax of
    src/card/TagExtractor.cpp. A body is its bytes, one character each. */
module TagLine {
  import opened Common

  // ----- tags -----

  predicate Letter(c: char)
  {
    'a' <= c <= 'z' || 'A' <= c <= 'Z'
  }

  predicate Digit(c: char)
  {
    '0' <= c <= '9'
  }

  predicate HexDigit(c: char)
  {
    Digit(c) || 'a' <= c <= 'f' || 'A' <= c <= 'F'
  }

  /** `looks_like_hex_color`. */
  predicate HexColor(tag: string)
  {
    |tag| in {3, 4, 6, 8} && forall i :: 0 <= i < |tag| ==> HexDigit(tag[i])
  }

  predicate TagChar(c: char)
  {
    Letter(c) || Digit(c) || c == '_' || c == '/' || c == '-'
  }

  /** `is_valid_tag`. */
  predicate ValidTag(tag: string)
  {
    tag != "" && Letter(tag[0]) && (forall i :: 0 <= i < |tag| ==> TagChar(tag[i])) && !HexColor(tag)
  }

  predicate Normalized(tag: string)
  {
    Lower(tag) == tag
  }

  lemma LowerOnce(c: char)
    ensures LowerChar(LowerChar(c)) == LowerChar(c)
    ensures Letter(LowerChar(c)) <==> Letter(c)
    ensures TagChar(LowerChar(c)) <==> TagChar(c)
    ensures HexDigit(LowerChar(c)) <==> HexDigit(c)
  {
  }

  /** Normalizing a valid tag gives a valid, normalized tag. */
  lemma LowerKeepsValid(tag: string)
    ensures ValidTag(Lower(tag)) <==> ValidTag(tag)
    ensures Normalized(Lower(tag))
  {
    forall i | 0 <= i < |tag|
      ensures LowerChar(Lower(tag)[i]) == Lower(tag)[i] && (TagChar(Lower(tag)[i]) <==> TagChar(tag[i]))
      ensures (Letter(Lower(tag)[i]) <==> Letter(tag[i])) && (HexDigit(Lower(tag)[i]) <==> HexDigit(tag[i]))
    {
      LowerOnce(tag[i]);
    }
    assert HexColor(Lower(tag)) <==> HexColor(tag);
    var low := Lower(tag);
    assert (forall i :: 0 <= i < |tag| ==> TagChar(tag[i])) <==> (forall i :: 0 <= i < |low| ==> TagChar(low[i]));
  }

  // ----- lines -----

  predicate LineSpace(c: char)
  {
    c == ' ' || c == '\t' || c == '\r'
  }

  predicate Blank(c: char)
  {
    c == '\n' || LineSpace(c)
  }

  /** Where the content ends and the trailing whitespace begins. */
  function ContentEnd(body: string): (n: nat)
    ensures n <= |body| && (n > 0 ==> !Blank(body[n - 1])) && forall i :: n <= i < |body| ==> Blank(body[i])
  {
    if body == "" then 0
    else if Blank(body[|body| - 1]) then ContentEnd(body[..|body| - 1])
    else |body|
  }

  lemma ContentEndUnique(body: string, n: nat)
    requires n <= |body| && (n > 0 ==> !Blank(body[n - 1])) && forall i :: n <= i < |body| ==> Blank(body[i])
    ensures ContentEnd(body) == n
  {
    hide Blank;
    var m := ContentEnd(body);
    assert m <= n;
  }

  /** `split_trailing_whitespace`. */
  method SplitTrailing(body: string) returns (content: string, trailing: string)
    ensures content == Content(body) && trailing == Trailing(body)
  {
    var end := |body|;
    while end > 0 && Blank(body[end - 1])
      invariant 0 <= end <= |body| && forall i :: end <= i < |body| ==> Blank(body[i])
    {
      end := end - 1;
    }
    ContentEndUnique(body, end);
    return body[..end], body[end..];
  }

  function Content(body: string): string
  {
    body[..ContentEnd(body)]
  }

  function Trailing(body: string): string
  {
    body[ContentEnd(body)..]
  }

  /** `last_line_start`. */
  function LineStart(content: string): (n: nat)
    ensures n <= |content| && (n > 0 ==> content[n - 1] == '\n') && forall i :: n <= i < |content| ==>
      content[i] != '\n'
  {
    if content == "" || content[|content| - 1] == '\n' then |content| else LineStart(content[..|content| - 1])
  }

  lemma LineStartUnique(content: string, n: nat)
    requires n <= |content| && (n > 0 ==> content[n - 1] == '\n') && forall i :: n <= i < |content| ==>
      content[i] != '\n'
    ensures LineStart(content) == n
  {
    var m := LineStart(content);
    assert m <= n;
  }

  function LastLine(body: string): string
  {
    Content(body)[LineStart(Content(body))..]
  }

  function Above(body: string): string
  {
    Content(body)[..LineStart(Content(body))]
  }

  // ----- reading and writing a tag line -----

  function TokenLength(s: string): (n: nat)
    ensures n <= |s| && (n < |s| ==> LineSpace(s[n])) && forall i :: 0 <= i < n ==> !LineSpace(s[i])
  {
    if s == "" || LineSpace(s[0]) then 0 else 1 + TokenLength(s[1..])
  }

  /** The tags of a line made of nothing else. */
  function Tokens(s: string): (r: Option<seq<string>>)
    ensures r.Some? ==> forall i :: 0 <= i < |r.value| ==> ValidTag(r.value[i]) && Normalized(r.value[i])
    decreases |s|
  {
    if s == "" then Some([])
    else if LineSpace(s[0]) then Tokens(s[1..])
    else if s[0] != '#' then None
    else
      var n := TokenLength(s[1..]);
      var tag := s[1..n + 1];
      if !ValidTag(tag) then None
      else
        LowerKeepsValid(tag);
        var rest := Tokens(s[n + 1..]);
        if rest.None? then None else Some([Lower(tag)] + rest.value)
  }

  /** `parse_pure_tag_line`. */
  function Parse(line: string): (r: Option<seq<string>>)
    ensures r.Some? ==> r.value != [] && forall i :: 0 <= i < |r.value| ==>
      ValidTag(r.value[i]) && Normalized(r.value[i])
  {
    var r := Tokens(line);
    if r.Some? && r.value != [] then r else None
  }

  /** `join_tag_line`. */
  function Join(tags: seq<string>): string
  {
    if tags == [] then "" else if |tags| == 1 then "#" + tags[0] else "#" + tags[0] + " " + Join(tags[1..])
  }

  method ParseLine(line: string) returns (r: Option<seq<string>>)
    ensures r == Parse(line)
  {
    hide ValidTag, LineSpace, Lower, Normalized, Tokens, TokenLength, Prepend;
    var tags: seq<string>, i := [], 0;
    assert line[0..] == line;
    PrependNone(Tokens(line));
    while i < |line|
      invariant i <= |line| && Tokens(line) == Prepend(tags, Tokens(line[i..]))
      decreases |line| - i
    {
      while i < |line| && LineSpace(line[i])
        invariant i <= |line| && Tokens(line) == Prepend(tags, Tokens(line[i..]))
      {
        NoToken(line, i);
        i := i + 1;
      }
      if i >= |line| { break; }
      NoToken(line, i);
      if line[i] != '#' { return None; }
      i := i + 1;
      var start := i;
      while i < |line| && !LineSpace(line[i])
        invariant start <= i <= |line| && forall k :: start <= k < i ==> !LineSpace(line[k])
      {
        i := i + 1;
      }
      TokenLengthUnique(line[start..], i - start);
      NextToken(line, start - 1, i);
      PrependMore(tags, Lower(line[start..i]), Tokens(line[i..]));
      if !ValidTag(line[start..i]) { return None; }
      tags := tags + [Lower(line[start..i])];
    }
    assert line[i..] == "";
    PrependEnd(tags);
    if tags == [] { return None; }
    return Some(tags);
  }

  lemma NoToken(line: string, i: nat)
    requires i < |line|
    ensures LineSpace(line[i]) ==> Tokens(line[i..]) == Tokens(line[i + 1..])
    ensures !LineSpace(line[i]) && line[i] != '#' ==> forall tags :: Prepend(tags, Tokens(line[i..])) == None
  {
    hide ValidTag, Lower;
    assert line[i..][1..] == line[i + 1..];
  }

  lemma PrependMore(tags: seq<string>, tag: string, rest: Option<seq<string>>)
    ensures Prepend(tags, Prepend([tag], rest)) == Prepend(tags + [tag], rest)
    ensures Prepend(tags, None) == None
  {
    if rest.Some? { assert tags + ([tag] + rest.value) == tags + [tag] + rest.value; }
  }

  lemma NextToken(line: string, at: nat, end: nat)
    requires at < end <= |line| && line[at] == '#' && end - at - 1 == TokenLength(line[at + 1..])
    ensures Tokens(line[at..]) == if ValidTag(line[at + 1..end]) then Prepend([Lower(line[at + 1..end])],
                                                                              Tokens(line[end..])) else None
  {
    hide ValidTag, Lower;
    var s := line[at..];
    assert s[0] == '#' && s[1..] == line[at + 1..] && s[1..end - at] == line[at + 1..end];
    assert s[end - at..] == line[end..];
  }

  ghost function Prepend(tags: seq<string>, rest: Option<seq<string>>): Option<seq<string>>
  {
    if rest.None? then None else Some(tags + rest.value)
  }

  lemma PrependNone(rest: Option<seq<string>>)
    ensures Prepend([], rest) == rest
  {
    if rest.Some? { assert [] + rest.value == rest.value; }
  }

  lemma PrependEnd(tags: seq<string>)
    ensures Prepend(tags, Tokens("")) == Some(tags)
  {
    assert tags + [] == tags;
  }

  lemma {:induction false} TokenLengthUnique(s: string, n: nat)
    requires n <= |s| && (n < |s| ==> LineSpace(s[n])) && forall i :: 0 <= i < n ==> !LineSpace(s[i])
    ensures TokenLength(s) == n
  {
    hide LineSpace;
    var m := TokenLength(s);
    assert n <= m;
  }

  method JoinTags(tags: seq<string>) returns (line: string)
    ensures line == Join(tags)
  {
    line := "";
    for i := 0 to |tags|
      invariant line == Join(tags[..i])
    {
      assert tags[..i + 1] == tags[..i] + [tags[i]];
      JoinSnoc(tags[..i], tags[i]);
      if i > 0 { line := line + " "; }
      line := line + "#" + tags[i];
    }
    assert tags[..|tags|] == tags;
  }

  lemma {:induction false} JoinSnoc(tags: seq<string>, tag: string)
    ensures Join(tags + [tag]) == if tags == [] then "#" + tag else Join(tags) + " #" + tag
    decreases |tags|
  {
    if |tags| > 0 {
      assert (tags + [tag])[1..] == tags[1..] + [tag];
      JoinSnoc(tags[1..], tag);
    }
  }

  // ----- reading what was written -----

  ghost predicate AllTags(tags: seq<string>)
  {
    forall i :: 0 <= i < |tags| ==> ValidTag(tags[i]) && Normalized(tags[i])
  }

  lemma NoSpaceInTag(tag: string)
    requires ValidTag(tag)
    ensures forall i :: 0 <= i < |tag| ==> !Blank(tag[i])
  {
    forall i | 0 <= i < |tag|
      ensures !Blank(tag[i])
    {
      assert TagChar(tag[i]);
    }
  }

  /** A tag at the front of a line is read back. */
  lemma TokenFirst(tag: string, rest: string)
    requires ValidTag(tag) && (rest == "" || LineSpace(rest[0]))
    ensures Tokens("#" + tag + rest) == Prepend([Lower(tag)], Tokens(rest))
  {
    NoSpaceInTag(tag);
    hide ValidTag, Lower, LineSpace, Tokens;
    var s := "#" + tag + rest;
    assert s[1..] == tag + rest && s[1..|tag| + 1] == tag && s[|tag| + 1..] == rest && s[0] == '#';
    assert s[0..] == s;
    SpaceIsBlank();
    TokenLengthUnique(tag + rest, |tag|);
    NextToken(s, 0, |tag| + 1);
  }

  lemma SpaceIsBlank()
    ensures forall c :: LineSpace(c) ==> Blank(c)
  {
  }

  /** Reading a joined line of valid normalized tags returns those tags. */
  lemma {:induction false} TokensJoin(tags: seq<string>)
    requires AllTags(tags)
    ensures Tokens(Join(tags)) == Some(tags)
    decreases |tags|
  {
    hide ValidTag, Lower;
    if |tags| == 1 {
      assert "#" + tags[0] == "#" + tags[0] + "";
      TokenFirst(tags[0], "");
      assert [tags[0]] == tags;
      PrependEnd(tags);
    } else if |tags| > 1 {
      var rest := Join(tags[1..]);
      TokensJoin(tags[1..]);
      assert Join(tags) == "#" + tags[0] + (" " + rest);
      assert (" " + rest)[1..] == rest;
      assert Tokens(" " + rest) == Tokens(rest);
      TokenFirst(tags[0], " " + rest);
      assert [tags[0]] + tags[1..] == tags;
    }
  }

  /** Words with a `#` before each and space around and between them. */
  ghost predicate Proper(words: seq<string>, gaps: seq<string>)
  {
    && |gaps| == |words| + 1
    && (forall i :: 0 <= i < |words| ==> ValidTag(words[i]))
    && (forall i, k :: 0 <= i < |gaps| && 0 <= k < |gaps[i]| ==> LineSpace(gaps[i][k]))
    && (forall i :: 0 < i < |words| ==> gaps[i] != "")
  }

  function Spell(words: seq<string>, gaps: seq<string>): string
    requires |gaps| == |words| + 1
  {
    if words == [] then gaps[0] else gaps[0] + "#" + words[0] + Spell(words[1..], gaps[1..])
  }

  function LowerAll(words: seq<string>): seq<string>
  {
    seq(|words|, i requires 0 <= i < |words| => Lower(words[i]))
  }

  lemma {:induction false} SkipGap(gap: string, rest: string)
    requires forall k :: 0 <= k < |gap| ==> LineSpace(gap[k])
    ensures Tokens(gap + rest) == Tokens(rest)
    decreases |gap|
  {
    hide LineSpace, ValidTag, Lower;
    if gap == "" {
      assert gap + rest == rest;
    } else {
      SkipGap(gap[1..], rest);
      assert (gap + rest)[1..] == gap[1..] + rest && (gap + rest)[0] == gap[0];
    }
  }

  lemma ProperTail(words: seq<string>, gaps: seq<string>)
    requires Proper(words, gaps) && words != []
    ensures Proper(words[1..], gaps[1..])
    ensures ValidTag(words[0]) && forall k :: 0 <= k < |gaps[0]| ==> LineSpace(gaps[0][k])
    ensures var rest := Spell(words[1..], gaps[1..]); rest == "" || LineSpace(rest[0])
  {
    hide ValidTag, LineSpace;
    assert forall i :: 0 <= i < |gaps[1..]| ==> gaps[1..][i] == gaps[i + 1];
    var rest := Spell(words[1..], gaps[1..]);
    if |words| == 1 {
      assert rest == gaps[1];
    } else {
      assert gaps[1] != "" && rest[0] == gaps[1][0];
    }
  }

  lemma {:induction false} SpelledReads(words: seq<string>, gaps: seq<string>)
    requires Proper(words, gaps)
    ensures Tokens(Spell(words, gaps)) == Some(LowerAll(words))
    decreases |words|
  {
    hide ValidTag, LineSpace, Lower, Tokens;
    if words == [] {
      LastGap(words, gaps);
      SkipGap(gaps[0], "");
      assert gaps[0] + "" == gaps[0] && LowerAll(words) == [];
      PrependNone(Tokens(""));
      PrependEnd([]);
    } else {
      ProperTail(words, gaps);
      var rest := Spell(words[1..], gaps[1..]);
      SpelledReads(words[1..], gaps[1..]);
      TokenFirst(words[0], rest);
      SkipGap(gaps[0], "#" + words[0] + rest);
      assert gaps[0] + "#" + words[0] + rest == gaps[0] + ("#" + words[0] + rest);
      assert [Lower(words[0])] + LowerAll(words[1..]) == LowerAll(words);
    }
  }

  lemma LastGap(words: seq<string>, gaps: seq<string>)
    requires Proper(words, gaps) && words == []
    ensures |gaps| == 1 && forall k :: 0 <= k < |gaps[0]| ==> LineSpace(gaps[0][k])
  {
  }

  lemma {:induction false} ReadIsSpelled(line: string) returns (words: seq<string>, gaps: seq<string>)
    requires Tokens(line).Some?
    ensures Proper(words, gaps) && Spell(words, gaps) == line
    ensures line != "" && !LineSpace(line[0]) ==> words != [] && gaps[0] == ""
    decreases |line|
  {
    hide ValidTag, LineSpace, Lower;
    if line == "" {
      words, gaps := [], [""];
    } else if LineSpace(line[0]) {
      words, gaps := ReadIsSpelled(line[1..]);
      MoreGap(words, gaps, line[0]);
      assert line == line[..1] + line[1..];
      gaps := gaps[0 := [line[0]] + gaps[0]];
    } else {
      var n := TokenLength(line[1..]);
      var word, rest := line[1..n + 1], line[n + 1..];
      words, gaps := ReadIsSpelled(rest);
      assert rest != "" ==> LineSpace(rest[0]) by { assert rest != "" ==> rest[0] == line[1..][n]; }
      MoreWord(word, words, gaps);
      assert line == "#" + word + rest;
      words, gaps := [word] + words, [""] + gaps;
    }
  }

  lemma MoreGap(words: seq<string>, gaps: seq<string>, c: char)
    requires Proper(words, gaps) && LineSpace(c)
    ensures var more := gaps[0 := [c] + gaps[0]]; Proper(words, more) && Spell(words, more) == [c] + Spell(words, gaps)
  {
    hide ValidTag, LineSpace;
    var more := gaps[0 := [c] + gaps[0]];
    assert more[1..] == gaps[1..];
    forall i, k | 0 <= i < |more| && 0 <= k < |more[i]|
      ensures LineSpace(more[i][k])
    {
      if i == 0 && k > 0 { assert more[0][k] == gaps[0][k - 1]; }
    }
    if words != [] {
      assert [c] + (gaps[0] + "#" + words[0] + Spell(words[1..], gaps[1..])) ==
        ([c] + gaps[0]) + "#" + words[0] + Spell(words[1..], gaps[1..]);
    }
  }

  lemma GapFirst(words: seq<string>, gaps: seq<string>)
    requires |gaps| == |words| + 1 && words != []
    ensures gaps[0] == "" ==> Spell(words, gaps) != "" && !LineSpace(Spell(words, gaps)[0])
  {
    if gaps[0] == "" { assert Spell(words, gaps)[0] == '#'; }
  }

  lemma MoreWord(word: string, words: seq<string>, gaps: seq<string>)
    requires ValidTag(word) && Proper(words, gaps)
    requires Spell(words, gaps) == "" || LineSpace(Spell(words, gaps)[0])
    ensures Proper([word] + words, [""] + gaps)
    ensures Spell([word] + words, [""] + gaps) == "#" + word + Spell(words, gaps)
  {
    hide ValidTag;
    var more, all := [""] + gaps, [word] + words;
    assert all[1..] == words && more[1..] == gaps;
    assert "" + "#" + word + Spell(words, gaps) == "#" + word + Spell(words, gaps);
    if words != [] { GapFirst(words, gaps); }
    assert forall i :: 0 < i < |more| ==> more[i] == gaps[i - 1];
    assert forall i :: 0 < i < |all| ==> all[i] == words[i - 1];
  }

  /** A line is read as tags exactly if it is nothing but words with a `#` each, every word a valid
      tag, apart from each other; the tags are the words in lower case, in their order. */
  lemma ParseExact(line: string)
    ensures Parse(line).Some? <==>
        exists words, gaps :: words != [] && Proper(words, gaps) && Spell(words, gaps) == line
    ensures forall words, gaps :: words != [] && Proper(words, gaps) && Spell(words, gaps) == line ==>
        Parse(line) == Some(LowerAll(words))
  {
    hide ValidTag, LineSpace, Lower, Spell, Tokens;
    forall words, gaps | words != [] && Proper(words, gaps) && Spell(words, gaps) == line
      ensures Parse(line) == Some(LowerAll(words))
    {
      SpelledReads(words, gaps);
    }
    if Parse(line).Some? {
      var words, gaps := ReadIsSpelled(line);
      SpelledReads(words, gaps);
      assert LowerAll(words) != [];
      assert words != [] && Proper(words, gaps) && Spell(words, gaps) == line;
    }
  }

  lemma ParseJoin(tags: seq<string>)
    requires AllTags(tags)
    ensures Parse(Join(tags)) == if tags == [] then None else Some(tags)
  {
    hide ValidTag, Normalized;
    TokensJoin(tags);
  }

  // ----- editing -----

  /** `tags_on_trailing_line`. */
  function Tags(body: string): (r: seq<string>)
  {
    if Content(body) == "" then []
    else
      var r := Parse(LastLine(body));
      if r.Some? then r.value else []
  }

  /** `upsert_trailing_tag_line`. */
  function Upsert(body: string, tag: string): string
  {
    if Content(body) == "" then "#" + tag
    else
      var existing := Parse(LastLine(body));
      if existing.None? then Content(body) + "\n\n" + "#" + tag + Trailing(body)
      else if tag in existing.value then body
      else Above(body) + Join(existing.value + [tag]) + Trailing(body)
  }

  function EraseFirst(tags: seq<string>, tag: string): (r: seq<string>)
    ensures tag in tags ==> |r| == |tags| - 1
  {
    if tags == [] then [] else if tags[0] == tag then tags[1..] else [tags[0]] + EraseFirst(tags[1..], tag)
  }

  function StripNewlines(s: string): string
  {
    if s != "" && s[|s| - 1] == '\n' then StripNewlines(s[..|s| - 1]) else s
  }

  datatype Removal = Removal(body: string, removed: bool)

  /** `remove_from_trailing_tag_line`. */
  function Remove(body: string, tag: string): Removal
  {
    if Content(body) == "" then Removal(body, false)
    else
      var existing := Parse(LastLine(body));
      if existing.None? || tag !in existing.value then Removal(body, false)
      else
        var left := EraseFirst(existing.value, tag);
        if left == [] then Removal(StripNewlines(Above(body)) + Trailing(body), true)
        else Removal(Above(body) + Join(left) + Trailing(body), true)
  }

  /** A line that can be the last of a body's content. */
  ghost predicate FinalLine(above: string, line: string, ws: string)
  {
    && (above == "" || above[|above| - 1] == '\n')
    && line != "" && '\n' !in line && !Blank(line[|line| - 1])
    && forall i :: 0 <= i < |ws| ==> Blank(ws[i])
  }

  /** A body put together from its parts is taken apart into them. */
  lemma Assembled(above: string, line: string, ws: string)
    requires FinalLine(above, line, ws)
    ensures var body := above + line + ws;
      && Content(body) == above + line && Content(body) != "" && Trailing(body) == ws
      && Above(body) == above && LastLine(body) == line
  {
    hide Blank;
    var body := above + line + ws;
    var n := |above| + |line|;
    assert body[n - 1] == line[|line| - 1] && forall i :: n <= i < |body| ==> body[i] == ws[i - n];
    ContentEndUnique(body, n);
    var content := above + line;
    assert body[..n] == content && body[n..] == ws;
    assert forall i :: |above| <= i < |content| ==> content[i] == line[i - |above|];
    LineStartUnique(content, |above|);
    assert content[..|above|] == above && content[|above|..] == line;
  }

  /** ... and every body with content is put together that way. */
  lemma Apart(body: string)
    requires Content(body) != ""
    ensures FinalLine(Above(body), LastLine(body), Trailing(body))
    ensures body == Above(body) + LastLine(body) + Trailing(body) && Content(body) == Above(body) + LastLine(body)
  {
    hide Blank, Content, Trailing, LineStart;
    ContentParts(body);
    var content := Content(body);
    NotNewline(content[|content| - 1]);
    LineParts(content);
  }

  lemma ContentParts(body: string)
    ensures body == Content(body) + Trailing(body)
    ensures Content(body) != "" ==> !Blank(Content(body)[|Content(body)| - 1])
    ensures forall i :: 0 <= i < |Trailing(body)| ==> Blank(Trailing(body)[i])
  {
    hide Blank;
    var n := ContentEnd(body);
    assert forall i :: 0 <= i < |Trailing(body)| ==> Trailing(body)[i] == body[n + i];
  }

  lemma {:induction false} LineParts(content: string)
    requires content != "" && content[|content| - 1] != '\n'
    ensures var n := LineStart(content);
      && n < |content| && content == content[..n] + content[n..] && '\n' !in content[n..]
      && (n > 0 ==> content[..n][n - 1] == '\n') && content[n..][|content| - n - 1] == content[|content| - 1]
  {
    hide LineStart;
    var n := LineStart(content);
    assert n < |content|;
    var line := content[n..];
    forall i | 0 <= i < |line|
      ensures line[i] != '\n'
    {
      assert line[i] == content[n + i];
    }
    assert content[..n] + line == content;
    assert n > 0 ==> content[..n][n - 1] == content[n - 1];
    assert line[|line| - 1] == content[|content| - 1];
  }

  lemma NotNewline(c: char)
    requires !Blank(c)
    ensures c != '\n'
  {
  }

  lemma {:induction false} JoinFinal(tags: seq<string>)
    requires AllTags(tags) && tags != []
    ensures Join(tags) != "" && '\n' !in Join(tags) && !Blank(Join(tags)[|Join(tags)| - 1])
    decreases |tags|
  {
    assert ValidTag(tags[0]);
    NoSpaceInTag(tags[0]);
    hide ValidTag, Normalized;
    assert Blank('\n');
    if |tags| > 1 {
      JoinFinal(tags[1..]);
      assert Join(tags)[|Join(tags)| - 1] == Join(tags[1..])[|Join(tags[1..])| - 1];
    }
  }

  lemma ParsedTags(body: string)
    ensures AllTags(Tags(body))
    ensures Tags(body) != [] <==> Content(body) != "" && Parse(LastLine(body)).Some?
  {
  }

  lemma SnocTags(tags: seq<string>, tag: string)
    requires AllTags(tags) && ValidTag(tag) && Normalized(tag)
    ensures AllTags(tags + [tag])
  {
  }

  /** A tag line written into a body is the one read from it. */
  lemma Written(above: string, tags: seq<string>, ws: string)
    requires FinalLine(above, Join(tags), ws) && AllTags(tags) && tags != []
    ensures var body := above + Join(tags) + ws;
      && Content(body) != "" && Tags(body) == tags && Above(body) == above && LastLine(body) == Join(tags)
      && Trailing(body) == ws
      && Parse(LastLine(body)) == Some(tags)
  {
    hide AllTags, FinalLine, Join, Parse, Content, Above, LastLine, Trailing;
    Assembled(above, Join(tags), ws);
    ParseJoin(tags);
  }

  lemma JoinOne(tag: string)
    ensures Join([tag]) == "#" + tag
  {
  }

  /** What upsert writes, in every case: the same text above, the old tags and then the new
      one, the same trailing whitespace. */
  lemma UpsertParts(body: string, tag: string) returns (above: string, ws: string)
    requires ValidTag(tag) && Normalized(tag) && tag !in Tags(body)
    ensures Upsert(body, tag) == above + Join(Tags(body) + [tag]) + ws
    ensures FinalLine(above, Join(Tags(body) + [tag]), ws) && AllTags(Tags(body) + [tag])
    ensures Tags(body) != [] ==> above == Above(body) && ws == Trailing(body)
    ensures Content(body) != "" && Tags(body) == [] ==> above == Content(body) + "\n\n" && ws == Trailing(body)
    ensures Content(body) == "" ==> above == "" && ws == ""
  {
    hide ValidTag, Normalized, AllTags, Parse, Join, Content, LastLine, Above, Trailing, Blank;
    ParsedTags(body);
    SnocTags(Tags(body), tag);
    JoinFinal(Tags(body) + [tag]);
    JoinOne(tag);
    if Content(body) == "" {
      above, ws := "", "";
      assert Tags(body) + [tag] == [tag];
      assert above + ("#" + tag) + ws == "#" + tag;
    } else {
      Apart(body);
      ws := Trailing(body);
      if Tags(body) != [] {
        above := Above(body);
      } else {
        assert Tags(body) + [tag] == [tag];
        above := Content(body) + "\n\n";
        assert Content(body) + "\n\n" + "#" + tag + ws == above + ("#" + tag) + ws;
      }
    }
  }

  /** Upsert appends a new tag after the ones there and leaves a present one alone. */
  lemma UpsertAppends(body: string, tag: string)
    requires ValidTag(tag) && Normalized(tag)
    ensures Tags(Upsert(body, tag)) == if tag in Tags(body) then Tags(body) else Tags(body) + [tag]
    ensures tag in Tags(body) ==> Upsert(body, tag) == body
    ensures tag !in Tags(body) && Tags(body) != [] ==>
      Above(Upsert(body, tag)) == Above(body) && Trailing(Upsert(body, tag)) == Trailing(body)
    ensures Content(body) != "" && Tags(body) == [] ==>
      Above(Upsert(body, tag)) == Content(body) + "\n\n" && Trailing(Upsert(body, tag)) == Trailing(body)
    ensures Content(body) == "" ==> Above(Upsert(body, tag)) == "" && Trailing(Upsert(body, tag)) == ""
  {
    NoContentNoTags(body);
    hide ValidTag, Normalized, AllTags, Parse, Join, Content, LastLine, Above, Trailing, FinalLine;
    if tag !in Tags(body) {
      var above, ws := UpsertParts(body, tag);
      Written(above, Tags(body) + [tag], ws);
    }
  }

  lemma NoContentNoTags(body: string)
    ensures Content(body) == "" ==> Tags(body) == []
  {
  }

  lemma UpsertIdempotent(body: string, tag: string)
    requires ValidTag(tag) && Normalized(tag)
    ensures Upsert(Upsert(body, tag), tag) == Upsert(body, tag)
  {
    hide ValidTag, Normalized, Upsert, Tags;
    UpsertAppends(body, tag);
    UpsertAppends(Upsert(body, tag), tag);
  }

  lemma {:induction false} EraseLast(tags: seq<string>, tag: string)
    requires tag !in tags
    ensures EraseFirst(tags + [tag], tag) == tags
    decreases |tags|
  {
    if tags != [] {
      assert (tags + [tag])[1..] == tags[1..] + [tag];
      EraseLast(tags[1..], tag);
    }
  }

  lemma StripTwo(s: string)
    requires s != "" && s[|s| - 1] != '\n'
    ensures StripNewlines(s + "\n\n") == s
  {
    var one, two := s + "\n", s + "\n\n";
    assert two[..|two| - 1] == one && two[|two| - 1] == '\n';
    assert one[..|one| - 1] == s && one[|one| - 1] == '\n';
    assert StripNewlines(two) == StripNewlines(one) == StripNewlines(s);
  }

  /** The line is spelled the way a joined line is: lower case, single spaces. */
  ghost predicate Canonical(body: string)
  {
    LastLine(body) == Join(Tags(body))
  }

  /** When removing a tag that was just added restores the body byte for byte: a body without
      content must be empty, a tag line must be canonical and not hold the tag already. */
  ghost predicate Restorable(body: string, tag: string)
  {
    if Content(body) == "" then body == ""
    else Tags(body) == [] || (tag !in Tags(body) && Canonical(body))
  }

  /** Removing a new tag puts back the old tags, spelled canonically. */
  lemma RemoveUpserted(body: string, tag: string)
    requires ValidTag(tag) && Normalized(tag) && tag !in Tags(body)
    ensures Remove(Upsert(body, tag), tag) == Removal(
      if Content(body) == "" then ""
      else if Tags(body) == [] then body
      else Above(body) + Join(Tags(body)) + Trailing(body), true)
  {
    hide ValidTag, Normalized, AllTags, Parse, Join, Content, LastLine, Above, Trailing, FinalLine;
    hide Tags, Upsert, StripNewlines;
    var above, ws := UpsertParts(body, tag);
    var tags := Tags(body);
    Written(above, tags + [tag], ws);
    EraseLast(tags, tag);
    if Content(body) == "" {
      StripNone();
      ParsedTags(body);
    } else {
      Apart(body);
      if tags == [] {
        ContentEnds(body);
        StripTwo(Content(body));
      }
    }
  }

  lemma StripNone()
    ensures StripNewlines("") == ""
  {
  }

  lemma ContentEnds(body: string)
    requires Content(body) != ""
    ensures Content(body)[|Content(body)| - 1] != '\n'
  {
  }

  /** Remove after upsert is the identity exactly on restorable bodies. */
  lemma RoundTripExact(body: string, tag: string)
    requires ValidTag(tag) && Normalized(tag)
    ensures Remove(Upsert(body, tag), tag).body == body <==> Restorable(body, tag)
  {
    hide ValidTag, Normalized, AllTags, Parse, Join, Content, LastLine, Above, Trailing, FinalLine;
    hide Tags, Upsert, Remove, StripNewlines;
    ParsedTags(body);
    if Content(body) != "" { Apart(body); }
    if tag in Tags(body) {
      UpsertAppends(body, tag);
      RemoveChanges(body, tag);
    } else {
      RemoveUpserted(body, tag);
      if Content(body) != "" && Tags(body) != [] {
        SameMiddle(Above(body), LastLine(body), Join(Tags(body)), Trailing(body));
      }
    }
  }

  lemma SameMiddle(a: string, x: string, y: string, b: string)
    ensures a + x + b == a + y + b <==> x == y
  {
    if a + x + b == a + y + b {
      assert |x| == |y|;
      assert x == (a + x + b)[|a|..|a| + |x|] && y == (a + y + b)[|a|..|a| + |y|];
    }
  }

  /** `text` is `s` up to the newlines it ends in. */
  predicate WithoutNewlines(s: string, text: string)
  {
    && text <= s && (text == "" || text[|text| - 1] != '\n')
    && forall i :: |text| <= i < |s| ==> s[i] == '\n'
  }

  lemma {:induction false} StripIs(s: string)
    ensures WithoutNewlines(s, StripNewlines(s))
    decreases |s|
  {
    if s != "" && s[|s| - 1] == '\n' { StripIs(s[..|s| - 1]); }
  }

  /** A tag that is on the line is removed, once: all other tags stay, in order. With the last
      tag the line goes, and so do the newlines above it. */
  lemma RemoveErases(body: string, tag: string)
    ensures Remove(body, tag).removed <==> tag in Tags(body)
    ensures tag !in Tags(body) ==> Remove(body, tag).body == body
    ensures tag in Tags(body) && |Tags(body)| > 1 ==>
      var after := Remove(body, tag).body;
      Tags(after) == EraseFirst(Tags(body), tag) && Above(after) == Above(body) && Trailing(after) == Trailing(body)
    ensures tag in Tags(body) && |Tags(body)| == 1 ==>
      var text := StripNewlines(Above(body));
      && Remove(body, tag).body == text + Trailing(body) && WithoutNewlines(Above(body), text)
  {
    StripIs(Above(body));
    hide StripNewlines, WithoutNewlines;
    hide Parse, Join, Content, LastLine, Above, Trailing, Blank;
    ParsedTags(body);
    if tag in Tags(body) && |Tags(body)| > 1 {
      Apart(body);
      EraseKeepsTags(Tags(body), tag);
      JoinFinal(EraseFirst(Tags(body), tag));
      Written(Above(body), EraseFirst(Tags(body), tag), Trailing(body));
    }
  }

  lemma {:induction false} EraseKeepsTags(tags: seq<string>, tag: string)
    requires AllTags(tags)
    ensures AllTags(EraseFirst(tags, tag))
    decreases |tags|
  {
    hide ValidTag, Normalized;
    if tags != [] { EraseKeepsTags(tags[1..], tag); }
  }

  lemma {:induction false} StripShorter(s: string)
    ensures |StripNewlines(s)| <= |s|
    decreases |s|
  {
    if s != "" && s[|s| - 1] == '\n' { StripShorter(s[..|s| - 1]); }
  }

  lemma RemoveChanges(body: string, tag: string)
    requires tag in Tags(body)
    ensures Remove(body, tag).body != body
  {
    hide Parse, Join, Content, LastLine, Above, Trailing, Blank;
    RemoveErases(body, tag);
    if |Tags(body)| == 1 {
      ParsedTags(body);
      Apart(body);
      StripShorter(Above(body));
      assert EraseFirst(Tags(body), tag) == [];
    }
  }

  lemma {:induction false} EraseCounts(tags: seq<string>, tag: string)
    requires tag in tags
    ensures multiset(EraseFirst(tags, tag)) == multiset(tags) - multiset{tag}
    decreases |tags|
  {
    assert tags == [tags[0]] + tags[1..];
    if tags[0] != tag { EraseCounts(tags[1..], tag); }
  }

  /** A tag is gone from a line with other tags exactly when it stood there once; a tag
      written twice survives its removal. */
  lemma RemovedWhenSingle(body: string, tag: string)
    requires tag in Tags(body) && |Tags(body)| > 1
    ensures tag !in Tags(Remove(body, tag).body) <==> multiset(Tags(body))[tag] == 1
  {
    hide Tags, Remove, EraseFirst;
    RemoveErases(body, tag);
    EraseCounts(Tags(body), tag);
    assert tag in Tags(Remove(body, tag).body) <==> multiset(Tags(Remove(body, tag).body))[tag] > 0;
  }
}
