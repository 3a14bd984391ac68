/** One guide out of one file's text (crates/tam-admin/src/guides_seed.rs). */
module GuideParse {
  import opened Wrappers
  import opened GuideText
  import opened Sequences
  import Fingerprint = GuideFingerprint

  const TITLE_MAX_CHARS: nat := 120
  const BODY_MAX_BYTES: nat := 204_800

  datatype Guide = Guide(slug: string, title: string, topic: string, tags: seq<string>, body: string)

  datatype ParseError =
    | NotOpened | NamesNoKey | UnknownKey | NotClosed | NoTopic | TopicNotSlug | TagNotSlug
    | NoHeading | TitleLength | NoProse | BodyLength

  predicate SlugShaped(slug: string) {
    slug != "" && forall c <- slug :: 'a' <= c <= 'z' || '0' <= c <= '9' || c == '-'
  }

  function Utf8Bytes(s: string): nat { |Fingerprint.Utf8(s)| }

  /** A line that is nothing but one HTML comment: an authoring note. */
  predicate CommentLine(line: string) {
    "<!--" <= Trim(line) && EndsWith(Trim(line), "-->")
  }

  function TagsOf(parts: seq<string>): seq<string> {
    if parts == [] then []
    else
      var tag := Trim(parts[0]);
      (if tag == "" then [] else [tag]) + TagsOf(parts[1..])
  }

  datatype Front = Front(topic: Option<string>, tags: seq<string>)

  /** One front-matter line that is neither blank nor the closing fence. */
  function FrontLine(line: string, front: Front): Result<Front, ParseError> {
    match SplitOnce(':', line)
    case None => Err(NamesNoKey)
    case Some((key, value)) =>
      if Trim(key) == "topic" then Ok(front.(topic := Some(Trim(value))))
      else if Trim(key) == "tags" then Ok(front.(tags := TagsOf(SplitOn(',', value))))
      else Err(UnknownKey)
  }

  /** The front matter, and the lines after the fence that closes it. */
  function ReadFront(lines: seq<string>, front: Front): Result<(Front, seq<string>), ParseError>
    decreases |lines|
  {
    if lines == [] then Err(NotClosed)
    else
      var line := Trim(lines[0]);
      if line == "---" then Ok((front, lines[1..]))
      else if line == "" then ReadFront(lines[1..], front)
      else
        match FrontLine(line, front)
        case Err(error) => Err(error)
        case Ok(next) => ReadFront(lines[1..], next)
  }

  /** The first heading as the title, and every other line that is not a comment. */
  function ReadProse(lines: seq<string>, title: Option<string>, body: string): (Option<string>, string)
    decreases |lines|
  {
    if lines == [] then (title, body)
    else if title.None? && "# " <= lines[0] then ReadProse(lines[1..], Some(Trim(lines[0][2..])), body)
    else if CommentLine(lines[0]) then ReadProse(lines[1..], title, body)
    else ReadProse(lines[1..], title, body + lines[0] + "\n")
  }

  function FrontRefusal(front: Front): Option<ParseError> {
    if front.topic.None? then Some(NoTopic)
    else if !SlugShaped(front.topic.value) then Some(TopicNotSlug)
    else if exists tag <- front.tags :: !SlugShaped(tag) then Some(TagNotSlug)
    else None
  }

  function Checked(slug: string, front: Front, prose: (Option<string>, string)): Result<Guide, ParseError> {
    if FrontRefusal(front).Some? then Err(FrontRefusal(front).value)
    else if prose.0.None? then Err(NoHeading)
    else if prose.0.value == "" || |prose.0.value| > TITLE_MAX_CHARS then Err(TitleLength)
    else
      var body := Trim(prose.1);
      if body == "" then Err(NoProse)
      else if Utf8Bytes(body) > BODY_MAX_BYTES then Err(BodyLength)
      else Ok(Guide(slug, prose.0.value, front.topic.value, front.tags, body))
  }

  function Parsed(slug: string, text: string): Result<Guide, ParseError> {
    var lines := Lines(text);
    if lines == [] || Trim(lines[0]) != "---" then Err(NotOpened)
    else
      match ReadFront(lines[1..], Front(None, []))
      case Err(error) => Err(error)
      case Ok((front, rest)) => Checked(slug, front, ReadProse(rest, None, ""))
  }

  method Parse(slug: string, text: string) returns (parsed: Result<Guide, ParseError>)
    ensures parsed == Parsed(slug, text)
  {
    hide Trim, CommentLine, FrontLine, FrontRefusal, Lines;
    var lines := Lines(text);
    if lines == [] || Trim(lines[0]) != "---" { return Err(NotOpened); }
    var front := Front(None, []);
    var closed := false;
    var i := 1;
    ghost var read := ReadFront(lines[1..], front);
    while i < |lines| && !closed
      invariant 1 <= i <= |lines|
      invariant !closed ==> read == ReadFront(lines[i..], front)
      invariant closed ==> read == Ok((front, lines[i..]))
      decreases |lines| - i, !closed
    {
      var line := Trim(lines[i]);
      assert lines[i..][1..] == lines[i + 1..];
      if line == "---" {
        closed := true;
      } else if line != "" {
        var next := FrontLine(line, front);
        if next.Err? { return Err(next.error); }
        front := next.value;
      }
      i := i + 1;
    }
    if !closed { return Err(NotClosed); }
    // As the source does, the front matter is refused before the prose is read.
    var refusal := FrontRefusal(front);
    if refusal.Some? { return Err(refusal.value); }
    var title: Option<string> := None;
    var body := "";
    ghost var prose := ReadProse(lines[i..], None, "");
    while i < |lines|
      invariant 1 <= i <= |lines|
      invariant prose == ReadProse(lines[i..], title, body)
    {
      var line := lines[i];
      assert lines[i..][1..] == lines[i + 1..];
      if title.None? && "# " <= line {
        title := Some(Trim(line[2..]));
      } else if !CommentLine(line) {
        body := body + line + "\n";
      }
      i := i + 1;
    }
    assert lines[i..] == [];
    assert prose == (title, body);
    parsed := Checked(slug, front, (title, body));
  }

  // ------------------------------------------------------------ what an accepted guide is

  ghost predicate NoComments(s: string) {
    forall line <- SplitOn('\n', s) :: !CommentLine(line)
  }

  ghost predicate Accepted(g: Guide) {
    && SlugShaped(g.topic)
    && (forall tag <- g.tags :: SlugShaped(tag))
    && 1 <= |g.title| <= TITLE_MAX_CHARS && Trimmed(g.title) && '\n' !in g.title
    && g.body != "" && Trimmed(g.body) && Utf8Bytes(g.body) <= BODY_MAX_BYTES
    && NoComments(g.body)
  }

  lemma {:induction false} LinesClean(text: string)
    ensures forall line <- Lines(text) :: '\n' !in line && forall c <- line :: c in text
    decreases |text|
  {
    if text != "" {
      var i := LineEnd(text);
      if i < |text| {
        LinesClean(text[i + 1..]);
        assert forall c <- text[..i] :: c in text;
        assert forall c <- text[i + 1..] :: c in text;
      }
    }
  }

  lemma TrimPicks(s: string)
    ensures forall c <- Trim(s) :: c in s
  {
    hide White;
    var t := TrimStart(s);
    assert forall c <- t :: c in s;
    assert forall c <- TrimEnd(t) :: c in t;
  }

  /** A blank at the end of a text only lengthens its last part, or opens a new one. */
  lemma {:induction false} SplitOfLast(s: string, c: char)
    ensures var (x, y) := (SplitOn('\n', s), SplitOn('\n', s + [c]));
            && |x| <= |y|
            && forall i | 0 <= i < |x| :: y[i] == x[i] || y[i] == x[i] + [c]
  {
    if s == "" {
      assert [c][1..] == "" && s + [c] == [c];
      assert SplitOn('\n', "") == [""];
      assert SplitOn('\n', [c])[0] == if c == '\n' then "" else [c];
    } else {
      assert (s + [c])[1..] == s[1..] + [c];
      SplitOfLast(s[1..], c);
      var (x, y) := (SplitOn('\n', s[1..]), SplitOn('\n', s[1..] + [c]));
      assert [s[0]] + (x[0] + [c]) == [s[0]] + x[0] + [c];
    }
  }

  lemma {:induction false} TrimStartNoComments(s: string)
    requires NoComments(s)
    ensures NoComments(TrimStart(s))
  {
    if s != "" && White(s[0]) {
      var (x, y) := (SplitOn('\n', s), SplitOn('\n', s[1..]));
      forall line <- y ensures !CommentLine(line) {
        if s[0] == '\n' {
          assert line in x;
        } else if line == y[0] {
          TrimDropsFirst(s[0], y[0]);
          assert x[0] in x;
        } else {
          assert line in x;
        }
      }
      TrimStartNoComments(s[1..]);
    }
  }

  lemma {:induction false} TrimEndNoComments(s: string)
    requires NoComments(s)
    ensures NoComments(TrimEnd(s))
  {
    if s != "" && White(s[|s| - 1]) {
      var (front, c) := (s[..|s| - 1], s[|s| - 1]);
      assert s == front + [c];
      SplitOfLast(front, c);
      var (x, y) := (SplitOn('\n', front), SplitOn('\n', s));
      forall line <- x ensures !CommentLine(line) {
        var i :| 0 <= i < |x| && x[i] == line;
        TrimDropsLast(line, c);
        assert y[i] in y;
      }
      TrimEndNoComments(front);
    }
  }

  ghost predicate Kept(lines: seq<string>) {
    forall line <- lines :: '\n' !in line && !CommentLine(line)
  }

  /** The prose read is whole lines, none of them a comment. */
  lemma {:induction false} ProseKept(lines: seq<string>, title: Option<string>, kept: seq<string>)
    returns (all: seq<string>)
    requires (forall line <- lines :: '\n' !in line) && Kept(kept)
    ensures Kept(all) && ReadProse(lines, title, Unlines(kept)).1 == Unlines(all)
    decreases |lines|
  {
    hide Trim, CommentLine;
    if lines == [] {
      all := kept;
    } else if title.None? && "# " <= lines[0] {
      all := ProseKept(lines[1..], Some(Trim(lines[0][2..])), kept);
    } else if CommentLine(lines[0]) {
      all := ProseKept(lines[1..], title, kept);
    } else {
      UnlinesAppend(kept, [lines[0]]);
      assert Unlines([lines[0]]) == lines[0] + "\n";
      assert Unlines(kept) + (lines[0] + "\n") == Unlines(kept) + lines[0] + "\n";
      assert lines[0] in lines;
      all := ProseKept(lines[1..], title, kept + [lines[0]]);
    }
  }

  lemma {:induction false} ProseTitle(lines: seq<string>, title: Option<string>, body: string)
    requires forall line <- lines :: '\n' !in line
    requires title.Some? ==> Trimmed(title.value) && '\n' !in title.value
    ensures var read := ReadProse(lines, title, body).0;
            read.Some? ==> Trimmed(read.value) && '\n' !in read.value
    decreases |lines|
  {
    if lines != [] {
      assert lines[0] in lines;
      if title.None? && "# " <= lines[0] {
        TrimIsTrimmed(lines[0][2..]);
        TrimPicks(lines[0][2..]);
        ProseTitle(lines[1..], Some(Trim(lines[0][2..])), body);
      } else {
        ProseTitle(lines[1..], title, if CommentLine(lines[0]) then body else body + lines[0] + "\n");
      }
    }
  }

  lemma {:induction false} FrontRest(lines: seq<string>, front: Front)
    ensures ReadFront(lines, front).Ok? ==> forall line <- ReadFront(lines, front).value.1 :: line in lines
    decreases |lines|
  {
    if lines != [] {
      var line := Trim(lines[0]);
      if line == "" {
        FrontRest(lines[1..], front);
      } else if line != "---" && FrontLine(line, front).Ok? {
        FrontRest(lines[1..], FrontLine(line, front).value);
      }
    }
  }

  lemma EmptyIsNoComment()
    ensures !CommentLine("")
  {
  }

  lemma ProseClean(lines: seq<string>)
    requires forall line <- lines :: '\n' !in line
    ensures NoComments(Trim(ReadProse(lines, None, "").1))
  {
    hide ReadProse, SplitOn, CommentLine, White;
    var kept := ProseKept(lines, None, []);
    var raw := ReadProse(lines, None, "").1;
    SplitOfUnlines(kept);
    EmptyIsNoComment();
    assert NoComments(raw);
    TrimStartNoComments(raw);
    TrimEndNoComments(TrimStart(raw));
  }

  /** The stored body holds no comment-only line and no blank around it; the title is one trimmed line. */
  lemma ParsedIsAccepted(slug: string, text: string)
    requires Parsed(slug, text).Ok?
    ensures Accepted(Parsed(slug, text).value) && Parsed(slug, text).value.slug == slug
  {
    hide Lines, ReadFront, ReadProse, Trim, SlugShaped, NoComments, Trimmed;
    var lines := Lines(text);
    LinesClean(text);
    FrontRest(lines[1..], Front(None, []));
    var (front, rest) := ReadFront(lines[1..], Front(None, [])).value;
    assert forall line <- rest :: line in lines;
    ProseTitle(rest, None, "");
    ProseClean(rest);
    TrimIsTrimmed(ReadProse(rest, None, "").1);
  }

  // ------------------------------------------------------------ what of a file the body is

  predicate Heading(line: string) { "# " <= line }

  /** Where the title is: the first heading, or past the end where there is none. */
  function FirstHeading(lines: seq<string>): (h: nat)
    ensures h <= |lines| && (h < |lines| ==> Heading(lines[h])) && forall i | 0 <= i < h :: !Heading(lines[i])
  {
    if lines == [] || Heading(lines[0]) then 0
    else
      assert forall i | 1 <= i < |lines| :: lines[i] == lines[1..][i - 1];
      1 + FirstHeading(lines[1..])
  }

  function WithoutComments(lines: seq<string>): seq<string> {
    if lines == [] then []
    else (if CommentLine(lines[0]) then [] else [lines[0]]) + WithoutComments(lines[1..])
  }

  lemma {:induction false} TitledProse(lines: seq<string>, title: string, body: string)
    ensures ReadProse(lines, Some(title), body) == (Some(title), body + Unlines(WithoutComments(lines)))
    decreases |lines|
  {
    hide Trim, CommentLine;
    if lines == [] {
      assert body + "" == body;
    } else if CommentLine(lines[0]) {
      TitledProse(lines[1..], title, body);
      assert [] + WithoutComments(lines[1..]) == WithoutComments(lines[1..]);
    } else {
      TitledProse(lines[1..], title, body + lines[0] + "\n");
      UnlinesCons(lines[0], WithoutComments(lines[1..]));
      assert body + lines[0] + "\n" + Unlines(WithoutComments(lines[1..]))
          == body + (lines[0] + "\n" + Unlines(WithoutComments(lines[1..])));
    }
  }

  /** Every line but the first heading. */
  function Others(lines: seq<string>): seq<string> {
    var h := FirstHeading(lines);
    if h < |lines| then lines[..h] + lines[h + 1..] else lines
  }

  function TitleOf(lines: seq<string>): Option<string> {
    var h := FirstHeading(lines);
    if h < |lines| then Some(Trim(lines[h][2..])) else None
  }

  lemma FirstCons(lines: seq<string>)
    requires lines != []
    ensures FirstHeading(lines) == if Heading(lines[0]) then 0 else 1 + FirstHeading(lines[1..])
  {
    hide Heading;
  }

  lemma HeadingIsLong(line: string)
    requires Heading(line)
    ensures |line| >= 2
  {
  }

  lemma OthersCons(lines: seq<string>)
    requires lines != []
    ensures Heading(lines[0]) ==> Others(lines) == lines[1..] && TitleOf(lines) == Some(Trim(lines[0][2..]))
    ensures !Heading(lines[0]) ==>
              Others(lines) == [lines[0]] + Others(lines[1..]) && TitleOf(lines) == TitleOf(lines[1..])
  {
    hide Trim, FirstHeading, Heading;
    FirstCons(lines);
    var (first, rest) := (lines[0], lines[1..]);
    assert lines == [first] + rest;
    if Heading(first) {
      assert lines[..0] + rest == rest;
      HeadingIsLong(first);
    } else {
      var h := FirstHeading(rest);
      if h < |rest| { assert lines[..h + 1] + lines[h + 2..] == [first] + (rest[..h] + rest[h + 1..]); }
    }
  }

  lemma CommentsCons(line: string, rest: seq<string>)
    ensures WithoutComments([line] + rest) == (if CommentLine(line) then [] else [line]) + WithoutComments(rest)
  {
    hide CommentLine;
    assert ([line] + rest)[1..] == rest;
  }

  lemma ProseOfNothing(body: string)
    ensures ReadProse([], None, body) == (TitleOf([]), body + Unlines(WithoutComments(Others([]))))
  {
    assert body + "" == body;
  }

  /** The prose is every line but the first heading and the comments, and the title is that heading. */
  lemma {:induction false} ProseIsTheRest(lines: seq<string>, body: string)
    ensures ReadProse(lines, None, body) == (TitleOf(lines), body + Unlines(WithoutComments(Others(lines))))
    decreases |lines|
  {
    hide Trim, CommentLine, FirstHeading, WithoutComments, Unlines, Others, TitleOf;
    if lines == [] {
      ProseOfNothing(body);
    } else {
      OthersCons(lines);
      if Heading(lines[0]) {
        TitledProse(lines[1..], Trim(lines[0][2..]), body);
      } else {
        var rest := WithoutComments(Others(lines[1..]));
        CommentsCons(lines[0], Others(lines[1..]));
        if CommentLine(lines[0]) {
          ProseIsTheRest(lines[1..], body);
          assert [] + rest == rest;
        } else {
          ProseIsTheRest(lines[1..], body + lines[0] + "\n");
          UnlinesCons(lines[0], rest);
          assert body + lines[0] + "\n" + Unlines(rest) == body + (lines[0] + "\n" + Unlines(rest));
        }
      }
    }
  }

  /** The front matter ends at the first closing fence, and all of it stays behind. */
  lemma {:induction false} FrontIsTheHead(lines: seq<string>, front: Front) returns (k: nat)
    requires ReadFront(lines, front).Ok?
    ensures k < |lines| && Trim(lines[k]) == "---" && forall i | 0 <= i < k :: Trim(lines[i]) != "---"
    ensures ReadFront(lines, front).value.1 == lines[k + 1..]
    decreases |lines|
  {
    hide Trim, FrontLine;
    var line := Trim(lines[0]);
    if line == "---" {
      k := 0;
    } else {
      k := FrontIsTheHead(lines[1..], if line == "" then front else FrontLine(line, front).value);
      assert forall i | 1 <= i < |lines| :: lines[i] == lines[1..][i - 1];
      k := k + 1;
    }
  }

  /** So an accepted guide's body is its file's prose, and neither front matter, title nor comment is in it. */
  lemma BodyIsTheProse(slug: string, text: string) returns (k: nat)
    requires Parsed(slug, text).Ok?
    ensures var lines := Lines(text);
            && 0 < k < |lines| && Trim(lines[0]) == "---" == Trim(lines[k])
            && (forall i | 0 < i < k :: Trim(lines[i]) != "---")
            && TitleOf(lines[k + 1..]) == Some(Parsed(slug, text).value.title)
            && Parsed(slug, text).value.body == Trim(Unlines(WithoutComments(Others(lines[k + 1..]))))
  {
    hide Lines, ReadFront, ReadProse, Trim, SlugShaped, FrontRefusal, Unlines, WithoutComments, Others, TitleOf;
    var lines := Lines(text);
    k := FrontIsTheHead(lines[1..], Front(None, []));
    assert lines[1..][k + 1..] == lines[k + 2..];
    k := k + 1;
    assert forall i | 1 <= i < |lines| :: lines[i] == lines[1..][i - 1];
    ProseIsTheRest(lines[k + 1..], "");
    assert "" + Unlines(WithoutComments(Others(lines[k + 1..]))) == Unlines(WithoutComments(Others(lines[k + 1..])));
  }

  // ------------------------------------------------------------ printing a guide back

  function TagList(tags: seq<string>): string {
    if tags == [] then ""
    else if |tags| == 1 then " " + tags[0]
    else " " + tags[0] + "," + TagList(tags[1..])
  }

  function TopicLine(topic: string): string { "topic" + ":" + (" " + topic) }

  function TagsLine(tags: seq<string>): string { "tags" + ":" + TagList(tags) }

  function TitleLine(title: string): string { "# " + title }

  function Print(g: Guide): string {
    "---" + "\n" + (TopicLine(g.topic) + "\n" + (TagsLine(g.tags) + "\n" + ("---" + "\n" + (
    TitleLine(g.title) + "\n" + ("\n" + g.body + "\n")))))
  }

  /** Whether a carriage return stands right before a newline. */
  predicate HasCrLf(s: string) {
    exists i | 0 <= i < |s| - 1 :: s[i] == '\r' && s[i + 1] == '\n'
  }

  lemma SlugIsPlain(slug: string)
    requires SlugShaped(slug)
    ensures slug != "" && !White(slug[|slug| - 1])
    ensures Trimmed(slug) && forall c <- slug :: !White(c) && c != ',' && c != ':' && c != '\n' && c != '\r'
  {
    assert slug[0] in slug && slug[|slug| - 1] in slug;
  }

  lemma {:induction false} TagListPlain(tags: seq<string>)
    requires forall tag <- tags :: SlugShaped(tag)
    ensures forall c <- TagList(tags) :: c != '\n' && c != '\r'
    ensures tags != [] ==> TagList(tags) != "" && !White(TagList(tags)[|TagList(tags)| - 1])
  {
    hide White, SlugShaped;
    if tags != [] {
      SlugIsPlain(tags[0]);
      assert (" " + tags[0])[|tags[0]|] == tags[0][|tags[0]| - 1];
      if |tags| > 1 {
        TagListPlain(tags[1..]);
        var (list, rest) := (TagList(tags), TagList(tags[1..]));
        assert list[|list| - 1] == rest[|rest| - 1];
      }
    }
  }

  lemma TrimSpaced(word: string)
    requires word != "" && Trimmed(word)
    ensures Trim(" " + word) == word
  {
    TrimOfPadded(" ", word, "");
    assert " " + word + "" == " " + word;
  }

  lemma {:induction false} TagListRead(tags: seq<string>)
    requires forall tag <- tags :: SlugShaped(tag)
    ensures TagsOf(SplitOn(',', TagList(tags))) == tags
  {
    hide White, Trim, SlugShaped, SplitOn;
    if tags == [] {
      SplitNone(',', "");
      TrimId("");
      assert TagsOf([""]) == TagsOf([""][1..]);
    } else {
      var tag := tags[0];
      SlugIsPlain(tag);
      TrimSpaced(tag);
      if |tags| == 1 {
        SplitNone(',', " " + tag);
        assert TagsOf([" " + tag]) == [tag] + TagsOf([" " + tag][1..]);
        assert tags == [tag];
      } else {
        TagListRead(tags[1..]);
        SplitCons(',', " " + tag, TagList(tags[1..]));
        var parts := [" " + tag] + SplitOn(',', TagList(tags[1..]));
        assert parts[1..] == SplitOn(',', TagList(tags[1..]));
        assert tags == [tag] + tags[1..];
      }
    }
  }

  lemma FrontStep(line: string, rest: seq<string>, front: Front, next: Front)
    requires line != "" && line != "---" && Trim(line) == line && FrontLine(line, front) == Ok(next)
    ensures ReadFront([line] + rest, front) == ReadFront(rest, next)
  {
    hide Trim, FrontLine;
    assert ([line] + rest)[1..] == rest;
  }

  lemma TrimPlain(word: string)
    requires word == "topic" || word == "tags" || word == "---"
    ensures Trim(word) == word
  {
    TrimId(word);
  }

  lemma TopicKey(topic: string, front: Front)
    requires SlugShaped(topic)
    ensures FrontLine("topic" + ":" + (" " + topic), front) == Ok(front.(topic := Some(topic)))
  {
    hide White;
    SplitOnceAt(':', "topic", " " + topic);
    SlugIsPlain(topic);
    TrimPlain("topic");
    TrimSpaced(topic);
    hide SplitOnce, Trim, SlugShaped;
  }

  lemma TagsKey(tags: seq<string>, front: Front)
    requires forall tag <- tags :: SlugShaped(tag)
    ensures FrontLine("tags" + ":" + TagList(tags), front) == Ok(front.(tags := tags))
  {
    hide White, Trim, SplitOnce, TagList, SlugShaped;
    SplitOnceAt(':', "tags", TagList(tags));
    TagListRead(tags);
    TrimPlain("tags");
    assert |"tags"| == 4 && |"topic"| == 5;
  }

  lemma KeyOpens()
    ensures !White('t') && !White(':')
  {
  }

  /** A line that opens with a key and closes with no blank is trimmed already. */
  lemma TrimKeyed(key: string, value: string)
    requires key == "topic" || key == "tags"
    requires value != "" ==> !White(value[|value| - 1])
    ensures Trim(key + ":" + value) == key + ":" + value
    ensures key + ":" + value != "" && key + ":" + value != "---"
  {
    KeyOpens();
    hide White, Trim;
    var line := key + ":" + value;
    assert line[0] == key[0] && key[0] == 't';
    if value != "" { assert line[|line| - 1] == value[|value| - 1]; }
    TrimId(line);
  }

  lemma FrontTopic(topic: string, rest: seq<string>, front: Front)
    requires SlugShaped(topic)
    ensures ReadFront([TopicLine(topic)] + rest, front) == ReadFront(rest, front.(topic := Some(topic)))
  {
    hide White, Trim, FrontLine, SlugShaped, ReadFront;
    SlugIsPlain(topic);
    assert (" " + topic)[|topic|] == topic[|topic| - 1];
    TrimKeyed("topic", " " + topic);
    TopicKey(topic, front);
    FrontStep(TopicLine(topic), rest, front, front.(topic := Some(topic)));
  }

  lemma FrontTags(tags: seq<string>, rest: seq<string>, front: Front)
    requires forall tag <- tags :: SlugShaped(tag)
    ensures ReadFront([TagsLine(tags)] + rest, front) == ReadFront(rest, front.(tags := tags))
  {
    hide White, Trim, FrontLine, SlugShaped, ReadFront;
    TagListPlain(tags);
    TrimKeyed("tags", TagList(tags));
    TagsKey(tags, front);
    FrontStep(TagsLine(tags), rest, front, front.(tags := tags));
  }

  lemma FrontClose(rest: seq<string>, front: Front)
    ensures ReadFront(["---"] + rest, front) == Ok((front, rest))
  {
    TrimId("---");
    assert (["---"] + rest)[1..] == rest;
  }

  lemma ProseHeading(title: string, rest: seq<string>)
    requires title != "" && Trimmed(title)
    ensures ReadProse([TitleLine(title)] + rest, None, "") == ReadProse(rest, Some(title), "")
  {
    hide White, Trim;
    var line := TitleLine(title);
    assert line[2..] == title;
    TrimId(title);
    assert ([line] + rest)[1..] == rest;
  }

  lemma {:induction false} ProseKeepsAll(lines: seq<string>, title: string, body: string)
    requires forall line <- lines :: !CommentLine(line)
    ensures ReadProse(lines, Some(title), body) == (Some(title), body + Unlines(lines))
    decreases |lines|
  {
    hide Trim, CommentLine;
    if lines == [] {
      assert body + "" == body;
    } else {
      assert lines[0] in lines;
      ProseKeepsAll(lines[1..], title, body + lines[0] + "\n");
      assert body + lines[0] + "\n" + Unlines(lines[1..]) == body + (lines[0] + "\n" + Unlines(lines[1..]));
    }
  }

  lemma LinePlain(line: string)
    requires line != "" && line[|line| - 1] != '\r'
    ensures StripCr(line) == line
  {
  }

  lemma TopicLinePlain(topic: string)
    requires SlugShaped(topic)
    ensures '\n' !in TopicLine(topic) && StripCr(TopicLine(topic)) == TopicLine(topic)
  {
    hide White, SlugShaped;
    SlugIsPlain(topic);
    var line := TopicLine(topic);
    assert line[|line| - 1] == topic[|topic| - 1];
    LinePlain(line);
  }

  lemma TagsLinePlain(tags: seq<string>)
    requires forall tag <- tags :: SlugShaped(tag)
    ensures '\n' !in TagsLine(tags) && StripCr(TagsLine(tags)) == TagsLine(tags)
  {
    hide White, SlugShaped, TagList;
    TagListPlain(tags);
    var line := TagsLine(tags);
    var list := TagList(tags);
    if list == "" {
      assert line[|line| - 1] == ':';
    } else {
      assert line[|line| - 1] == list[|list| - 1];
      assert list[|list| - 1] in list;
    }
    LinePlain(line);
  }

  lemma TitleLinePlain(title: string)
    requires title != "" && Trimmed(title) && '\n' !in title
    ensures '\n' !in TitleLine(title) && StripCr(TitleLine(title)) == TitleLine(title)
  {
    var line := TitleLine(title);
    assert line[|line| - 1] == title[|title| - 1];
    LinePlain(line);
  }

  lemma LinesOfBody(body: string)
    ensures Lines("\n" + body + "\n") == Stripped([""] + SplitOn('\n', body))
  {
    var segments := SplitOn('\n', "\n" + body);
    assert ("\n" + body)[1..] == body;
    assert segments == [""] + SplitOn('\n', body);
    UnlinesOfSplit("\n" + body);
    LinesOfSegments(segments);
  }

  lemma AcceptedParts(g: Guide)
    requires Accepted(g)
    ensures SlugShaped(g.topic) && forall tag <- g.tags :: SlugShaped(tag)
    ensures g.title != "" && Trimmed(g.title) && '\n' !in g.title
  {
  }

  /** The lines of a printed guide. */
  lemma LinesOfPrinted(g: Guide)
    requires Accepted(g)
    ensures Lines(Print(g)) == ["---"] + ([TopicLine(g.topic)] + ([TagsLine(g.tags)] + (["---"] + (
                               [TitleLine(g.title)] + Stripped([""] + SplitOn('\n', g.body))))))
  {
    hide Accepted, TopicLine, TagsLine, TitleLine, SplitOn, Stripped, Lines, StripCr;
    AcceptedParts(g);
    TopicLinePlain(g.topic);
    TagsLinePlain(g.tags);
    TitleLinePlain(g.title);
    LinePlain("---");
    LinesOfBody(g.body);
    var t5 := "\n" + g.body + "\n";
    LinesCons(TitleLine(g.title), t5);
    var t4 := TitleLine(g.title) + "\n" + t5;
    LinesCons("---", t4);
    var t3 := "---" + "\n" + t4;
    LinesCons(TagsLine(g.tags), t3);
    var t2 := TagsLine(g.tags) + "\n" + t3;
    LinesCons(TopicLine(g.topic), t2);
    var t1 := TopicLine(g.topic) + "\n" + t2;
    LinesCons("---", t1);
  }

  lemma StrippedComment(line: string)
    ensures CommentLine(StripCr(line)) == CommentLine(line)
  {
    if line != "" && line[|line| - 1] == '\r' {
      assert line == StripCr(line) + ['\r'];
      TrimDropsLast(StripCr(line), '\r');
    }
  }

  lemma StrippedNoComments(body: string)
    requires NoComments(body)
    ensures forall line <- Stripped([""] + SplitOn('\n', body)) :: !CommentLine(line)
  {
    hide CommentLine, StripCr;
    var lines := [""] + SplitOn('\n', body);
    EmptyIsNoComment();
    forall line <- Stripped(lines) ensures !CommentLine(line) {
      var i :| 0 <= i < |lines| && StripCr(lines[i]) == line;
      StrippedComment(lines[i]);
      assert i > 0 ==> lines[i] in SplitOn('\n', body);
    }
  }

  /** Reading a printed guide back: everything as it was but the body, which lost a `\r` before each `\n`. */
  lemma PrintedReads(slug: string, g: Guide)
    requires Accepted(g)
    ensures Parsed(slug, Print(g))
         == Checked(slug, Front(Some(g.topic), g.tags),
                    (Some(g.title), Unlines(Stripped([""] + SplitOn('\n', g.body)))))
  {
    hide TopicLine, TagsLine, TitleLine, Print, SlugShaped, SplitOn, Stripped, Lines, ReadFront, ReadProse, Trim,
         CommentLine, NoComments, Checked;
    LinesOfPrinted(g);
    var body := Stripped([""] + SplitOn('\n', g.body));
    StrippedNoComments(g.body);
    TrimPlain("---");
    var l4 := [TitleLine(g.title)] + body;
    var l3 := ["---"] + l4;
    var l2 := [TagsLine(g.tags)] + l3;
    var l1 := [TopicLine(g.topic)] + l2;
    FrontTopic(g.topic, l2, Front(None, []));
    FrontTags(g.tags, l3, Front(Some(g.topic), []));
    FrontClose(l4, Front(Some(g.topic), g.tags));
    ProseHeading(g.title, body);
    ProseKeepsAll(body, g.title, "");
    assert Lines(Print(g))[1..] == l1;
    assert "" + Unlines(body) == Unlines(body);
  }

  ghost predicate EndsInCr(line: string) {
    line != "" && line[|line| - 1] == '\r'
  }

  ghost predicate SomeEndsInCr(lines: seq<string>) { exists line <- lines :: EndsInCr(line) }

  lemma CrAhead(line: string, lines: seq<string>)
    ensures SomeEndsInCr([line] + lines) <==> EndsInCr(line) || SomeEndsInCr(lines)
  {
    hide EndsInCr;
    assert line in [line] + lines && forall each <- lines :: each in [line] + lines;
  }

  lemma HasCrLfAhead(c: char, rest: string)
    ensures HasCrLf([c] + rest) <==> HasCrLf(rest) || (rest != "" && c == '\r' && rest[0] == '\n')
  {
    var s := [c] + rest;
    if HasCrLf(rest) {
      var i :| 0 <= i < |rest| - 1 && rest[i] == '\r' && rest[i + 1] == '\n';
      assert s[i + 1] == '\r' && s[i + 2] == '\n';
    }
    if HasCrLf(s) {
      var i :| 0 <= i < |s| - 1 && s[i] == '\r' && s[i + 1] == '\n';
      if i > 0 { assert rest[i - 1] == '\r' && rest[i] == '\n'; }
    }
    if rest != "" && c == '\r' && rest[0] == '\n' { assert s[0] == '\r' && s[1] == '\n'; }
  }

  lemma CrOfCons(c: char, rest: string)
    ensures EndsInCr([c] + rest) <==> if rest == "" then c == '\r' else EndsInCr(rest)
  {
  }

  /** Where a text's first segment is empty the text is, or it begins with the mark. */
  lemma FirstSegment(s: string)
    ensures SplitOn('\n', s)[0] == "" <==> s == "" || s[0] == '\n'
  {
  }

  lemma NoCrAtAll()
    ensures !EndsInCr("") && !HasCrLf("")
  {
  }

  /** A segment ends in a carriage return where the text has one before a newline, or at its own end. */
  lemma {:induction false} CrSegments(s: string)
    ensures SomeEndsInCr(SplitOn('\n', s)) <==> HasCrLf(s) || EndsInCr(s)
  {
    if s == "" {
      assert SplitOn('\n', s) == [""];
    } else {
      hide EndsInCr, HasCrLf, SomeEndsInCr;
      var (c, rest) := (s[0], s[1..]);
      var parts := SplitOn('\n', rest);
      assert s == [c] + rest && parts == [parts[0]] + parts[1..];
      CrSegments(rest);
      HasCrLfAhead(c, rest);
      CrOfCons(c, rest);
      FirstSegment(rest);
      CrAhead(parts[0], parts[1..]);
      if c == '\n' {
        CrAhead("", parts);
      } else {
        CrAhead([c] + parts[0], parts[1..]);
        CrOfCons(c, parts[0]);
      }
      NoCrAtAll();
    }
  }

  lemma {:induction false} StrippedLength(lines: seq<string>)
    ensures |Unlines(Stripped(lines))| <= |Unlines(lines)|
    ensures (exists line <- lines :: EndsInCr(line)) ==> |Unlines(Stripped(lines))| < |Unlines(lines)|
    ensures (forall line <- lines :: !EndsInCr(line)) ==> Stripped(lines) == lines
  {
    if lines != [] {
      StrippedLength(lines[1..]);
      assert Stripped(lines)[1..] == Stripped(lines[1..]);
      assert lines == [lines[0]] + lines[1..];
      assert Stripped(lines) == [StripCr(lines[0])] + Stripped(lines[1..]);
      if !EndsInCr(lines[0]) { assert StripCr(lines[0]) == lines[0]; }
      if forall line <- lines :: !EndsInCr(line) {
        assert !EndsInCr(lines[0]);
        assert forall line <- lines[1..] :: line in lines;
      }
    }
  }

  lemma {:induction false} UnlinesEnds(lines: seq<string>)
    requires lines != []
    ensures Unlines(lines) != "" && Unlines(lines)[|Unlines(lines)| - 1] == '\n'
  {
    if |lines| > 1 {
      UnlinesEnds(lines[1..]);
    } else {
      assert lines[1..] == [];
    }
  }

  /** The body a printed guide reads back to is the same exactly when nothing was stripped from it. */
  lemma BodyReadsBackIff(body: string)
    requires body != "" && Trimmed(body)
    ensures Trim(Unlines(Stripped([""] + SplitOn('\n', body)))) == body <==> !HasCrLf(body)
  {
    hide Trim, SplitOn;
    var lines := SplitOn('\n', body);
    var raw := Unlines(Stripped([""] + lines));
    CrSegments(body);
    StrippedLength(lines);
    UnlinesOfSplit(body);
    assert Stripped([""] + lines) == [""] + Stripped(lines);
    assert raw == "" + "\n" + Unlines(Stripped(lines));
    if HasCrLf(body) {
      UnlinesEnds(Stripped(lines));
      var inner := raw[1..|raw| - 1];
      assert raw == ['\n'] + (inner + ['\n']);
      TrimDropsFirst('\n', inner + ['\n']);
      TrimDropsLast(inner, '\n');
      TrimIsTrimmed(inner);
    } else {
      assert raw == "\n" + body + "\n";
      TrimOfPadded("\n", body, "\n");
    }
  }

  lemma CheckedBackIff(slug: string, g: Guide)
    requires Accepted(g) && g.slug == slug
    ensures Checked(slug, Front(Some(g.topic), g.tags),
                    (Some(g.title), Unlines(Stripped([""] + SplitOn('\n', g.body))))) == Ok(g)
            <==> !HasCrLf(g.body)
  {
    hide Trim, Unlines, Stripped, SplitOn, HasCrLf, SlugShaped, NoComments, Utf8Bytes;
    BodyReadsBackIff(g.body);
  }

  /**
   Every guide a text is accepted as prints to a text that reads back to it,
   exactly when its body has no carriage return right before a newline.
   */
  lemma RoundTripIff(slug: string, text: string)
    requires Parsed(slug, text).Ok?
    ensures var g := Parsed(slug, text).value;
            Parsed(slug, Print(g)) == Ok(g) <==> !HasCrLf(g.body)
  {
    hide Parsed, Print, Accepted, HasCrLf;
    var g := Parsed(slug, text).value;
    ParsedIsAccepted(slug, text);
    PrintedReads(slug, g);
    CheckedBackIff(slug, g);
  }

  /** A body whose first line ends in two carriage returns, and what one reading leaves of it. */
  function Wide(): string { "x\r\r" + "\n" + "y" }

  function Narrow(): string { "x\r" + "\n" + "y" }

  function WideGuide(): Guide { Guide("a", "t", "a", [], Wide()) }

  lemma WideSplit()
    ensures SplitOn('\n', Wide()) == ["x\r\r", "y"]
  {
    SplitCons('\n', "x\r\r", "y");
    SplitNone('\n', "y");
  }

  lemma CommentIsLong(line: string)
    requires |line| < 4
    ensures !CommentLine(line)
  {
    TrimIsTrimmed(line);
  }

  lemma {:induction false} Utf8AtMost(s: string)
    ensures Utf8Bytes(s) <= 4 * |s|
  {
    if s != "" { Utf8AtMost(s[1..]); }
  }

  lemma ShortBody(s: string)
    requires |s| <= 5
    ensures Utf8Bytes(s) <= BODY_MAX_BYTES
  {
    Utf8AtMost(s);
  }

  lemma WideAccepted()
    ensures Accepted(WideGuide())
  {
    hide SplitOn, CommentLine, Utf8Bytes;
    WideSplit();
    CommentIsLong("x\r\r");
    CommentIsLong("y");
    ShortBody(Wide());
  }

  lemma NarrowRead()
    ensures Trim(Unlines(Stripped([""] + SplitOn('\n', Wide())))) == Narrow()
  {
    hide SplitOn, Trim;
    WideSplit();
    var read := ["", "x\r", "y"];
    var wide := ["", "x\r\r", "y"];
    assert [""] + ["x\r\r", "y"] == wide;
    assert StripCr(wide[0]) == read[0] && StripCr(wide[1]) == read[1] && StripCr(wide[2]) == read[2];
    assert Stripped(wide) == read;
    assert read[1..] == ["x\r", "y"] && ["x\r", "y"][1..] == ["y"] && ["y"][1..] == [];
    assert Unlines(["y"]) == "y\n";
    assert Unlines(["x\r", "y"]) == Narrow() + "\n";
    assert Unlines(read) == "\n" + Narrow() + "\n";
    TrimOfPadded("\n", Narrow(), "\n");
  }

  lemma NarrowChecked(raw: string)
    requires Trim(raw) == Narrow()
    ensures Checked("a", Front(Some("a"), []), (Some("t"), raw)) == Ok(Guide("a", "t", "a", [], Narrow()))
    ensures HasCrLf(Narrow())
  {
    hide Trim, Utf8Bytes;
    ShortBody(Narrow());
    assert Narrow()[1] == '\r' && Narrow()[2] == '\n';
  }

  /** A file whose prose holds `\r\r\n` is accepted, and its print reads back to another guide. */
  lemma RoundTripCanFail() returns (text: string)
    ensures Parsed("a", text).Ok?
    ensures Parsed("a", Print(Parsed("a", text).value)) != Parsed("a", text)
  {
    hide Parsed, Print, Accepted, HasCrLf, Checked, Trim, Unlines, Stripped, SplitOn, Wide, Narrow;
    WideAccepted();
    text := Print(WideGuide());
    PrintedReads("a", WideGuide());
    NarrowRead();
    NarrowChecked(Unlines(Stripped([""] + SplitOn('\n', Wide()))));
    RoundTripIff("a", text);
  }

  ghost predicate NoCr(s: string) { '\r' !in s }

  lemma {:induction false} ProseNoCr(lines: seq<string>, title: Option<string>, body: string)
    requires (forall line <- lines :: NoCr(line)) && NoCr(body)
    ensures NoCr(ReadProse(lines, title, body).1)
    decreases |lines|
  {
    hide CommentLine, Trim;
    if lines != [] {
      assert NoCr(lines[0]);
      assert forall line <- lines[1..] :: line in lines;
      if title.None? && "# " <= lines[0] {
        ProseNoCr(lines[1..], Some(Trim(lines[0][2..])), body);
      } else if CommentLine(lines[0]) {
        ProseNoCr(lines[1..], title, body);
      } else {
        ProseNoCr(lines[1..], title, body + lines[0] + "\n");
      }
    }
  }

  lemma ParsedNoCr(slug: string, text: string)
    requires '\r' !in text && Parsed(slug, text).Ok?
    ensures NoCr(Parsed(slug, text).value.body)
  {
    hide Lines, ReadProse, ReadFront, Trim, SlugShaped, Utf8Bytes;
    var lines := Lines(text);
    LinesClean(text);
    FrontRest(lines[1..], Front(None, []));
    var rest := ReadFront(lines[1..], Front(None, [])).value.1;
    forall line <- rest ensures NoCr(line) {
      assert line in lines;
      assert forall c <- line :: c in text;
    }
    ProseNoCr(rest, None, "");
    TrimPicks(ReadProse(rest, None, "").1);
  }

  /** So every accepted text without carriage returns prints back to itself. */
  lemma RoundTrip(slug: string, text: string)
    requires '\r' !in text && Parsed(slug, text).Ok?
    ensures Parsed(slug, Print(Parsed(slug, text).value)) == Parsed(slug, text)
  {
    RoundTripIff(slug, text);
    ParsedNoCr(slug, text);
    hide Parsed, Print;
  }
}
