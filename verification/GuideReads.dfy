/**
 What a guide's text is read as, line by line, and the one fault it is
 refused for (crates/tam-admin/src/guides_seed.rs).
 */
module GuideReads {
  import opened Wrappers

  import opened GuideParse
  import opened GuideText

  predicate Fence(line: string) { Trim(line) == "---" }

  /** The first fence of the lines, or their number where there is none. */
  ghost predicate FirstFence(lines: seq<string>, c: nat) {
    c <= |lines| && (forall i | 0 <= i < c :: !Fence(lines[i])) && (c < |lines| ==> Fence(lines[c]))
  }

  /** A line that gives a key a value: the two sides of its first colon. */
  ghost predicate Gives(line: string, key: string, value: string) {
    exists before :: ':' !in before && Trim(line) == before + ":" + value && Trim(before) == key
  }

  ghost predicate GivesNone(lines: seq<string>, key: string) {
    forall i | 0 <= i < |lines| :: forall value :: !Gives(lines[i], key, value)
  }

  /** The value of the last line that gives a key one. */
  ghost predicate LastGiven(lines: seq<string>, key: string, value: string) {
    exists i | 0 <= i < |lines| :: Gives(lines[i], key, value) && GivesNone(lines[i + 1..], key)
  }

  /** A front-matter line may be blank, a topic line or a tags line. */
  ghost predicate Readable(line: string) {
    Trim(line) == "" || (exists value :: Gives(line, "topic", value) || Gives(line, "tags", value))
  }

  ghost predicate AllReadable(lines: seq<string>) {
    forall i | 0 <= i < |lines| :: Readable(lines[i])
  }

  /** The fault of the first line that may not be. */
  ghost predicate FirstFault(lines: seq<string>, error: ParseError) {
    exists i | 0 <= i < |lines| ::
      && AllReadable(lines[..i]) && !Readable(lines[i])
      && error == if ':' in lines[i] then UnknownKey else NamesNoKey
  }

  // ------------------------------------------------------------ one line

  lemma {:induction false} SplitOnceNone(mark: char, s: string)
    ensures SplitOnce(mark, s).None? <==> mark !in s
    ensures SplitOnce(mark, s).Some? ==>
              var (a, b) := SplitOnce(mark, s).value; mark !in a && s == a + [mark] + b
  {
    if s != "" && s[0] != mark {
      SplitOnceNone(mark, s[1..]);
      assert s == [s[0]] + s[1..];
      var rest := SplitOnce(mark, s[1..]);
      if rest.Some? {
        assert s == ([s[0]] + rest.value.0) + [mark] + rest.value.1;
      }
    } else if s != "" {
      assert s == "" + [mark] + s[1..];
    }
  }

  lemma GivesIff(line: string, key: string, value: string)
    ensures Gives(line, key, value) <==>
            var split := SplitOnce(':', Trim(line));
            split.Some? && Trim(split.value.0) == key && split.value.1 == value
  {
    hide Trim, SplitOnce;
    SplitOnceNone(':', Trim(line));
    if Gives(line, key, value) {
      var before :| ':' !in before && Trim(line) == before + ":" + value && Trim(before) == key;
      SplitOnceAt(':', before, value);
    }
  }

  lemma {:induction false} TrimStartKeepsMarks(s: string, mark: char)
    requires !White(mark)
    ensures mark in TrimStart(s) <==> mark in s
  {
    hide White;
    if s != "" {
      assert s == [s[0]] + s[1..];
      TrimStartKeepsMarks(s[1..], mark);
    }
  }

  lemma {:induction false} TrimEndKeepsMarks(s: string, mark: char)
    requires !White(mark)
    ensures mark in TrimEnd(s) <==> mark in s
  {
    hide White;
    if s != "" {
      assert s == s[..|s| - 1] + [s[|s| - 1]];
      TrimEndKeepsMarks(s[..|s| - 1], mark);
    }
  }

  lemma TrimKeepsMarks(s: string, mark: char)
    requires !White(mark)
    ensures mark in Trim(s) <==> mark in s
  {
    hide White, TrimStart, TrimEnd;
    TrimStartKeepsMarks(s, mark);
    TrimEndKeepsMarks(TrimStart(s), mark);
  }

  lemma ColonIsNoBlank()
    ensures !White(':')
  {
  }

  /** What one line makes of the front matter read so far. */
  lemma LineReads(line: string, front: Front)
    requires Trim(line) != ""
    ensures match FrontLine(Trim(line), front)
            case Err(error) => !Readable(line) && error == if ':' in line then UnknownKey else NamesNoKey
            case Ok(next) =>
              Readable(line)
              && ((exists value ::
                     Gives(line, "topic", value) && GivesNone([line], "tags")
                     && next == front.(topic := Some(Trim(value))))
                  || (exists value ::
                        Gives(line, "tags", value) && GivesNone([line], "topic")
                        && next == front.(tags := TagsOf(SplitOn(',', value)))))
  {
    hide Trim, SplitOnce, TagsOf, SplitOn, Gives;
    ColonIsNoBlank();
    TrimKeepsMarks(line, ':');
    SplitOnceNone(':', Trim(line));
    forall key, value ensures Gives(line, key, value) <==>
                              var split := SplitOnce(':', Trim(line));
                              split.Some? && Trim(split.value.0) == key && split.value.1 == value {
      GivesIff(line, key, value);
    }
    assert |"topic"| == 5 && |"tags"| == 4;
    var split := SplitOnce(':', Trim(line));
    if split.Some? {
      assert Gives(line, Trim(split.value.0), split.value.1);
      assert [line][0] == line;
    } else {
      assert forall key, value :: !Gives(line, key, value);
    }
  }

  // ------------------------------------------------------------ the front matter

  /** The front matter its lines leave, on top of what was read before them: for each key its last value. */
  ghost predicate FrontRead(lines: seq<string>, before: Front, front: Front) {
    && (if GivesNone(lines, "topic") then front.topic == before.topic
        else exists value :: LastGiven(lines, "topic", value) && front.topic == Some(Trim(value)))
    && (if GivesNone(lines, "tags") then front.tags == before.tags
        else exists value :: LastGiven(lines, "tags", value) && front.tags == TagsOf(SplitOn(',', value)))
  }

  lemma GivesNoneCons(line: string, rest: seq<string>, key: string)
    ensures GivesNone([line] + rest, key) <==> GivesNone([line], key) && GivesNone(rest, key)
  {
    hide Gives;
    var lines := [line] + rest;
    assert lines[0] == line && forall i | 0 <= i < |rest| :: lines[i + 1] == rest[i];
    if GivesNone(lines, key) {
      forall i | 0 <= i < |rest| ensures forall value :: !Gives(rest[i], key, value) { assert lines[i + 1] == rest[i]; }
    }
  }

  lemma LastCons(line: string, rest: seq<string>, key: string, value: string)
    requires LastGiven(rest, key, value) || (Gives(line, key, value) && GivesNone(rest, key))
    ensures LastGiven([line] + rest, key, value)
  {
    hide Gives, GivesNone;
    var lines := [line] + rest;
    if LastGiven(rest, key, value) {
      var i :| 0 <= i < |rest| && Gives(rest[i], key, value) && GivesNone(rest[i + 1..], key);
      assert lines[i + 1] == rest[i] && lines[i + 2..] == rest[i + 1..];
    } else {
      assert lines[0] == line && lines[1..] == rest;
    }
  }

  lemma BlankGivesNone(line: string, key: string)
    requires Trim(line) == ""
    ensures GivesNone([line], key)
  {
    hide Trim;
  }

  lemma GivingIsSome(line: string)
    ensures forall key, value | Gives(line, key, value) :: !GivesNone([line], key)
  {
    hide Gives;
    forall key, value | Gives(line, key, value) ensures !GivesNone([line], key) { assert [line][0] == line; }
  }

  lemma FrontCons(line: string, rest: seq<string>, before: Front, next: Front, front: Front)
    requires FrontRead(rest, next, front)
    requires if Trim(line) == "" then next == before else FrontLine(Trim(line), before) == Ok(next)
    ensures FrontRead([line] + rest, before, front)
  {
    hide Trim, SplitOnce, TagsOf, SplitOn, Gives, GivesNone, LastGiven, FrontLine, Readable;
    GivesNoneCons(line, rest, "topic");
    GivesNoneCons(line, rest, "tags");
    if Trim(line) == "" {
      BlankGivesNone(line, "topic");
      BlankGivesNone(line, "tags");
    } else {
      LineReads(line, before);
    }
    forall key, value | LastGiven(rest, key, value) || (Gives(line, key, value) && GivesNone(rest, key))
      ensures LastGiven([line] + rest, key, value)
    {
      LastCons(line, rest, key, value);
    }
    GivingIsSome(line);
  }

  /** The front matter's answer: its lines read up to the fence, or the first fault before it, or no fence at all. */
  ghost predicate FrontAnswer(lines: seq<string>, before: Front, read: Result<(Front, seq<string>), ParseError>) {
    match read
    case Ok((front, rest)) =>
      exists c | 0 <= c < |lines| ::
        && FirstFence(lines, c) && AllReadable(lines[..c])
        && FrontRead(lines[..c], before, front) && rest == lines[c + 1..]
    case Err(error) =>
      if error == NotClosed then FirstFence(lines, |lines|) && AllReadable(lines)
      else exists c | 0 <= c <= |lines| :: FirstFence(lines, c) && FirstFault(lines[..c], error)
  }

  lemma FenceCons(line: string, rest: seq<string>, c: nat)
    requires !Fence(line) && FirstFence(rest, c)
    ensures FirstFence([line] + rest, c + 1)
    ensures ([line] + rest)[..c + 1] == [line] + rest[..c] && ([line] + rest)[c + 1..] == rest[c..]
  {
    hide Fence;
  }

  lemma ReadableCons(line: string, rest: seq<string>)
    ensures AllReadable([line] + rest) <==> Readable(line) && AllReadable(rest)
  {
    hide Readable;
    var lines := [line] + rest;
    assert lines[0] == line;
    if AllReadable(lines) {
      forall i | 0 <= i < |rest| ensures Readable(rest[i]) { assert lines[i + 1] == rest[i]; }
    }
  }

  lemma FaultCons(line: string, rest: seq<string>, error: ParseError)
    requires Readable(line) && FirstFault(rest, error)
    ensures FirstFault([line] + rest, error)
  {
    hide Readable, AllReadable;
    var lines := [line] + rest;
    var i :| 0 <= i < |rest| && AllReadable(rest[..i]) && !Readable(rest[i])
             && error == if ':' in rest[i] then UnknownKey else NamesNoKey;
    assert lines[i + 1] == rest[i] && lines[..i + 1] == [line] + rest[..i];
    ReadableCons(line, rest[..i]);
  }

  lemma FaultHere(line: string, rest: seq<string>)
    requires !Readable(line)
    ensures FirstFault([line] + rest, if ':' in line then UnknownKey else NamesNoKey)
  {
    hide Readable;
    var lines := [line] + rest;
    assert lines[0] == line && lines[..0] == [];
  }

  lemma {:induction false} FenceExists(lines: seq<string>)
    ensures exists c | 0 <= c <= |lines| :: FirstFence(lines, c)
  {
    hide Fence;
    if lines == [] || Fence(lines[0]) {
      assert FirstFence(lines, 0);
    } else {
      FenceExists(lines[1..]);
      var c :| 0 <= c <= |lines[1..]| && FirstFence(lines[1..], c);
      assert lines == [lines[0]] + lines[1..];
      FenceCons(lines[0], lines[1..], c);
      assert FirstFence(lines, c + 1);
    }
  }

  lemma AnswerCons(
    line: string, rest: seq<string>, before: Front, next: Front, read: Result<(Front, seq<string>), ParseError>)
    requires !Fence(line) && Readable(line) && FrontAnswer(rest, next, read)
    requires if Trim(line) == "" then next == before else FrontLine(Trim(line), before) == Ok(next)
    ensures FrontAnswer([line] + rest, before, read)
  {
    hide Trim, Fence, FrontRead, FirstFence, AllReadable, Readable, FirstFault, FrontLine;
    var lines := [line] + rest;
    match read
    case Ok((front, after)) =>
      var c :| 0 <= c < |rest| && FirstFence(rest, c) && AllReadable(rest[..c]) && FrontRead(rest[..c], next, front)
               && after == rest[c + 1..];
      FenceCons(line, rest, c);
      ReadableCons(line, rest[..c]);
      FrontCons(line, rest[..c], before, next, front);
      assert lines[c + 2..] == rest[c + 1..] && c + 1 < |lines|;
    case Err(error) =>
      if error == NotClosed {
        FenceCons(line, rest, |rest|);
        ReadableCons(line, rest);
      } else {
        var c :| 0 <= c <= |rest| && FirstFence(rest, c) && FirstFault(rest[..c], error);
        FenceCons(line, rest, c);
        FaultCons(line, rest[..c], error);
        assert c + 1 <= |lines|;
      }
  }

  lemma NothingRead(before: Front)
    ensures FrontRead([], before, before) && AllReadable([])
  {
  }

  lemma FrontOfNone(before: Front)
    ensures FrontAnswer([], before, Err(NotClosed))
  {
  }

  lemma BlankReads(line: string)
    requires Trim(line) == ""
    ensures Readable(line)
  {
  }

  lemma FrontAtFence(line: string, rest: seq<string>, before: Front)
    requires Fence(line)
    ensures FrontAnswer([line] + rest, before, Ok((before, rest)))
  {
    hide Fence, FrontRead, AllReadable;
    NothingRead(before);
    var lines := [line] + rest;
    assert FirstFence(lines, 0) && lines[..0] == [] && lines[1..] == rest;
  }

  lemma FrontAtFault(line: string, rest: seq<string>, before: Front)
    requires !Fence(line) && !Readable(line)
    ensures FrontAnswer([line] + rest, before, Err(if ':' in line then UnknownKey else NamesNoKey))
  {
    hide Fence, Readable, FirstFault;
    FenceExists(rest);
    var c :| 0 <= c <= |rest| && FirstFence(rest, c);
    FenceCons(line, rest, c);
    FaultHere(line, rest[..c]);
  }

  lemma {:induction false} FrontReads(lines: seq<string>, before: Front)
    ensures FrontAnswer(lines, before, ReadFront(lines, before))
    decreases |lines|
  {
    hide Trim, FrontRead, AllReadable, Readable, FirstFault, FrontLine, FrontAnswer;
    NothingRead(before);
    if lines == [] {
      FrontOfNone(before);
    } else {
      var (line, rest) := (lines[0], lines[1..]);
      assert lines == [line] + rest;
      if Fence(line) {
        FrontAtFence(line, rest, before);
      } else if Trim(line) == "" {
        BlankReads(line);
        FrontReads(rest, before);
        AnswerCons(line, rest, before, before, ReadFront(rest, before));
      } else {
        LineReads(line, before);
        var next := FrontLine(Trim(line), before);
        if next.Ok? {
          FrontReads(rest, next.value);
          AnswerCons(line, rest, before, next.value, ReadFront(rest, next.value));
        } else {
          FrontAtFault(line, rest, before);
        }
      }
    }
  }

  // ------------------------------------------------------------ the whole text

  const SLUG_LETTERS: string := "abcdefghijklmnopqrstuvwxyz0123456789-"

  ghost predicate Slug(s: string) { s != "" && forall c <- s :: c in SLUG_LETTERS }

  lemma LetterIs(c: char)
    ensures c in SLUG_LETTERS <==> ('a' <= c <= 'z' || '0' <= c <= '9' || c == '-')
  {
    var letters := SLUG_LETTERS;
    assert forall i | 0 <= i < 26 :: letters[i] as int == 'a' as int + i;
    assert forall i | 26 <= i < 36 :: letters[i] as int == '0' as int + (i - 26);
    if 'a' <= c <= 'z' {
      assert letters[c as int - 'a' as int] == c;
    } else if '0' <= c <= '9' {
      assert letters[26 + (c as int - '0' as int)] == c;
    } else if c == '-' {
      assert letters[36] == c;
    }
  }

  lemma SlugIff(s: string)
    ensures Slug(s) <==> SlugShaped(s)
  {
    hide SLUG_LETTERS;
    forall c <- s ensures c in SLUG_LETTERS <==> ('a' <= c <= 'z' || '0' <= c <= '9' || c == '-') { LetterIs(c); }
  }

  ghost predicate GoodFront(front: Front) {
    front.topic.Some? && Slug(front.topic.value) && forall tag <- front.tags :: Slug(tag)
  }

  ghost predicate GoodTitle(title: Option<string>) {
    title.Some? && 1 <= |title.value| <= 120
  }

  /** What a front matter, a title and a body come to: the guide they say, or the first thing wrong with them. */
  ghost predicate ComesTo(
    slug: string, front: Front, title: Option<string>, body: string, parsed: Result<Guide, ParseError>)
  {
    match parsed
    case Ok(g) =>
      && GoodFront(front) && GoodTitle(title) && body != "" && Utf8Bytes(body) <= 204_800
      && g == Guide(slug, title.value, front.topic.value, front.tags, body)
    case Err(NoTopic) => front.topic.None?
    case Err(TopicNotSlug) => front.topic.Some? && !Slug(front.topic.value)
    case Err(TagNotSlug) =>
      front.topic.Some? && Slug(front.topic.value) && exists tag <- front.tags :: !Slug(tag)
    case Err(NoHeading) => GoodFront(front) && title.None?
    case Err(TitleLength) => GoodFront(front) && title.Some? && (title.value == "" || |title.value| > 120)
    case Err(NoProse) => GoodFront(front) && GoodTitle(title) && body == ""
    case Err(BodyLength) => GoodFront(front) && GoodTitle(title) && Utf8Bytes(body) > 204_800
    case Err(_) => false
  }

  lemma NoBytes()
    ensures Utf8Bytes("") == 0
  {
  }

  lemma CheckedComesTo(slug: string, front: Front, title: Option<string>, prose: string)
    ensures ComesTo(slug, front, title, Trim(prose), Checked(slug, front, (title, prose)))
  {
    hide Slug, SlugShaped, Trim, Utf8Bytes;
    NoBytes();
    forall s ensures Slug(s) <==> SlugShaped(s) { SlugIff(s); }
  }

  /**
   A text is the guide its front matter and prose say, or is refused for the
   first thing wrong with it: no opening fence, an unreadable line, no closing
   fence, then the topic, the tags, the heading, the title and the body.
   */
  lemma ParsedIff(slug: string, text: string)
    ensures var (lines, parsed) := (Lines(text), Parsed(slug, text));
            if lines == [] || !Fence(lines[0]) then parsed == Err(NotOpened)
            else
              exists read ::
                && FrontAnswer(lines[1..], Front(None, []), read)
                && match read
                   case Err(error) => parsed == Err(error)
                   case Ok((front, rest)) =>
                     ComesTo(slug, front, TitleOf(rest), Trim(Unlines(WithoutComments(Others(rest)))), parsed)
  {
    hide Lines, Trim, ReadFront, ReadProse, FrontAnswer, ComesTo, Checked, TitleOf, Unlines, WithoutComments, Others;
    var lines := Lines(text);
    if lines != [] && Fence(lines[0]) {
      FrontReads(lines[1..], Front(None, []));
      var read := ReadFront(lines[1..], Front(None, []));
      if read.Ok? {
        var (front, rest) := read.value;
        ProseIsTheRest(rest, "");
        var prose := Unlines(WithoutComments(Others(rest)));
        assert "" + prose == prose;
        CheckedComesTo(slug, front, TitleOf(rest), prose);
      }
    }
  }
}
