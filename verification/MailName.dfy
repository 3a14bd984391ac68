/** A display name on its way into a message sent in our own name (auth/src/template.ts). */
module MailName {
  import opened Wrappers

  /** A code point as a JavaScript string holds one, a lone surrogate included. */
  type Point = n: int | 0 <= n < 0x11_0000

  type Text = seq<Point>

  /** A text as its code points. */
  function Points(s: string): Text { seq(|s|, i requires 0 <= i < |s| => s[i] as int) }

  const SPACE: Point := 0x20
  const NAME_LIMIT: nat := 80
  const MARKS_PER_GRAPHEME: nat := 2

  predicate LineBreak(p: Point) { 0x9 <= p <= 0xD || p == 0x85 || p == 0x2028 || p == 0x2029 }

  /** What draws as nothing and is neither white space nor a format character. */
  predicate BlankLooking(p: Point) { p == 0x115F || p == 0x1160 || p == 0x2800 || p == 0x3164 || p == 0xFFA0 }

  /** JavaScript's `\s`, which is also what `trim` strips. */
  predicate White(p: Point) {
    || 0x9 <= p <= 0xD || p == SPACE || p == 0xA0 || p == 0x1680 || 0x2000 <= p <= 0x200A
    || p == 0x2028 || p == 0x2029 || p == 0x202F || p == 0x205F || p == 0x3000 || p == 0xFEFF
  }

  /** Unicode's own tables stay open: normalisation, the marks, and the control, format and surrogate classes. */
  datatype Unicode = Unicode(nfc: Text -> Text, mark: Point -> bool, unprintable: Point -> bool)

  /** The one thing assumed of them: a plain space is neither a mark nor unprintable. */
  predicate PlainSpace(u: Unicode) { !u.mark(SPACE) && !u.unprintable(SPACE) }

  // ------------------------------------------------------------ the pipeline's replacements

  function Spaced(s: Text, kind: Point -> bool): Text {
    seq(|s|, i requires 0 <= i < |s| => if kind(s[i]) then SPACE else s[i])
  }

  function Without(s: Text, kind: Point -> bool): (kept: Text)
    ensures forall p <- kept :: p in s && !kind(p)
  {
    if s == [] then []
    else
      var (front, last) := (s[..|s| - 1], s[|s| - 1]);
      assert s == front + [last];
      Without(front, kind) + if kind(last) then [] else [last]
  }

  lemma WithoutNone(kind: Point -> bool)
    ensures Without([], kind) == []
  {
  }

  lemma WithoutMore(s: Text, p: Point, kind: Point -> bool)
    ensures Without(s + [p], kind) == Without(s, kind) + if kind(p) then [] else [p]
  {
    assert (s + [p])[..|s|] == s;
  }

  /** Dropping is done point by point, wherever a text is cut. */
  lemma {:induction false} WithoutJoin(a: Text, b: Text, kind: Point -> bool)
    ensures Without(a + b, kind) == Without(a, kind) + Without(b, kind)
  {
    hide Without;
    if b == [] {
      WithoutNone(kind);
      assert a + b == a;
    } else {
      var (front, last) := (b[..|b| - 1], b[|b| - 1]);
      WithoutJoin(a, front, kind);
      assert a + b == (a + front) + [last] && b == front + [last];
      WithoutMore(a + front, last, kind);
      WithoutMore(front, last, kind);
    }
  }

  /** Each run of white space as one space. */
  function Collapsed(s: Text): Text {
    if s == [] then []
    else
      var (front, last) := (s[..|s| - 1], s[|s| - 1]);
      if !White(last) then Collapsed(front) + [last]
      else if front != [] && White(front[|front| - 1]) then Collapsed(front)
      else Collapsed(front) + [SPACE]
  }

  function TrimLeft(s: Text): (t: Text)
    ensures |t| <= |s| && t == s[|s| - |t|..] && (t != [] ==> !White(t[0]))
  {
    assert forall k | 1 <= k <= |s| :: s[1..][k - 1..] == s[k..];
    if s != [] && White(s[0]) then TrimLeft(s[1..]) else s
  }

  function TrimRight(s: Text): (t: Text)
    ensures t <= s && (t != [] ==> !White(t[|t| - 1]))
  {
    if s != [] && White(s[|s| - 1]) then TrimRight(s[..|s| - 1]) else s
  }

  function Trim(s: Text): Text { TrimRight(TrimLeft(s)) }

  // ------------------------------------------------------------ combining marks

  /** How many marks stand right before a place. */
  function RunBefore(s: Text, mark: Point -> bool, i: nat): nat
    requires i <= |s|
  {
    if i > 0 && mark(s[i - 1]) then RunBefore(s, mark, i - 1) + 1 else 0
  }

  /** Everything but the marks that already have two right before them. */
  function Capped(s: Text, mark: Point -> bool, n: nat): Text
    requires n <= |s|
  {
    if n == 0 then []
    else Capped(s, mark, n - 1)
         + if mark(s[n - 1]) && RunBefore(s, mark, n - 1) >= MARKS_PER_GRAPHEME then [] else [s[n - 1]]
  }

  method CapMarks(value: Text, mark: Point -> bool) returns (kept: Text)
    ensures kept == Capped(value, mark, |value|)
  {
    var stacked := 0;
    kept := [];
    for i := 0 to |value|
      invariant stacked == RunBefore(value, mark, i) && kept == Capped(value, mark, i)
    {
      if !mark(value[i]) {
        stacked := 0;
        kept := kept + [value[i]];
        continue;
      }
      stacked := stacked + 1;
      if stacked <= MARKS_PER_GRAPHEME { kept := kept + [value[i]]; }
    }
  }

  ghost predicate FewMarks(s: Text, mark: Point -> bool) {
    forall i | 0 <= i < |s| - 2 :: !(mark(s[i]) && mark(s[i + 1]) && mark(s[i + 2]))
  }

  /** What a capped text ends with: as many marks as the run so far, up to two. */
  ghost predicate EndsWithRun(kept: Text, mark: Point -> bool, run: nat) {
    && (run == 0 ==> kept == [] || !mark(kept[|kept| - 1]))
    && (run == 1 ==> |kept| == 1 || (|kept| > 1 && !mark(kept[|kept| - 2])))
  }

  lemma {:induction false} CappedHasFewMarks(s: Text, mark: Point -> bool, n: nat)
    requires n <= |s|
    ensures FewMarks(Capped(s, mark, n), mark) && EndsWithRun(Capped(s, mark, n), mark, RunBefore(s, mark, n))
  {
    if n > 0 { CappedHasFewMarks(s, mark, n - 1); }
  }

  /** And nothing is dropped from a text that never stacks three. */
  lemma {:induction false} CappedKeepsFew(s: Text, mark: Point -> bool, n: nat)
    requires n <= |s| && FewMarks(s, mark)
    ensures Capped(s, mark, n) == s[..n]
  {
    if n > 0 {
      CappedKeepsFew(s, mark, n - 1);
      assert s[..n] == s[..n - 1] + [s[n - 1]];
      if RunBefore(s, mark, n - 1) >= 2 {
        assert mark(s[n - 2]) && mark(s[n - 3]);
        assert !(mark(s[n - 3]) && mark(s[n - 3 + 1]) && mark(s[n - 3 + 2]));
      }
    }
  }

  // ------------------------------------------------------------ the name

  /** What is drawn of a text: breaks and blanks as spaces, and the unprintable gone. */
  function Drawn(u: Unicode, s: Text): Text { Without(Spaced(Spaced(s, LineBreak), BlankLooking), u.unprintable) }

  function Printable(u: Unicode, raw: Text): Text { Drawn(u, u.nfc(raw)) }

  function Sanitised(u: Unicode, raw: Text): Text {
    var printable := Printable(u, raw);
    var line := Trim(Collapsed(Capped(printable, u.mark, |printable|)));
    Trim(if |line| > NAME_LIMIT then line[..NAME_LIMIT] else line)
  }

  method SanitiseName(u: Unicode, name: Option<Text>) returns (safe: Text)
    ensures safe == Sanitised(u, if name.Some? then name.value else [])
  {
    var raw := if name.Some? then name.value else [];
    var capped := CapMarks(Printable(u, raw), u.mark);
    var line := Trim(Collapsed(capped));
    safe := Trim(if |line| > NAME_LIMIT then line[..NAME_LIMIT] else line);
  }

  /** What survives the pipeline, one property at a time, each kept by every later step. */
  ghost predicate Clean(u: Unicode, s: Text) {
    forall p <- s :: !LineBreak(p) && !BlankLooking(p) && !u.unprintable(p)
  }

  ghost predicate SpacedOnce(s: Text) {
    && (forall p <- s :: White(p) ==> p == SPACE)
    && (forall i | 0 <= i < |s| - 1 :: !(White(s[i]) && White(s[i + 1])))
  }

  lemma PrintableIsClean(u: Unicode, raw: Text)
    requires PlainSpace(u)
    ensures Clean(u, Printable(u, raw))
  {
  }

  lemma {:induction false} CappedPicks(s: Text, mark: Point -> bool, n: nat)
    requires n <= |s|
    ensures forall p <- Capped(s, mark, n) :: p in s
  {
    if n > 0 { CappedPicks(s, mark, n - 1); }
  }

  lemma SpacedMore(s: Text, p: Point)
    requires SpacedOnce(s) && (White(p) ==> p == SPACE && (s == [] || !White(s[|s| - 1])))
    ensures SpacedOnce(s + [p])
  {
    hide White;
    var more := s + [p];
    assert forall i | 0 <= i < |s| :: more[i] == s[i];
  }

  ghost predicate Picks(c: Text, s: Text) { forall p <- c :: p in s || p == SPACE }

  lemma PicksMore(c: Text, s: Text, p: Point, last: Point)
    requires Picks(c, s) && (p == last || p == SPACE)
    ensures Picks(c, s + [last]) && Picks(c + [p], s + [last])
  {
  }

  /** Whether two texts both end in white space, both end in something else, or both are empty. */
  ghost predicate EndAlike(c: Text, s: Text) {
    (c == [] <==> s == []) && (s != [] && c != [] ==> (White(c[|c| - 1]) <==> White(s[|s| - 1])))
  }

  lemma NothingCollapsed()
    ensures Collapsed([]) == [] && SpacedOnce([]) && Picks([], [])
  {
  }

  lemma SpaceIsWhite()
    ensures White(SPACE)
  {
  }

  lemma {:induction false} CollapsedIs(s: Text)
    ensures SpacedOnce(Collapsed(s)) && Picks(Collapsed(s), s) && EndAlike(Collapsed(s), s)
  {
    hide SpacedOnce, Picks, White;
    if s == [] {
      NothingCollapsed();
    } else {
      var (front, last) := (s[..|s| - 1], s[|s| - 1]);
      assert s == front + [last];
      CollapsedIs(front);
      SpaceIsWhite();
      var p := if White(last) then SPACE else last;
      PicksMore(Collapsed(front), front, p, last);
      if !(White(last) && front != [] && White(front[|front| - 1])) { SpacedMore(Collapsed(front), p); }
    }
  }

  // ------------------------------------------------------------ the words of a line

  predicate EndsInWord(s: Text) { s != [] && !White(s[|s| - 1]) }

  /** The last word with one more point. */
  function Lengthened(words: seq<Text>, p: Point): (longer: seq<Text>)
    requires words != [] && !White(p) && forall word <- words :: word != [] && forall q <- word :: !White(q)
    ensures longer != [] && forall word <- longer :: word != [] && forall q <- word :: !White(q)
  {
    var (front, last) := (words[..|words| - 1], words[|words| - 1]);
    assert last in words && forall word <- front :: word in words;
    front + [last + [p]]
  }

  /** The words of a text: its longest runs of what is not white space, in order. */
  function Words(s: Text): (words: seq<Text>)
    ensures forall word <- words :: word != [] && forall p <- word :: !White(p)
    ensures EndsInWord(s) ==> words != []
    ensures words != [] ==> s != []
  {
    if s == [] then []
    else
      var (front, last) := (s[..|s| - 1], s[|s| - 1]);
      var words := Words(front);
      if White(last) then words
      else if EndsInWord(front) then Lengthened(words, last)
      else words + [[last]]
  }

  /** Words on one line, a space between each and the next. */
  function Line(words: seq<Text>): Text {
    if words == [] then []
    else if |words| == 1 then words[0]
    else Line(words[..|words| - 1]) + [SPACE] + words[|words| - 1]
  }

  lemma LineMore(words: seq<Text>, word: Text)
    ensures Line(words + [word]) == if words == [] then word else Line(words) + [SPACE] + word
  {
    assert (words + [word])[..|words|] == words;
  }

  lemma LineLengthened(words: seq<Text>, p: Point)
    requires words != [] && !White(p) && forall word <- words :: word != [] && forall q <- word :: !White(q)
    ensures Line(Lengthened(words, p)) == Line(words) + [p]
  {
    hide White;
    var (front, last) := (words[..|words| - 1], words[|words| - 1]);
    assert words == front + [last];
    LineMore(front, last);
    LineMore(front, last + [p]);
  }

  /** A collapsed text: its words on one line, in a space where the text begins or ends in white space. */
  ghost predicate IsLineOf(c: Text, s: Text) {
    var lead: Text := if s != [] && White(s[0]) then [SPACE] else [];
    var trail: Text := if s != [] && White(s[|s| - 1]) then [SPACE] else [];
    c == if Words(s) == [] then lead else lead + Line(Words(s)) + trail
  }

  lemma WordlessIsWhite(s: Text)
    requires Words(s) == []
    ensures forall p <- s :: White(p)
  {
    hide White;
    if s != [] {
      var front := s[..|s| - 1];
      assert s == front + [s[|s| - 1]];
      WordlessIsWhite(front);
    }
  }

  lemma WordsMore(s: Text, p: Point)
    ensures Words(s + [p]) == if White(p) then Words(s) else if EndsInWord(s) then Lengthened(Words(s), p)
                              else Words(s) + [[p]]
    ensures Collapsed(s + [p]) == if !White(p) then Collapsed(s) + [p]
                                  else if s != [] && White(s[|s| - 1]) then Collapsed(s) else Collapsed(s) + [SPACE]
  {
    hide White;
    assert (s + [p])[..|s|] == s && (s + [p])[|s|] == p;
  }

  lemma IsLineMore(s: Text, p: Point)
    requires IsLineOf(Collapsed(s), s)
    ensures IsLineOf(Collapsed(s + [p]), s + [p])
  {
    hide White, Line, Words, Collapsed, Lengthened;
    WordsMore(s, p);
    var more := s + [p];
    assert more[0] == (if s == [] then p else s[0]) && more[|s|] == p;
    var (words, c) := (Words(s), Collapsed(s));
    var lead: Text := if White(more[0]) then [SPACE] else [];
    if words == [] {
      WordlessIsWhite(s);
      assert s != [] ==> White(s[0]) && White(s[|s| - 1]);
      if !White(p) { LineMore(words, [p]); }
    } else if !White(p) && EndsInWord(s) {
      LineLengthened(words, p);
      assert c == lead + Line(words) + [] && c + [p] == lead + (Line(words) + [p]) + [];
    } else if !White(p) {
      LineMore(words, [p]);
      assert c + [p] == lead + (Line(words) + [SPACE] + [p]) + [];
    } else if EndsInWord(s) {
      assert c + [SPACE] == lead + Line(words) + [SPACE];
    }
  }

  lemma NothingIsLine()
    ensures IsLineOf(Collapsed([]), [])
  {
  }

  lemma {:induction false} CollapsedIsLine(s: Text)
    ensures IsLineOf(Collapsed(s), s)
  {
    hide IsLineOf, White;
    if s == [] {
      NothingIsLine();
    } else {
      var front := s[..|s| - 1];
      assert s == front + [s[|s| - 1]];
      CollapsedIsLine(front);
      IsLineMore(front, s[|s| - 1]);
    }
  }

  ghost predicate EndsInMarks(s: Text, mark: Point -> bool, k: nat) {
    k <= |s| && forall j | |s| - k <= j < |s| :: mark(s[j])
  }

  /** Marks at the end of a collapsed text are the marks at the end of the text. */
  lemma {:induction false} MarksBehind(s: Text, mark: Point -> bool, k: nat)
    requires !mark(SPACE) && EndsInMarks(Collapsed(s), mark, k)
    ensures EndsInMarks(s, mark, k)
  {
    if k > 0 {
      var (front, last) := (s[..|s| - 1], s[|s| - 1]);
      var (c, d) := (Collapsed(s), Collapsed(front));
      CollapsedIs(s);
      assert mark(c[|c| - 1]);
      assert !White(last);
      assert c == d + [last];
      assert forall j | |d| - (k - 1) <= j < |d| :: c[j] == d[j];
      MarksBehind(front, mark, k - 1);
      assert forall j | |front| - (k - 1) <= j < |front| :: front[j] == s[j];
    }
  }

  lemma FewEnds(s: Text, mark: Point -> bool)
    requires FewMarks(s, mark)
    ensures !EndsInMarks(s, mark, 3)
  {
    var i := |s| - 3;
    assert i >= 0 ==> !(mark(s[i]) && mark(s[i + 1]) && mark(s[i + 2]));
  }

  lemma LastThree(d: Text, c: Text, mark: Point -> bool)
    requires |c| == |d| + 1 && d <= c && FewMarks(d, mark) && !EndsInMarks(c, mark, 3)
    ensures FewMarks(c, mark)
  {
    forall i | 0 <= i < |c| - 2 ensures !(mark(c[i]) && mark(c[i + 1]) && mark(c[i + 2])) {
      if i < |d| - 2 {
        assert !(mark(d[i]) && mark(d[i + 1]) && mark(d[i + 2]));
      } else {
        assert i == |c| - 3;
        if mark(c[i]) && mark(c[i + 1]) { assert !mark(c[i + 2]) by { assert !EndsInMarks(c, mark, 3); } }
      }
    }
  }

  /** So collapsing never brings two runs of marks together: what it drops leaves a space behind. */
  lemma {:induction false} CollapsedKeepsFewMarks(s: Text, mark: Point -> bool)
    requires !mark(SPACE) && FewMarks(s, mark)
    ensures FewMarks(Collapsed(s), mark)
  {
    if s != [] {
      var (front, last) := (s[..|s| - 1], s[|s| - 1]);
      var (c, d) := (Collapsed(s), Collapsed(front));
      assert FewMarks(front, mark);
      CollapsedKeepsFewMarks(front, mark);
      FewEnds(s, mark);
      if EndsInMarks(c, mark, 3) { MarksBehind(s, mark, 3); }
      if |c| == |d| + 1 { LastThree(d, c, mark); }
    }
  }

  ghost predicate Slice(t: Text, s: Text) {
    exists a, b | 0 <= a <= b <= |s| :: t == s[a..b]
  }

  lemma SliceKeeps(u: Unicode, t: Text, s: Text)
    requires Slice(t, s) && Clean(u, s) && SpacedOnce(s) && FewMarks(s, u.mark)
    ensures Clean(u, t) && SpacedOnce(t) && FewMarks(t, u.mark)
  {
    hide White, LineBreak, BlankLooking;
    var a, b :| 0 <= a <= b <= |s| && t == s[a..b];
    forall i | 0 <= i < |t| - 1 ensures !(White(t[i]) && White(t[i + 1])) {
      assert !(White(s[a + i]) && White(s[a + i + 1]));
    }
    forall i | 0 <= i < |t| - 2 ensures !(u.mark(t[i]) && u.mark(t[i + 1]) && u.mark(t[i + 2])) {
      assert !(u.mark(s[a + i]) && u.mark(s[a + i + 1]) && u.mark(s[a + i + 2]));
    }
  }

  lemma TrimIsSlice(s: Text)
    ensures Slice(Trim(s), s)
    ensures Trim(s) != [] ==> !White(Trim(s)[0]) && !White(Trim(s)[|Trim(s)| - 1])
  {
    hide White, TrimLeft, TrimRight;
    var t := TrimLeft(s);
    var r := TrimRight(t);
    var a := |s| - |t|;
    assert r == t[..|r|] && t == s[a..];
    assert s[a..][..|r|] == s[a..a + |r|];
    if r != [] { assert r[0] == t[0]; }
  }

  /** Every point that ends a line, or draws as nothing but is not a plain space. */
  ghost predicate Blank(p: Point) {
    || 0x9 <= p <= 0xD || 0x2000 <= p <= 0x200A
    || p in {0x85, 0xA0, 0x115F, 0x1160, 0x1680, 0x2028, 0x2029, 0x202F, 0x205F, 0x2800, 0x3000, 0x3164, 0xFEFF, 0xFFA0}
  }

  /** One bounded line of printable characters, for every name there is. */
  ghost predicate SafeLine(u: Unicode, s: Text) {
    && |s| <= 80 && FewMarks(s, u.mark)
    && (forall p <- s :: !Blank(p) && !u.unprintable(p))
    && (forall i | 0 <= i < |s| - 1 :: !(s[i] == 0x20 && s[i + 1] == 0x20))
    && (s != [] ==> s[0] != 0x20 && s[|s| - 1] != 0x20)
  }

  lemma SpaceIsNoBlank()
    ensures White(SPACE) && !LineBreak(SPACE) && !BlankLooking(SPACE) && !Blank(SPACE)
  {
  }

  lemma BlankIs(p: Point)
    ensures (LineBreak(p) || BlankLooking(p) || White(p)) <==> (Blank(p) || p == 0x20)
  {
  }

  ghost predicate Kept(u: Unicode, s: Text) { Clean(u, s) && SpacedOnce(s) && FewMarks(s, u.mark) }

  lemma SafeLineIs(u: Unicode, s: Text)
    ensures SafeLine(u, s) <==>
            && |s| <= NAME_LIMIT && Kept(u, s) && (s != [] ==> !White(s[0]) && !White(s[|s| - 1]))
  {
    hide Blank, LineBreak, BlankLooking, White, FewMarks;
    forall p ensures (LineBreak(p) || BlankLooking(p) || White(p)) <==> (Blank(p) || p == 0x20) { BlankIs(p); }
    SpaceIsNoBlank();
  }

  lemma CleanPicks(u: Unicode, s: Text, t: Text)
    requires PlainSpace(u) && Clean(u, s) && forall p <- t :: p in s || p == SPACE
    ensures Clean(u, t)
  {
  }

  lemma CollapsedIsKept(u: Unicode, raw: Text)
    requires PlainSpace(u)
    ensures var printable := Printable(u, raw);
            Kept(u, Collapsed(Capped(printable, u.mark, |printable|)))
  {
    hide Capped, Collapsed, Printable, Clean, SpacedOnce, FewMarks;
    var printable := Printable(u, raw);
    PrintableIsClean(u, raw);
    var capped := Capped(printable, u.mark, |printable|);
    CappedHasFewMarks(printable, u.mark, |printable|);
    CappedPicks(printable, u.mark, |printable|);
    CollapsedIs(capped);
    CollapsedKeepsFewMarks(capped, u.mark);
    CleanPicks(u, printable, Collapsed(capped));
  }

  lemma CutIsSlice(s: Text)
    ensures Slice(if |s| > NAME_LIMIT then s[..NAME_LIMIT] else s, s)
  {
    assert s == s[0..|s|];
    if |s| > NAME_LIMIT { assert s[..NAME_LIMIT] == s[0..NAME_LIMIT]; }
  }

  lemma SliceIsShorter(t: Text, s: Text)
    requires Slice(t, s)
    ensures |t| <= |s|
  {
  }

  lemma SanitisedIsSafe(u: Unicode, raw: Text)
    requires PlainSpace(u)
    ensures SafeLine(u, Sanitised(u, raw))
  {
    hide Capped, Collapsed, Trim, Printable, Clean, SpacedOnce, FewMarks, Slice, White, SafeLine;
    SafeLineIs(u, Sanitised(u, raw));
    CollapsedIsKept(u, raw);
    var printable := Printable(u, raw);
    var line := Collapsed(Capped(printable, u.mark, |printable|));
    TrimIsSlice(line);
    SliceKeeps(u, Trim(line), line);
    var cut := if |Trim(line)| > NAME_LIMIT then Trim(line)[..NAME_LIMIT] else Trim(line);
    CutIsSlice(Trim(line));
    SliceKeeps(u, cut, Trim(line));
    TrimIsSlice(cut);
    SliceKeeps(u, Trim(cut), cut);
    SliceIsShorter(Trim(cut), cut);
  }

  lemma SpacedKeeps(s: Text, kind: Point -> bool)
    requires forall p <- s :: !kind(p)
    ensures Spaced(s, kind) == s
  {
  }

  lemma {:induction false} WithoutKeeps(s: Text, kind: Point -> bool)
    requires forall p <- s :: !kind(p)
    ensures Without(s, kind) == s
  {
    if s != [] {
      assert s == s[..|s| - 1] + [s[|s| - 1]];
      WithoutKeeps(s[..|s| - 1], kind);
    }
  }

  lemma {:induction false} CollapsedKeeps(s: Text)
    requires SpacedOnce(s)
    ensures Collapsed(s) == s
  {
    if s != [] {
      var front := s[..|s| - 1];
      assert s == front + [s[|s| - 1]];
      assert SpacedOnce(front);
      CollapsedKeeps(front);
      if front != [] { assert !(White(s[|s| - 2]) && White(s[|s| - 2 + 1])); }
    }
  }

  lemma TrimKeeps(s: Text)
    requires s != [] ==> !White(s[0]) && !White(s[|s| - 1])
    ensures Trim(s) == s
  {
  }

  lemma CleanParts(u: Unicode, s: Text)
    requires Clean(u, s)
    ensures forall p <- s :: !LineBreak(p)
    ensures forall p <- s :: !BlankLooking(p)
    ensures forall p <- s :: !u.unprintable(p)
  {
  }

  /** A name that is a safe line already, and stays what it is in NFC, goes through untouched. */
  lemma SafeIsKept(u: Unicode, raw: Text)
    requires PlainSpace(u) && u.nfc(raw) == raw && SafeLine(u, raw)
    ensures Sanitised(u, raw) == raw
  {
    hide Capped, Collapsed, Trim, Clean, FewMarks, SpacedOnce, LineBreak, BlankLooking, White, SafeLine;
    SafeLineIs(u, raw);
    CleanParts(u, raw);
    SpacedKeeps(raw, LineBreak);
    SpacedKeeps(raw, BlankLooking);
    WithoutKeeps(raw, u.unprintable);
    CappedKeepsFew(raw, u.mark, |raw|);
    assert raw[..|raw|] == raw;
    CollapsedKeeps(raw);
    TrimKeeps(raw);
  }

  // ------------------------------------------------------------ the name is its words

  lemma {:induction false} LineEnds(words: seq<Text>)
    requires words != [] && forall word <- words :: word != [] && forall p <- word :: !White(p)
    ensures Line(words) != [] && !White(Line(words)[0]) && !White(Line(words)[|Line(words)| - 1])
  {
    hide White;
    var last := words[|words| - 1];
    assert last in words && last[0] in last && last[|last| - 1] in last;
    if |words| > 1 {
      var front := words[..|words| - 1];
      assert forall word <- front :: word in words;
      LineEnds(front);
      assert Line(words)[|Line(words)| - 1] == last[|last| - 1];
    }
  }

  lemma TrimLeftOf(lead: Text, s: Text)
    requires (lead == [] || lead == [SPACE]) && (s != [] ==> !White(s[0]))
    ensures TrimLeft(lead + s) == s
  {
    SpaceIsWhite();
    assert lead == [] ==> lead + s == s;
    assert lead != [] ==> (lead + s)[1..] == s;
  }

  lemma TrimRightOf(s: Text, trail: Text)
    requires (trail == [] || trail == [SPACE]) && (s != [] ==> !White(s[|s| - 1]))
    ensures TrimRight(s + trail) == s
  {
    SpaceIsWhite();
    assert trail == [] ==> s + trail == s;
    assert trail != [] ==> (s + trail)[..|s|] == s;
  }

  lemma TrimOfSpaced(lead: Text, line: Text, trail: Text)
    requires (lead == [] || lead == [SPACE]) && (trail == [] || trail == [SPACE])
    requires line != [] && !White(line[0]) && !White(line[|line| - 1])
    ensures Trim(lead + line + trail) == line
  {
    hide TrimLeft, TrimRight, White;
    var rest := line + trail;
    assert rest[0] == line[0];
    TrimLeftOf(lead, rest);
    TrimRightOf(line, trail);
    assert lead + line + trail == lead + rest;
  }

  lemma TrimOfSpace(lead: Text)
    requires lead == [] || lead == [SPACE]
    ensures Trim(lead) == []
  {
    TrimLeftOf(lead, []);
    assert lead + [] == lead;
  }

  lemma NoLine()
    ensures Line([]) == []
  {
  }

  /** A text collapsed and trimmed is its words on one line. */
  lemma TrimmedIsLine(s: Text)
    ensures Trim(Collapsed(s)) == Line(Words(s))
  {
    hide TrimLeft, TrimRight, Trim, Collapsed, Words, Line, White;
    CollapsedIsLine(s);
    var line := Line(Words(s));
    var lead: Text := if s != [] && White(s[0]) then [SPACE] else [];
    if Words(s) == [] {
      NoLine();
      TrimOfSpace(lead);
    } else {
      LineEnds(Words(s));
      var trail: Text := if White(s[|s| - 1]) then [SPACE] else [];
      TrimOfSpaced(lead, line, trail);
    }
  }

  lemma LineIsSpacedOnce(s: Text)
    ensures SpacedOnce(Line(Words(s)))
  {
    hide White, Trim, Collapsed, Line, Words;
    CollapsedIs(s);
    TrimmedIsLine(s);
    TrimIsSlice(Collapsed(s));
    var (t, c) := (Trim(Collapsed(s)), Collapsed(s));
    var a, b :| 0 <= a <= b <= |c| && t == c[a..b];
    forall i | 0 <= i < |t| - 1 ensures !(White(t[i]) && White(t[i + 1])) {
      assert !(White(c[a + i]) && White(c[a + i + 1]));
    }
  }

  lemma NoTwoSpaces(s: Text, i: nat)
    requires SpacedOnce(s) && i + 1 < |s|
    ensures !(White(s[i]) && White(s[i + 1]))
  {
    hide White;
  }

  /** A long line is cut at its eightieth point, and a space that ends the cut is dropped. */
  lemma CutOf(line: Text)
    requires |line| > 80 && SpacedOnce(line) && !White(line[0])
    ensures Trim(line[..80]) == if line[79] == SPACE then line[..79] else line[..80]
  {
    hide White, TrimLeft, TrimRight;
    SpaceIsWhite();
    var cut := line[..80];
    TrimLeftOf([], cut);
    assert [] + cut == cut && line[79] in line;
    if White(line[79]) {
      NoTwoSpaces(line, 78);
      assert cut == line[..79] + [SPACE];
      TrimRightOf(line[..79], [SPACE]);
    } else {
      assert cut + [] == cut;
      TrimRightOf(cut, []);
    }
  }

  /**
   A name comes out as its words: what can be drawn of it, marks capped, on one
   line with one space between words, or the first eighty points of that line.
   */
  lemma NameIsItsWords(u: Unicode, raw: Text)
    ensures var printable := Printable(u, raw);
            var line := Line(Words(Capped(printable, u.mark, |printable|)));
            Sanitised(u, raw) == if |line| <= 80 then line else if line[79] == SPACE then line[..79] else line[..80]
  {
    hide White, Trim, Collapsed, Line, Words, Capped, Printable;
    var printable := Printable(u, raw);
    var capped := Capped(printable, u.mark, |printable|);
    var line := Line(Words(capped));
    TrimmedIsLine(capped);
    LineIsSpacedOnce(capped);
    TrimIsSlice(Collapsed(capped));
    if |line| <= 80 {
      TrimKeeps(line);
    } else {
      CutOf(line);
    }
  }

  /** Each point of a text is drawn on its own: one that breaks a line or looks blank as a space. */
  lemma DrawnPointByPoint(u: Unicode, a: Text, p: Point)
    requires PlainSpace(u)
    ensures Drawn(u, []) == []
    ensures Drawn(u, a + [p])
         == Drawn(u, a) + if p in {0x9, 0xA, 0xB, 0xC, 0xD, 0x85, 0x2028, 0x2029,
                                   0x115F, 0x1160, 0x2800, 0x3164, 0xFFA0} then [SPACE]
                          else if u.unprintable(p) then [] else [p]
  {
    WithoutNone(u.unprintable);
    var spaced := Spaced(Spaced(a, LineBreak), BlankLooking);
    var q := if LineBreak(p) || BlankLooking(p) then SPACE else p;
    assert Spaced(Spaced(a + [p], LineBreak), BlankLooking) == spaced + [q];
    WithoutMore(spaced, q, u.unprintable);
  }

  // ------------------------------------------------------------ the greeting

  function Greeting(): Text { [0x48, 0x65, 0x79, 0x20, 0x74, 0x68, 0x65, 0x72, 0x65] }

  function Greeted(safe: Text): Text {
    if safe == [] then Greeting() else Greeting() + [0x2C, SPACE] + safe
  }

  method GreetingFor(u: Unicode, name: Option<Text>) returns (greeting: Text)
    ensures greeting == Greeted(Sanitised(u, if name.Some? then name.value else []))
  {
    hide Sanitised;
    var safe := SanitiseName(u, name);
    greeting := if safe == [] then Greeting() else Greeting() + [0x2C, SPACE] + safe;
  }

  lemma CleanJoin(u: Unicode, a: Text, b: Text)
    requires Clean(u, a) && Clean(u, b)
    ensures Clean(u, a + b)
  {
    hide LineBreak, BlankLooking;
    forall p <- a + b ensures !LineBreak(p) && !BlankLooking(p) && !u.unprintable(p) {
      assert p in a || p in b;
    }
  }

  lemma CommaIsClean(u: Unicode)
    requires PlainSpace(u) && !u.unprintable(0x2C)
    ensures Clean(u, [0x2C, SPACE])
  {
  }

  lemma SafeParts(u: Unicode, s: Text)
    requires SafeLine(u, s)
    ensures |s| <= NAME_LIMIT && Clean(u, s) && (s != [] ==> !White(s[|s| - 1]))
  {
    hide Clean, SpacedOnce, FewMarks, White, SafeLine;
    SafeLineIs(u, s);
  }

  lemma GreetingIsText()
    ensures Greeting() == Points("Hey there") && Greeting() + [0x2C, SPACE] == Points("Hey there, ")
  {
  }

  lemma GreetingEnds()
    ensures |Greeting()| == 9 && !White(Greeting()[8])
  {
  }

  /** The greeting is one printable line of bounded length that never ends in a dangling comma or a blank. */
  lemma GreetingIsSafe(u: Unicode, raw: Text)
    requires PlainSpace(u) && Clean(u, Greeting()) && !u.unprintable(0x2C)
    ensures var greeting := Greeted(Sanitised(u, raw));
            && Clean(u, greeting) && 9 <= |greeting| <= 91
            && !White(greeting[|greeting| - 1])
            && greeting == if Sanitised(u, raw) == [] then Points("Hey there")
                           else Points("Hey there, ") + Sanitised(u, raw)
  {
    hide Sanitised, SafeLine, Clean, PlainSpace, White, Greeting;
    SanitisedIsSafe(u, raw);
    var safe := Sanitised(u, raw);
    SafeParts(u, safe);
    GreetingEnds();
    CommaIsClean(u);
    CleanJoin(u, Greeting(), [0x2C, SPACE]);
    CleanJoin(u, Greeting() + [0x2C, SPACE], safe);
    if safe != [] { assert Greeted(safe)[|Greeted(safe)| - 1] == safe[|safe| - 1]; }
    GreetingIsText();
  }

  // ------------------------------------------------------------ escaping

  const AMP: Point := 0x26

  function Entity(p: Point): (entity: Text)
    ensures entity != []
  {
    if p == 0x26 then [AMP, 0x61, 0x6D, 0x70, 0x3B]
    else if p == 0x3C then [AMP, 0x6C, 0x74, 0x3B]
    else if p == 0x3E then [AMP, 0x67, 0x74, 0x3B]
    else if p == 0x22 then [AMP, 0x71, 0x75, 0x6F, 0x74, 0x3B]
    else if p == 0x27 then [AMP, 0x23, 0x33, 0x39, 0x3B]
    else [p]
  }

  function EscapeHtml(s: Text): Text {
    if s == [] then [] else Entity(s[0]) + EscapeHtml(s[1..])
  }

  datatype Reading = Reading(text: string, stands: Point)

  /** Five entities of HTML, and what each stands for. */
  const READINGS: seq<Reading> := [
    Reading("&amp;", 0x26), Reading("&lt;", 0x3C), Reading("&gt;", 0x3E), Reading("&quot;", 0x22),
    Reading("&#39;", 0x27)]

  /** The entity a text opens with, by its place among the five. */
  function Opens(s: Text): (opens: Option<nat>)
    ensures opens.Some? ==> opens.value < 5 && 0 < |READINGS[opens.value].text| <= |s|
  {
    if Points("&amp;") <= s then Some(0)
    else if Points("&lt;") <= s then Some(1)
    else if Points("&gt;") <= s then Some(2)
    else if Points("&quot;") <= s then Some(3)
    else if Points("&#39;") <= s then Some(4)
    else None
  }

  /** Reading an escaped text back, knowing the five entities and nothing else. */
  function Unescape(s: Text): Text
    decreases |s|
  {
    if s == [] then []
    else if Opens(s).Some? then
      [READINGS[Opens(s).value].stands] + Unescape(s[|READINGS[Opens(s).value].text|..])
    else [s[0]] + Unescape(s[1..])
  }

  lemma EntityTexts()
    ensures Entity(0x26) == Points("&amp;") && Entity(0x3C) == Points("&lt;") && Entity(0x3E) == Points("&gt;")
    ensures Entity(0x22) == Points("&quot;") && Entity(0x27) == Points("&#39;")
  {
  }

  lemma OpensEntity(p: Point, rest: Text)
    ensures var opens := Opens(Entity(p) + rest);
            if p in {0x26, 0x3C, 0x3E, 0x22, 0x27}
            then opens.Some? && READINGS[opens.value].stands == p && |READINGS[opens.value].text| == |Entity(p)|
            else opens.None?
  {
    var s := Entity(p) + rest;
    EntityTexts();
    if p in {0x26, 0x3C, 0x3E, 0x22, 0x27} {
      assert s[0] == AMP && s[1] == Entity(p)[1];
      assert Entity(p) <= s;
      hide Points;
      assert Entity(0x26)[1] == 0x61 && Entity(0x3C)[1] == 0x6C && Entity(0x3E)[1] == 0x67;
      assert Entity(0x22)[1] == 0x71 && Entity(0x27)[1] == 0x23;
    } else {
      assert s[0] == p && Points("&amp;")[0] == AMP && Points("&lt;")[0] == AMP && Points("&gt;")[0] == AMP;
      assert Points("&quot;")[0] == AMP && Points("&#39;")[0] == AMP;
    }
  }

  lemma EntityOfPlain(p: Point)
    ensures p !in {0x26, 0x3C, 0x3E, 0x22, 0x27} ==> Entity(p) == [p]
  {
  }

  /** Escaping loses nothing: the five entities read back to exactly what was escaped. */
  lemma {:induction false} UnescapeEscape(s: Text)
    ensures Unescape(EscapeHtml(s)) == s
  {
    hide Opens, Entity;
    if s != [] {
      var rest := EscapeHtml(s[1..]);
      OpensEntity(s[0], rest);
      UnescapeEscape(s[1..]);
      assert (Entity(s[0]) + rest)[|Entity(s[0])|..] == rest;
      EntityOfPlain(s[0]);
      assert s == [s[0]] + s[1..];
    }
  }

  /** And no markup survives it, in text or in a quoted attribute. */
  lemma {:induction false} EscapedHasNoMarkup(s: Text)
    ensures forall p <- EscapeHtml(s) :: p !in {0x3C, 0x3E, 0x22, 0x27}
  {
    if s != [] { EscapedHasNoMarkup(s[1..]); }
  }
}
