/** Strings as the guide parser reads them: lines, trimming and splitting (Rust's `str`). */
module GuideText {
  import opened Wrappers

  /** Unicode's White_Space property. */
  predicate White(c: char) {
    || '\U{9}' <= c <= '\U{D}'
    || c == ' ' || c == '\U{85}' || c == '\U{A0}' || c == '\U{1680}'
    || '\U{2000}' <= c <= '\U{200A}'
    || c == '\U{2028}' || c == '\U{2029}' || c == '\U{202F}' || c == '\U{205F}' || c == '\U{3000}'
  }

  function TrimStart(s: string): (t: string)
    ensures |t| <= |s| && t == s[|s| - |t|..]
    ensures t != "" ==> !White(t[0])
    ensures forall i | 0 <= i < |s| - |t| :: White(s[i])
  {
    assert forall k | 1 <= k <= |s| :: s[1..][k - 1..] == s[k..];
    if s != "" && White(s[0]) then TrimStart(s[1..]) else s
  }

  function TrimEnd(s: string): (t: string)
    ensures t <= s
    ensures t != "" ==> !White(t[|t| - 1])
    ensures forall i | |t| <= i < |s| :: White(s[i])
  {
    if s != "" && White(s[|s| - 1]) then TrimEnd(s[..|s| - 1]) else s
  }

  function Trim(s: string): string { TrimEnd(TrimStart(s)) }

  ghost predicate Trimmed(s: string) {
    s != "" ==> !White(s[0]) && !White(s[|s| - 1])
  }

  ghost predicate Blank(s: string) {
    forall c <- s :: White(c)
  }

  lemma TrimIsTrimmed(s: string)
    ensures Trimmed(Trim(s))
    ensures |Trim(s)| <= |s|
  {
    hide White, TrimStart, TrimEnd;
    var t := TrimStart(s);
    var u := TrimEnd(t);
    assert |u| <= |t| <= |s|;
    if u != "" { assert u[0] == t[0]; }
  }

  lemma {:induction false} TrimStartKeeps(pad: string, s: string)
    requires Blank(pad) && s != "" && !White(s[0])
    ensures TrimStart(pad + s) == s
  {
    if pad == "" {
      assert pad + s == s;
    } else {
      assert pad[0] in pad;
      assert (pad + s)[1..] == pad[1..] + s;
      TrimStartKeeps(pad[1..], s);
    }
  }

  lemma {:induction false} TrimEndKeeps(s: string, pad: string)
    requires Blank(pad) && s != "" && !White(s[|s| - 1])
    ensures TrimEnd(s + pad) == s
  {
    if pad == "" {
      assert s + pad == s;
    } else {
      assert pad[|pad| - 1] in pad;
      assert (s + pad)[..|s + pad| - 1] == s + pad[..|pad| - 1];
      TrimEndKeeps(s, pad[..|pad| - 1]);
    }
  }

  /** Trimming takes away exactly the blanks around a trimmed middle. */
  lemma TrimOfPadded(a: string, s: string, b: string)
    requires Blank(a) && Blank(b) && s != "" && Trimmed(s)
    ensures Trim(a + s + b) == s
  {
    assert a + s + b == a + (s + b);
    TrimStartKeeps(a, s + b);
    TrimEndKeeps(s, b);
  }

  lemma TrimId(s: string)
    requires Trimmed(s)
    ensures Trim(s) == s
  {
    if s != "" {
      TrimOfPadded("", s, "");
      assert "" + s + "" == s;
    }
  }

  /** One blank more at either end changes nothing. */
  lemma TrimDropsFirst(c: char, s: string)
    requires White(c)
    ensures Trim([c] + s) == Trim(s)
  {
    assert ([c] + s)[1..] == s;
  }

  lemma {:induction false} TrimStartDropsLast(s: string, c: char)
    requires White(c)
    ensures TrimStart(s + [c]) == if TrimStart(s) == "" then "" else TrimStart(s) + [c]
  {
    hide White;
    if s == "" {
      assert [c][1..] == "";
    } else {
      assert (s + [c])[1..] == s[1..] + [c];
      TrimStartDropsLast(s[1..], c);
    }
  }

  lemma TrimDropsLast(s: string, c: char)
    requires White(c)
    ensures Trim(s + [c]) == Trim(s)
  {
    hide White;
    TrimStartDropsLast(s, c);
    var t := TrimStart(s);
    assert (t + [c])[..|t|] == t;
  }

  // ------------------------------------------------------------ splitting

  function SplitOn(mark: char, s: string): (parts: seq<string>)
    ensures parts != []
    ensures forall part <- parts :: mark !in part
  {
    if s == "" then [""]
    else
      var rest := SplitOn(mark, s[1..]);
      if s[0] == mark then [""] + rest else [[s[0]] + rest[0]] + rest[1..]
  }

  lemma {:induction false} SplitNone(mark: char, s: string)
    requires mark !in s
    ensures SplitOn(mark, s) == [s]
  {
    if s != "" {
      assert s[0] in s;
      SplitNone(mark, s[1..]);
      assert [s[0]] + s[1..] == s;
    }
  }

  /** Two splits joined where one text follows the other: the parts that meet become one. */
  function Glue(x: seq<string>, y: seq<string>): seq<string>
    requires x != [] && y != []
  {
    if |x| == 1 then [x[0] + y[0]] + y[1..] else [x[0]] + Glue(x[1..], y)
  }

  lemma {:induction false} SplitAppend(mark: char, a: string, b: string)
    ensures SplitOn(mark, a + b) == Glue(SplitOn(mark, a), SplitOn(mark, b))
  {
    var y := SplitOn(mark, b);
    if a == "" {
      assert a + b == b && "" + y[0] == y[0];
    } else {
      assert (a + b)[1..] == a[1..] + b;
      SplitAppend(mark, a[1..], b);
      var rest := SplitOn(mark, a[1..]);
      var x := SplitOn(mark, a);
      if a[0] == mark {
        assert x[1..] == rest;
      } else if |rest| == 1 {
        assert [a[0]] + (rest[0] + y[0]) == x[0] + y[0];
      } else {
        assert x[1..] == rest[1..];
      }
    }
  }

  lemma SplitCons(mark: char, a: string, b: string)
    requires mark !in a
    ensures SplitOn(mark, a + [mark] + b) == [a] + SplitOn(mark, b)
  {
    SplitNone(mark, a);
    SplitAppend(mark, a, [mark] + b);
    assert ([mark] + b)[1..] == b;
    assert SplitOn(mark, [mark] + b) == [""] + SplitOn(mark, b);
    assert a + [mark] + b == a + ([mark] + b);
    assert a + "" == a;
  }

  function SplitOnce(mark: char, s: string): Option<(string, string)> {
    if s == "" then None
    else if s[0] == mark then Some(("", s[1..]))
    else
      var rest := SplitOnce(mark, s[1..]);
      if rest.None? then None else Some(([s[0]] + rest.value.0, rest.value.1))
  }

  lemma {:induction false} SplitOnceAt(mark: char, a: string, b: string)
    requires mark !in a
    ensures SplitOnce(mark, a + [mark] + b) == Some((a, b))
  {
    if a == "" {
      assert (a + [mark] + b)[1..] == b;
    } else {
      assert a[0] in a && forall c <- a[1..] :: c in a;
      assert (a + [mark] + b)[1..] == a[1..] + [mark] + b;
      SplitOnceAt(mark, a[1..], b);
      assert [a[0]] + a[1..] == a;
    }
  }

  // ------------------------------------------------------------ lines

  function StripCr(line: string): string {
    if line != "" && line[|line| - 1] == '\r' then line[..|line| - 1] else line
  }

  /** Where the first line ends: at its newline, or at the end of the text. */
  function LineEnd(text: string): (i: nat)
    ensures i <= |text| && '\n' !in text[..i]
    ensures i < |text| ==> text[i] == '\n'
  {
    if text == "" || text[0] == '\n' then 0
    else
      assert text[..1 + LineEnd(text[1..])] == [text[0]] + text[1..][..LineEnd(text[1..])];
      1 + LineEnd(text[1..])
  }

  /** The lines of a text, each without its `\n` or `\r\n`; a last line without one keeps its `\r`. */
  function Lines(text: string): seq<string>
    decreases |text|
  {
    if text == "" then []
    else
      var i := LineEnd(text);
      if i == |text| then [text] else [StripCr(text[..i])] + Lines(text[i + 1..])
  }

  lemma LinesCons(line: string, rest: string)
    requires '\n' !in line
    ensures Lines(line + "\n" + rest) == [StripCr(line)] + Lines(rest)
  {
    var text := line + "\n" + rest;
    var i := LineEnd(text);
    assert text[|line|] == '\n';
    assert i >= |line| by { assert forall k | 0 <= k < |line| :: text[k] == line[k]; }
    assert i <= |line|;
    assert text[..i] == line && text[i + 1..] == rest;
  }

  function Stripped(lines: seq<string>): seq<string> {
    seq(|lines|, i requires 0 <= i < |lines| => StripCr(lines[i]))
  }

  function Unlines(lines: seq<string>): string {
    if lines == [] then "" else lines[0] + "\n" + Unlines(lines[1..])
  }

  /** A text closed by a newline is read back as its segments between newlines. */
  lemma {:induction false} LinesOfSegments(segments: seq<string>)
    requires forall l <- segments :: '\n' !in l
    ensures Lines(Unlines(segments)) == Stripped(segments)
  {
    if segments != [] {
      LinesOfSegments(segments[1..]);
      LinesCons(segments[0], Unlines(segments[1..]));
    }
  }

  lemma UnlinesCons(line: string, rest: seq<string>)
    ensures Unlines([line] + rest) == line + "\n" + Unlines(rest)
  {
    assert ([line] + rest)[1..] == rest;
  }

  /** A character put before a closed text's first line. */
  lemma UnlinesPrefixed(c: char, lines: seq<string>)
    requires lines != []
    ensures Unlines([[c] + lines[0]] + lines[1..]) == [c] + Unlines(lines)
    ensures Unlines([""] + lines) == "\n" + Unlines(lines)
  {
    hide Unlines;
    var (first, rest) := (lines[0], lines[1..]);
    assert lines == [first] + rest;
    UnlinesCons(first, rest);
    UnlinesCons([c] + first, rest);
    UnlinesCons("", lines);
    assert [c] + first + "\n" + Unlines(rest) == [c] + (first + "\n" + Unlines(rest));
    assert "" + "\n" == "\n";
  }

  lemma {:induction false} UnlinesOfSplit(s: string)
    ensures Unlines(SplitOn('\n', s)) == s + "\n"
  {
    if s == "" {
      assert Unlines([""]) == "" + "\n" + Unlines([""][1..]);
    } else {
      UnlinesOfSplit(s[1..]);
      UnlinesPrefixed(s[0], SplitOn('\n', s[1..]));
      hide Unlines;
      assert s == [s[0]] + s[1..];
      assert [s[0]] + (s[1..] + "\n") == s + "\n";
    }
  }

  lemma {:induction false} SplitOfUnlines(lines: seq<string>)
    requires forall l <- lines :: '\n' !in l
    ensures SplitOn('\n', Unlines(lines)) == lines + [""]
  {
    if lines != [] {
      SplitOfUnlines(lines[1..]);
      SplitCons('\n', lines[0], Unlines(lines[1..]));
      assert lines == [lines[0]] + lines[1..];
    }
  }

  lemma {:induction false} UnlinesAppend(a: seq<string>, b: seq<string>)
    ensures Unlines(a + b) == Unlines(a) + Unlines(b)
  {
    if a == [] {
      assert a + b == b;
    } else {
      assert (a + b)[1..] == a[1..] + b;
      UnlinesAppend(a[1..], b);
    }
  }
}
