/** What a guide hashes to: FNV-1a over framed fields (crates/tam-admin/src/guides_seed.rs). */
module GuideFingerprint {
  import opened Wrappers

  type Byte = b: int | 0 <= b < 0x100

  const SEPARATOR: Byte := 0xff
  const FNV_OFFSET: bv64 := 0xcbf2_9ce4_8422_2325
  const FNV_PRIME: bv64 := 0x0000_0100_0000_01b3

  // ------------------------------------------------------------ bytes of a text

  /** One character in UTF-8 (section 3 of RFC 3629). */
  function Utf8Char(c: char): (bytes: seq<Byte>)
    ensures 1 <= |bytes| <= 4
  {
    var n := c as int;
    if n < 0x80 then [n]
    else if n < 0x800 then [0xC0 + n / 0x40, 0x80 + n % 0x40]
    else if n < 0x1_0000 then [0xE0 + n / 0x1000, 0x80 + n / 0x40 % 0x40, 0x80 + n % 0x40]
    else [0xF0 + n / 0x4_0000, 0x80 + n / 0x1000 % 0x40, 0x80 + n / 0x40 % 0x40, 0x80 + n % 0x40]
  }

  function Utf8(s: string): seq<Byte> {
    if s == "" then [] else Utf8Char(s[0]) + Utf8(s[1..])
  }

  /** How many bytes a character takes, told by its first byte alone. */
  function WidthOf(first: Byte): nat {
    if first < 0x80 then 1 else if first < 0xE0 then 2 else if first < 0xF0 then 3 else 4
  }

  lemma Utf8Lead(c: char)
    ensures Utf8Char(c)[0] != SEPARATOR && |Utf8Char(c)| == WidthOf(Utf8Char(c)[0])
  {
    var n := c as int;
    assert n < 0x11_0000;
  }

  lemma Base64Digits(n: nat, m: nat)
    ensures n / 0x40 == m / 0x40 && n % 0x40 == m % 0x40 ==> n == m
    ensures n / 0x1000 == n / 0x40 / 0x40
    ensures n / 0x4_0000 == n / 0x1000 / 0x40
  {
    assert n == 0x40 * (n / 0x40) + n % 0x40 && m == 0x40 * (m / 0x40) + m % 0x40;
  }

  lemma Utf8CharDecides(c: char, d: char)
    requires Utf8Char(c) == Utf8Char(d)
    ensures c == d
  {
    Utf8Lead(c);
    Utf8Lead(d);
    var (n, m) := (c as int, d as int);
    var (x, y) := (Utf8Char(c), Utf8Char(d));
    assert x[0] == y[0] && x[|x| - 1] == y[|y| - 1];
    Base64Digits(n, m);
    Base64Digits(m, n);
    Base64Digits(n / 0x40, m / 0x40);
    Base64Digits(n / 0x1000, m / 0x1000);
    if |x| == 3 {
      assert x[1] == y[1];
    } else if |x| == 4 {
      assert x[1] == y[1] && x[2] == y[2];
    }
    assert n == m;
    assert c == n as char && d == m as char;
  }

  lemma Utf8CharPrefix(c: char, x: seq<Byte>, d: char, y: seq<Byte>)
    requires Utf8Char(c) + x == Utf8Char(d) + y
    ensures c == d && x == y
  {
    hide Utf8Char;
    Utf8Lead(c);
    Utf8Lead(d);
    var (a, b) := (Utf8Char(c), Utf8Char(d));
    assert a[0] == (a + x)[0] && b[0] == (b + y)[0];
    assert a == (a + x)[..|a|] && b == (b + y)[..|b|];
    assert x == (a + x)[|a|..] && y == (b + y)[|b|..];
    Utf8CharDecides(c, d);
  }

  /** The separator ends a field and nothing inside one can. */
  lemma {:induction false} FieldEnds(s: string, x: seq<Byte>, t: string, y: seq<Byte>)
    requires Utf8(s) + [SEPARATOR] + x == Utf8(t) + [SEPARATOR] + y
    ensures s == t && x == y
  {
    hide Utf8Char;
    var (l, r) := (Utf8(s) + [SEPARATOR] + x, Utf8(t) + [SEPARATOR] + y);
    if s != "" { Utf8Lead(s[0]); assert l[0] == Utf8Char(s[0])[0]; }
    if t != "" { Utf8Lead(t[0]); assert r[0] == Utf8Char(t[0])[0]; }
    if s != "" && t != "" {
      var (s', t') := (Utf8(s[1..]) + [SEPARATOR] + x, Utf8(t[1..]) + [SEPARATOR] + y);
      assert l == Utf8Char(s[0]) + s' && r == Utf8Char(t[0]) + t';
      Utf8CharPrefix(s[0], s', t[0], t');
      FieldEnds(s[1..], x, t[1..], y);
      assert s == [s[0]] + s[1..] && t == [t[0]] + t[1..];
    } else if s == "" && t == "" {
      assert x == l[1..] && y == r[1..];
    }
  }

  // ------------------------------------------------------------ framing

  function Frame(fields: seq<string>): seq<Byte> {
    if fields == [] then [] else Utf8(fields[0]) + [SEPARATOR] + Frame(fields[1..])
  }

  lemma {:induction false} FrameAppend(a: seq<string>, b: seq<string>)
    ensures Frame(a + b) == Frame(a) + Frame(b)
  {
    if a == [] {
      assert a + b == b;
    } else {
      assert (a + b)[1..] == a[1..] + b;
      FrameAppend(a[1..], b);
    }
  }

  /** No two lists of fields share a frame, wherever their texts are cut. */
  lemma {:induction false} FrameDecides(a: seq<string>, b: seq<string>)
    requires Frame(a) == Frame(b)
    ensures a == b
  {
    if a != [] && b != [] {
      FieldEnds(a[0], Frame(a[1..]), b[0], Frame(b[1..]));
      FrameDecides(a[1..], b[1..]);
      assert a == [a[0]] + a[1..] && b == [b[0]] + b[1..];
    }
  }

  // ------------------------------------------------------------ the hash

  function Widened(byte: Byte): bv64 { byte as bv64 }

  function TimesPrime(hash: bv64): bv64 { hash * FNV_PRIME }

  /** One byte into the hash: `^=`, then a multiplication that wraps at 64 bits. */
  function Mix(hash: bv64, byte: Byte): bv64 { TimesPrime(hash ^ Widened(byte)) }

  function Fnv(hash: bv64, bytes: seq<Byte>): bv64
    decreases |bytes|
  {
    if bytes == [] then hash else Fnv(Mix(hash, bytes[0]), bytes[1..])
  }

  lemma {:induction false} FnvAppend(hash: bv64, a: seq<Byte>, b: seq<Byte>)
    ensures Fnv(hash, a + b) == Fnv(Fnv(hash, a), b)
    decreases |a|
  {
    hide Mix;
    if a == [] {
      assert a + b == b;
    } else {
      assert (a + b)[1..] == a[1..] + b;
      FnvAppend(Mix(hash, a[0]), a[1..], b);
    }
  }

  lemma FnvNone(hash: bv64)
    ensures Fnv(hash, []) == hash
  {
  }

  lemma FnvStep(hash: bv64, byte: Byte)
    ensures Fnv(hash, [byte]) == Mix(hash, byte)
  {
    hide Mix;
    assert [byte][1..] == [];
  }

  /** A field absorbed byte by byte, and the separator after it. */
  method Absorb(hash: bv64, text: string) returns (next: bv64)
    ensures next == Fnv(hash, Utf8(text) + [SEPARATOR])
  {
    hide Mix, Fnv;
    var bytes := Utf8(text);
    next := hash;
    FnvNone(hash);
    for i := 0 to |bytes|
      invariant next == Fnv(hash, bytes[..i])
    {
      FnvAppend(hash, bytes[..i], [bytes[i]]);
      FnvStep(next, bytes[i]);
      assert bytes[..i + 1] == bytes[..i] + [bytes[i]];
      next := Mix(next, bytes[i]);
    }
    assert bytes[..|bytes|] == bytes;
    FnvAppend(hash, bytes, [SEPARATOR]);
    FnvStep(next, SEPARATOR);
    next := Mix(next, SEPARATOR);
  }

  // ------------------------------------------------------------ a guide's content

  /** The four things a seed writes, tags and topic by their slugs. */
  datatype Content = Content(title: string, topic: Option<string>, tags: seq<string>, body: string)

  predicate AtMost(a: string, b: string) {
    a == "" || (b != "" && (a[0] < b[0] || (a[0] == b[0] && AtMost(a[1..], b[1..]))))
  }

  function Insert(tag: string, tags: seq<string>): seq<string> {
    if tags == [] then [tag]
    else if AtMost(tag, tags[0]) then [tag] + tags
    else [tags[0]] + Insert(tag, tags[1..])
  }

  function SortTags(tags: seq<string>): seq<string> {
    if tags == [] then [] else Insert(tags[0], SortTags(tags[1..]))
  }

  function Fields(c: Content): seq<string> {
    [c.title, if c.topic.Some? then c.topic.value else ""] + SortTags(c.tags) + [c.body]
  }

  function HashOf(c: Content): bv64 { Fnv(FNV_OFFSET, Frame(Fields(c))) }

  lemma FrameNone()
    ensures Fnv(FNV_OFFSET, Frame([])) == FNV_OFFSET
  {
  }

  lemma FieldAbsorbed(fields: seq<string>, field: string)
    ensures Fnv(Fnv(FNV_OFFSET, Frame(fields)), Utf8(field) + [SEPARATOR])
         == Fnv(FNV_OFFSET, Frame(fields + [field]))
  {
    FrameAppend(fields, [field]);
    assert Frame([field]) == Utf8(field) + [SEPARATOR] + Frame([field][1..]);
    assert Utf8(field) + [SEPARATOR] + [] == Utf8(field) + [SEPARATOR];
    FnvAppend(FNV_OFFSET, Frame(fields), Utf8(field) + [SEPARATOR]);
  }

  method Fingerprint(c: Content) returns (hash: bv64)
    ensures hash == HashOf(c)
  {
    hide Fnv, Frame, Utf8, SortTags;
    var topic := if c.topic.Some? then c.topic.value else "";
    var tags := SortTags(c.tags);
    ghost var absorbed: seq<string> := [];
    FrameNone();
    hash := FNV_OFFSET;
    FieldAbsorbed(absorbed, c.title);
    hash := Absorb(hash, c.title);
    absorbed := absorbed + [c.title];
    FieldAbsorbed(absorbed, topic);
    hash := Absorb(hash, topic);
    absorbed := absorbed + [topic];
    assert absorbed == [c.title, topic] + tags[..0];
    for i := 0 to |tags|
      invariant absorbed == [c.title, topic] + tags[..i]
      invariant hash == Fnv(FNV_OFFSET, Frame(absorbed))
    {
      FieldAbsorbed(absorbed, tags[i]);
      hash := Absorb(hash, tags[i]);
      assert tags[..i + 1] == tags[..i] + [tags[i]];
      assert absorbed + [tags[i]] == [c.title, topic] + tags[..i + 1];
      absorbed := absorbed + [tags[i]];
    }
    assert tags[..|tags|] == tags;
    FieldAbsorbed(absorbed, c.body);
    hash := Absorb(hash, c.body);
  }

  // ------------------------------------------------------------ the order of tags

  lemma {:induction false} AtMostTotal(a: string, b: string)
    ensures AtMost(a, b) || AtMost(b, a)
  {
    if a != "" && b != "" { AtMostTotal(a[1..], b[1..]); }
  }

  lemma {:induction false} AtMostTransitive(a: string, b: string, c: string)
    requires AtMost(a, b) && AtMost(b, c)
    ensures AtMost(a, c)
  {
    if a != "" && a[0] == b[0] == c[0] { AtMostTransitive(a[1..], b[1..], c[1..]); }
  }

  lemma {:induction false} AtMostBoth(a: string, b: string)
    requires AtMost(a, b) && AtMost(b, a)
    ensures a == b
  {
    if a != "" && b != "" {
      AtMostBoth(a[1..], b[1..]);
      assert a == [a[0]] + a[1..] && b == [b[0]] + b[1..];
    }
  }

  ghost predicate Ordered(tags: seq<string>) {
    forall i, j | 0 <= i < j < |tags| :: AtMost(tags[i], tags[j])
  }

  lemma {:induction false} InsertOrders(tag: string, tags: seq<string>)
    requires Ordered(tags)
    ensures Ordered(Insert(tag, tags)) && multiset(Insert(tag, tags)) == multiset(tags) + multiset{tag}
  {
    hide AtMost;
    if tags == [] {
    } else if AtMost(tag, tags[0]) {
      forall j | 0 <= j < |tags| ensures AtMost(tag, tags[j]) {
        if j > 0 { AtMostTransitive(tag, tags[0], tags[j]); }
      }
    } else {
      AtMostTotal(tag, tags[0]);
      InsertOrders(tag, tags[1..]);
      var rest := Insert(tag, tags[1..]);
      assert tags == [tags[0]] + tags[1..];
      assert multiset(rest) == multiset(tags[1..]) + multiset{tag};
      forall j | 0 <= j < |rest| ensures AtMost(tags[0], rest[j]) {
        assert rest[j] in multiset(rest);
        if rest[j] != tag { assert rest[j] in tags[1..]; }
      }
    }
  }

  lemma {:induction false} SortIsSorted(tags: seq<string>)
    ensures Ordered(SortTags(tags)) && multiset(SortTags(tags)) == multiset(tags)
  {
    if tags != [] {
      SortIsSorted(tags[1..]);
      InsertOrders(tags[0], SortTags(tags[1..]));
      assert tags == [tags[0]] + tags[1..];
    }
  }

  lemma BagOfRest(tags: seq<string>)
    requires tags != []
    ensures multiset(tags) == multiset{tags[0]} + multiset(tags[1..])
  {
    assert tags == [tags[0]] + tags[1..];
  }

  lemma AtMostReflexive(a: string)
    ensures AtMost(a, a)
  {
    AtMostTotal(a, a);
  }

  lemma FirstIsLeast(tags: seq<string>, tag: string)
    requires Ordered(tags) && tag in tags
    ensures AtMost(tags[0], tag)
  {
    hide AtMost;
    var i :| 0 <= i < |tags| && tags[i] == tag;
    if i == 0 { AtMostReflexive(tag); }
  }

  lemma SameLeast(a: seq<string>, b: seq<string>)
    requires a != [] && b != [] && Ordered(a) && Ordered(b) && multiset(a) == multiset(b)
    ensures a[0] == b[0]
  {
    hide AtMost, Ordered;
    assert a[0] in multiset(b) && b[0] in multiset(a);
    FirstIsLeast(a, b[0]);
    FirstIsLeast(b, a[0]);
    AtMostBoth(a[0], b[0]);
  }

  lemma OrderedTail(tags: seq<string>)
    requires tags != [] && Ordered(tags)
    ensures Ordered(tags[1..])
  {
    hide AtMost;
    var rest := tags[1..];
    assert forall i | 0 <= i < |rest| :: rest[i] == tags[i + 1];
  }

  lemma {:induction false} OrderedIsUnique(a: seq<string>, b: seq<string>)
    requires Ordered(a) && Ordered(b) && multiset(a) == multiset(b)
    ensures a == b
  {
    hide AtMost, Ordered;
    assert |a| == |multiset(a)| && |b| == |multiset(b)|;
    if a != [] {
      SameLeast(a, b);
      BagOfRest(a);
      BagOfRest(b);
      OrderedTail(a);
      OrderedTail(b);
      assert multiset(a[1..]) == multiset(a) - multiset{a[0]};
      OrderedIsUnique(a[1..], b[1..]);
      assert a == [a[0]] + a[1..] && b == [b[0]] + b[1..];
    }
  }

  /** Two orders over one set of tags sort alike, and only they do. */
  lemma SortForgetsOrder(a: seq<string>, b: seq<string>)
    ensures SortTags(a) == SortTags(b) <==> multiset(a) == multiset(b)
  {
    SortIsSorted(a);
    SortIsSorted(b);
    if multiset(a) == multiset(b) { OrderedIsUnique(SortTags(a), SortTags(b)); }
  }

  /** What two contents must share for the bytes hashed to be the same. */
  ghost predicate SameContent(a: Content, b: Content) {
    && a.title == b.title && a.body == b.body
    && (if a.topic.Some? then a.topic.value else "") == (if b.topic.Some? then b.topic.value else "")
    && multiset(a.tags) == multiset(b.tags)
  }

  /** The one byte string that is hashed decides the title, the topic, the tags as a bag and the body. */
  lemma HashedBytesDecide(a: Content, b: Content)
    ensures Frame(Fields(a)) == Frame(Fields(b)) <==> SameContent(a, b)
  {
    hide Frame, SortTags;
    SortForgetsOrder(a.tags, b.tags);
    if Frame(Fields(a)) == Frame(Fields(b)) {
      FrameDecides(Fields(a), Fields(b));
      var (x, y) := (Fields(a), Fields(b));
      assert x[0] == y[0] && x[1] == y[1] && x[|x| - 1] == y[|y| - 1];
      assert SortTags(a.tags) == x[2..|x| - 1] && SortTags(b.tags) == y[2..|y| - 1];
    }
  }

  /** So equal contents hash alike, whichever order their tags come in. */
  lemma SameContentHashesAlike(a: Content, b: Content)
    requires SameContent(a, b)
    ensures HashOf(a) == HashOf(b)
  {
    HashedBytesDecide(a, b);
  }

  // ------------------------------------------------------------ two contents that hash apart

  lemma MixAs(hash: bv64, byte: Byte, wide: bv64)
    requires Widened(byte) == wide
    ensures Mix(hash, byte) == TimesPrime(hash ^ wide)
  {
    hide TimesPrime, Widened;
  }

  lemma SeparatorWide()
    ensures Widened(SEPARATOR) == 0xff
  {
  }

  lemma LetterAbsorbed(hash: bv64, c: char, wide: bv64, rest: seq<string>)
    requires c < '\U{80}' && Widened(c as int) == wide
    ensures Fnv(hash, Frame([[c]] + rest)) == Fnv(TimesPrime(TimesPrime(hash ^ wide) ^ 0xff), Frame(rest))
  {
    hide Mix, TimesPrime;
    var byte := c as int;
    assert Utf8([c]) == [byte] by { assert [c][1..] == ""; }
    assert ([[c]] + rest)[1..] == rest;
    assert Frame([[c]] + rest) == [byte] + ([SEPARATOR] + Frame(rest));
    FnvAppend(hash, [byte], [SEPARATOR] + Frame(rest));
    FnvStep(hash, byte);
    FnvAppend(Mix(hash, byte), [SEPARATOR], Frame(rest));
    FnvStep(Mix(hash, byte), SEPARATOR);
    MixAs(hash, byte, wide);
    SeparatorWide();
    MixAs(Mix(hash, byte), SEPARATOR, 0xff);
  }

  lemma LettersWide()
    ensures Widened('t' as int) == 0x74 && Widened('a' as int) == 0x61 && Widened('b' as int) == 0x62
  {
  }

  lemma NothingAbsorbed(hash: bv64)
    ensures Fnv(hash, Frame([])) == hash
  {
  }

  lemma OnceHash()
    ensures Fnv(FNV_OFFSET, Frame(["t"] + (["a"] + (["a"] + (["b"] + []))))) == 0xbf86_858b_a217_2347
  {
    hide Fnv, Frame, Widened;
    LettersWide();
    LetterAbsorbed(FNV_OFFSET, 't', 0x74, ["a"] + (["a"] + (["b"] + [])));
    LetterAbsorbed(0x08c7_c907_b56a_0254, 'a', 0x61, ["a"] + (["b"] + []));
    LetterAbsorbed(0x64d1_71ed_125a_d7d0, 'a', 0x61, ["b"] + []);
    LetterAbsorbed(0x7a6d_99f4_2d2f_98f4, 'b', 0x62, []);
    NothingAbsorbed(0xbf86_858b_a217_2347);
  }

  lemma TwiceHash()
    ensures Fnv(FNV_OFFSET, Frame(["t"] + (["a"] + (["a"] + (["a"] + (["b"] + [])))))) == 0x1db8_7744_45b3_4c6b
  {
    hide Fnv, Frame, Widened;
    LettersWide();
    LetterAbsorbed(FNV_OFFSET, 't', 0x74, ["a"] + (["a"] + (["a"] + (["b"] + []))));
    LetterAbsorbed(0x08c7_c907_b56a_0254, 'a', 0x61, ["a"] + (["a"] + (["b"] + [])));
    LetterAbsorbed(0x64d1_71ed_125a_d7d0, 'a', 0x61, ["a"] + (["b"] + []));
    LetterAbsorbed(0x7a6d_99f4_2d2f_98f4, 'a', 0x61, ["b"] + []);
    LetterAbsorbed(TimesPrime(TimesPrime(0x7a6d_99f4_2d2f_98f4 ^ 0x61) ^ 0xff), 'b', 0x62, []);
    NothingAbsorbed(0x1db8_7744_45b3_4c6b);
  }

  /** One tag written twice hashes apart from the tag written once. */
  lemma RepeatHashesApart()
    ensures HashOf(Content("t", Some("a"), ["a", "a"], "b")) != HashOf(Content("t", Some("a"), ["a"], "b"))
  {
    hide Fnv, Frame;
    OnceHash();
    TwiceHash();
    assert SortTags(["a"]) == ["a"] by { assert ["a"][1..] == []; }
    assert SortTags(["a", "a"]) == ["a", "a"] by {
      assert ["a", "a"][1..] == ["a"];
      AtMostReflexive("a");
    }
    assert Fields(Content("t", Some("a"), ["a"], "b")) == ["t"] + (["a"] + (["a"] + (["b"] + [])));
    assert Fields(Content("t", Some("a"), ["a", "a"], "b")) == ["t"] + (["a"] + (["a"] + (["a"] + (["b"] + []))));
  }
}
