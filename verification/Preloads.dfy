/**
 What the shell preloads for each signed-out screen: reachability over the
 build's import graph (web/vite.config.ts), cyclic and incomplete as it may be.
 */
module Preloads {
  import opened Sequences
  import opened Wrappers

  datatype Chunk = Chunk(name: string, imports: seq<string>, css: seq<string>, modules: seq<string>)

  type Graph = map<string, Chunk>

  /** A bundle is an object keyed by file name, so no two chunks share one. */
  ghost predicate Bundle(chunks: seq<Chunk>) {
    forall i, j | 0 <= i < j < |chunks| :: chunks[i].name != chunks[j].name
  }

  function ByName(chunks: seq<Chunk>): Graph {
    if chunks == [] then map[] else ByName(chunks[..|chunks| - 1])[chunks[|chunks| - 1].name := chunks[|chunks| - 1]]
  }

  ghost predicate Named(g: Graph) { forall name <- g :: g[name].name == name }

  ghost predicate Within(g: Graph, from: seq<Chunk>) {
    forall c <- from :: c.name in g && g[c.name] == c
  }

  lemma {:induction false} ByNameIs(chunks: seq<Chunk>)
    requires Bundle(chunks)
    ensures Named(ByName(chunks)) && Within(ByName(chunks), chunks)
    ensures forall name <- ByName(chunks) :: ByName(chunks)[name] in chunks
  {
    if chunks != [] {
      var (front, last) := (chunks[..|chunks| - 1], chunks[|chunks| - 1]);
      ByNameIs(front);
      forall c <- chunks ensures c.name in ByName(chunks) && ByName(chunks)[c.name] == c {
        var i :| 0 <= i < |chunks| && chunks[i] == c;
        if i < |front| { assert c in front && c.name != last.name; }
      }
    }
  }

  // ------------------------------------------------------------ reachability

  /** Whether one chunk imports another; an import naming no chunk leads nowhere. */
  ghost predicate Imports(g: Graph, a: Chunk, b: Chunk) {
    b.name in a.imports && b.name in g && g[b.name] == b
  }

  ghost predicate Path(g: Graph, from: seq<Chunk>, path: seq<Chunk>) {
    && path != [] && path[0] in from
    && forall i | 0 < i < |path| :: Imports(g, path[i - 1], path[i])
  }

  ghost predicate Reachable(g: Graph, from: seq<Chunk>, c: Chunk) {
    exists path :: Path(g, from, path) && path[|path| - 1] == c
  }

  lemma StartIsReachable(g: Graph, from: seq<Chunk>, c: Chunk)
    requires c in from
    ensures Reachable(g, from, c)
  {
    assert Path(g, from, [c]);
  }

  lemma ImportIsReachable(g: Graph, from: seq<Chunk>, a: Chunk, b: Chunk)
    requires Reachable(g, from, a) && Imports(g, a, b)
    ensures Reachable(g, from, b)
  {
    var path :| Path(g, from, path) && path[|path| - 1] == a;
    assert Path(g, from, path + [b]);
  }

  ghost predicate Closed(g: Graph, from: seq<Chunk>, seen: set<Chunk>) {
    (forall c <- from :: c in seen) && forall a, b | a in seen && Imports(g, a, b) :: b in seen
  }

  lemma {:induction false} PathStaysIn(g: Graph, from: seq<Chunk>, path: seq<Chunk>, seen: set<Chunk>)
    requires Path(g, from, path) && Closed(g, from, seen)
    ensures path[|path| - 1] in seen
    decreases |path|
  {
    if |path| > 1 {
      var front := path[..|path| - 1];
      assert Path(g, from, front);
      PathStaysIn(g, from, front, seen);
    }
  }

  lemma ClosedHoldsAll(g: Graph, from: seq<Chunk>, seen: set<Chunk>, c: Chunk)
    requires Closed(g, from, seen) && Reachable(g, from, c)
    ensures c in seen
  {
    var path :| Path(g, from, path) && path[|path| - 1] == c;
    PathStaysIn(g, from, path, seen);
  }

  ghost predicate Frontier(g: Graph, from: seq<Chunk>, seen: seq<Chunk>, pending: seq<Chunk>) {
    && (forall c <- from :: c in seen || c in pending)
    && (forall a, b | a in seen && Imports(g, a, b) :: b in seen || b in pending)
  }

  ghost predicate AllReachable(g: Graph, from: seq<Chunk>, chunks: seq<Chunk>) {
    forall c <- chunks :: Reachable(g, from, c)
  }

  method Follow(g: Graph, chunk: Chunk, pending: seq<Chunk>) returns (more: seq<Chunk>)
    requires Named(g)
    ensures pending <= more
    ensures forall b :: b in more <==> b in pending || Imports(g, chunk, b)
  {
    more := pending;
    for i := 0 to |chunk.imports|
      invariant pending <= more
      invariant forall b :: b in more <==> b in pending || (Imports(g, chunk, b) && b.name in chunk.imports[..i])
    {
      var name := chunk.imports[i];
      assert chunk.imports[..i + 1] == chunk.imports[..i] + [name];
      if name in g { more := more + [g[name]]; }
    }
    assert chunk.imports[..|chunk.imports|] == chunk.imports;
  }

  ghost predicate NamedBy(seen: seq<Chunk>, names: set<string>) {
    && (forall c <- seen :: c.name in names)
    && (forall name <- names :: exists c <- seen :: c.name == name)
  }

  lemma ReachStarts(g: Graph, from: seq<Chunk>)
    requires Within(g, from)
    ensures Within(g, []) && NamedBy([], {}) && Bundle([]) && AllReachable(g, from, [])
    ensures AllReachable(g, from, from) && Frontier(g, from, [], from)
  {
    hide Reachable;
    forall c <- from ensures Reachable(g, from, c) { StartIsReachable(g, from, c); }
  }

  lemma FrontierCloses(g: Graph, from: seq<Chunk>, seen: seq<Chunk>)
    requires Frontier(g, from, seen, [])
    ensures Closed(g, from, (set c <- seen))
  {
  }

  lemma ReachEnds(g: Graph, from: seq<Chunk>, seen: seq<Chunk>)
    requires AllReachable(g, from, seen) && Frontier(g, from, seen, [])
    ensures forall c :: c in seen <==> Reachable(g, from, c)
  {
    hide Reachable, Imports;
    forall c | Reachable(g, from, c) ensures c in seen {
      FrontierCloses(g, from, seen);
      ClosedHoldsAll(g, from, (set each <- seen), c);
    }
  }

  lemma SkipKeeps(g: Graph, from: seq<Chunk>, seen: seq<Chunk>, names: set<string>, pending: seq<Chunk>)
    requires pending != [] && pending[|pending| - 1].name in names && NamedBy(seen, names)
    requires Within(g, seen) && Within(g, pending) && AllReachable(g, from, pending)
    requires Frontier(g, from, seen, pending)
    ensures var rest := pending[..|pending| - 1];
            Within(g, rest) && AllReachable(g, from, rest) && Frontier(g, from, seen, rest)
  {
    hide Reachable, Imports;
    var (rest, chunk) := (pending[..|pending| - 1], pending[|pending| - 1]);
    assert pending == rest + [chunk];
    var c :| c in seen && c.name == chunk.name;
    assert c == chunk;
  }

  lemma SeenKeeps(g: Graph, seen: seq<Chunk>, names: set<string>, pending: seq<Chunk>)
    requires pending != [] && pending[|pending| - 1].name !in names && NamedBy(seen, names) && names <= g.Keys
    requires Within(g, seen) && Within(g, pending) && Bundle(seen)
    ensures var chunk := pending[|pending| - 1];
            && NamedBy(seen + [chunk], names + {chunk.name}) && chunk.name in g.Keys
            && Bundle(seen + [chunk]) && Within(g, seen + [chunk])
  {
    var chunk := pending[|pending| - 1];
    assert chunk in pending && g[chunk.name] == chunk;
    assert forall i | 0 <= i < |seen| :: seen[i] in seen;
    forall name <- names + {chunk.name} ensures exists c <- seen + [chunk] :: c.name == name {
      if name == chunk.name {
        assert chunk in seen + [chunk];
      } else {
        var c :| c in seen && c.name == name;
        assert c in seen + [chunk];
      }
    }
  }

  lemma FollowKeeps(g: Graph, from: seq<Chunk>, seen: seq<Chunk>, pending: seq<Chunk>, chunk: Chunk, more: seq<Chunk>)
    requires pending != [] && chunk == pending[|pending| - 1]
    requires Within(g, pending) && AllReachable(g, from, pending) && AllReachable(g, from, seen)
    requires Frontier(g, from, seen, pending)
    requires forall b :: b in more <==> b in pending[..|pending| - 1] || Imports(g, chunk, b)
    ensures Within(g, more) && AllReachable(g, from, more) && AllReachable(g, from, seen + [chunk])
    ensures Frontier(g, from, seen + [chunk], more)
  {
    hide Reachable;
    var rest := pending[..|pending| - 1];
    assert pending == rest + [chunk];
    forall b <- more ensures Reachable(g, from, b) {
      if b !in rest { ImportIsReachable(g, from, chunk, b); }
    }
  }

  /** Every chunk reachable from the starts, each once, and nothing else, on every graph. */
  method Reach(g: Graph, from: seq<Chunk>) returns (seen: seq<Chunk>)
    requires Named(g) && Within(g, from)
    ensures forall c :: c in seen <==> Reachable(g, from, c)
    ensures Bundle(seen) && Within(g, seen)
  {
    hide Reachable, Imports, Within, NamedBy, Bundle, Frontier, AllReachable;
    seen := [];
    var names: set<string> := {};
    var pending := from;
    ReachStarts(g, from);
    while pending != []
      invariant Within(g, seen) && Within(g, pending)
      invariant NamedBy(seen, names) && names <= g.Keys
      invariant Bundle(seen)
      invariant AllReachable(g, from, seen) && AllReachable(g, from, pending)
      invariant Frontier(g, from, seen, pending)
      decreases |g.Keys - names|, |pending|
    {
      var chunk := pending[|pending| - 1];
      var rest := pending[..|pending| - 1];
      if chunk.name in names {
        SkipKeeps(g, from, seen, names, pending);
        pending := rest;
      } else {
        var more := Follow(g, chunk, rest);
        FollowKeeps(g, from, seen, pending, chunk, more);
        SeenKeeps(g, seen, names, pending);
        assert g.Keys - (names + {chunk.name}) == (g.Keys - names) - {chunk.name};
        seen := seen + [chunk];
        names := names + {chunk.name};
        pending := more;
      }
    }
    ReachEnds(g, from, seen);
  }

  // ------------------------------------------------------------ a page's list

  predicate StartsWith(s: string, prefix: string) { prefix <= s }

  function Holding(chunks: seq<Chunk>, suffix: string): (held: seq<Chunk>)
    ensures forall c :: c in held <==> c in chunks && exists id <- c.modules :: EndsWith(id, suffix)
  {
    if chunks == [] then []
    else
      var (front, last) := (chunks[..|chunks| - 1], chunks[|chunks| - 1]);
      assert chunks == front + [last];
      Holding(front, suffix) + (if exists id <- last.modules :: EndsWith(id, suffix) then [last] else [])
  }

  const ENTRIES: string := "_app/immutable/entry/"
  const ROOT_LAYOUT: string := "/src/routes/+layout.ts"
  const AUTH_LAYOUT: string := "/src/routes/(auth)/+layout.svelte"

  function Entries(chunks: seq<Chunk>): (entries: seq<Chunk>)
    ensures forall c :: c in entries <==> c in chunks && StartsWith(c.name, ENTRIES)
  {
    if chunks == [] then []
    else
      var (front, last) := (chunks[..|chunks| - 1], chunks[|chunks| - 1]);
      assert chunks == front + [last];
      Entries(front) + (if StartsWith(last.name, ENTRIES) then [last] else [])
  }

  /** Where the shell starts: its entries and the root layout. */
  function ShellStarts(chunks: seq<Chunk>): seq<Chunk> { Entries(chunks) + Holding(chunks, ROOT_LAYOUT) }

  /** The shell starts where the build's entries are, and where the root layout is. */
  lemma StartsIff(chunks: seq<Chunk>, c: Chunk)
    ensures c in ShellStarts(chunks)
            <==> c in chunks && ("_app/immutable/entry/" <= c.name
                                 || exists id <- c.modules :: EndsWith(id, "/src/routes/+layout.ts"))
    ensures c in Holding(chunks, AUTH_LAYOUT)
            <==> c in chunks && exists id <- c.modules :: EndsWith(id, "/src/routes/(auth)/+layout.svelte")
  {
    hide EndsWith;
  }

  function Minus(chunks: seq<Chunk>, names: set<string>): (left: seq<Chunk>)
    ensures forall c :: c in left <==> c in chunks && c.name !in names
  {
    if chunks == [] then []
    else
      var (front, last) := (chunks[..|chunks| - 1], chunks[|chunks| - 1]);
      assert chunks == front + [last];
      Minus(front, names) + (if last.name in names then [] else [last])
  }

  function Stylesheets(chunks: seq<Chunk>): (css: seq<string>)
    ensures forall s :: s in css <==> exists c <- chunks :: s in c.css
  {
    if chunks == [] then []
    else
      var (front, last) := (chunks[..|chunks| - 1], chunks[|chunks| - 1]);
      assert chunks == front + [last];
      Stylesheets(front) + last.css
  }

  function Names(chunks: seq<Chunk>): (js: seq<string>)
    ensures forall s :: s in js <==> exists c <- chunks :: s == c.name
  {
    if chunks == [] then []
    else
      var (front, last) := (chunks[..|chunks| - 1], chunks[|chunks| - 1]);
      assert chunks == front + [last];
      Names(front) + [last.name]
  }

  function Slashed(xs: seq<string>): (slashed: seq<string>)
    ensures |slashed| == |xs| && forall i | 0 <= i < |xs| :: slashed[i] == "/" + xs[i]
  {
    seq(|xs|, i requires 0 <= i < |xs| => "/" + xs[i])
  }

  /** Whether what stands first among the first part's names stays ahead of the rest. */
  ghost predicate Ahead(xs: seq<string>, first: seq<string>) {
    forall i, j | 0 <= i < j < |xs| && xs[j] in first :: xs[i] in first
  }

  lemma {:induction false} OnceKeepsOrder(a: seq<string>, b: seq<string>)
    ensures Ahead(Once(a + b), a)
  {
    if b == [] {
      assert a + b == a;
    } else {
      var front := b[..|b| - 1];
      assert (a + b)[..|a + b| - 1] == a + front;
      OnceKeepsOrder(a, front);
    }
  }

  /** What a list must hold: the names of the chunks reached from the page and not from the shell, and their styles. */
  ghost predicate Listed(g: Graph, shell: seq<Chunk>, page: seq<Chunk>, name: string) {
    exists c | Reachable(g, page, c) && !Reachable(g, shell, c) ::
      name == "/" + c.name || exists s <- c.css :: name == "/" + s
  }

  ghost predicate ListFor(g: Graph, shell: seq<Chunk>, page: seq<Chunk>, list: seq<string>) {
    Distinct(list) && forall name :: name in list <==> Listed(g, shell, page, name)
  }

  lemma SlashedOnce(kept: seq<string>)
    requires Distinct(kept)
    ensures Distinct(Slashed(kept))
  {
    var list := Slashed(kept);
    forall i, j | 0 <= i < j < |list| ensures list[i] != list[j] {
      assert list[i][1..] == kept[i] && list[j][1..] == kept[j];
    }
  }

  lemma ListIs(g: Graph, shell: seq<Chunk>, page: seq<Chunk>, names: set<string>, reached: seq<Chunk>)
    requires Named(g) && Within(g, reached)
    requires forall c :: c in reached <==> Reachable(g, page, c)
    requires forall c <- reached :: c.name in names <==> Reachable(g, shell, c)
    ensures var own := Minus(reached, names);
            ListFor(g, shell, page, Slashed(Once(Stylesheets(own) + Names(own))))
  {
    hide Reachable, Minus, Stylesheets, Names, Once, Slashed, Distinct, Within;
    var own := Minus(reached, names);
    var all := Stylesheets(own) + Names(own);
    var kept := Once(all);
    var list := Slashed(kept);
    SlashedOnce(kept);
    forall name ensures name in list <==> Listed(g, shell, page, name) {
      if name in list {
        var i :| 0 <= i < |list| && list[i] == name;
        assert kept[i] in all;
        var c :| c in own && (kept[i] in c.css || kept[i] == c.name);
        assert Reachable(g, page, c) && !Reachable(g, shell, c);
      }
      if Listed(g, shell, page, name) {
        var c :| Reachable(g, page, c) && !Reachable(g, shell, c)
                 && (name == "/" + c.name || exists s <- c.css :: name == "/" + s);
        assert c in own;
        var s := name[1..];
        assert name == "/" + s && s in all;
        var i :| 0 <= i < |kept| && kept[i] == s;
        assert list[i] == name;
      }
    }
  }

  lemma ReachedNamed(g: Graph, shell: seq<Chunk>, names: set<string>, reached: seq<Chunk>)
    requires Within(g, reached)
    requires forall name :: name in names <==> name in g && Reachable(g, shell, g[name])
    ensures forall c <- reached :: c.name in names <==> Reachable(g, shell, c)
  {
    hide Reachable;
  }

  ghost predicate IsStyle(g: Graph, shell: seq<Chunk>, page: seq<Chunk>, name: string) {
    exists c | Reachable(g, page, c) && !Reachable(g, shell, c) :: exists s <- c.css :: name == "/" + s
  }

  /** The first places, and only they, name stylesheets. */
  ghost predicate StylesFirst(g: Graph, shell: seq<Chunk>, page: seq<Chunk>, list: seq<string>, k: nat) {
    forall i | 0 <= i < |list| :: i < k <==> IsStyle(g, shell, page, list[i])
  }

  lemma StyleIff(g: Graph, shell: seq<Chunk>, page: seq<Chunk>, names: set<string>, reached: seq<Chunk>, s: string)
    requires Within(g, reached)
    requires forall c :: c in reached <==> Reachable(g, page, c)
    requires forall c <- reached :: c.name in names <==> Reachable(g, shell, c)
    ensures s in Stylesheets(Minus(reached, names))
            <==> IsStyle(g, shell, page, "/" + s)
  {
    hide Reachable, Within;
    var own := Minus(reached, names);
    if s in Stylesheets(own) {
      var c :| c in own && s in c.css;
      assert Reachable(g, page, c) && !Reachable(g, shell, c);
    }
    if c :| Reachable(g, page, c) && !Reachable(g, shell, c) && exists t <- c.css :: "/" + s == "/" + t {
      var t :| t in c.css && "/" + s == "/" + t;
      assert ("/" + s)[1..] == s && ("/" + t)[1..] == t;
      assert c in own;
    }
  }

  lemma {:induction false} FrontOf(xs: seq<string>, first: seq<string>) returns (k: nat)
    requires Ahead(xs, first)
    ensures k <= |xs| && forall i | 0 <= i < |xs| :: i < k <==> xs[i] in first
  {
    k := 0;
    while k < |xs| && xs[k] in first
      invariant k <= |xs| && forall i | 0 <= i < k :: xs[i] in first
    {
      k := k + 1;
    }
  }

  lemma StylesAhead(g: Graph, shell: seq<Chunk>, page: seq<Chunk>, names: set<string>, reached: seq<Chunk>,
                    kept: seq<string>)
    requires Within(g, reached) && Ahead(kept, Stylesheets(Minus(reached, names)))
    requires forall c :: c in reached <==> Reachable(g, page, c)
    requires forall c <- reached :: c.name in names <==> Reachable(g, shell, c)
    ensures exists k | 0 <= k <= |kept| :: StylesFirst(g, shell, page, Slashed(kept), k)
  {
    hide Reachable, IsStyle, Minus, Stylesheets;
    var k := FrontOf(kept, Stylesheets(Minus(reached, names)));
    forall i | 0 <= i < |kept| ensures i < k <==> IsStyle(g, shell, page, Slashed(kept)[i]) {
      StyleIff(g, shell, page, names, reached, kept[i]);
    }
    assert StylesFirst(g, shell, page, Slashed(kept), k);
  }

  method PageList(g: Graph, shellNames: set<string>, ghost shell: seq<Chunk>, page: seq<Chunk>)
    returns (list: seq<string>)
    requires Named(g) && Within(g, page) && Within(g, shell)
    requires forall name :: name in shellNames <==> name in g && Reachable(g, shell, g[name])
    ensures ListFor(g, shell, page, list)
    ensures exists k | 0 <= k <= |list| :: StylesFirst(g, shell, page, list, k)
  {
    hide Reachable, Listed, Minus, Stylesheets, Names, Once, Slashed, ListFor, StylesFirst, Within;
    var reached := Reach(g, page);
    ReachedNamed(g, shell, shellNames, reached);
    var own := Minus(reached, shellNames);
    var (css, js) := (Stylesheets(own), Names(own));
    list := Slashed(Once(css + js));
    ListIs(g, shell, page, shellNames, reached);
    OnceKeepsOrder(css, js);
    StylesAhead(g, shell, page, shellNames, reached, Once(css + js));
  }

  // ------------------------------------------------------------ the lists of every page

  /** Whether a chunk holds a module of the page at a path. */
  predicate Draws(c: Chunk, pageOf: string -> Option<string>, path: string) {
    exists id <- c.modules :: pageOf(id) == Some(path)
  }

  /** The last chunk of the bundle that draws a path. */
  function LastDrawing(chunks: seq<Chunk>, pageOf: string -> Option<string>, path: string): (last: Option<Chunk>)
    ensures last.None? <==> forall c <- chunks :: !Draws(c, pageOf, path)
    ensures last.Some? ==> last.value in chunks && Draws(last.value, pageOf, path)
  {
    if chunks == [] then None
    else
      var (front, last) := (chunks[..|chunks| - 1], chunks[|chunks| - 1]);
      assert chunks == front + [last];
      if Draws(last, pageOf, path) then Some(last) else LastDrawing(front, pageOf, path)
  }

  /** Every chunk of the bundle that draws a path. */
  function Drawing(chunks: seq<Chunk>, pageOf: string -> Option<string>, path: string): (drawing: seq<Chunk>)
    ensures forall c :: c in drawing <==> c in chunks && Draws(c, pageOf, path)
  {
    if chunks == [] then []
    else
      var (front, last) := (chunks[..|chunks| - 1], chunks[|chunks| - 1]);
      assert chunks == front + [last];
      Drawing(front, pageOf, path) + (if Draws(last, pageOf, path) then [last] else [])
  }

  ghost predicate PageListed(chunks: seq<Chunk>, page: Chunk, list: seq<string>) {
    var (g, shell, from) := (ByName(chunks), ShellStarts(chunks), Holding(chunks, AUTH_LAYOUT) + [page]);
    ListFor(g, shell, from, list) && exists k | 0 <= k <= |list| :: StylesFirst(g, shell, from, list, k)
  }

  ghost predicate FilesOf(chunks: seq<Chunk>, pageOf: string -> Option<string>, done: seq<Chunk>,
                          files: map<string, seq<string>>) {
    forall path :: match LastDrawing(done, pageOf, path)
                   case None => path !in files
                   case Some(page) => path in files && PageListed(chunks, page, files[path])
  }

  /** The shell's reach, as names. */
  ghost predicate ShellOf(chunks: seq<Chunk>, shell: set<string>) {
    var (g, starts) := (ByName(chunks), ShellStarts(chunks));
    forall name :: name in shell <==> name in g && Reachable(g, starts, g[name])
  }

  /** The files once a chunk's first modules were seen: theirs replaced, the others as they were. */
  ghost predicate FilesWithin(chunks: seq<Chunk>, pageOf: string -> Option<string>, chunk: Chunk, j: nat,
                              before: map<string, seq<string>>, files: map<string, seq<string>>)
  {
    forall path ::
      if exists k | 0 <= k < j && k < |chunk.modules| :: pageOf(chunk.modules[k]) == Some(path)
      then path in files && PageListed(chunks, chunk, files[path])
      else (path in files <==> path in before) && (path in files ==> files[path] == before[path])
  }

  lemma StartsWithin(chunks: seq<Chunk>)
    requires Bundle(chunks)
    ensures Named(ByName(chunks)) && Within(ByName(chunks), ShellStarts(chunks))
  {
    hide Bundle;
    ByNameIs(chunks);
  }

  lemma PageWithin(chunks: seq<Chunk>, page: Chunk)
    requires Bundle(chunks) && page in chunks
    ensures Within(ByName(chunks), Holding(chunks, AUTH_LAYOUT) + [page])
  {
    hide Bundle;
    ByNameIs(chunks);
  }

  lemma PageIsListed(chunks: seq<Chunk>, page: Chunk, list: seq<string>)
    requires ListFor(ByName(chunks), ShellStarts(chunks), Holding(chunks, AUTH_LAYOUT) + [page], list)
    requires exists k | 0 <= k <= |list| ::
               StylesFirst(ByName(chunks), ShellStarts(chunks), Holding(chunks, AUTH_LAYOUT) + [page], list, k)
    ensures PageListed(chunks, page, list)
  {
  }

  method ChunkFiles(chunks: seq<Chunk>, pageOf: string -> Option<string>, shell: set<string>, chunk: Chunk,
                    before: map<string, seq<string>>) returns (files: map<string, seq<string>>)
    requires Bundle(chunks) && chunk in chunks && ShellOf(chunks, shell)
    ensures FilesWithin(chunks, pageOf, chunk, |chunk.modules|, before, files)
  {
    hide Reachable, Within, ListFor, StylesFirst, Holding, ShellStarts, ByName, Bundle, PageListed;
    var g := ByName(chunks);
    StartsWithin(chunks);
    PageWithin(chunks, chunk);
    files := before;
    for j := 0 to |chunk.modules|
      invariant FilesWithin(chunks, pageOf, chunk, j, before, files)
    {
      var path := pageOf(chunk.modules[j]);
      if path.Some? {
        var list := PageList(g, shell, ShellStarts(chunks), Holding(chunks, AUTH_LAYOUT) + [chunk]);
        PageIsListed(chunks, chunk, list);
        files := files[path.value := list];
      }
    }
  }

  lemma ChunkDone(chunks: seq<Chunk>, pageOf: string -> Option<string>, i: nat,
                  before: map<string, seq<string>>, files: map<string, seq<string>>)
    requires i < |chunks| && FilesOf(chunks, pageOf, chunks[..i], before)
    requires FilesWithin(chunks, pageOf, chunks[i], |chunks[i].modules|, before, files)
    ensures FilesOf(chunks, pageOf, chunks[..i + 1], files)
  {
    hide PageListed;
    var chunk := chunks[i];
    assert chunks[..i + 1][..i] == chunks[..i];
    forall path ensures match LastDrawing(chunks[..i + 1], pageOf, path)
                        case None => path !in files
                        case Some(page) => path in files && PageListed(chunks, page, files[path])
    {
      if Draws(chunk, pageOf, path) {
        var id :| id in chunk.modules && pageOf(id) == Some(path);
        var k :| 0 <= k < |chunk.modules| && chunk.modules[k] == id;
        assert pageOf(chunk.modules[k]) == Some(path);
      }
    }
  }

  lemma NoFiles(chunks: seq<Chunk>, pageOf: string -> Option<string>)
    ensures FilesOf(chunks, pageOf, chunks[..0], map[])
  {
  }

  lemma ShellNamed(g: Graph, starts: seq<Chunk>, reached: seq<Chunk>)
    requires Within(g, reached) && forall c :: c in reached <==> Reachable(g, starts, c)
    requires Named(g) && Within(g, starts)
    ensures forall name :: name in (set c <- reached :: c.name) <==> name in g && Reachable(g, starts, g[name])
  {
    hide Reachable;
  }

  method AuthPreloads(chunks: seq<Chunk>, pageOf: string -> Option<string>) returns (files: map<string, seq<string>>)
    requires Bundle(chunks)
    ensures FilesOf(chunks, pageOf, chunks, files)
  {
    hide Reachable, Within, ShellStarts, ByName, Bundle, FilesOf, FilesWithin;
    StartsWithin(chunks);
    var fromShell := Reach(ByName(chunks), ShellStarts(chunks));
    var shell := set c <- fromShell :: c.name;
    ShellNamed(ByName(chunks), ShellStarts(chunks), fromShell);
    files := map[];
    NoFiles(chunks, pageOf);
    for i := 0 to |chunks|
      invariant FilesOf(chunks, pageOf, chunks[..i], files)
    {
      var next := ChunkFiles(chunks, pageOf, shell, chunks[i], files);
      ChunkDone(chunks, pageOf, i, files, next);
      files := next;
    }
    assert chunks[..|chunks|] == chunks;
  }

  // ------------------------------------------------------------ a page in more than one chunk

  lemma {:induction false} PathFrom(g: Graph, from: seq<Chunk>, wider: seq<Chunk>, path: seq<Chunk>)
    requires Path(g, wider, path) && forall c <- wider :: Reachable(g, from, c)
    ensures Reachable(g, from, path[|path| - 1])
    decreases |path|
  {
    hide Reachable, Imports;
    if |path| > 1 {
      var front := path[..|path| - 1];
      assert Path(g, wider, front);
      PathFrom(g, from, wider, front);
      ImportIsReachable(g, from, path[|path| - 2], path[|path| - 1]);
    }
  }

  lemma ReachedIsWithin(g: Graph, from: seq<Chunk>, c: Chunk)
    requires Within(g, from) && Reachable(g, from, c)
    ensures c.name in g && g[c.name] == c
  {
    var path :| Path(g, from, path) && path[|path| - 1] == c;
    if |path| > 1 { assert Imports(g, path[|path| - 2], c); }
  }

  /** A chunk reached from a page is reached from one of the page's starts. */
  lemma ReachedFromOne(g: Graph, from: seq<Chunk>, c: Chunk) returns (start: Chunk)
    requires Reachable(g, from, c)
    ensures start in from && Reachable(g, [start], c)
  {
    var path :| Path(g, from, path) && path[|path| - 1] == c;
    start := path[0];
    assert Path(g, [start], path);
  }

  lemma ReachedOn(g: Graph, from: seq<Chunk>, via: Chunk, c: Chunk)
    requires Reachable(g, from, via) && Reachable(g, [via], c)
    ensures Reachable(g, from, c)
  {
    var path :| Path(g, [via], path) && path[|path| - 1] == c;
    PathFrom(g, from, [via], path);
  }

  /** A stylesheet is a file of its own: none is named as a chunk is. */
  ghost predicate StylesApart(chunks: seq<Chunk>) {
    forall c <- chunks, d <- chunks :: d.name !in c.css
  }

  /** Whether what a page drawn by all these chunks needs beyond the shell is in the list of one of them. */
  ghost predicate Covers(g: Graph, shell: seq<Chunk>, shared: seq<Chunk>, drawing: seq<Chunk>, list: seq<string>) {
    forall name | Listed(g, shell, shared + drawing, name) :: name in list
  }

  lemma CoversWhen(g: Graph, shell: seq<Chunk>, shared: seq<Chunk>, drawing: seq<Chunk>, last: Chunk, list: seq<string>)
    requires ListFor(g, shell, shared + [last], list)
    requires forall c <- drawing :: Reachable(g, shell, c) || Reachable(g, shared + [last], c)
    ensures Covers(g, shell, shared, drawing, list)
  {
    hide Reachable, Distinct;
    forall name | Listed(g, shell, shared + drawing, name) ensures name in list {
      var c :| Reachable(g, shared + drawing, c) && !Reachable(g, shell, c)
               && (name == "/" + c.name || exists s <- c.css :: name == "/" + s);
      var start := ReachedFromOne(g, shared + drawing, c);
      if Reachable(g, shell, start) { ReachedOn(g, shell, start, c); }
      if start in shared { StartIsReachable(g, shared + [last], start); }
      ReachedOn(g, shared + [last], start, c);
      assert Listed(g, shell, shared + [last], name);
    }
  }

  lemma CoveredIsReached(chunks: seq<Chunk>, g: Graph, shell: seq<Chunk>, shared: seq<Chunk>, drawing: seq<Chunk>,
                         last: Chunk, list: seq<string>, c: Chunk)
    requires StylesApart(chunks) && (forall name <- g :: g[name] in chunks) && Named(g) && Within(g, chunks)
    requires Within(g, shared + [last]) && ListFor(g, shell, shared + [last], list)
    requires Covers(g, shell, shared, drawing, list) && c in drawing && c in chunks && !Reachable(g, shell, c)
    ensures Reachable(g, shared + [last], c)
  {
    hide Reachable, Distinct;
    StartIsReachable(g, shared + drawing, c);
    var name := "/" + c.name;
    assert Listed(g, shell, shared + drawing, name);
    var d :| Reachable(g, shared + [last], d) && !Reachable(g, shell, d)
             && (name == "/" + d.name || exists s <- d.css :: name == "/" + s);
    ReachedIsWithin(g, shared + [last], d);
    assert d in chunks && c.name !in d.css;
    assert name[1..] == c.name && forall s <- d.css :: ("/" + s)[1..] == s;
    assert ("/" + d.name)[1..] == d.name;
  }

  /**
   A path's list is made from the last chunk that draws it, so it covers what
   the path needs beyond the shell exactly when each chunk that draws it is
   reached from the shell, or from the layout and that last chunk.
   */
  lemma LastCoversIff(chunks: seq<Chunk>, pageOf: string -> Option<string>, path: string,
                      files: map<string, seq<string>>)
    requires Bundle(chunks) && StylesApart(chunks)
    requires FilesOf(chunks, pageOf, chunks, files) && LastDrawing(chunks, pageOf, path).Some?
    ensures var (g, shell, shared) := (ByName(chunks), ShellStarts(chunks), Holding(chunks, AUTH_LAYOUT));
            var (drawing, last) := (Drawing(chunks, pageOf, path), LastDrawing(chunks, pageOf, path).value);
            && path in files
            && (Covers(g, shell, shared, drawing, files[path])
                <==> forall c <- drawing :: Reachable(g, shell, c) || Reachable(g, shared + [last], c))
  {
    hide Reachable, Listed, Bundle, StylesFirst, ShellStarts, Holding, ByName, StylesApart, Draws, Covers;
    var (g, shell, shared) := (ByName(chunks), ShellStarts(chunks), Holding(chunks, AUTH_LAYOUT));
    var (drawing, last) := (Drawing(chunks, pageOf, path), LastDrawing(chunks, pageOf, path).value);
    ByNameIs(chunks);
    var list := files[path];
    assert ListFor(g, shell, shared + [last], list) by { assert PageListed(chunks, last, list); }
    if forall c <- drawing :: Reachable(g, shell, c) || Reachable(g, shared + [last], c) {
      CoversWhen(g, shell, shared, drawing, last, list);
    }
    if Covers(g, shell, shared, drawing, list) {
      PageWithin(chunks, last);
      forall c <- drawing ensures Reachable(g, shell, c) || Reachable(g, shared + [last], c) {
        if !Reachable(g, shell, c) { CoveredIsReached(chunks, g, shell, shared, drawing, last, list, c); }
      }
    }
  }

  const AUTH_ROUTES: string := "/src/routes/(auth)"

  /** A path below a route group: segments of it, none empty, none holding the mark of a route file. */
  predicate Segmented(path: string) {
    && (path != "" ==> path[0] == '/' && path[|path| - 1] != '/')
    && '+' !in path && forall i | 0 <= i < |path| - 1 :: path[i] == '/' ==> path[i + 1] != '/'
  }

  /** A route's path as its segments make it. */
  function Route(segments: seq<string>): string {
    if segments == [] then "" else "/" + segments[0] + Route(segments[1..])
  }

  ghost predicate Segments(segments: seq<string>) {
    forall segment <- segments :: segment != "" && '/' !in segment && '+' !in segment
  }

  lemma RouteMore(first: string, below: string)
    requires Segmented(below) && first != "" && '/' !in first && '+' !in first
    ensures Segmented("/" + first + below)
  {
    var path := "/" + first + below;
    assert path[|path| - 1] == if below == "" then first[|first| - 1] else below[|below| - 1];
    assert forall i | 1 <= i <= |first| :: path[i] == first[i - 1];
    forall i | 0 <= i < |path| - 1 && path[i] == '/' ensures path[i + 1] != '/' {
      if i > |first| {
        var j := i - 1 - |first|;
        assert path[i] == below[j] && path[i + 1] == below[j + 1];
      }
    }
  }

  lemma {:induction false} RouteIsSegmented(segments: seq<string>)
    requires Segments(segments)
    ensures Segmented(Route(segments))
  {
    if segments != [] {
      var (first, rest) := (segments[0], segments[1..]);
      assert first in segments && forall segment <- rest :: segment in segments;
      RouteIsSegmented(rest);
      RouteMore(first, Route(rest));
    }
  }

  /** Where a path's first segment ends. */
  function SegmentEnd(path: string, i: nat): (end: nat)
    requires 0 < i <= |path| && '/' !in path[1..i]
    ensures i <= end <= |path| && '/' !in path[1..end] && (end < |path| ==> path[end] == '/')
    decreases |path| - i
  {
    if i == |path| || path[i] == '/' then i
    else
      assert path[1..i + 1] == path[1..i] + [path[i]];
      SegmentEnd(path, i + 1)
  }

  lemma BelowSegment(path: string, end: nat)
    requires Segmented(path) && end <= |path| && (end < |path| ==> path[end] == '/')
    ensures Segmented(path[end..])
  {
    var below := path[end..];
    forall i | 0 <= i < |below| - 1 && below[i] == '/' ensures below[i + 1] != '/' {
      assert path[end + i] == '/' && path[end + i + 1] == below[i + 1];
    }
  }

  lemma FirstSegment(path: string) returns (first: string, below: string)
    requires Segmented(path) && path != ""
    ensures path == "/" + first + below && first != "" && '/' !in first && '+' !in first && Segmented(below)
  {
    var end := SegmentEnd(path, 1);
    first, below := path[1..end], path[end..];
    assert path == "/" + first + below;
    assert path[0] == '/' && path[1] != '/';
    if end == 1 { assert false; }
    assert '+' !in first by {
      forall i | 0 <= i < |first| ensures first[i] != '+' { assert first[i] == path[i + 1]; }
    }
    BelowSegment(path, end);
  }

  lemma RouteOfNone()
    ensures Route([]) == ""
  {
  }

  lemma RouteCons(first: string, rest: seq<string>)
    ensures Route([first] + rest) == "/" + first + Route(rest)
  {
    assert ([first] + rest)[1..] == rest;
  }

  /** The paths a page may stand under are exactly the routes of segments without a slash or a plus. */
  lemma {:induction false} SegmentedIff(path: string)
    ensures Segmented(path) <==> exists segments :: Segments(segments) && path == Route(segments)
    decreases |path|
  {
    hide Segmented, Route;
    forall segments | Segments(segments) ensures Segmented(Route(segments)) { RouteIsSegmented(segments); }
    if Segmented(path) {
      RouteOfNone();
      if path == "" {
        assert Segments([]);
      } else {
        var first, below := FirstSegment(path);
        SegmentedIff(below);
        var rest :| Segments(rest) && below == Route(rest);
        RouteCons(first, rest);
        assert Segments([first] + rest);
      }
    }
  }

  /** What follows the first place where the signed-out group's route stands over nothing but segments. */
  function BelowAuth(stem: string): Option<string> {
    if AUTH_ROUTES <= stem && Segmented(stem[|AUTH_ROUTES|..]) then Some(stem[|AUTH_ROUTES|..])
    else if stem == "" then None
    else BelowAuth(stem[1..])
  }

  const PAGE_SVELTE: string := "/+page.svelte"
  const PAGE_TS: string := "/+page.ts"

  /** The path a module draws a signed-out page for (web/src/lib/shell-preload.ts), if it draws one. */
  function AuthPageOf(id: string): Option<string> {
    var below := if EndsWith(id, PAGE_SVELTE) then BelowAuth(id[..|id| - |PAGE_SVELTE|])
                 else if EndsWith(id, PAGE_TS) then BelowAuth(id[..|id| - |PAGE_TS|])
                 else None;
    if below == Some("") then None else below
  }

  lemma {:induction false} BelowRoot(root: string, path: string)
    requires '(' !in root && Segmented(path)
    ensures BelowAuth(root + AUTH_ROUTES + path) == Some(path)
  {
    var stem := root + AUTH_ROUTES + path;
    assert |AUTH_ROUTES| == 18 && AUTH_ROUTES[12] == '(';
    if root == "" {
      assert stem == AUTH_ROUTES + path;
    } else {
      assert stem[12] != '(' by {
        if |root| > 12 { assert stem[12] == root[12] && root[12] in root; }
        else { assert stem[12] == AUTH_ROUTES[12 - |root|]; }
      }
      assert stem[1..] == root[1..] + AUTH_ROUTES + path;
      BelowRoot(root[1..], path);
    }
  }

  /** A place where the signed-out group's route stands over a path. */
  ghost predicate StandsOver(stem: string, i: nat) {
    i + 18 <= |stem| && stem[i..i + 18] == "/src/routes/(auth)" && Segmented(stem[i + 18..])
  }

  ghost predicate FirstOver(stem: string, i: nat) {
    StandsOver(stem, i) && forall j: nat | j < i :: !StandsOver(stem, j)
  }

  /** The path below the first such place. */
  ghost predicate PathOver(stem: string, i: nat, path: string) {
    FirstOver(stem, i) && path == stem[i + 18..]
  }

  lemma StandsLater(stem: string, i: nat)
    requires stem != "" && i > 0
    ensures StandsOver(stem, i) <==> StandsOver(stem[1..], i - 1)
  {
    hide Segmented;
    if i + 18 <= |stem| {
      assert stem[1..][i - 1..i + 17] == stem[i..i + 18];
      assert stem[1..][i + 17..] == stem[i + 18..];
    }
  }

  lemma StandsHere(stem: string)
    ensures StandsOver(stem, 0) <==> AUTH_ROUTES <= stem && Segmented(stem[18..])
  {
    assert |AUTH_ROUTES| == 18;
    if |stem| >= 18 { assert stem[0..18] == stem[..18]; }
  }

  lemma PathLater(stem: string, i: nat, path: string)
    requires stem != "" && i > 0 && !StandsOver(stem, 0)
    ensures PathOver(stem, i, path) <==> PathOver(stem[1..], i - 1, path)
  {
    hide Segmented;
    var rest := stem[1..];
    forall j: nat | 0 < j <= i ensures StandsOver(stem, j) <==> StandsOver(rest, j - 1) { StandsLater(stem, j); }
    if FirstOver(stem, i) {
      forall j: nat | j < i - 1 ensures !StandsOver(rest, j) { assert !StandsOver(stem, j + 1); }
      assert stem[i + 18..] == rest[i + 17..];
    }
    if FirstOver(rest, i - 1) {
      forall j: nat | j < i ensures !StandsOver(stem, j) { if j > 0 { assert !StandsOver(rest, j - 1); } }
      assert stem[i + 18..] == rest[i + 17..];
    }
  }

  lemma FirstIsFirst(stem: string, i: nat)
    requires FirstOver(stem, i) && StandsOver(stem, 0)
    ensures i == 0
  {
  }

  lemma PathHere(stem: string, path: string)
    requires StandsOver(stem, 0)
    ensures AUTH_ROUTES <= stem && forall i: nat :: PathOver(stem, i, path) <==> i == 0 && path == stem[18..]
  {
    hide Segmented;
    StandsHere(stem);
    forall i: nat | PathOver(stem, i, path) ensures i == 0 { FirstIsFirst(stem, i); }
  }

  lemma NotHere(stem: string, path: string)
    requires !StandsOver(stem, 0)
    ensures !PathOver(stem, 0, path)
  {
  }

  lemma NoneOver()
    ensures forall i: nat, path :: !PathOver("", i, path)
  {
  }

  lemma {:induction false} BelowIff(stem: string, path: string)
    ensures BelowAuth(stem) == Some(path) <==> exists i: nat :: PathOver(stem, i, path)
  {
    hide Segmented, StandsOver, PathOver;
    assert |AUTH_ROUTES| == 18;
    StandsHere(stem);
    if StandsOver(stem, 0) {
      PathHere(stem, path);
      assert PathOver(stem, 0, path) <==> path == stem[18..];
    } else if stem == "" {
      NoneOver();
    } else {
      BelowIff(stem[1..], path);
      forall i: nat ensures PathOver(stem, i, path) ==> i > 0 && PathOver(stem[1..], i - 1, path) {
        if i > 0 { PathLater(stem, i, path); } else { NotHere(stem, path); }
      }
      forall i: nat ensures PathOver(stem[1..], i, path) ==> PathOver(stem, i + 1, path) {
        PathLater(stem, i + 1, path);
      }
      assert BelowAuth(stem) == BelowAuth(stem[1..]);
    }
  }

  /** Texts that differ so far from their ends end apart. */
  lemma EndsApart(s: string, end: string, k: nat)
    requires 0 < k <= |end| && k <= |s| && s[|s| - k] != end[|end| - k]
    ensures !EndsWith(s, end)
  {
    if |s| >= |end| {
      var tail := s[|s| - |end|..];
      assert tail[|end| - k] == s[|s| - k];
    }
  }

  lemma ItsOwnEnd(stem: string, end: string)
    ensures EndsWith(stem + end, end)
  {
  }

  /** A page's modules are told by their ends, and neither is a layout. */
  lemma PageEnds(stem: string)
    ensures var (svelte, ts) := (stem + PAGE_SVELTE, stem + PAGE_TS);
            && EndsWith(svelte, PAGE_SVELTE) && svelte[..|svelte| - |PAGE_SVELTE|] == stem
            && EndsWith(ts, PAGE_TS) && ts[..|ts| - |PAGE_TS|] == stem && !EndsWith(ts, PAGE_SVELTE)
            && (forall id <- [svelte, ts] :: !EndsWith(id, AUTH_LAYOUT) && !EndsWith(id, ROOT_LAYOUT))
  {
    hide EndsWith;
    var (svelte, ts) := (stem + PAGE_SVELTE, stem + PAGE_TS);
    assert |PAGE_SVELTE| == 13 && |PAGE_TS| == 9 && |AUTH_LAYOUT| == 33 && |ROOT_LAYOUT| == 22;
    assert svelte[|stem|..] == PAGE_SVELTE && ts[|stem|..] == PAGE_TS;
    ItsOwnEnd(stem, PAGE_SVELTE);
    ItsOwnEnd(stem, PAGE_TS);
    assert svelte[|svelte| - 1] == PAGE_SVELTE[12] == 'e' && svelte[|svelte| - 8] == PAGE_SVELTE[5] == 'e';
    assert ts[|ts| - 1] == PAGE_TS[8] == 's' && ts[|ts| - 4] == PAGE_TS[5] == 'e';
    EndsApart(ts, PAGE_SVELTE, 1);
    EndsApart(svelte, AUTH_LAYOUT, 8);
    EndsApart(svelte, ROOT_LAYOUT, 1);
    EndsApart(ts, AUTH_LAYOUT, 1);
    EndsApart(ts, ROOT_LAYOUT, 4);
  }

  /** A module is a page's exactly where its name ends in that page's file, over the first route of the group. */
  lemma PageIff(id: string, path: string)
    ensures AuthPageOf(id) == Some(path)
            <==> path != "" && exists stem, i: nat ::
                   (id == stem + "/+page.svelte" || id == stem + "/+page.ts")
                   && PathOver(stem, i, path)
  {
    hide PathOver, BelowAuth;
    if AuthPageOf(id) == Some(path) {
      var end := if EndsWith(id, PAGE_SVELTE) then PAGE_SVELTE else PAGE_TS;
      var stem := id[..|id| - |end|];
      assert id == stem + end;
      BelowIff(stem, path);
    }
    if stem, i: nat :| (id == stem + "/+page.svelte" || id == stem + "/+page.ts")
                       && PathOver(stem, i, path) {
      BelowIff(stem, path);
      PageEnds(stem);
    }
  }

  /** The two modules of a page, under whatever directory the routes are in. */
  function PageSvelte(root: string, path: string): string { root + AUTH_ROUTES + path + PAGE_SVELTE }

  function PageTs(root: string, path: string): string { root + AUTH_ROUTES + path + PAGE_TS }

  /** Both are the page's. */
  lemma PageIsRecognised(root: string, path: string)
    requires '(' !in root && Segmented(path) && path != ""
    ensures AuthPageOf(PageSvelte(root, path)) == AuthPageOf(PageTs(root, path)) == Some(path)
    ensures forall id <- [PageSvelte(root, path), PageTs(root, path)] ::
              !EndsWith(id, AUTH_LAYOUT) && !EndsWith(id, ROOT_LAYOUT)
  {
    hide BelowAuth, Segmented, EndsWith;
    BelowRoot(root, path);
    PageEnds(root + AUTH_ROUTES + path);
  }

  lemma {:induction false} NoneHolds(chunks: seq<Chunk>, suffix: string)
    requires forall c <- chunks :: forall id <- c.modules :: !EndsWith(id, suffix)
    ensures Holding(chunks, suffix) == []
  {
    if chunks != [] { NoneHolds(chunks[..|chunks| - 1], suffix); }
  }

  lemma {:induction false} NoneEnters(chunks: seq<Chunk>)
    requires forall c <- chunks :: |c.name| < |ENTRIES|
    ensures Entries(chunks) == []
  {
    if chunks != [] { NoneEnters(chunks[..|chunks| - 1]); }
  }

  lemma NoStarts(chunks: seq<Chunk>)
    requires forall c <- chunks :: |c.name| < 21
    requires forall c <- chunks :: forall id <- c.modules :: !EndsWith(id, AUTH_LAYOUT) && !EndsWith(id, ROOT_LAYOUT)
    ensures ShellStarts(chunks) == [] && Holding(chunks, AUTH_LAYOUT) == []
  {
    hide Entries, Holding;
    assert |ENTRIES| == 21;
    NoneEnters(chunks);
    NoneHolds(chunks, ROOT_LAYOUT);
    NoneHolds(chunks, AUTH_LAYOUT);
  }

  lemma LoneList(g: Graph, b: Chunk)
    requires b.name == "b" && b.imports == [] && b.css == []
    ensures Listed(g, [], [b], "/b") && !Listed(g, [], [b], "/a")
  {
    hide Reachable;
    assert Closed(g, [b], {b}) && Closed(g, [], {});
    StartIsReachable(g, [b], b);
    if Reachable(g, [], b) { ClosedHoldsAll(g, [], {}, b); }
    assert "/b" == "/" + b.name && "/a"[1] != ("/" + b.name)[1];
    forall c | Reachable(g, [b], c) ensures c == b { ClosedHoldsAll(g, [b], {b}, c); }
  }

  /** A page whose component and whose load function were put in chunks that do not import each other. */
  function SplitPage(root: string, path: string): seq<Chunk> {
    [Chunk("a", [], [], [PageSvelte(root, path)]), Chunk("b", [], [], [PageTs(root, path)])]
  }

  lemma LonePage(root: string, path: string)
    requires '(' !in root && Segmented(path) && path != ""
    ensures var chunks := SplitPage(root, path);
            forall list | PageListed(chunks, chunks[1], list) :: "/b" in list && "/a" !in list
  {
    hide Holding, ShellStarts, Reachable, StylesFirst, ByName, Distinct, Listed, EndsWith, Segmented;
    var chunks := SplitPage(root, path);
    PageIsRecognised(root, path);
    NoStarts(chunks);
    assert Holding(chunks, AUTH_LAYOUT) + [chunks[1]] == [chunks[1]];
    LoneList(ByName(chunks), chunks[1]);
  }

  /** Such a page loses the first of them. */
  lemma SplitPageLosesAChunk(root: string, path: string, files: map<string, seq<string>>)
    requires '(' !in root && Segmented(path) && path != ""
    requires FilesOf(SplitPage(root, path), AuthPageOf, SplitPage(root, path), files)
    ensures path in files && "/b" in files[path] && "/a" !in files[path]
    ensures Draws(SplitPage(root, path)[0], AuthPageOf, path)
  {
    hide PageListed, AuthPageOf, Segmented, PageSvelte, PageTs;
    var chunks := SplitPage(root, path);
    PageIsRecognised(root, path);
    assert PageTs(root, path) in chunks[1].modules && PageSvelte(root, path) in chunks[0].modules;
    assert LastDrawing(chunks, AuthPageOf, path) == Some(chunks[1]);
    LonePage(root, path);
  }

  /** The sign-in page, for one. */
  lemma LoginIsAPage()
    ensures Segmented("/login") && AuthPageOf("/src/routes/(auth)/login/+page.svelte") == Some("/login")
  {
    assert "/src/routes/(auth)/login/+page.svelte" == PageSvelte("", "/login");
    PageIsRecognised("", "/login");
  }
}
