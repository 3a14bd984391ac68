/**
 What seeding one guide comes to, in the tables' own terms
 (crates/tam-admin/src/guides_seed.rs): the row left under its name and the
 answer given, whichever calls are lost.
 */
module GuideOutcomes {
  import opened Calls
  import opened Wrappers

  import opened GuideFingerprint
  import opened GuideSeed
  import opened GuideStore
  import Parser = GuideParse

  ghost predicate Heard(fate: nat -> Fate, from: nat, to: nat) {
    forall n | from <= n < to :: fate(n).Answered?
  }

  /** An answer came of calls all heard, and a failure is a call that was not. */
  ghost predicate Told<T>(w: World, fate: nat -> Fate, after: World, answer: Result<T, Failure>) {
    && w.calls <= after.calls
    && (answer.Ok? <==> Heard(fate, w.calls, after.calls))
    && (answer.Err? ==> answer.error == Lost)
  }

  // ------------------------------------------------------------ words

  lemma WordTold(w: World, fate: nat -> Fate, v: Vocabulary, taxon: Taxon)
    requires Knows(w.db.taxa, v)
    ensures Told(w, fate, Word(w, fate, v, taxon).world, Word(w, fate, v, taxon).answer)
  {
    hide Knows, Keyed, Learned;
    LoadedKnows(w.db);
  }

  /** What a pass knows of another pass's words: all it knew, and nothing moved. */
  ghost predicate Remembers(before: Vocabulary, after: Vocabulary) {
    forall taxon | Find(before, taxon).Some? :: Find(after, taxon) == Find(before, taxon)
  }

  /** A word is asked of the store once a pass: once answered it is known, and it alone may be new. */
  lemma WordLearned(w: World, fate: nat -> Fate, v: Vocabulary, taxon: Taxon)
    requires Knows(w.db.taxa, v)
    ensures var step := Word(w, fate, v, taxon);
            && Remembers(v, step.vocabulary)
            && (step.answer.Ok? ==> Find(step.vocabulary, taxon) == Some(step.answer.value))
            && (step.world.calls == w.calls <==> Find(v, taxon).Some?)
            && (forall id <- step.world.db.taxa :: id in w.db.taxa || step.world.db.taxa[id] == taxon)
  {
    hide Knows, Keyed, Loaded;
  }

  lemma {:induction false} WordsTold(w: World, fate: nat -> Fate, v: Vocabulary, tags: seq<string>)
    requires Knows(w.db.taxa, v)
    ensures Told(w, fate, Words(w, fate, v, tags).world, Words(w, fate, v, tags).answer)
  {
    hide Knows, Keyed, Word;
    if tags != [] {
      WordsTold(w, fate, v, tags[..|tags| - 1]);
      var front := Words(w, fate, v, tags[..|tags| - 1]);
      if front.answer.Ok? {
        WordTold(front.world, fate, front.vocabulary, Taxon(Tag, tags[|tags| - 1]));
      }
    }
  }

  /** The tags of a file are learned with their rows, and only theirs are new. */
  lemma {:induction false} WordsLearned(w: World, fate: nat -> Fate, v: Vocabulary, tags: seq<string>)
    requires Knows(w.db.taxa, v)
    ensures var step := Words(w, fate, v, tags);
            && Remembers(v, step.vocabulary)
            && (step.answer.Ok? ==>
                  forall i | 0 <= i < |tags| ::
                    Find(step.vocabulary, Taxon(Tag, tags[i])) == Some(step.answer.value[i]))
            && (forall id <- step.world.db.taxa | id !in w.db.taxa ::
                  step.world.db.taxa[id].kind == Tag && step.world.db.taxa[id].slug in tags)
  {
    hide Knows, Keyed, Word, Find;
    if tags != [] {
      var (rest, last) := (tags[..|tags| - 1], tags[|tags| - 1]);
      assert tags == rest + [last];
      WordsLearned(w, fate, v, rest);
      var front := Words(w, fate, v, rest);
      if front.answer.Ok? {
        WordLearned(front.world, fate, front.vocabulary, Taxon(Tag, last));
      }
    }
  }

  // ------------------------------------------------------------ the row a write leaves

  ghost function RowUnder(db: Db, slug: string): Option<Stored> {
    if slug in db.guides then Some(db.guides[slug]) else None
  }

  ghost predicate DraftMatches(db: Db, slug: string, wanted: bv64) {
    slug in db.guides && HashOf(ContentOf(db.taxa, db.guides[slug].draft)) == wanted
  }

  /** The outcome due to a guide: made, left alone because both its copies match, or brought up to its file. */
  ghost predicate OutcomeDue(db: Db, slug: string, wanted: bv64, outcome: Outcome) {
    && (outcome == Created <==> slug !in db.guides)
    && (outcome == Unchanged <==> Hashed(db, slug, wanted))
  }

  /** The row between the two writes: the file's copy under the next revision, what sellers read as it was. */
  ghost function Redrafted(was: Option<Stored>, id: Id, draft: Filing): Stored {
    match was
    case None => Stored(id, 1, draft, None)
    case Some(row) => row.(draft := draft, revision := row.revision + 1)
  }

  /** A row published: its working copy is what sellers read, under the revision it had. */
  ghost function Shown(row: Stored): Stored {
    row.(revision := row.revision + 1, published := Some(Snapshot(row.draft, row.revision)))
  }

  /** The row a guide is left with: its own, its own shown to sellers, or the file's copy shown to them. */
  ghost function LeftAs(db: Db, slug: string, draft: Filing, wanted: bv64): Stored {
    if Hashed(db, slug, wanted) then db.guides[slug]
    else if DraftMatches(db, slug, wanted) then Shown(db.guides[slug])
    else Shown(Redrafted(RowUnder(db, slug), db.next, draft))
  }

  /** A write answered leaves the row due; one that fails leaves the row before it, the one between, or the one due. */
  lemma WriteComesTo(w: World, fate: nat -> Fate, slug: string, edit: Filing, wanted: bv64)
    requires Filed(w.db.taxa, edit)
    ensures var (w', answer) := WriteGuide(w, fate, slug, edit, wanted);
            var (left, due) := (RowUnder(w'.db, slug), Some(LeftAs(w.db, slug, Draft(edit), wanted)));
            && Told(w, fate, w', answer)
            && (answer.Ok? ==> left == due && OutcomeDue(w.db, slug, wanted, answer.value))
            && (left == due || left == RowUnder(w.db, slug)
                || (!DraftMatches(w.db, slug, wanted)
                    && left == Some(Redrafted(RowUnder(w.db, slug), w.db.next, Draft(edit)))))
  {
    hide HashOf, ContentOf, Keyed, Draft, Filed;
  }

  // ------------------------------------------------------------ one guide, from its words to its row

  /** A copy that says what is stored of a file. */
  ghost predicate Says(db: Db, copy: Filing, file: Parser.Guide) {
    Filed(db.taxa, copy) && ContentOf(db.taxa, copy) == KeptOf(file)
  }

  /** A guide as its file was last written, the same guide as before or a new one. */
  ghost predicate Rewritten(a: Db, b: Db, file: Parser.Guide, now: Stored) {
    && !DraftMatches(a, file.slug, HashOf(ContentOfFile(file)))
    && Says(b, now.draft, file)
    && (file.slug in a.guides || now.id >= a.next)
    && now == Redrafted(RowUnder(a, file.slug), now.id, now.draft)
  }

  /** A guide shown to sellers as its file says: rewritten for it, or standing so already. */
  ghost predicate Brought(a: Db, b: Db, file: Parser.Guide, before: Stored) {
    && !Hashed(a, file.slug, HashOf(ContentOfFile(file)))
    && RowUnder(b, file.slug) == Some(Shown(before))
    && (Rewritten(a, b, file, before)
        || (DraftMatches(a, file.slug, HashOf(ContentOfFile(file))) && RowUnder(a, file.slug) == Some(before)))
  }

  /** What an answered seed leaves: a guide that matched as it was, and any other brought up to its file. */
  ghost predicate AsDue(a: Db, b: Db, file: Parser.Guide, outcome: Outcome) {
    && OutcomeDue(a, file.slug, HashOf(ContentOfFile(file)), outcome)
    && (outcome == Unchanged ==> RowUnder(b, file.slug) == RowUnder(a, file.slug))
    && (outcome != Unchanged ==> exists before :: Brought(a, b, file, before))
  }

  /** What a failed seed leaves: the row it found, the row it rewrote, or the row it was due. */
  ghost predicate Partway(a: Db, b: Db, file: Parser.Guide) {
    || RowUnder(b, file.slug) == RowUnder(a, file.slug)
    || (file.slug in b.guides && Rewritten(a, b, file, b.guides[file.slug]))
    || exists before :: Brought(a, b, file, before)
  }

  lemma MatchesKept(a: Db, b: Db, slug: string, wanted: bv64)
    requires GuideKept(a, b, slug)
    ensures DraftMatches(b, slug, wanted) <==> DraftMatches(a, slug, wanted)
    ensures Hashed(b, slug, wanted) <==> Hashed(a, slug, wanted)
  {
    hide HashOf, ContentOf;
    if slug in a.guides {
      ContentGrown(a, b, a.guides[slug].draft);
      if a.guides[slug].published.Some? { ContentGrown(a, b, a.guides[slug].published.value.copy); }
    }
  }

  lemma WordNext(w: World, fate: nat -> Fate, v: Vocabulary, taxon: Taxon)
    requires Knows(w.db.taxa, v)
    ensures Word(w, fate, v, taxon).world.db.next >= w.db.next
  {
    hide Knows, Keyed, Loaded;
  }

  lemma {:induction false} WordsNext(w: World, fate: nat -> Fate, v: Vocabulary, tags: seq<string>)
    requires Knows(w.db.taxa, v)
    ensures Words(w, fate, v, tags).world.db.next >= w.db.next
  {
    hide Knows, Keyed, Word;
    if tags != [] {
      WordsNext(w, fate, v, tags[..|tags| - 1]);
      var front := Words(w, fate, v, tags[..|tags| - 1]);
      if front.answer.Ok? { WordNext(front.world, fate, front.vocabulary, Taxon(Tag, tags[|tags| - 1])); }
    }
  }

  lemma MatchingIsHeld(db: Db, slug: string, wanted: bv64)
    requires DraftMatches(db, slug, wanted)
    ensures slug in db.guides
  {
  }

  lemma HashedIsHeld(db: Db, slug: string, wanted: bv64)
    requires Hashed(db, slug, wanted)
    ensures slug in db.guides && DraftMatches(db, slug, wanted)
  {
    hide HashOf, ContentOf;
  }

  lemma Write(a: Db, w: World, fate: nat -> Fate, file: Parser.Guide, topic: Id, ids: seq<Id>)
    requires Grown(a, w.db) && w.db.next >= a.next
    requires Names(w.db.taxa, Taxon(Topic, file.topic), topic) && Tagged(w.db.taxa, file.tags, ids)
    requires Filed(w.db.taxa, EditOf(file, topic, ids))
    ensures var (w', answer) := WriteGuide(w, fate, file.slug, EditOf(file, topic, ids), HashOf(ContentOfFile(file)));
            && Told(w, fate, w', answer)
            && (answer.Ok? ==> AsDue(a, w'.db, file, answer.value))
            && Partway(a, w'.db, file)
  {
    hide WriteGuide, HashOf, Filed, Keyed, ContentOf, Draft, Told, Tagged, Hashed, KeptOf, ContentOfFile, DraftMatches;
    var (slug, wanted, edit) := (file.slug, HashOf(ContentOfFile(file)), EditOf(file, topic, ids));
    WriteComesTo(w, fate, slug, edit, wanted);
    WriteFrame(w, fate, slug, edit, wanted);
    MatchesKept(a, w.db, slug, wanted);
    DraftKeeps(w.db, file, topic, ids);
    var (w', answer) := WriteGuide(w, fate, slug, edit, wanted);
    var between := Redrafted(RowUnder(w.db, slug), w.db.next, Draft(edit));
    if Hashed(w.db, slug, wanted) {
      HashedIsHeld(w.db, slug, wanted);
    } else if DraftMatches(w.db, slug, wanted) {
      MatchingIsHeld(w.db, slug, wanted);
      assert RowUnder(w'.db, slug) == Some(Shown(w.db.guides[slug])) ==> Brought(a, w'.db, file, w.db.guides[slug]);
    } else {
      assert Rewritten(a, w'.db, file, between);
      assert RowUnder(w'.db, slug) == Some(Shown(between)) ==> Brought(a, w'.db, file, between);
    }
  }

  lemma AtStart(a: Db, b: Db, file: Parser.Guide)
    requires Grown(a, b)
    ensures Partway(a, b, file)
  {
  }

  /** Seeding one guide: which calls it hears, what it answers, and what it leaves under the guide's name. */
  lemma SeedOneComesTo(w: World, fate: nat -> Fate, v: Vocabulary, file: Parser.Guide)
    requires Knows(w.db.taxa, v)
    ensures var step := OneSeeded(w, fate, v, file);
            && Told(w, fate, step.world, step.answer)
            && (step.answer.Ok? ==> AsDue(w.db, step.world.db, file, step.answer.value))
            && Partway(w.db, step.world.db, file)
  {
    hide Word, Words, WriteGuide, HashOf, Filed, Keyed, AsDue, Partway, Tagged, Names, Knows;
    var topic := Word(w, fate, v, Taxon(Topic, file.topic));
    WordTold(w, fate, v, Taxon(Topic, file.topic));
    WordNext(w, fate, v, Taxon(Topic, file.topic));
    AtStart(w.db, topic.world.db, file);
    if topic.answer.Ok? {
      var tags := Words(topic.world, fate, topic.vocabulary, file.tags);
      WordsTold(topic.world, fate, topic.vocabulary, file.tags);
      WordsNext(topic.world, fate, topic.vocabulary, file.tags);
      AtStart(w.db, tags.world.db, file);
      if tags.answer.Ok? {
        TopicGrown(topic.world.db, tags.world.db, file.topic, topic.answer.value);
        EditFiled(tags.world.db.taxa, file, topic.answer.value, tags.answer.value);
        Write(w.db, tags.world, fate, file, topic.answer.value, tags.answer.value);
      }
    }
  }

  /** Seeding one guide adds no word but those its file names, and no other guide. */
  lemma OnlyNamedWords(w: World, fate: nat -> Fate, v: Vocabulary, file: Parser.Guide)
    requires Knows(w.db.taxa, v)
    ensures var after := OneSeeded(w, fate, v, file).world.db;
            forall id <- after.taxa | id !in w.db.taxa ::
              after.taxa[id] == Taxon(Topic, file.topic)
              || (after.taxa[id].kind == Tag && after.taxa[id].slug in file.tags)
  {
    hide Word, Words, WriteGuide, HashOf, Filed, Keyed, Tagged, Names, Knows;
    var topic := Word(w, fate, v, Taxon(Topic, file.topic));
    WordLearned(w, fate, v, Taxon(Topic, file.topic));
    if topic.answer.Ok? {
      var tags := Words(topic.world, fate, topic.vocabulary, file.tags);
      WordsLearned(topic.world, fate, topic.vocabulary, file.tags);
      if tags.answer.Ok? {
        TopicGrown(topic.world.db, tags.world.db, file.topic, topic.answer.value);
        EditFiled(tags.world.db.taxa, file, topic.answer.value, tags.answer.value);
        WriteFrame(tags.world, fate, file.slug, EditOf(file, topic.answer.value, tags.answer.value),
                   HashOf(ContentOfFile(file)));
      }
    }
  }

  // ------------------------------------------------------------ a pass

  lemma SaysKept(a: Db, b: Db, copy: Filing, file: Parser.Guide)
    requires Says(a, copy, file) && GuideKept(a, b, file.slug)
    ensures Says(b, copy, file)
  {
    hide KeptOf, ContentOf;
    ContentGrown(a, b, copy);
  }

  lemma BroughtKept(a: Db, a': Db, b: Db, b': Db, file: Parser.Guide, before: Stored)
    requires GuideKept(a, a', file.slug) && a'.next >= a.next && GuideKept(b, b', file.slug)
    requires Brought(a', b, file, before)
    ensures Brought(a, b', file, before)
  {
    hide HashOf, Hashed, DraftMatches, Says;
    MatchesKept(a, a', file.slug, HashOf(ContentOfFile(file)));
    if Rewritten(a', b, file, before) { SaysKept(b, b', before.draft, file); }
  }

  /** A row brought to its file stands so while nothing else is written under its name. */
  lemma AsDueKept(a: Db, a': Db, b: Db, b': Db, file: Parser.Guide, outcome: Outcome)
    requires GuideKept(a, a', file.slug) && a'.next >= a.next && GuideKept(b, b', file.slug)
    requires AsDue(a', b, file, outcome)
    ensures AsDue(a, b', file, outcome)
  {
    hide HashOf, Hashed, Brought;
    MatchesKept(a, a', file.slug, HashOf(ContentOfFile(file)));
    if outcome != Unchanged {
      var before :| Brought(a', b, file, before);
      BroughtKept(a, a', b, b', file, before);
    }
  }

  lemma PartwayKept(a: Db, a': Db, b: Db, file: Parser.Guide)
    requires GuideKept(a, a', file.slug) && a'.next >= a.next && Partway(a', b, file)
    ensures Partway(a, b, file)
  {
    hide HashOf, Hashed, Brought, DraftMatches, Says;
    MatchesKept(a, a', file.slug, HashOf(ContentOfFile(file)));
    if before :| Brought(a', b, file, before) {
      BroughtKept(a, a', b, b, file, before);
    }
  }

  lemma OneNext(w: World, fate: nat -> Fate, v: Vocabulary, file: Parser.Guide)
    requires Knows(w.db.taxa, v)
    ensures OneSeeded(w, fate, v, file).world.db.next >= w.db.next
  {
    hide Word, Words, HashOf, Filed, Keyed, Tagged, Names, Knows, Draft, RecordOf;
    WordNext(w, fate, v, Taxon(Topic, file.topic));
    var topic := Word(w, fate, v, Taxon(Topic, file.topic));
    if topic.answer.Ok? { WordsNext(topic.world, fate, topic.vocabulary, file.tags); }
  }

  /** The guides a pass may have written: those answered for and the one it stopped at. */
  ghost predicate Reached(files: seq<Parser.Guide>, answered: nat, slug: string) {
    exists i | 0 <= i < |files| && i <= answered :: files[i].slug == slug
  }

  ghost predicate PassLeaves(w: World, fate: nat -> Fate, files: seq<Parser.Guide>, run: Run) {
    var k := |run.outcomes|;
    && w.calls <= run.world.calls && w.db.next <= run.world.db.next
    && (run.failure.None? <==> k == |files|)
    && (run.failure.None? <==> Heard(fate, w.calls, run.world.calls))
    && (run.failure.Some? ==> run.failure == Some(Lost))
    && k <= |files| && (forall i | 0 <= i < k :: AsDue(w.db, run.world.db, files[i], run.outcomes[i]))
    && (k < |files| ==> Partway(w.db, run.world.db, files[k]))
    && (forall slug | !Reached(files, k, slug) :: GuideKept(w.db, run.world.db, slug))
  }

  lemma PassStops(w: World, fate: nat -> Fate, files: seq<Parser.Guide>, run: Run)
    requires files != [] && run.failure.Some? && PassLeaves(w, fate, files[..|files| - 1], run)
    ensures PassLeaves(w, fate, files, run)
  {
    hide AsDue, Partway, GuideKept, Heard;
    var k := |run.outcomes|;
    forall slug | !Reached(files, k, slug) ensures GuideKept(w.db, run.world.db, slug) {
      assert !Reached(files[..|files| - 1], k, slug);
    }
  }

  lemma PassGoesOn(w: World, fate: nat -> Fate, files: seq<Parser.Guide>, front: Run, one: Step<Outcome>)
    requires Apart(files) && files != [] && front.failure.None? && PassLeaves(w, fate, files[..|files| - 1], front)
    requires var last := files[|files| - 1];
             && Told(front.world, fate, one.world, one.answer) && one.world.db.next >= front.world.db.next
             && (one.answer.Ok? ==> AsDue(front.world.db, one.world.db, last, one.answer.value))
             && Partway(front.world.db, one.world.db, last)
             && OthersKept(front.world.db, one.world.db, last.slug)
    ensures var run := match one.answer
                       case Err(failure) => Run(one.world, one.vocabulary, front.outcomes, Some(failure))
                       case Ok(outcome) => Run(one.world, one.vocabulary, front.outcomes + [outcome], None);
            PassLeaves(w, fate, files, run)
  {
    hide AsDue, Partway;
    var (rest, last, k) := (files[..|files| - 1], files[|files| - 1], |files| - 1);
    assert !Reached(rest, k, last.slug);
    PartwayKept(w.db, front.world.db, one.world.db, last);
    if one.answer.Ok? {
      AsDueKept(w.db, front.world.db, one.world.db, one.world.db, last, one.answer.value);
    }
    forall i | 0 <= i < k ensures AsDue(w.db, one.world.db, files[i], front.outcomes[i]) {
      assert rest[i] == files[i];
      AsDueKept(w.db, w.db, front.world.db, one.world.db, files[i], front.outcomes[i]);
    }
    forall slug | !Reached(files, |files|, slug) || !Reached(files, k, slug)
      ensures GuideKept(w.db, one.world.db, slug)
    {
      assert files[k] == last && !Reached(rest, k, slug);
    }
  }

  lemma NothingLeft(w: World, fate: nat -> Fate, v: Vocabulary)
    ensures PassLeaves(w, fate, [], Run(w, v, [], None))
  {
  }

  /**
   A pass, whichever calls it loses. It ends exactly when it heard every call,
   and fails as lost otherwise; each guide answered for is as its answer says,
   the one it stopped at is as it was, rewritten, or brought up to its file;
   and no other guide is touched.
   */
  lemma {:induction false} PassComesTo(w: World, fate: nat -> Fate, v: Vocabulary, files: seq<Parser.Guide>)
    requires Knows(w.db.taxa, v) && Apart(files)
    ensures PassLeaves(w, fate, files, SeedFiles(w, fate, v, files))
  {
    hide OneSeeded, Knows, Keyed, AsDue, Partway, OthersKept, PassLeaves, Told;
    if files == [] {
      NothingLeft(w, fate, v);
    } else {
      var (rest, last) := (files[..|files| - 1], files[|files| - 1]);
      PassComesTo(w, fate, v, rest);
      var front := SeedFiles(w, fate, v, rest);
      if front.failure.Some? {
        PassStops(w, fate, files, front);
      } else {
        SeedOneComesTo(front.world, fate, front.vocabulary, last);
        SeedOneFrame(front.world, fate, front.vocabulary, last);
        OneNext(front.world, fate, front.vocabulary, last);
        PassGoesOn(w, fate, files, front, OneSeeded(front.world, fate, front.vocabulary, last));
      }
    }
  }

  /** The whole command: nothing is written without the vocabulary, and then its guides are seeded as above. */
  lemma SeedComesTo(w: World, fate: nat -> Fate, files: seq<Parser.Guide>)
    requires Apart(files)
    ensures var (run, loaded) := (Seed(w, fate, files), World(w.db, w.calls + 1));
            if fate(w.calls).Answered? then PassLeaves(loaded, fate, files, run)
            else run.world == loaded && run.outcomes == [] && run.failure == Some(Lost)
  {
    hide PassLeaves, SeedFiles, Knows, Keyed, Loaded, Apart;
    LoadedKnows(w.db);
    PassComesTo(World(w.db, w.calls + 1), fate, Loaded(w.db), files);
  }
}
