/** Seeding a corpus: each guide written and published, one at a time (crates/tam-admin/src/guides_seed.rs). */
module GuideSeed {
  import opened Calls
  import opened Sequences
  import opened Wrappers

  import opened GuideFingerprint
  import opened GuideStore
  import Parser = GuideParse

  datatype Outcome = Created | Updated | Unchanged

  datatype Step<T> = Step(world: World, vocabulary: Vocabulary, answer: Result<T, Failure>)

  function ContentOfFile(file: Parser.Guide): Content {
    Content(file.title, Some(file.topic), file.tags, file.body)
  }

  // ------------------------------------------------------------ words

  /** Every word the vocabulary holds is a row; rows it does not hold may be another operator's. */
  predicate Knows(taxa: map<Id, Taxon>, v: Vocabulary) {
    && (forall slug <- v.topics :: v.topics[slug] in taxa && taxa[v.topics[slug]] == Taxon(Topic, slug))
    && (forall slug <- v.tags :: v.tags[slug] in taxa && taxa[v.tags[slug]] == Taxon(Tag, slug))
  }

  predicate Names(taxa: map<Id, Taxon>, taxon: Taxon, id: Id) {
    id in taxa && taxa[id] == taxon
  }

  ghost predicate Grown(a: Db, b: Db) {
    && (forall id <- a.taxa :: id in b.taxa && b.taxa[id] == a.taxa[id])
    && a.guides == b.guides
  }

  function Find(v: Vocabulary, taxon: Taxon): Option<Id> {
    var words := Of(v, taxon.kind);
    if taxon.slug in words then Some(words[taxon.slug]) else None
  }

  function Learned(v: Vocabulary, taxon: Taxon, id: Id): Vocabulary {
    match taxon.kind
    case Topic => v.(topics := v.topics[taxon.slug := id])
    case Tag => v.(tags := v.tags[taxon.slug := id])
  }

  lemma LoadedKnows(db: Db)
    ensures Knows(db.taxa, Loaded(db))
    ensures forall taxon :: Held(db, taxon) ==> Find(Loaded(db), taxon).Some?
  {
    forall taxon | Held(db, taxon) ensures Find(Loaded(db), taxon).Some? {
      var id :| id in db.taxa && db.taxa[id] == taxon;
      assert taxon.slug in WordsOf(db, taxon.kind);
    }
  }

  lemma FindNames(taxa: map<Id, Taxon>, v: Vocabulary, taxon: Taxon)
    requires Knows(taxa, v) && Find(v, taxon).Some?
    ensures Names(taxa, taxon, Find(v, taxon).value)
  {
  }

  lemma LearnedKnows(taxa: map<Id, Taxon>, v: Vocabulary, taxon: Taxon, id: Id)
    requires Knows(taxa, v) && Names(taxa, taxon, id)
    ensures Knows(taxa, Learned(v, taxon, id))
  {
  }

  lemma KnowsGrown(a: Db, b: Db, v: Vocabulary)
    requires Knows(a.taxa, v) && Grown(a, b)
    ensures Knows(b.taxa, v)
  {
  }

  lemma InsertedGrows(db: Db, taxon: Taxon)
    ensures Grown(db, TaxonInserted(db, taxon).0)
    ensures TaxonInserted(db, taxon).1.Some? ==> Names(TaxonInserted(db, taxon).0.taxa, taxon, db.next)
  {
  }

  /** The vocabulary read again after another operator's row was in the way. */
  function Reread(w: World, fate: nat -> Fate, v: Vocabulary, taxon: Taxon): (step: Step<Id>)
    requires Knows(w.db.taxa, v) && Held(w.db, taxon)
    ensures step.world.db == w.db && Knows(w.db.taxa, step.vocabulary)
    ensures step.answer.Ok? ==> Names(w.db.taxa, taxon, step.answer.value)
    ensures step.answer != Err(OtherKind)
  {
    var (w1, reread) := Call<Vocabulary>(w, fate, (w.db, Loaded(w.db)));
    match reread
    case Err(failure) => Step(w1, v, Err(failure))
    case Ok(again) =>
      LoadedKnows(w.db);
      var found := Find(again, taxon);
      if found.None? then Step(w1, v, Err(OtherKind))
      else
        FindNames(w.db.taxa, again, taxon);
        LearnedKnows(w.db.taxa, v, taxon, found.value);
        Step(w1, Learned(v, taxon, found.value), Ok(found.value))
  }

  /** A word's identifier, the row made if there is none; whoever made it, the row is the one answered. */
  function Word(w: World, fate: nat -> Fate, v: Vocabulary, taxon: Taxon): (step: Step<Id>)
    requires Knows(w.db.taxa, v)
    ensures Grown(w.db, step.world.db) && Knows(step.world.db.taxa, step.vocabulary)
    ensures step.answer.Ok? ==> Names(step.world.db.taxa, taxon, step.answer.value)
    ensures step.answer != Err(OtherKind)
  {
    if Find(v, taxon).Some? then
      FindNames(w.db.taxa, v, taxon);
      Step(w, v, Ok(Find(v, taxon).value))
    else
      InsertedGrows(w.db, taxon);
      var (w1, made) := Call<Option<Id>>(w, fate, TaxonInserted(w.db, taxon));
      KnowsGrown(w.db, w1.db, v);
      match made
      case Err(failure) => Step(w1, v, Err(failure))
      case Ok(None) => Reread(w1, fate, v, taxon)
      case Ok(Some(id)) =>
        LearnedKnows(w1.db.taxa, v, taxon, id);
        Step(w1, Learned(v, taxon, id), Ok(id))
  }

  ghost predicate Tagged(taxa: map<Id, Taxon>, tags: seq<string>, ids: seq<Id>) {
    |ids| == |tags| && forall i | 0 <= i < |tags| :: Names(taxa, Taxon(Tag, tags[i]), ids[i])
  }

  lemma TaggedGrown(a: Db, b: Db, tags: seq<string>, ids: seq<Id>)
    requires Tagged(a.taxa, tags, ids) && Grown(a, b)
    ensures Tagged(b.taxa, tags, ids)
  {
  }

  lemma TaggedMore(taxa: map<Id, Taxon>, tags: seq<string>, ids: seq<Id>, id: Id)
    requires tags != [] && Tagged(taxa, tags[..|tags| - 1], ids)
    requires Names(taxa, Taxon(Tag, tags[|tags| - 1]), id)
    ensures Tagged(taxa, tags, ids + [id])
  {
  }

  function Words(w: World, fate: nat -> Fate, v: Vocabulary, tags: seq<string>): (step: Step<seq<Id>>)
    requires Knows(w.db.taxa, v)
    ensures Grown(w.db, step.world.db) && Knows(step.world.db.taxa, step.vocabulary)
    ensures step.answer.Ok? ==> Tagged(step.world.db.taxa, tags, step.answer.value)
    ensures step.answer != Err(OtherKind)
  {
    if tags == [] then Step(w, v, Ok([]))
    else
      var front := Words(w, fate, v, tags[..|tags| - 1]);
      if front.answer.Err? then front
      else
        var last := Word(front.world, fate, front.vocabulary, Taxon(Tag, tags[|tags| - 1]));
        match last.answer
        case Err(failure) => Step(last.world, last.vocabulary, Err(failure))
        case Ok(id) =>
          TaggedGrown(front.world.db, last.world.db, tags[..|tags| - 1], front.answer.value);
          TaggedMore(last.world.db.taxa, tags, front.answer.value, id);
          Step(last.world, last.vocabulary, Ok(front.answer.value + [id]))
  }

  // ------------------------------------------------------------ one guide

  function Settled(answer: Result<Write, Failure>): Result<(Id, nat), Failure> {
    match answer
    case Err(failure) => Err(failure)
    case Ok(Written(id, revision)) => Ok((id, revision))
    case Ok(Stale(_, _)) => Err(ChangedUnder)
    case Ok(Missing) => Err(DeletedUnder)
  }

  function ThenPublished(w: World, fate: nat -> Fate, slug: string, at: (Id, nat), outcome: Outcome)
    : (World, Result<Outcome, Failure>)
  {
    var (w1, answer) := Call(w, fate, DraftPublished(w.db, slug, at.0, at.1));
    (w1, match Settled(answer) case Err(failure) => Err(failure) case Ok(_) => Ok(outcome))
  }

  function WriteGuide(w: World, fate: nat -> Fate, slug: string, edit: Filing, wanted: bv64)
    : (World, Result<Outcome, Failure>)
    requires Filed(w.db.taxa, edit)
  {
    var (w1, found) := Call<Option<Record>>(w, fate, (w.db, RecordOf(w.db, slug)));
    match found
    case Err(failure) => (w1, Err(failure))
    case Ok(None) =>
      var (w2, made) := Call<Option<(Id, nat)>>(w1, fate, GuideInserted(w1.db, slug, edit));
      (match made
       case Err(failure) => (w2, Err(failure))
       case Ok(None) => (w2, Err(MidRun))
       case Ok(Some(at)) => ThenPublished(w2, fate, slug, at, Created))
    case Ok(Some(record)) =>
      var draftMatches := HashOf(record.draft) == wanted;
      var publishedMatches := record.published.Some? && HashOf(record.published.value) == wanted;
      if draftMatches && publishedMatches then (w1, Ok(Unchanged))
      else if draftMatches then ThenPublished(w1, fate, slug, (record.id, record.revision), Updated)
      else
        var (w2, saved) := Call(w1, fate, DraftSaved(w1.db, slug, edit, record.id, record.revision));
        match Settled(saved)
        case Err(failure) => (w2, Err(failure))
        case Ok(at) => ThenPublished(w2, fate, slug, at, Updated)
  }

  function EditOf(file: Parser.Guide, topic: Id, tags: seq<Id>): Filing {
    Filing(file.title, file.body, Some(topic), tags)
  }

  lemma EditFiled(taxa: map<Id, Taxon>, file: Parser.Guide, topic: Id, tags: seq<Id>)
    requires Names(taxa, Taxon(Topic, file.topic), topic) && Tagged(taxa, file.tags, tags)
    ensures Filed(taxa, EditOf(file, topic, tags))
  {
    assert forall i | 0 <= i < |tags| :: Names(taxa, Taxon(Tag, file.tags[i]), tags[i]);
  }

  function OneSeeded(w: World, fate: nat -> Fate, v: Vocabulary, file: Parser.Guide): (step: Step<Outcome>)
    requires Knows(w.db.taxa, v)
  {
    var topic := Word(w, fate, v, Taxon(Topic, file.topic));
    if topic.answer.Err? then Step(topic.world, topic.vocabulary, Err(topic.answer.error))
    else
      var tags := Words(topic.world, fate, topic.vocabulary, file.tags);
      if tags.answer.Err? then Step(tags.world, tags.vocabulary, Err(tags.answer.error))
      else
        EditFiled(tags.world.db.taxa, file, topic.answer.value, tags.answer.value);
        var (w1, answer) := WriteGuide(tags.world, fate, file.slug,
                                       EditOf(file, topic.answer.value, tags.answer.value),
                                       HashOf(ContentOfFile(file)));
        Step(w1, tags.vocabulary, answer)
  }

  // ------------------------------------------------------------ what one guide's seed touches

  ghost predicate OthersKept(a: Db, b: Db, slug: string) {
    && (forall id <- a.taxa :: id in b.taxa && b.taxa[id] == a.taxa[id])
    && (forall other | other != slug ::
          (other in a.guides <==> other in b.guides) && (other in a.guides ==> a.guides[other] == b.guides[other]))
  }

  lemma InsertFrame(db: Db, slug: string, edit: Filing)
    requires Filed(db.taxa, edit)
    ensures OthersKept(db, GuideInserted(db, slug, edit).0, slug) && GuideInserted(db, slug, edit).0.taxa == db.taxa
  {
    hide Keyed, Draft;
  }

  lemma SaveFrame(db: Db, slug: string, edit: Filing, id: Id, revision: nat)
    requires Filed(db.taxa, edit)
    ensures var after := DraftSaved(db, slug, edit, id, revision).0;
            OthersKept(db, after, slug) && after.taxa == db.taxa
  {
    hide Keyed, Draft;
  }

  lemma PublishFrame(db: Db, slug: string, id: Id, revision: nat)
    ensures var after := DraftPublished(db, slug, id, revision).0;
            OthersKept(db, after, slug) && after.taxa == db.taxa
  {
    hide Keyed;
  }

  lemma FramesJoin(a: Db, b: Db, c: Db, slug: string)
    requires OthersKept(a, b, slug) && OthersKept(b, c, slug)
    ensures OthersKept(a, c, slug)
  {
    hide Keyed;
  }

  lemma FrameNone(db: Db, slug: string)
    ensures OthersKept(db, db, slug)
  {
  }

  lemma WriteFrame(w: World, fate: nat -> Fate, slug: string, edit: Filing, wanted: bv64)
    requires Filed(w.db.taxa, edit)
    ensures WriteGuide(w, fate, slug, edit, wanted).0.db.taxa == w.db.taxa
    ensures OthersKept(w.db, WriteGuide(w, fate, slug, edit, wanted).0.db, slug)
  {
    hide HashOf, Filed, Keyed, RecordOf, OthersKept, GuideInserted, DraftSaved, DraftPublished;
    var after := WriteGuide(w, fate, slug, edit, wanted).0.db;
    var record := RecordOf(w.db, slug);
    FrameNone(w.db, slug);
    if record.None? {
      InsertFrame(w.db, slug, edit);
      var (made, at) := GuideInserted(w.db, slug, edit);
      if at.Some? {
        PublishFrame(made, slug, at.value.0, at.value.1);
        FramesJoin(w.db, made, DraftPublished(made, slug, at.value.0, at.value.1).0, slug);
      }
    } else {
      var (id, revision) := (record.value.id, record.value.revision);
      PublishFrame(w.db, slug, id, revision);
      SaveFrame(w.db, slug, edit, id, revision);
      var (saved, write) := DraftSaved(w.db, slug, edit, id, revision);
      if write.Written? {
        PublishFrame(saved, slug, write.id, write.revision);
        FramesJoin(w.db, saved, DraftPublished(saved, slug, write.id, write.revision).0, slug);
      }
    }
  }

  lemma TopicGrown(a: Db, b: Db, topic: string, id: Id)
    requires Names(a.taxa, Taxon(Topic, topic), id) && Grown(a, b)
    ensures Names(b.taxa, Taxon(Topic, topic), id)
  {
  }

  lemma SeedOneFrame(w: World, fate: nat -> Fate, v: Vocabulary, file: Parser.Guide)
    requires Knows(w.db.taxa, v)
    ensures OthersKept(w.db, OneSeeded(w, fate, v, file).world.db, file.slug)
    ensures Knows(OneSeeded(w, fate, v, file).world.db.taxa, OneSeeded(w, fate, v, file).vocabulary)
  {
    hide Word, Words, WriteGuide, HashOf, Knows, Tagged, Keyed, Filed;
    var topic := Word(w, fate, v, Taxon(Topic, file.topic));
    if topic.answer.Ok? {
      var tags := Words(topic.world, fate, topic.vocabulary, file.tags);
      if tags.answer.Ok? {
        TopicGrown(topic.world.db, tags.world.db, file.topic, topic.answer.value);
        EditFiled(tags.world.db.taxa, file, topic.answer.value, tags.answer.value);
        WriteFrame(tags.world, fate, file.slug, EditOf(file, topic.answer.value, tags.answer.value),
                   HashOf(ContentOfFile(file)));
      }
    }
  }

  // ------------------------------------------------------------ the whole corpus

  datatype Run = Run(world: World, vocabulary: Vocabulary, outcomes: seq<Outcome>, failure: Option<Failure>)

  /** The guides in order; the first that fails stops the pass. */
  function SeedFiles(w: World, fate: nat -> Fate, v: Vocabulary, files: seq<Parser.Guide>): (run: Run)
    requires Knows(w.db.taxa, v)
    ensures Knows(run.world.db.taxa, run.vocabulary)
    ensures |run.outcomes| <= |files| && (run.failure.None? ==> |run.outcomes| == |files|)
  {
    if files == [] then Run(w, v, [], None)
    else
      var front := SeedFiles(w, fate, v, files[..|files| - 1]);
      if front.failure.Some? then front
      else
        var one := OneSeeded(front.world, fate, front.vocabulary, files[|files| - 1]);
        SeedOneFrame(front.world, fate, front.vocabulary, files[|files| - 1]);
        match one.answer
        case Err(failure) => Run(one.world, one.vocabulary, front.outcomes, Some(failure))
        case Ok(outcome) => Run(one.world, one.vocabulary, front.outcomes + [outcome], None)
  }

  function Seed(w: World, fate: nat -> Fate, files: seq<Parser.Guide>): (run: Run)
    ensures |run.outcomes| <= |files| && (run.failure.None? ==> |run.outcomes| == |files|)
  {
    var (w1, loaded) := Call<Vocabulary>(w, fate, (w.db, Loaded(w.db)));
    match loaded
    case Err(failure) => Run(w1, Vocabulary(map[], map[]), [], Some(failure))
    case Ok(v) =>
      LoadedKnows(w.db);
      SeedFiles(w1, fate, v, files)
  }

  // ------------------------------------------------------------ what a seeded guide is

  ghost predicate Hashed(db: Db, slug: string, wanted: bv64) {
    && slug in db.guides
    && var g := db.guides[slug];
    && HashOf(ContentOf(db.taxa, g.draft)) == wanted
    && g.published.Some? && HashOf(ContentOf(db.taxa, g.published.value.copy)) == wanted
  }

  ghost predicate WordsHeld(db: Db, file: Parser.Guide) {
    Held(db, Taxon(Topic, file.topic)) && forall tag <- file.tags :: Held(db, Taxon(Tag, tag))
  }

  /** The guide is written, and published as it is written, and so are its words. */
  ghost predicate Done(db: Db, file: Parser.Guide) {
    Hashed(db, file.slug, HashOf(ContentOfFile(file))) && WordsHeld(db, file)
  }

  lemma DistinctMore(front: seq<Id>, last: Id)
    ensures Distinct(front + [last]) <==> Distinct(front) && last !in front
  {
    var all := front + [last];
    assert all[|front|] == last && forall i | 0 <= i < |front| :: all[i] == front[i];
    if !Distinct(front) {
      var i, j :| 0 <= i < j < |front| && front[i] == front[j];
      assert all[i] == all[j];
    }
    if last in front {
      var i :| 0 <= i < |front| && front[i] == last;
      assert all[i] == all[|front|];
    }
  }

  lemma NoneDistinct()
    ensures Distinct<Id>([])
  {
  }

  lemma {:induction false} OnceDistinct(tags: seq<Id>)
    ensures Distinct(Once(tags)) && |Once(tags)| <= |tags|
    ensures Distinct(tags) ==> Once(tags) == tags
    ensures !Distinct(tags) ==> |Once(tags)| < |tags|
  {
    hide Distinct;
    if tags == [] {
      NoneDistinct();
    } else {
      var (front, last) := (tags[..|tags| - 1], tags[|tags| - 1]);
      assert tags == front + [last];
      OnceDistinct(front);
      DistinctMore(front, last);
      DistinctMore(Once(front), last);
    }
  }

  /** Words and their rows repeat together. */
  lemma TaggedDistinct(db: Db, tags: seq<string>, ids: seq<Id>)
    requires Tagged(db.taxa, tags, ids)
    ensures Distinct(tags) <==> Distinct(ids)
    ensures (forall id <- ids :: id in db.taxa) && SlugsOf(db.taxa, ids) == tags
  {
    assert forall i | 0 <= i < |tags| :: Names(db.taxa, Taxon(Tag, tags[i]), ids[i]);
  }

  /** What is stored of a file: its content, each tag once. */
  function KeptOf(file: Parser.Guide): Content { Content(file.title, Some(file.topic), Once(file.tags), file.body) }

  /** Whether what is stored of a file hashes as the file does, as it must where no tag is named twice. */
  ghost predicate Settles(file: Parser.Guide) { HashOf(KeptOf(file)) == HashOf(ContentOfFile(file)) }

  lemma {:induction false} OnceOfDistinct(tags: seq<string>)
    requires Distinct(tags)
    ensures Once(tags) == tags
  {
    if tags != [] {
      var (front, last) := (tags[..|tags| - 1], tags[|tags| - 1]);
      OnceOfDistinct(front);
      assert forall k | 0 <= k < |front| :: tags[k] == front[k] && tags[|front|] == last;
    }
  }

  lemma DistinctSettles(file: Parser.Guide)
    requires Distinct(file.tags)
    ensures Settles(file)
  {
    hide HashOf, Once, Distinct;
    OnceOfDistinct(file.tags);
  }

  /** Words and their rows repeat together, so what is left of each is named by what is left of the other. */
  lemma {:induction false} OnceTagged(db: Db, tags: seq<string>, ids: seq<Id>)
    requires Tagged(db.taxa, tags, ids)
    ensures Tagged(db.taxa, Once(tags), Once(ids))
  {
    if tags != [] {
      var (front, last) := (tags[..|tags| - 1], tags[|tags| - 1]);
      var (frontIds, lastId) := (ids[..|ids| - 1], ids[|ids| - 1]);
      OnceTagged(db, front, frontIds);
      assert Names(db.taxa, Taxon(Tag, last), lastId);
      if last in front {
        var i :| 0 <= i < |front| && front[i] == last;
        assert Names(db.taxa, Taxon(Tag, front[i]), frontIds[i]);
      }
      if lastId in frontIds {
        var i :| 0 <= i < |frontIds| && frontIds[i] == lastId;
        assert Names(db.taxa, Taxon(Tag, front[i]), frontIds[i]);
      }
    }
  }

  lemma DraftKeeps(db: Db, file: Parser.Guide, topic: Id, ids: seq<Id>)
    requires Names(db.taxa, Taxon(Topic, file.topic), topic) && Tagged(db.taxa, file.tags, ids)
    ensures Filed(db.taxa, Draft(EditOf(file, topic, ids)))
    ensures ContentOf(db.taxa, Draft(EditOf(file, topic, ids))) == KeptOf(file)
  {
    hide Once, Tagged, Keyed;
    EditFiled(db.taxa, file, topic, ids);
    OnceTagged(db, file.tags, ids);
    TaggedDistinct(db, Once(file.tags), Once(ids));
  }

  /** What a seed writes is what the file says, exactly when the file names no tag twice. */
  lemma WrittenAsFiled(db: Db, file: Parser.Guide, topic: Id, ids: seq<Id>)
    requires Names(db.taxa, Taxon(Topic, file.topic), topic) && Tagged(db.taxa, file.tags, ids)
    ensures var draft := Draft(EditOf(file, topic, ids));
            && Filed(db.taxa, draft)
            && (SameContent(ContentOf(db.taxa, draft), ContentOfFile(file)) <==> Distinct(file.tags))
  {
    hide Keyed, Once, Tagged, Distinct;
    EditFiled(db.taxa, file, topic, ids);
    TaggedDistinct(db, file.tags, ids);
    OnceDistinct(ids);
    var draft := Draft(EditOf(file, topic, ids));
    var slugs := SlugsOf(db.taxa, draft.tags);
    if Distinct(file.tags) {
      assert slugs == file.tags;
    } else {
      assert |multiset(slugs)| == |slugs| < |file.tags| == |multiset(file.tags)|;
    }
  }

  // ------------------------------------------------------------ one guide, done and done again

  lemma WriteSettles(w: World, fate: nat -> Fate, slug: string, edit: Filing, wanted: bv64)
    requires Filed(w.db.taxa, edit) && HashOf(ContentOf(w.db.taxa, Draft(edit))) == wanted
    ensures var (w', answer) := WriteGuide(w, fate, slug, edit, wanted);
            answer.Ok? ==> Hashed(w'.db, slug, wanted)
  {
    hide HashOf, ContentOf, Once, Keyed;
  }

  /** What is published is the very draft whose revision the publish named. */
  lemma PublishedAsWritten(w: World, fate: nat -> Fate, slug: string, edit: Filing, wanted: bv64)
    requires Filed(w.db.taxa, edit)
    ensures var (w', answer) := WriteGuide(w, fate, slug, edit, wanted);
            answer == Ok(Created) || answer == Ok(Updated) ==>
              && slug in w'.db.guides
              && var g := w'.db.guides[slug];
              && g.revision >= 1 && g.published == Some(Snapshot(g.draft, g.revision - 1))
              && (g.draft == Draft(edit)
                  || (slug in w.db.guides && g.draft == w.db.guides[slug].draft
                      && HashOf(ContentOf(w.db.taxa, g.draft)) == wanted))
  {
    hide HashOf, ContentOf, Once, Keyed;
  }

  lemma WriteNothing(w: World, fate: nat -> Fate, slug: string, edit: Filing, wanted: bv64)
    requires Filed(w.db.taxa, edit) && Hashed(w.db, slug, wanted)
    ensures var (w', answer) := WriteGuide(w, fate, slug, edit, wanted);
            w'.db == w.db && (answer.Ok? ==> answer.value == Unchanged)
  {
    hide HashOf, ContentOf, Once, Keyed;
  }

  lemma WordHeld(w: World, fate: nat -> Fate, v: Vocabulary, taxon: Taxon)
    requires Knows(w.db.taxa, v)
    ensures Word(w, fate, v, taxon).answer.Ok? ==> Held(Word(w, fate, v, taxon).world.db, taxon)
    ensures Held(w.db, taxon) ==> Word(w, fate, v, taxon).world.db == w.db
  {
    hide Knows, Keyed, Loaded;
  }

  lemma HeldGrown(a: Db, b: Db, taxon: Taxon)
    requires Held(a, taxon) && forall id <- a.taxa :: id in b.taxa && b.taxa[id] == a.taxa[id]
    ensures Held(b, taxon)
  {
    var id :| id in a.taxa && a.taxa[id] == taxon;
    assert id in b.taxa;
  }

  lemma {:induction false} WordsHeldAfter(w: World, fate: nat -> Fate, v: Vocabulary, tags: seq<string>)
    requires Knows(w.db.taxa, v)
    ensures var step := Words(w, fate, v, tags);
            && (step.answer.Ok? ==> forall tag <- tags :: Held(step.world.db, Taxon(Tag, tag)))
            && ((forall tag <- tags :: Held(w.db, Taxon(Tag, tag))) ==> step.world.db == w.db)
  {
    hide Knows, Keyed, Word;
    if tags != [] {
      var step := Words(w, fate, v, tags);
      var (rest, last) := (tags[..|tags| - 1], tags[|tags| - 1]);
      assert tags == rest + [last];
      WordsHeldAfter(w, fate, v, rest);
      var front := Words(w, fate, v, rest);
      if front.answer.Ok? {
        WordHeld(front.world, fate, front.vocabulary, Taxon(Tag, last));
      }
      if step.answer.Ok? {
        forall tag <- rest ensures Held(step.world.db, Taxon(Tag, tag)) {
          HeldGrown(front.world.db, step.world.db, Taxon(Tag, tag));
        }
      }
    }
  }

  /** A guide seeded to its end is done, if what is stored of it hashes as its file does. */
  lemma SeedOneSettles(w: World, fate: nat -> Fate, v: Vocabulary, file: Parser.Guide)
    requires Knows(w.db.taxa, v) && Settles(file)
    ensures var step := OneSeeded(w, fate, v, file);
            step.answer.Ok? ==> Done(step.world.db, file)
  {
    hide Word, Words, WriteGuide, HashOf, Knows, Tagged, Keyed, Hashed, ContentOf, Draft, Filed, KeptOf;
    var step := OneSeeded(w, fate, v, file);
    if step.answer.Ok? {
      var topic := Word(w, fate, v, Taxon(Topic, file.topic));
      var tags := Words(topic.world, fate, topic.vocabulary, file.tags);
      var db := tags.world.db;
      WordHeld(w, fate, v, Taxon(Topic, file.topic));
      WordsHeldAfter(topic.world, fate, topic.vocabulary, file.tags);
      HeldGrown(topic.world.db, db, Taxon(Topic, file.topic));
      TopicGrown(topic.world.db, db, file.topic, topic.answer.value);
      DraftKeeps(db, file, topic.answer.value, tags.answer.value);
      var edit := EditOf(file, topic.answer.value, tags.answer.value);
      EditFiled(db.taxa, file, topic.answer.value, tags.answer.value);
      WriteSettles(tags.world, fate, file.slug, edit, HashOf(ContentOfFile(file)));
      WriteFrame(tags.world, fate, file.slug, edit, HashOf(ContentOfFile(file)));
      HeldGrown(db, step.world.db, Taxon(Topic, file.topic));
      forall tag <- file.tags ensures Held(step.world.db, Taxon(Tag, tag)) {
        HeldGrown(db, step.world.db, Taxon(Tag, tag));
      }
    }
  }

  /** A guide already done is read and left alone, whichever calls are lost. */
  lemma SeedOneDone(w: World, fate: nat -> Fate, v: Vocabulary, file: Parser.Guide)
    requires Knows(w.db.taxa, v) && Done(w.db, file)
    ensures var step := OneSeeded(w, fate, v, file);
            step.world.db == w.db && (step.answer.Ok? ==> step.answer.value == Unchanged)
  {
    hide Word, Words, WriteGuide, HashOf, Knows, Tagged, Keyed, Hashed, Filed;
    var topic := Word(w, fate, v, Taxon(Topic, file.topic));
    WordHeld(w, fate, v, Taxon(Topic, file.topic));
    if topic.answer.Ok? {
      var tags := Words(topic.world, fate, topic.vocabulary, file.tags);
      WordsHeldAfter(topic.world, fate, topic.vocabulary, file.tags);
      if tags.answer.Ok? {
        EditFiled(tags.world.db.taxa, file, topic.answer.value, tags.answer.value);
        WriteNothing(tags.world, fate, file.slug, EditOf(file, topic.answer.value, tags.answer.value),
                     HashOf(ContentOfFile(file)));
      }
    }
  }

  // ------------------------------------------------------------ runs over the corpus

  /** Files of one directory: no two share a name. */
  ghost predicate Apart(files: seq<Parser.Guide>) {
    forall i, j | 0 <= i < j < |files| :: files[i].slug != files[j].slug
  }

  /** And none names a tag twice. */
  ghost predicate Corpus(files: seq<Parser.Guide>) {
    Apart(files) && forall i | 0 <= i < |files| :: Distinct(files[i].tags)
  }

  lemma ContentGrown(a: Db, b: Db, f: Filing)
    requires Filed(a.taxa, f) && forall id <- a.taxa :: id in b.taxa && b.taxa[id] == a.taxa[id]
    ensures Filed(b.taxa, f) && ContentOf(b.taxa, f) == ContentOf(a.taxa, f)
  {
  }

  /** A guide as one table and another hold it: the same row, or none in either. */
  ghost predicate GuideKept(a: Db, b: Db, slug: string) {
    && (forall id <- a.taxa :: id in b.taxa && b.taxa[id] == a.taxa[id])
    && (slug in a.guides <==> slug in b.guides) && (slug in a.guides ==> a.guides[slug] == b.guides[slug])
  }

  lemma DoneStays(a: Db, b: Db, file: Parser.Guide)
    requires Done(a, file) && GuideKept(a, b, file.slug)
    ensures Done(b, file)
  {
    hide HashOf, Held;
    HeldGrown(a, b, Taxon(Topic, file.topic));
    forall tag <- file.tags ensures Held(b, Taxon(Tag, tag)) { HeldGrown(a, b, Taxon(Tag, tag)); }
    var g := a.guides[file.slug];
    ContentGrown(a, b, g.draft);
    ContentGrown(a, b, g.published.value.copy);
  }

  lemma DoneKept(a: Db, b: Db, slug: string, file: Parser.Guide)
    requires Done(a, file) && OthersKept(a, b, slug) && slug != file.slug
    ensures Done(b, file)
  {
    hide Done;
    DoneStays(a, b, file);
  }

  /** However far a pass got, every guide it answered for is done. */
  lemma {:induction false} RunSettles(w: World, fate: nat -> Fate, v: Vocabulary, files: seq<Parser.Guide>)
    requires Knows(w.db.taxa, v) && Corpus(files)
    ensures var run := SeedFiles(w, fate, v, files);
            forall i | 0 <= i < |run.outcomes| :: Done(run.world.db, files[i])
  {
    hide OneSeeded, Done, Knows, Keyed, Distinct;
    if files != [] {
      var (rest, last) := (files[..|files| - 1], files[|files| - 1]);
      RunSettles(w, fate, v, rest);
      var front := SeedFiles(w, fate, v, rest);
      if front.failure.None? {
        SeedOneFrame(front.world, fate, front.vocabulary, last);
        DistinctSettles(last);
        SeedOneSettles(front.world, fate, front.vocabulary, last);
        var one := OneSeeded(front.world, fate, front.vocabulary, last);
        forall i | 0 <= i < |rest| ensures Done(one.world.db, files[i]) {
          assert rest[i] == files[i];
          DoneKept(front.world.db, one.world.db, last.slug, files[i]);
        }
      }
    }
  }

  /** A pass over guides already done writes nothing at all. */
  lemma {:induction false} DoneRunWritesNothing(
    w: World, fate: nat -> Fate, v: Vocabulary, files: seq<Parser.Guide>)
    requires Knows(w.db.taxa, v) && forall file <- files :: Done(w.db, file)
    ensures var run := SeedFiles(w, fate, v, files);
            run.world.db == w.db && forall outcome <- run.outcomes :: outcome == Unchanged
  {
    hide OneSeeded, Done, Knows, Keyed;
    if files != [] {
      var (rest, last) := (files[..|files| - 1], files[|files| - 1]);
      assert forall file <- rest :: file in files;
      DoneRunWritesNothing(w, fate, v, rest);
      var front := SeedFiles(w, fate, v, rest);
      if front.failure.None? {
        SeedOneDone(front.world, fate, front.vocabulary, last);
      }
    }
  }

  /** A pass begins by making the shorter pass, and fails in it or answers all it answers. */
  lemma {:induction false} RunExtends(w: World, fate: nat -> Fate, v: Vocabulary, files: seq<Parser.Guide>, k: nat)
    requires Knows(w.db.taxa, v) && k <= |files|
    ensures var (short, long) := (SeedFiles(w, fate, v, files[..k]), SeedFiles(w, fate, v, files));
            && short.outcomes <= long.outcomes
            && (short.failure.Some? ==> long == short)
            && (k < |long.outcomes| ==> short.failure.None?)
  {
    hide OneSeeded, Knows, Keyed;
    if k == |files| {
      assert files[..k] == files;
    } else {
      assert files[..|files| - 1][..k] == files[..k];
      RunExtends(w, fate, v, files[..|files| - 1], k);
    }
  }

  /** What a pass does after its first files leaves every guide of other names as it was. */
  lemma {:induction false} RestKeeps(
    w: World, fate: nat -> Fate, v: Vocabulary, files: seq<Parser.Guide>, k: nat, slug: string)
    requires Knows(w.db.taxa, v) && k <= |files| && forall i | k <= i < |files| :: files[i].slug != slug
    ensures GuideKept(SeedFiles(w, fate, v, files[..k]).world.db, SeedFiles(w, fate, v, files).world.db, slug)
  {
    hide OneSeeded, Knows, Keyed;
    if k == |files| {
      assert files[..k] == files;
    } else {
      var (rest, last) := (files[..|files| - 1], files[|files| - 1]);
      assert rest[..k] == files[..k];
      RestKeeps(w, fate, v, rest, k, slug);
      var front := SeedFiles(w, fate, v, rest);
      if front.failure.None? { SeedOneFrame(front.world, fate, front.vocabulary, last); }
    }
  }

  lemma ApartFrom(files: seq<Parser.Guide>, i: nat, k: nat)
    requires Corpus(files) && i < k <= |files|
    ensures forall j | k <= j < |files| :: files[j].slug != files[i].slug
  {
  }

  /**
   Seeding is idempotent and resumable. After a pass that completed or stopped,
   whichever calls were lost, a second pass over the same files leaves every
   guide the first one answered for unwritten, whichever calls it loses in turn
   and however far past the first one's stop it goes.
   */
  lemma SeedResumes(w: World, fate1: nat -> Fate, fate2: nat -> Fate, files: seq<Parser.Guide>, calls: nat)
    requires Corpus(files)
    ensures var first := Seed(w, fate1, files);
            var k := |first.outcomes|;
            var again := World(first.world.db, calls);
            && Seed(again, fate2, files[..k]).world.db == first.world.db
            && (forall i | 0 <= i < k && i < |Seed(again, fate2, files).outcomes| ::
                  Seed(again, fate2, files).outcomes[i] == Unchanged)
            && (forall i | 0 <= i < k ::
                  && Done(first.world.db, files[i])
                  && GuideKept(first.world.db, Seed(again, fate2, files).world.db, files[i].slug))
            && (first.failure.None? ==> Seed(again, fate2, files).world.db == first.world.db)
  {
    hide SeedFiles, Done, Knows, Keyed, Loaded, Corpus;
    LoadedKnows(w.db);
    var first := Seed(w, fate1, files);
    var k := |first.outcomes|;
    if fate1(w.calls).Answered? {
      RunSettles(World(w.db, w.calls + 1), fate1, Loaded(w.db), files);
    }
    var db := first.world.db;
    LoadedKnows(db);
    var (w2, v2) := (World(db, calls + 1), Loaded(db));
    if fate2(calls).Answered? {
      DoneRunWritesNothing(w2, fate2, v2, files[..k]);
      RunExtends(w2, fate2, v2, files, k);
      assert k == |files| ==> files[..k] == files;
      var (short, long) := (SeedFiles(w2, fate2, v2, files[..k]), SeedFiles(w2, fate2, v2, files));
      forall i | 0 <= i < k && i < |long.outcomes| ensures long.outcomes[i] == Unchanged {
        assert i < |short.outcomes|;
        assert short.outcomes[i] == long.outcomes[i] && short.outcomes[i] in short.outcomes;
      }
      forall i | 0 <= i < k ensures GuideKept(db, long.world.db, files[i].slug) {
        ApartFrom(files, i, k);
        RestKeeps(w2, fate2, v2, files, k, files[i].slug);
      }
    }
  }

  // ------------------------------------------------------------ a pass nothing interrupts

  lemma WordAnswered(w: World, fate: nat -> Fate, v: Vocabulary, taxon: Taxon)
    requires Knows(w.db.taxa, v) && forall n :: fate(n).Answered?
    ensures Word(w, fate, v, taxon).answer.Ok?
  {
    hide Knows, Keyed;
    LoadedKnows(w.db);
  }

  lemma {:induction false} WordsAnswered(w: World, fate: nat -> Fate, v: Vocabulary, tags: seq<string>)
    requires Knows(w.db.taxa, v) && forall n :: fate(n).Answered?
    ensures Words(w, fate, v, tags).answer.Ok?
  {
    hide Knows, Keyed, Word;
    if tags != [] {
      WordsAnswered(w, fate, v, tags[..|tags| - 1]);
      var front := Words(w, fate, v, tags[..|tags| - 1]);
      WordAnswered(front.world, fate, front.vocabulary, Taxon(Tag, tags[|tags| - 1]));
    }
  }

  lemma WriteAnswered(w: World, fate: nat -> Fate, slug: string, edit: Filing, wanted: bv64)
    requires Filed(w.db.taxa, edit) && forall n :: fate(n).Answered?
    ensures WriteGuide(w, fate, slug, edit, wanted).1.Ok?
  {
    hide HashOf, ContentOf, Once, Keyed, Draft, Filed;
  }

  /** With no call lost a pass reaches its end, from whatever an earlier one left. */
  lemma {:induction false} RunCompletes(w: World, fate: nat -> Fate, v: Vocabulary, files: seq<Parser.Guide>)
    requires Knows(w.db.taxa, v) && forall n :: fate(n).Answered?
    ensures SeedFiles(w, fate, v, files).failure.None?
  {
    hide Knows, Keyed, Word, Words, WriteGuide, HashOf, Tagged, Filed;
    if files != [] {
      var (rest, last) := (files[..|files| - 1], files[|files| - 1]);
      RunCompletes(w, fate, v, rest);
      var front := SeedFiles(w, fate, v, rest);
      WordAnswered(front.world, fate, front.vocabulary, Taxon(Topic, last.topic));
      var topic := Word(front.world, fate, front.vocabulary, Taxon(Topic, last.topic));
      WordsAnswered(topic.world, fate, topic.vocabulary, last.tags);
      var tags := Words(topic.world, fate, topic.vocabulary, last.tags);
      TopicGrown(topic.world.db, tags.world.db, last.topic, topic.answer.value);
      EditFiled(tags.world.db.taxa, last, topic.answer.value, tags.answer.value);
      WriteAnswered(tags.world, fate, last.slug, EditOf(last, topic.answer.value, tags.answer.value),
                    HashOf(ContentOfFile(last)));
    }
  }

  /** So whatever calls earlier passes lost, the first pass that loses none leaves the whole corpus done. */
  lemma SeedCompletes(w: World, fate: nat -> Fate, files: seq<Parser.Guide>)
    requires Corpus(files) && forall n :: fate(n).Answered?
    ensures var run := Seed(w, fate, files);
            run.failure.None? && forall file <- files :: Done(run.world.db, file)
  {
    hide SeedFiles, Done, Knows, Keyed, Loaded, Corpus;
    LoadedKnows(w.db);
    RunCompletes(World(w.db, w.calls + 1), fate, Loaded(w.db), files);
    RunSettles(World(w.db, w.calls + 1), fate, Loaded(w.db), files);
  }

  // ------------------------------------------------------------ a file that names a tag twice

  /** A file that names a tag twice, and hashes apart from what is stored of it. */
  ghost predicate Repeats(file: Parser.Guide) {
    !Distinct(file.tags) && !Settles(file)
  }

  ghost predicate Kept(db: Db, file: Parser.Guide) {
    file.slug in db.guides && ContentOf(db.taxa, db.guides[file.slug].draft) == KeptOf(file)
  }

  /** Whether the working copy, if there is one, is not what the file's fingerprint asks for. */
  ghost predicate Unmatched(db: Db, file: Parser.Guide) {
    file.slug in db.guides ==> HashOf(ContentOf(db.taxa, db.guides[file.slug].draft)) != HashOf(ContentOfFile(file))
  }

  ghost function RevisionOf(db: Db, slug: string): nat {
    if slug in db.guides then db.guides[slug].revision else 0
  }

  lemma UnmatchedWritten(w: World, fate: nat -> Fate, file: Parser.Guide, edit: Filing)
    requires forall n :: fate(n).Answered?
    requires Filed(w.db.taxa, edit) && ContentOf(w.db.taxa, Draft(edit)) == KeptOf(file)
    requires Repeats(file) && Unmatched(w.db, file)
    ensures var (w', answer) := WriteGuide(w, fate, file.slug, edit, HashOf(ContentOfFile(file)));
            && answer == Ok(if file.slug in w.db.guides then Updated else Created)
            && w'.db.taxa == w.db.taxa && Kept(w'.db, file)
            && RevisionOf(w'.db, file.slug) == RevisionOf(w.db, file.slug) + 2
  {
    hide HashOf, Keyed, Once, KeptOf, ContentOfFile, Distinct;
  }

  lemma DraftFiled(db: Db, slug: string)
    requires slug in db.guides
    ensures Filed(db.taxa, db.guides[slug].draft)
  {
  }

  /** More words leave a working copy what it was. */
  lemma UnmatchedGrown(a: Db, b: Db, file: Parser.Guide)
    requires GuideKept(a, b, file.slug)
    ensures RevisionOf(b, file.slug) == RevisionOf(a, file.slug)
    ensures Unmatched(a, file) ==> Unmatched(b, file)
    ensures Kept(a, file) ==> Kept(b, file)
  {
    hide HashOf, ContentOf, KeptOf;
    if file.slug in a.guides {
      DraftFiled(a, file.slug);
      ContentGrown(a, b, a.guides[file.slug].draft);
    }
  }

  /** A seed of such a file writes and publishes it again, two revisions on, and leaves it as it was stored. */
  lemma RepeatedSeedWrites(w: World, fate: nat -> Fate, v: Vocabulary, file: Parser.Guide)
    requires Knows(w.db.taxa, v) && forall n :: fate(n).Answered?
    requires Repeats(file) && Unmatched(w.db, file)
    ensures var step := OneSeeded(w, fate, v, file);
            && step.answer == Ok(if file.slug in w.db.guides then Updated else Created)
            && Kept(step.world.db, file)
            && RevisionOf(step.world.db, file.slug) == RevisionOf(w.db, file.slug) + 2
  {
    hide Word, Words, WriteGuide, HashOf, Knows, Tagged, Keyed, Once, Draft, ContentOf, Filed;
    hide KeptOf, Repeats, Unmatched, Kept, RevisionOf;
    var topic := Word(w, fate, v, Taxon(Topic, file.topic));
    WordAnswered(w, fate, v, Taxon(Topic, file.topic));
    WordsAnswered(topic.world, fate, topic.vocabulary, file.tags);
    var tags := Words(topic.world, fate, topic.vocabulary, file.tags);
    var db := tags.world.db;
    TopicGrown(topic.world.db, db, file.topic, topic.answer.value);
    EditFiled(db.taxa, file, topic.answer.value, tags.answer.value);
    DraftKeeps(db, file, topic.answer.value, tags.answer.value);
    UnmatchedGrown(w.db, db, file);
    UnmatchedWritten(tags.world, fate, file, EditOf(file, topic.answer.value, tags.answer.value));
  }

  lemma FilesStep(w: World, fate: nat -> Fate, v: Vocabulary, files: seq<Parser.Guide>, i: nat)
    requires Knows(w.db.taxa, v) && i < |files|
    ensures var (front, next) := (SeedFiles(w, fate, v, files[..i]), SeedFiles(w, fate, v, files[..i + 1]));
            && Knows(front.world.db.taxa, front.vocabulary)
            && (front.failure.None? ==>
                  var one := OneSeeded(front.world, fate, front.vocabulary, files[i]);
                  next == match one.answer
                          case Err(failure) => Run(one.world, one.vocabulary, front.outcomes, Some(failure))
                          case Ok(outcome) => Run(one.world, one.vocabulary, front.outcomes + [outcome], None))
  {
    hide Knows, Keyed, OneSeeded;
    assert files[..i + 1][..i] == files[..i];
  }

  /** A whole pass does the same, wherever in it the file stands. */
  lemma {:induction false} RepeatedPassWrites(
    w: World, fate: nat -> Fate, v: Vocabulary, files: seq<Parser.Guide>, i: nat)
    requires Knows(w.db.taxa, v) && forall n :: fate(n).Answered?
    requires Apart(files) && i < |files| && Repeats(files[i]) && Unmatched(w.db, files[i])
    ensures var run := SeedFiles(w, fate, v, files);
            && run.failure.None?
            && run.outcomes[i] == (if files[i].slug in w.db.guides then Updated else Created)
            && Kept(run.world.db, files[i])
            && RevisionOf(run.world.db, files[i].slug) == RevisionOf(w.db, files[i].slug) + 2
  {
    hide OneSeeded, Knows, Keyed, Repeats, Unmatched, Kept, RevisionOf;
    var (file, done) := (files[i], files[..i + 1]);
    RunCompletes(w, fate, v, files);
    RunExtends(w, fate, v, files, i + 1);
    RestKeeps(w, fate, v, files, i + 1, file.slug);
    assert done[..i] == files[..i] && done[..0] == [];
    FilesStep(w, fate, v, files, i);
    var front := SeedFiles(w, fate, v, files[..i]);
    RunCompletes(w, fate, v, files[..i]);
    RestKeeps(w, fate, v, files[..i], 0, file.slug);
    assert files[..i][..0] == [];
    UnmatchedGrown(w.db, front.world.db, file);
    RepeatedSeedWrites(front.world, fate, front.vocabulary, file);
    UnmatchedGrown(SeedFiles(w, fate, v, done).world.db, SeedFiles(w, fate, v, files).world.db, file);
  }

  /** The tables after so many passes over the same files. */
  function Passed(w: World, fate: nat -> Fate, files: seq<Parser.Guide>, passes: nat): World {
    if passes == 0 then w else Seed(Passed(w, fate, files, passes - 1), fate, files).world
  }

  lemma KeptIsUnmatched(db: Db, file: Parser.Guide)
    requires Kept(db, file) && Repeats(file)
    ensures Unmatched(db, file)
  {
    hide HashOf, ContentOf, KeptOf, ContentOfFile, Keyed;
  }

  /**
   The condition on tags is needed: whatever else a corpus holds, a file naming
   a tag twice is stored naming it once, hashes apart from what is stored, and
   so is rewritten and republished by every pass, two revisions a time, for as
   long as passes are made.
   */
  lemma {:induction false} RepeatedTagNeverSettles(
    w: World, fate: nat -> Fate, files: seq<Parser.Guide>, i: nat, passes: nat)
    requires Apart(files) && i < |files| && Repeats(files[i]) && Unmatched(w.db, files[i])
    requires forall n :: fate(n).Answered?
    ensures var before := Passed(w, fate, files, passes);
            var run := Seed(before, fate, files);
            && RevisionOf(before.db, files[i].slug) == RevisionOf(w.db, files[i].slug) + 2 * passes
            && run.failure.None?
            && run.outcomes[i] == (if files[i].slug in before.db.guides then Updated else Created)
            && Kept(run.world.db, files[i])
            && RevisionOf(run.world.db, files[i].slug) == RevisionOf(before.db, files[i].slug) + 2
    decreases passes
  {
    hide SeedFiles, Repeats, Unmatched, Kept, RevisionOf, Knows, Keyed, Loaded, Apart;
    var before := Passed(w, fate, files, passes);
    if passes > 0 {
      RepeatedTagNeverSettles(w, fate, files, i, passes - 1);
      KeptIsUnmatched(before.db, files[i]);
    }
    LoadedKnows(before.db);
    RepeatedPassWrites(World(before.db, before.calls + 1), fate, Loaded(before.db), files, i);
  }

  /** A pass that loses no call leaves such a file's guide done. */
  lemma PassSettles(w: World, fate: nat -> Fate, v: Vocabulary, files: seq<Parser.Guide>, i: nat)
    requires Knows(w.db.taxa, v) && forall n :: fate(n).Answered?
    requires Apart(files) && i < |files| && Settles(files[i])
    ensures SeedFiles(w, fate, v, files).failure.None? && Done(SeedFiles(w, fate, v, files).world.db, files[i])
    ensures Done(w.db, files[i]) ==> SeedFiles(w, fate, v, files).outcomes[i] == Unchanged
  {
    hide OneSeeded, Knows, Keyed, Done, Settles;
    var file := files[i];
    RunCompletes(w, fate, v, files);
    RunExtends(w, fate, v, files, i + 1);
    RestKeeps(w, fate, v, files, i + 1, file.slug);
    assert files[..i + 1][..i] == files[..i];
    FilesStep(w, fate, v, files, i);
    var front := SeedFiles(w, fate, v, files[..i]);
    RunCompletes(w, fate, v, files[..i]);
    RestKeeps(w, fate, v, files[..i], 0, file.slug);
    assert files[..i][..0] == [];
    SeedOneSettles(front.world, fate, front.vocabulary, file);
    DoneStays(SeedFiles(w, fate, v, files[..i + 1]).world.db, SeedFiles(w, fate, v, files).world.db, file);
    if Done(w.db, file) {
      DoneStays(w.db, front.world.db, file);
      SeedOneDone(front.world, fate, front.vocabulary, file);
    }
  }

  /**
   So, whatever else a corpus holds, a second pass leaves a guide alone exactly
   when what is stored of its file hashes as the file does.
   */
  lemma SecondPassRestsIff(w: World, fate: nat -> Fate, files: seq<Parser.Guide>, i: nat)
    requires Apart(files) && i < |files| && Unmatched(w.db, files[i]) && forall n :: fate(n).Answered?
    ensures var again := Seed(Seed(w, fate, files).world, fate, files);
            again.failure.None? && (again.outcomes[i] == Unchanged <==> Settles(files[i]))
  {
    hide SeedFiles, Unmatched, Kept, RevisionOf, Knows, Keyed, Loaded, Apart, Done, Distinct, Settles;
    if Settles(files[i]) {
      LoadedKnows(w.db);
      PassSettles(World(w.db, w.calls + 1), fate, Loaded(w.db), files, i);
      var first := Seed(w, fate, files).world;
      LoadedKnows(first.db);
      PassSettles(World(first.db, first.calls + 1), fate, Loaded(first.db), files, i);
    } else {
      if Distinct(files[i].tags) { DistinctSettles(files[i]); }
      RepeatedTagNeverSettles(w, fate, files, i, 1);
    }
  }

  function Repeating(): Parser.Guide { Parser.Guide("g", "t", "a", ["a", "a"], "b") }

  /** And there is such a file. */
  lemma RepeatingRepeats()
    ensures Repeats(Repeating())
  {
    RepeatHashesApart();
    hide HashOf;
    var tags := Repeating().tags;
    assert tags[0] == tags[1];
    assert Once(["a"]) == ["a"] by { assert ["a"][..0] == []; }
    assert Once(tags) == ["a"] by { assert tags[..1] == ["a"]; }
  }

  // ------------------------------------------------------------ the same, step by step

  lemma {:induction false} WordsStop(w: World, fate: nat -> Fate, v: Vocabulary, tags: seq<string>, k: nat)
    requires Knows(w.db.taxa, v) && k <= |tags| && Words(w, fate, v, tags[..k]).answer.Err?
    ensures Words(w, fate, v, tags) == Words(w, fate, v, tags[..k])
  {
    hide Knows, Keyed, Word;
    if k == |tags| {
      assert tags[..k] == tags;
    } else {
      assert tags[..|tags| - 1][..k] == tags[..k];
      WordsStop(w, fate, v, tags[..|tags| - 1], k);
    }
  }

  class Seeder {
    const repo: GuideRepo
    var topics: map<string, Id>
    var tags: map<string, Id>

    ghost function Vocab(): Vocabulary
      reads this
    {
      Vocabulary(topics, tags)
    }

    constructor (repository: GuideRepo)
      ensures repo == repository && Vocab() == Vocabulary(map[], map[])
    {
      repo, topics, tags := repository, map[], map[];
    }

    method WordFor(taxon: Taxon) returns (answer: Result<Id, Failure>)
      requires Knows(repo.db.taxa, Vocab())
      modifies this, repo
      ensures Step(repo.Now(), Vocab(), answer) == Word(old(repo.Now()), repo.fate, old(Vocab()), taxon)
    {
      var known := if taxon.kind.Topic? then topics else tags;
      if taxon.slug in known { return Ok(known[taxon.slug]); }
      var made := repo.CreateTaxon(taxon);
      if made.Err? { return Err(made.error); }
      var id: Id;
      if made.value.Some? {
        id := made.value.value;
      } else {
        var reread := repo.Taxonomy();
        if reread.Err? { return Err(reread.error); }
        var found := if taxon.kind.Topic? then reread.value.topics else reread.value.tags;
        if taxon.slug !in found { return Err(OtherKind); }
        id := found[taxon.slug];
      }
      if taxon.kind.Topic? { topics := topics[taxon.slug := id]; } else { tags := tags[taxon.slug := id]; }
      return Ok(id);
    }

    method WordsFor(slugs: seq<string>) returns (answer: Result<seq<Id>, Failure>)
      requires Knows(repo.db.taxa, Vocab())
      modifies this, repo
      ensures Step(repo.Now(), Vocab(), answer) == Words(old(repo.Now()), repo.fate, old(Vocab()), slugs)
    {
      hide Knows, Keyed, Word;
      var ids: seq<Id> := [];
      for i := 0 to |slugs|
        invariant Step(repo.Now(), Vocab(), Ok(ids)) == Words(old(repo.Now()), repo.fate, old(Vocab()), slugs[..i])
      {
        assert slugs[..i + 1][..i] == slugs[..i];
        var id := WordFor(Taxon(Tag, slugs[i]));
        if id.Err? {
          WordsStop(old(repo.Now()), repo.fate, old(Vocab()), slugs, i + 1);
          return Err(id.error);
        }
        ids := ids + [id.value];
      }
      assert slugs[..|slugs|] == slugs;
      return Ok(ids);
    }

    method Publish(slug: string, id: Id, revision: nat, outcome: Outcome) returns (answer: Result<Outcome, Failure>)
      modifies repo
      ensures (repo.Now(), answer)
           == ThenPublished(old(repo.Now()), repo.fate, slug, (id, revision), outcome)
    {
      var write := repo.Publish(slug, id, revision);
      var written := Settled(write);
      return if written.Err? then Err(written.error) else Ok(outcome);
    }

    method SeedOne(file: Parser.Guide) returns (answer: Result<Outcome, Failure>)
      requires Knows(repo.db.taxa, Vocab())
      modifies this, repo
      ensures Step(repo.Now(), Vocab(), answer)
           == OneSeeded(old(repo.Now()), repo.fate, old(Vocab()), file)
    {
      hide Knows, Keyed, Word, Words, HashOf, Tagged, GuideInserted, DraftSaved, DraftPublished, RecordOf;
      var topic := WordFor(Taxon(Topic, file.topic));
      if topic.Err? { return Err(topic.error); }
      ghost var before := repo.db;
      var ids := WordsFor(file.tags);
      if ids.Err? { return Err(ids.error); }
      TopicGrown(before, repo.db, file.topic, topic.value);
      EditFiled(repo.db.taxa, file, topic.value, ids.value);
      var edit := EditOf(file, topic.value, ids.value);
      var wanted := Fingerprint(ContentOfFile(file));
      var found := repo.Get(file.slug);
      if found.Err? { return Err(found.error); }
      if found.value.None? {
        var made := repo.Create(file.slug, edit);
        if made.Err? { return Err(made.error); }
        if made.value.None? { return Err(MidRun); }
        answer := Publish(file.slug, made.value.value.0, made.value.value.1, Created);
        return;
      }
      var record := found.value.value;
      var draft := Fingerprint(record.draft);
      var draftMatches := draft == wanted;
      var publishedMatches := false;
      if record.published.Some? {
        var published := Fingerprint(record.published.value);
        publishedMatches := published == wanted;
      }
      if draftMatches && publishedMatches { return Ok(Unchanged); }
      var (id, revision) := (record.id, record.revision);
      if !draftMatches {
        var saved := repo.Save(file.slug, edit, id, revision);
        var written := Settled(saved);
        if written.Err? { return Err(written.error); }
        id, revision := written.value.0, written.value.1;
      }
      answer := Publish(file.slug, id, revision, Updated);
    }
  }

  function Named(files: seq<Parser.Guide>, outcomes: seq<Outcome>): seq<(string, Outcome)>
    requires |outcomes| <= |files|
  {
    seq(|outcomes|, i requires 0 <= i < |outcomes| => (files[i].slug, outcomes[i]))
  }

  lemma NoFiles(w: World, fate: nat -> Fate, v: Vocabulary)
    requires Knows(w.db.taxa, v)
    ensures SeedFiles(w, fate, v, []) == Run(w, v, [], None)
  {
  }

  method SeedCorpus(repo: GuideRepo, files: seq<Parser.Guide>)
    returns (answer: Result<seq<(string, Outcome)>, Failure>)
    modifies repo
    ensures var run := Seed(old(repo.Now()), repo.fate, files);
            && repo.Now() == run.world
            && answer == if run.failure.Some? then Err(run.failure.value) else Ok(Named(files, run.outcomes))
  {
    hide Knows, Keyed, OneSeeded, SeedFiles, Loaded;
    var loaded := repo.Taxonomy();
    if loaded.Err? { return Err(loaded.error); }
    LoadedKnows(repo.db);
    ghost var start := repo.Now();
    var seeder := new Seeder(repo);
    seeder.topics, seeder.tags := loaded.value.topics, loaded.value.tags;
    ghost var v := seeder.Vocab();
    var outcomes: seq<(string, Outcome)> := [];
    ghost var done: seq<Outcome> := [];
    NoFiles(start, repo.fate, v);
    for i := 0 to |files|
      invariant fresh(seeder) && seeder.repo == repo
      invariant Run(repo.Now(), seeder.Vocab(), done, None) == SeedFiles(start, repo.fate, v, files[..i])
      invariant |done| == i && outcomes == Named(files, done)
    {
      FilesStep(start, repo.fate, v, files, i);
      var outcome := seeder.SeedOne(files[i]);
      if outcome.Err? {
        RunExtends(start, repo.fate, v, files, i + 1);
        return Err(outcome.error);
      }
      done := done + [outcome.value];
      outcomes := outcomes + [(files[i].slug, outcome.value)];
    }
    assert files[..|files|] == files;
    return Ok(outcomes);
  }
}
