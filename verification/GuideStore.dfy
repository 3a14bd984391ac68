/**
 The guide tables and their writes (crates/tam-storage/src/guide.rs), each
 write one transaction, reached through calls that can be lost.
 */
module GuideStore {
  import opened Calls
  import opened Sequences
  import opened Wrappers

  import opened GuideFingerprint

  type Id = nat

  datatype Kind = Topic | Tag

  datatype Taxon = Taxon(kind: Kind, slug: string)

  /** One copy of a guide: the working copy, or the snapshot sellers read. */
  datatype Filing = Filing(title: string, body: string, topic: Option<Id>, tags: seq<Id>)

  datatype Snapshot = Snapshot(copy: Filing, sourceRevision: nat)

  datatype Stored = Stored(id: Id, revision: nat, draft: Filing, published: Option<Snapshot>)

  datatype Rows = Rows(taxa: map<Id, Taxon>, guides: map<string, Stored>, next: Id)

  predicate Filed(taxa: map<Id, Taxon>, f: Filing) {
    && (f.topic.Some? ==> f.topic.value in taxa)
    && (forall t <- f.tags :: t in taxa)
  }

  /** What the schema's keys keep: fresh identifiers, one word per kind and slug, no dangling filing. */
  ghost predicate Keyed(rows: Rows) {
    && (forall id <- rows.taxa :: id < rows.next)
    && (forall a, b | a in rows.taxa && b in rows.taxa && rows.taxa[a] == rows.taxa[b] :: a == b)
    && (forall slug <- rows.guides :: Filed(rows.taxa, rows.guides[slug].draft))
    && (forall slug <- rows.guides | rows.guides[slug].published.Some? ::
          Filed(rows.taxa, rows.guides[slug].published.value.copy))
  }

  type Db = rows: Rows | Keyed(rows) witness Rows(map[], map[], 0)

  predicate Held(db: Db, taxon: Taxon) {
    exists id <- db.taxa :: db.taxa[id] == taxon
  }

  // ------------------------------------------------------------ vocabularies

  datatype Vocabulary = Vocabulary(topics: map<string, Id>, tags: map<string, Id>)

  function Of(v: Vocabulary, kind: Kind): map<string, Id> {
    if kind.Topic? then v.topics else v.tags
  }

  function WordsOf(db: Db, kind: Kind): map<string, Id> {
    map id | id in db.taxa && db.taxa[id].kind == kind :: db.taxa[id].slug := id
  }

  function Loaded(db: Db): Vocabulary { Vocabulary(WordsOf(db, Topic), WordsOf(db, Tag)) }

  // ------------------------------------------------------------ transactions

  datatype Write = Written(id: Id, revision: nat) | Stale(foundId: Id, foundRevision: nat) | Missing

  function TaxonInserted(db: Db, taxon: Taxon): (Db, Option<Id>) {
    if Held(db, taxon) then (db, None)
    else (db.(taxa := db.taxa[db.next := taxon], next := db.next + 1), Some(db.next))
  }

  /** A copy as it is filed: tags one by one, a repeated one once. */
  function Draft(edit: Filing): (draft: Filing)
    ensures draft.topic == edit.topic && forall t :: t in draft.tags <==> t in edit.tags
  {
    edit.(tags := Once(edit.tags))
  }

  function GuideInserted(db: Db, slug: string, edit: Filing): (Db, Option<(Id, nat)>)
    requires Filed(db.taxa, edit)
  {
    if slug in db.guides then (db, None)
    else
      (db.(guides := db.guides[slug := Stored(db.next, 1, Draft(edit), None)], next := db.next + 1),
       Some((db.next, 1)))
  }

  function Refusal(db: Db, slug: string): Write {
    if slug in db.guides then Stale(db.guides[slug].id, db.guides[slug].revision) else Missing
  }

  predicate Current(db: Db, slug: string, id: Id, revision: nat) {
    slug in db.guides && db.guides[slug].id == id && db.guides[slug].revision == revision
  }

  function DraftSaved(db: Db, slug: string, edit: Filing, id: Id, revision: nat): (Db, Write)
    requires Filed(db.taxa, edit)
  {
    if Current(db, slug, id, revision) then
      var g := db.guides[slug];
      (db.(guides := db.guides[slug := g.(draft := Draft(edit), revision := revision + 1)]), Written(id, revision + 1))
    else (db, Refusal(db, slug))
  }

  function DraftPublished(db: Db, slug: string, id: Id, revision: nat): (Db, Write) {
    if Current(db, slug, id, revision) then
      var g := db.guides[slug];
      (db.(guides := db.guides[slug := g.(published := Some(Snapshot(g.draft, revision)), revision := revision + 1)]),
       Written(id, revision + 1))
    else (db, Refusal(db, slug))
  }

  // ------------------------------------------------------------ revisions

  datatype Change =
    | Insert(slug: string, edit: Filing)
    | Save(slug: string, edit: Filing, id: Id, revision: nat)
    | Publish(slug: string, id: Id, revision: nat)

  predicate Fits(db: Db, change: Change) {
    change.Publish? || Filed(db.taxa, change.edit)
  }

  function Changed(db: Db, change: Change): Db
    requires Fits(db, change)
  {
    match change
    case Insert(slug, edit) => GuideInserted(db, slug, edit).0
    case Save(slug, edit, id, revision) => DraftSaved(db, slug, edit, id, revision).0
    case Publish(slug, id, revision) => DraftPublished(db, slug, id, revision).0
  }

  ghost predicate Follow(db: Db, changes: seq<Change>)
    decreases |changes|
  {
    changes == [] || (Fits(db, changes[0]) && Follow(Changed(db, changes[0]), changes[1..]))
  }

  ghost function After(db: Db, changes: seq<Change>): Db
    requires Follow(db, changes)
    decreases |changes|
  {
    if changes == [] then db else After(Changed(db, changes[0]), changes[1..])
  }

  /** A conditional write lands exactly on the guide and revision it names, and otherwise says what stands there. */
  lemma LandsIff(db: Db, slug: string, edit: Filing, id: Id, revision: nat)
    requires Filed(db.taxa, edit)
    ensures var ((saved, save), (shown, publish)) :=
              (DraftSaved(db, slug, edit, id, revision), DraftPublished(db, slug, id, revision));
            if slug in db.guides && db.guides[slug].id == id && db.guides[slug].revision == revision
            then save == publish == Written(id, revision + 1)
            else
              && saved == db == shown
              && save == publish
                 == if slug in db.guides then Stale(db.guides[slug].id, db.guides[slug].revision) else Missing
  {
    hide Draft;
  }

  /** What stands under a slug is past a revision, or another guide. */
  ghost predicate Past(db: Db, slug: string, id: Id, revision: nat) {
    slug in db.guides && (db.guides[slug].id == id ==> db.guides[slug].revision > revision)
  }

  lemma PastStays(db: Db, change: Change, slug: string, id: Id, revision: nat)
    requires Fits(db, change) && Past(db, slug, id, revision)
    ensures Past(Changed(db, change), slug, id, revision)
  {
    hide Draft, Keyed, Filed;
  }

  lemma {:induction false} PastForGood(db: Db, changes: seq<Change>, slug: string, id: Id, revision: nat)
    requires Follow(db, changes) && Past(db, slug, id, revision)
    ensures Past(After(db, changes), slug, id, revision)
    decreases |changes|
  {
    hide Changed, Past, Fits;
    if changes != [] {
      PastStays(db, changes[0], slug, id, revision);
      PastForGood(Changed(db, changes[0]), changes[1..], slug, id, revision);
    }
  }

  /**
   No write is lost under another: once one has landed on a revision of a
   guide, whatever is written in between, no later write naming that revision
   lands, and each is told the guide has moved on.
   */
  lemma RevisionSpentOnce(
    db: Db, first: Change, between: seq<Change>, slug: string, edit: Filing, id: Id, revision: nat)
    requires Fits(db, first) && Changed(db, first) != db
    requires first == Publish(slug, id, revision) || (first.Save? && first == Save(slug, first.edit, id, revision))
    requires Follow(Changed(db, first), between) && Filed(After(Changed(db, first), between).taxa, edit)
    ensures var after := After(Changed(db, first), between);
            && DraftSaved(after, slug, edit, id, revision).0 == after == DraftPublished(after, slug, id, revision).0
            && DraftSaved(after, slug, edit, id, revision).1.Stale?
            && DraftPublished(after, slug, id, revision).1.Stale?
  {
    hide Draft, Keyed, Filed;
    assert Past(Changed(db, first), slug, id, revision);
    PastForGood(Changed(db, first), between, slug, id, revision);
  }

  // ------------------------------------------------------------ what a read answers

  function SlugsOf(taxa: map<Id, Taxon>, tags: seq<Id>): seq<string>
    requires forall t <- tags :: t in taxa
  {
    seq(|tags|, i requires 0 <= i < |tags| => taxa[tags[i]].slug)
  }

  function ContentOf(taxa: map<Id, Taxon>, f: Filing): Content
    requires Filed(taxa, f)
  {
    Content(f.title, if f.topic.None? then None else Some(taxa[f.topic.value].slug), SlugsOf(taxa, f.tags), f.body)
  }

  datatype Record = Record(id: Id, revision: nat, draft: Content, published: Option<Content>)

  function RecordOf(db: Db, slug: string): Option<Record> {
    if slug !in db.guides then None
    else
      var g := db.guides[slug];
      Some(Record(g.id, g.revision, ContentOf(db.taxa, g.draft),
                  if g.published.None? then None else Some(ContentOf(db.taxa, g.published.value.copy))))
  }

  // ------------------------------------------------------------ calls

  datatype Failure = Lost | MidRun | ChangedUnder | DeletedUnder | OtherKind

  datatype World = World(db: Db, calls: nat)

  function Call<T>(w: World, fate: nat -> Fate, effect: (Db, T)): (World, Result<T, Failure>) {
    match fate(w.calls)
    case Refused => (World(w.db, w.calls + 1), Err(Lost))
    case Unheard => (World(effect.0, w.calls + 1), Err(Lost))
    case Answered => (World(effect.0, w.calls + 1), Ok(effect.1))
  }

  class GuideRepo {
    var db: Db
    var calls: nat
    const fate: nat -> Fate

    constructor (rows: Db, fates: nat -> Fate)
      ensures db == rows && calls == 0 && fate == fates
    {
      db, calls, fate := rows, 0, fates;
    }

    ghost function Now(): World
      reads this
    {
      World(db, calls)
    }

    method Taxonomy() returns (answer: Result<Vocabulary, Failure>)
      modifies this
      ensures Now() == Call(old(Now()), fate, (old(db), Loaded(old(db)))).0
      ensures answer == Call(old(Now()), fate, (old(db), Loaded(old(db)))).1
    {
      var n := calls;
      calls := calls + 1;
      return if fate(n).Answered? then Ok(Loaded(db)) else Err(Lost);
    }

    method CreateTaxon(taxon: Taxon) returns (answer: Result<Option<Id>, Failure>)
      modifies this
      ensures Now() == Call(old(Now()), fate, TaxonInserted(old(db), taxon)).0
      ensures answer == Call(old(Now()), fate, TaxonInserted(old(db), taxon)).1
    {
      var n := calls;
      calls := calls + 1;
      if fate(n).Refused? { return Err(Lost); }
      var made: Option<Id> := None;
      if !Held(db, taxon) {
        made := Some(db.next);
        db := db.(taxa := db.taxa[db.next := taxon], next := db.next + 1);
      }
      return if fate(n).Answered? then Ok(made) else Err(Lost);
    }

    method Get(slug: string) returns (answer: Result<Option<Record>, Failure>)
      modifies this
      ensures Now() == Call(old(Now()), fate, (old(db), RecordOf(old(db), slug))).0
      ensures answer == Call(old(Now()), fate, (old(db), RecordOf(old(db), slug))).1
    {
      var n := calls;
      calls := calls + 1;
      return if fate(n).Answered? then Ok(RecordOf(db, slug)) else Err(Lost);
    }

    method Create(slug: string, edit: Filing) returns (answer: Result<Option<(Id, nat)>, Failure>)
      requires Filed(db.taxa, edit)
      modifies this
      ensures Now() == Call(old(Now()), fate, GuideInserted(old(db), slug, edit)).0
      ensures answer == Call(old(Now()), fate, GuideInserted(old(db), slug, edit)).1
    {
      var n := calls;
      calls := calls + 1;
      if fate(n).Refused? { return Err(Lost); }
      var made: Option<(Id, nat)> := None;
      if slug !in db.guides {
        made := Some((db.next, 1));
        db := db.(guides := db.guides[slug := Stored(db.next, 1, Draft(edit), None)], next := db.next + 1);
      }
      return if fate(n).Answered? then Ok(made) else Err(Lost);
    }

    method Save(slug: string, edit: Filing, id: Id, revision: nat) returns (answer: Result<Write, Failure>)
      requires Filed(db.taxa, edit)
      modifies this
      ensures Now() == Call(old(Now()), fate, DraftSaved(old(db), slug, edit, id, revision)).0
      ensures answer == Call(old(Now()), fate, DraftSaved(old(db), slug, edit, id, revision)).1
    {
      var n := calls;
      calls := calls + 1;
      if fate(n).Refused? { return Err(Lost); }
      var made := Refusal(db, slug);
      if Current(db, slug, id, revision) {
        var g := db.guides[slug];
        db := db.(guides := db.guides[slug := g.(draft := Draft(edit), revision := revision + 1)]);
        made := Written(id, revision + 1);
      }
      return if fate(n).Answered? then Ok(made) else Err(Lost);
    }

    method Publish(slug: string, id: Id, revision: nat) returns (answer: Result<Write, Failure>)
      modifies this
      ensures Now() == Call(old(Now()), fate, DraftPublished(old(db), slug, id, revision)).0
      ensures answer == Call(old(Now()), fate, DraftPublished(old(db), slug, id, revision)).1
    {
      var n := calls;
      calls := calls + 1;
      if fate(n).Refused? { return Err(Lost); }
      var made := Refusal(db, slug);
      if Current(db, slug, id, revision) {
        var g := db.guides[slug];
        var shot := Snapshot(g.draft, revision);
        db := db.(guides := db.guides[slug := g.(published := Some(shot), revision := revision + 1)]);
        made := Written(id, revision + 1);
      }
      return if fate(n).Answered? then Ok(made) else Err(Lost);
    }
  }
}
