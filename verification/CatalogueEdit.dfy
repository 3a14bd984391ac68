/**
 Editing a resource under the create form's rules
 (crates/tam-api/src/catalogue.rs). What the rules decide is left open: the
 proofs are about which of their inputs each path lets change.
 */
module CatalogueEdit {
  import opened Prices
  import opened Wrappers
  import opened GuideText

  const TITLE_MAX_UTF16_UNITS: nat := 80
  const AUTO_GENERATE: nat := 1
  const STATUS_DRAFT: nat := 0

  // ------------------------------------------------------------ what is stored

  datatype Format = Markdown | Html

  /** A vocabulary value, as the request names it and as the row keeps it. */
  datatype Path = Path(inventory: nat, kind: nat, segments: seq<string>, nativeId: Option<string>)

  datatype Product = Product(
    title: string, body: string, format: Format, price: Price, payload: seq<string>,
    subjects: seq<nat>, grades: seq<Path>, rights: Option<Path>)

  datatype Standard = Standard(framework: nat, code: string, nodeId: Option<nat>)

  /** The sidecar as a request sends it: an absent choice is absent. */
  datatype Block = Block(
    mode: Option<nat>, thumbnails: seq<string>, video: Option<string>,
    additionalLicence: Option<int>, bundleDiscount: Option<int>, taxCode: Option<nat>,
    subjectAreas: seq<string>, tags: seq<string>, formats: seq<string>, custom: seq<string>,
    country: Option<bool>, standards: seq<Standard>,
    duration: Option<nat>, pages: Option<nat>, answerKey: Option<nat>, copyright: Option<nat>, status: Option<nat>)

  /** The sidecar as its row holds it. */
  datatype Record = Record(
    mode: nat, thumbnails: seq<string>, video: Option<string>,
    additionalLicence: Option<int>, bundleDiscount: Option<int>, taxCode: Option<nat>,
    subjectAreas: seq<string>, tags: seq<string>, formats: seq<string>, custom: seq<string>,
    country: Option<bool>, standards: seq<Standard>,
    duration: Option<nat>, pages: Option<nat>, answerKey: Option<nat>, copyright: Option<nat>, status: nat)

  datatype Mapping = Mapping(marketplace: nat, bound: bool, live: bool)

  /** What the rules read of the product itself. */
  datatype Head = Head(
    name: string, description: string, free: bool, price: Option<int>, payload: Option<string>,
    grades: seq<string>, forMarketplace: bool, targets: seq<nat>, satisfied: seq<nat>)

  datatype Control = ThumbnailMode | TaxCode | Duration | AnswerKey | Copyright | Status | Framework

  /**
   The parts this model leaves open: the form's rules over what they read of a
   draft, a template's own rules, the vocabularies' members, the body's
   allow-list, and whether the thumbnails named are pictures the tenant holds.
   */
  datatype Form = Form(
    rules: (Head, Block) -> bool, template: (Head, Block) -> bool, member: (Control, nat) -> bool,
    sanitise: string -> string, pictures: seq<string> -> bool)

  // ------------------------------------------------------------ reading a draft

  function Trims(values: seq<string>): seq<string> {
    seq(|values|, i requires 0 <= i < |values| => Trim(values[i]))
  }

  /** A draft's product side as the rules read it, through the values' own constructors. */
  function ReadHead(head: Head): Head { head.(name := Trim(head.name), grades := Trims(head.grades)) }

  /** And its sidecar: slugs trimmed, an absent mode or status read as its default, no pages read as none. */
  function ReadBlock(b: Block): Block {
    b.(mode := Some(if b.mode.Some? then b.mode.value else AUTO_GENERATE),
       status := Some(if b.status.Some? then b.status.value else STATUS_DRAFT),
       subjectAreas := Trims(b.subjectAreas), tags := Trims(b.tags), formats := Trims(b.formats),
       pages := if b.pages == Some(0) then None else b.pages)
  }

  predicate Verdict(form: Form, head: Head, b: Block) { form.rules(ReadHead(head), ReadBlock(b)) }

  // ------------------------------------------------------------ the sidecar's row

  datatype Refusal =
    | FormatAlone | BadPrice | BadGrade | BadRights | BadTitle
    | Unsubmittable | TemplateRefuses | BadShape | UnheldPicture

  predicate Slug(s: string) { Trim(s) != "" }

  predicate Upload(s: string) {
    |s| == 64 && forall c <- s :: '0' <= c <= '9' || 'a' <= c <= 'f'
  }

  predicate MemberIf(form: Form, control: Control, id: Option<nat>) {
    id.Some? ==> form.member(control, id.value)
  }

  predicate Storable(form: Form, b: Block) {
    && (b.mode.Some? ==> form.member(ThumbnailMode, b.mode.value))
    && (forall h <- b.thumbnails :: Upload(h)) && (b.video.Some? ==> Upload(b.video.value))
    && MemberIf(form, TaxCode, b.taxCode)
    && (forall s <- b.subjectAreas :: Slug(s)) && (forall s <- b.tags :: Slug(s)) && (forall s <- b.formats :: Slug(s))
    && (forall s <- b.standards :: form.member(Framework, s.framework))
    && MemberIf(form, Duration, b.duration) && MemberIf(form, AnswerKey, b.answerKey)
    && MemberIf(form, Copyright, b.copyright) && MemberIf(form, Status, b.status)
  }

  /** The row a block would be, were nothing in it refused. */
  function RowOf(b: Block): Record {
    Record(if b.mode.Some? then b.mode.value else AUTO_GENERATE, b.thumbnails, b.video,
           b.additionalLicence, b.bundleDiscount, b.taxCode,
           Trims(b.subjectAreas), Trims(b.tags), Trims(b.formats), b.custom, b.country, b.standards,
           b.duration, if b.pages == Some(0) then None else b.pages, b.answerKey, b.copyright,
           if b.status.Some? then b.status.value else STATUS_DRAFT)
  }

  function RecordOf(form: Form, b: Block): Result<Record, Refusal> {
    if !Storable(form, b) then Err(BadShape) else Ok(RowOf(b))
  }

  /** The row as the block a create or an edit would have sent. */
  function InputOf(r: Record): Block {
    Block(Some(r.mode), r.thumbnails, r.video, r.additionalLicence, r.bundleDiscount, r.taxCode,
          r.subjectAreas, r.tags, r.formats, r.custom, r.country, r.standards,
          r.duration, r.pages, r.answerKey, r.copyright, Some(r.status))
  }

  lemma TrimTwice(s: string)
    ensures Trim(Trim(s)) == Trim(s)
  {
    hide Trim;
    TrimIsTrimmed(s);
    TrimId(Trim(s));
  }

  lemma TrimsTwice(values: seq<string>)
    ensures Trims(Trims(values)) == Trims(values)
  {
    hide Trim;
    forall i | 0 <= i < |values| ensures Trim(Trim(values[i])) == Trim(values[i]) { TrimTwice(values[i]); }
  }

  /** A stored sidecar reads as the block it was stored from, whatever that block left out. */
  lemma StoredBlockReadsTheSame(form: Form, b: Block)
    requires RecordOf(form, b).Ok?
    ensures ReadBlock(InputOf(RecordOf(form, b).value)) == ReadBlock(b)
  {
    hide Trims, Storable;
    TrimsTwice(b.subjectAreas);
    TrimsTwice(b.tags);
    TrimsTwice(b.formats);
  }

  // ------------------------------------------------------------ an edit

  datatype Edit = Edit(
    title: Option<string>, body: Option<string>, format: Option<Format>, price: Option<Price>,
    subjects: Option<seq<nat>>, grades: Option<seq<Path>>, rights: Option<Path>, sidecar: Option<Block>)

  const NOTHING: Edit := Edit(None, None, None, None, None, None, None, None)

  function GradeSlug(p: Path): string {
    if p.nativeId.Some? then p.nativeId.value else if p.segments != [] then p.segments[0] else ""
  }

  function GradeSlugs(paths: seq<Path>): seq<string> {
    seq(|paths|, i requires 0 <= i < |paths| => GradeSlug(paths[i]))
  }

  function LiveOn(mappings: seq<Mapping>): seq<nat> {
    if mappings == [] then []
    else (if mappings[0].bound && mappings[0].live then [mappings[0].marketplace] else []) + LiveOn(mappings[1..])
  }

  /** The product an edit will leave behind, as the rules read it. */
  function EditedHead(stored: Product, edit: Edit, price: Option<Price>, mappings: seq<Mapping>): Head {
    var effective := if price.Some? then price.value else stored.price;
    Head(
      if edit.title.Some? then edit.title.value else stored.title,
      if edit.body.Some? then edit.body.value else stored.body,
      effective.Free?,
      if effective.Free? then None else Some(effective.minor),
      if stored.payload == [] then None else Some(stored.payload[0]),
      GradeSlugs(if edit.grades.Some? then edit.grades.value else stored.grades),
      mappings != [],
      seq(|mappings|, i requires 0 <= i < |mappings| => mappings[i].marketplace),
      LiveOn(mappings))
  }

  predicate TouchesRules(edit: Edit) {
    edit.title.Some? || edit.body.Some? || edit.price.Some? || edit.grades.Some?
  }

  datatype Bar = Submitted | Filled

  /** A resource: its product row while it is live, and its sidecar row if it has one. */
  datatype Resource = Resource(product: Option<Product>, sidecar: Option<Record>)

  predicate StoredIsSubmittable(form: Form, r: Resource, mappings: seq<Mapping>) {
    && r.product.Some? && r.sidecar.Some?
    && Verdict(form, EditedHead(r.product.value, NOTHING, None, mappings), InputOf(r.sidecar.value))
  }

  function Utf16Units(s: string): nat {
    if s == "" then 0 else (if (s[0] as int) < 0x1_0000 then 1 else 2) + Utf16Units(s[1..])
  }

  predicate TitleOk(raw: string) { Trim(raw) != "" && Utf16Units(Trim(raw)) <= TITLE_MAX_UTF16_UNITS }

  predicate PriceOk(price: Price) { price.Paid? ==> price.minor > 0 }

  /** The body as it will be written: one sent back as stored is kept, any other held to the allow-list. */
  function Written(form: Form, stored: Product, edit: Edit): Edit {
    if edit.body.None? then edit
    else
      var (text, format) := (edit.body.value, if edit.format.Some? then edit.format.value else Markdown);
      if text == stored.body && format == stored.format then edit
      else edit.(body := Some(if format.Html? then form.sanitise(text) else text))
  }

  datatype Prepared = Prepared(edit: Edit, record: Option<Record>)

  /** The bar an edit is really held to: a fill on a submittable resource is a submission. */
  function BarFor(form: Form, r: Resource, mappings: seq<Mapping>, bar: Bar): Bar {
    if bar.Filled? && StoredIsSubmittable(form, r, mappings) then Submitted else bar
  }

  function ValueRefusal(edit: Edit): Option<Refusal> {
    if edit.body.None? && edit.format.Some? then Some(FormatAlone)
    else if edit.price.Some? && !PriceOk(edit.price.value) then Some(BadPrice)
    else if edit.grades.Some? && exists p <- edit.grades.value :: p.segments == [] then Some(BadGrade)
    else if edit.rights.Some? && edit.rights.value.segments == [] then Some(BadRights)
    else if edit.title.Some? && !TitleOk(edit.title.value) then Some(BadTitle)
    else None
  }

  function SidecarRefusal(form: Form, r: Resource, edit: Edit, head: Head, bar: Bar): Option<Refusal> {
    match edit.sidecar
    case None =>
      if TouchesRules(edit) && bar.Submitted? && r.sidecar.Some? && !Verdict(form, head, InputOf(r.sidecar.value))
      then Some(Unsubmittable) else None
    case Some(b) =>
      if bar.Submitted? && !Verdict(form, head, b) then Some(Unsubmittable)
      else if bar.Filled? && !form.template(head, b) then Some(TemplateRefuses)
      else if RecordOf(form, b).Err? then Some(BadShape)
      else if !form.pictures(b.thumbnails) then Some(UnheldPicture)
      else None
  }

  /** What an edit would write, or the first of its refusals; nothing is written here. */
  function Prepare(form: Form, r: Resource, raw: Edit, mappings: seq<Mapping>, bar: Bar): Result<Prepared, Refusal>
    requires r.product.Some?
  {
    var stored := r.product.value;
    var held := BarFor(form, r, mappings, bar);
    var edit := Written(form, stored, raw);
    var refused := ValueRefusal(edit);
    if refused.Some? then Err(refused.value)
    else
      var refused := SidecarRefusal(form, r, edit, EditedHead(stored, edit, edit.price, mappings), held);
      if refused.Some? then Err(refused.value)
      else Ok(Prepared(edit, if edit.sidecar.None? then None else Some(RecordOf(form, edit.sidecar.value).value)))
  }

  // ------------------------------------------------------------ writing it

  function Updated(stored: Product, edit: Edit): Product {
    stored.(
      title := if edit.title.Some? then Trim(edit.title.value) else stored.title,
      body := if edit.body.Some? then edit.body.value else stored.body,
      format := if edit.body.None? then stored.format
                else if edit.format.Some? then edit.format.value else Markdown,
      price := if edit.price.Some? then edit.price.value else stored.price,
      subjects := if edit.subjects.Some? then edit.subjects.value else stored.subjects,
      grades := if edit.grades.Some? then edit.grades.value else stored.grades,
      rights := if edit.rights.Some? then edit.rights else stored.rights)
  }

  /** The product's update, which finds nothing where the product is deleted. */
  function ProductWritten(r: Resource, prepared: Prepared): Resource {
    if r.product.None? then r else r.(product := Some(Updated(r.product.value, prepared.edit)))
  }

  function SidecarWritten(r: Resource, prepared: Prepared): Resource {
    if prepared.record.None? then r else r.(sidecar := prepared.record)
  }

  function Committed(r: Resource, prepared: Prepared): Resource {
    if r.product.None? then r else SidecarWritten(ProductWritten(r, prepared), prepared)
  }

  class Row {
    var product: Option<Product>
    var sidecar: Option<Record>

    constructor (r: Resource)
      ensures Value() == r
    {
      product, sidecar := r.product, r.sidecar;
    }

    ghost function Value(): Resource
      reads this
    {
      Resource(product, sidecar)
    }

    method Update(edit: Edit) returns (touched: bool)
      modifies this`product
      ensures touched == old(product).Some?
      ensures product == if touched then Some(Updated(old(product).value, edit)) else None
    {
      if product.None? { return false; }
      product := Some(Updated(product.value, edit));
      touched := true;
    }

    /** Two writes of their own: either may be the last, and `None` is a fault answered after it. */
    method CommitEdit(prepared: Prepared, updateLost: bool, upsertLost: bool) returns (touched: Option<bool>)
      modifies this
      ensures touched == Some(true) ==> old(product).Some? && Value() == Committed(old(Value()), prepared)
      ensures touched == Some(false) ==> old(product).None? && Value() == old(Value())
      ensures touched == None ==> Value() in {old(Value()), ProductWritten(old(Value()), prepared)}
    {
      if updateLost { return None; }
      var found := Update(prepared.edit);
      if !found { return Some(false); }
      if prepared.record.Some? {
        if upsertLost { return None; }
        sidecar := prepared.record;
      }
      touched := Some(true);
    }
  }

  // ------------------------------------------------------------ what the rules read afterwards

  /** The head an edit was judged on is the head the resource has once it is written. */
  lemma HeadAfter(stored: Product, edit: Edit, mappings: seq<Mapping>)
    ensures ReadHead(EditedHead(Updated(stored, edit), NOTHING, None, mappings))
         == ReadHead(EditedHead(stored, edit, edit.price, mappings))
  {
    hide Trim, Trims, GradeSlugs, LiveOn;
    if edit.title.Some? { TrimTwice(edit.title.value); }
  }

  /** What a prepared and committed edit leaves the verdict reading. */
  lemma VerdictAfter(form: Form, r: Resource, raw: Edit, mappings: seq<Mapping>, bar: Bar)
    requires r.product.Some? && Prepare(form, r, raw, mappings, bar).Ok?
    ensures var prepared := Prepare(form, r, raw, mappings, bar).value;
            var head := EditedHead(r.product.value, prepared.edit, prepared.edit.price, mappings);
            StoredIsSubmittable(form, Committed(r, prepared), mappings)
            <==> match prepared.edit.sidecar
                 case Some(b) => Verdict(form, head, b)
                 case None => r.sidecar.Some? && Verdict(form, head, InputOf(r.sidecar.value))
  {
    hide ReadHead, ReadBlock, EditedHead, Updated, ValueRefusal, Written, Storable;
    var prepared := Prepare(form, r, raw, mappings, bar).value;
    HeadAfter(r.product.value, prepared.edit, mappings);
    if prepared.edit.sidecar.Some? { StoredBlockReadsTheSame(form, prepared.edit.sidecar.value); }
  }

  lemma UntouchedHead(stored: Product, edit: Edit, mappings: seq<Mapping>)
    requires !TouchesRules(edit)
    ensures EditedHead(stored, edit, edit.price, mappings) == EditedHead(stored, NOTHING, None, mappings)
    ensures EditedHead(Updated(stored, edit), NOTHING, None, mappings) == EditedHead(stored, NOTHING, None, mappings)
  {
    hide Trim, GradeSlugs, LiveOn;
  }

  lemma WrittenTouches(form: Form, stored: Product, edit: Edit)
    ensures TouchesRules(Written(form, stored, edit)) == TouchesRules(edit)
    ensures Written(form, stored, edit).sidecar == edit.sidecar
  {
  }

  /** An edit of neither title, body, price nor grades, sending no sidecar, leaves the verdict all it read. */
  lemma UntouchedVerdict(form: Form, r: Resource, raw: Edit, mappings: seq<Mapping>, bar: Bar)
    requires r.product.Some? && Prepare(form, r, raw, mappings, bar).Ok?
    requires !TouchesRules(raw) && raw.sidecar.None?
    ensures var after := Committed(r, Prepare(form, r, raw, mappings, bar).value);
            && after.sidecar == r.sidecar && after.product.Some?
            && EditedHead(after.product.value, NOTHING, None, mappings)
               == EditedHead(r.product.value, NOTHING, None, mappings)
  {
    hide EditedHead, ValueRefusal, Storable, Updated;
    var prepared := Prepare(form, r, raw, mappings, bar).value;
    WrittenTouches(form, r.product.value, raw);
    UntouchedHead(r.product.value, prepared.edit, mappings);
  }

  /**
   Under the submission bar an edit ends submittable whenever it sends a
   sidecar, or touches what the rules read of a resource that has one; an edit
   that does neither leaves the verdict where it was.
   */
  lemma SubmittedMeetsTheBar(form: Form, r: Resource, raw: Edit, mappings: seq<Mapping>)
    requires r.product.Some? && Prepare(form, r, raw, mappings, Submitted).Ok?
    ensures var after := Committed(r, Prepare(form, r, raw, mappings, Submitted).value);
            StoredIsSubmittable(form, after, mappings)
            <==> raw.sidecar.Some? || (TouchesRules(raw) && r.sidecar.Some?)
                 || StoredIsSubmittable(form, r, mappings)
  {
    hide EditedHead, ValueRefusal, Storable, Updated, ReadHead, ReadBlock, Verdict;
    var prepared := Prepare(form, r, raw, mappings, Submitted).value;
    VerdictAfter(form, r, raw, mappings, Submitted);
    WrittenTouches(form, r.product.value, raw);
    if !TouchesRules(raw) { UntouchedHead(r.product.value, prepared.edit, mappings); }
  }

  /** A fill on a submittable resource is held to exactly what a submission is. */
  lemma FillIsPromoted(form: Form, r: Resource, raw: Edit, mappings: seq<Mapping>)
    requires r.product.Some? && StoredIsSubmittable(form, r, mappings)
    ensures Prepare(form, r, raw, mappings, Filled) == Prepare(form, r, raw, mappings, Submitted)
  {
    hide EditedHead, ValueRefusal, SidecarRefusal, Written, Verdict;
  }

  /** Under either bar, no committed edit takes a submittable resource below the form's rules. */
  lemma EditKeepsSubmittable(form: Form, r: Resource, raw: Edit, mappings: seq<Mapping>, bar: Bar)
    requires StoredIsSubmittable(form, r, mappings) && Prepare(form, r, raw, mappings, bar).Ok?
    ensures StoredIsSubmittable(form, Committed(r, Prepare(form, r, raw, mappings, bar).value), mappings)
  {
    hide Prepare, Verdict;
    if bar.Filled? { FillIsPromoted(form, r, raw, mappings); }
    SubmittedMeetsTheBar(form, r, raw, mappings);
  }

  // ------------------------------------------------------------ what an edit stores

  /** A body as it will be stored: sent back as it stands, or sent anew and an Html one held to the allow-list. */
  ghost predicate Stands(form: Form, stored: Product, raw: Edit, body: string, format: Format) {
    match raw.body
    case None => body == stored.body && format == stored.format
    case Some(text) =>
      && (format.Html? <==> raw.format == Some(Html))
      && (body == if format.Markdown? || (text == stored.body && format == stored.format) then text
                  else form.sanitise(text))
  }

  /** A product an edit was committed to: what the edit sent, as it is stored, and all else as it was. */
  ghost predicate Took(form: Form, stored: Product, raw: Edit, after: Product) {
    && Stands(form, stored, raw, after.body, after.format)
    && after.title == (if raw.title.Some? then Trim(raw.title.value) else stored.title)
    && Some(after.price) == OrElse(raw.price, Some(stored.price))
    && Some(after.subjects) == OrElse(raw.subjects, Some(stored.subjects))
    && Some(after.grades) == OrElse(raw.grades, Some(stored.grades))
    && after.rights == OrElse(raw.rights, stored.rights)
    && after.payload == stored.payload
  }

  lemma SidecarIsRecorded(form: Form, r: Resource, raw: Edit, mappings: seq<Mapping>, bar: Bar)
    requires r.product.Some? && Prepare(form, r, raw, mappings, bar).Ok? && raw.sidecar.Some?
    ensures RecordOf(form, raw.sidecar.value).Ok?
    ensures Prepare(form, r, raw, mappings, bar).value.record == Some(RecordOf(form, raw.sidecar.value).value)
  {
    hide EditedHead, Storable, Verdict, ValueRefusal;
    WrittenTouches(form, r.product.value, raw);
  }

  /** An accepted edit stores what it sent and leaves the rest; a sidecar is stored whole or not at all. */
  lemma EditStores(form: Form, r: Resource, raw: Edit, mappings: seq<Mapping>, bar: Bar)
    requires r.product.Some? && Prepare(form, r, raw, mappings, bar).Ok?
    ensures var after := Committed(r, Prepare(form, r, raw, mappings, bar).value);
            && after.product.Some? && Took(form, r.product.value, raw, after.product.value)
            && (raw.sidecar.None? ==> after.sidecar == r.sidecar)
            && (raw.sidecar.Some? ==>
                  after.sidecar.Some? && ReadBlock(InputOf(after.sidecar.value)) == ReadBlock(raw.sidecar.value))
  {
    hide Trim, SidecarRefusal, EditedHead, Storable, ReadBlock, InputOf, Verdict;
    if raw.sidecar.Some? {
      SidecarIsRecorded(form, r, raw, mappings, bar);
      StoredBlockReadsTheSame(form, raw.sidecar.value);
    }
  }

  // ------------------------------------------------------------ when an edit is refused

  /** The head an edit is judged on, with the body it will store. */
  ghost predicate Judged(form: Form, stored: Product, raw: Edit, mappings: seq<Mapping>, head: Head) {
    exists body, format ::
      && Stands(form, stored, raw, body, format)
      && head == EditedHead(stored, raw.(body := if raw.body.Some? then Some(body) else None), raw.price, mappings)
  }

  /** What is to be said against an edit, each in its own terms. */
  ghost predicate Complaint(
    form: Form, r: Resource, raw: Edit, mappings: seq<Mapping>, bar: Bar, head: Head, e: Refusal)
    requires r.product.Some?
  {
    var submitted := bar.Submitted? || StoredIsSubmittable(form, r, mappings);
    match e
    case FormatAlone => raw.body.None? && raw.format.Some?
    case BadPrice => raw.price.Some? && raw.price.value.Paid? && raw.price.value.minor <= 0
    case BadGrade => raw.grades.Some? && exists p <- raw.grades.value :: p.segments == []
    case BadRights => raw.rights.Some? && raw.rights.value.segments == []
    case BadTitle =>
      raw.title.Some? && (Trim(raw.title.value) == "" || Utf16Units(Trim(raw.title.value)) > 80)
    case Unsubmittable =>
      submitted
      && (match raw.sidecar
          case Some(b) => !Verdict(form, head, b)
          case None => r.sidecar.Some? && !Verdict(form, head, InputOf(r.sidecar.value))
                       && (raw.title.Some? || raw.body.Some? || raw.price.Some? || raw.grades.Some?))
    case TemplateRefuses => !submitted && raw.sidecar.Some? && !form.template(head, raw.sidecar.value)
    case BadShape => raw.sidecar.Some? && !Storable(form, raw.sidecar.value)
    case UnheldPicture => raw.sidecar.Some? && !form.pictures(raw.sidecar.value.thumbnails)
  }

  const OF_VALUES: set<Refusal> := {FormatAlone, BadPrice, BadGrade, BadRights, BadTitle}
  const OF_SIDECAR: set<Refusal> := {Unsubmittable, TemplateRefuses, BadShape, UnheldPicture}

  /** What is looked at before a refusal: the request's rule, the values', the form's, the sidecar's, its pictures. */
  function Before(e: Refusal): set<Refusal> {
    match e
    case FormatAlone => {}
    case BadPrice => {FormatAlone}
    case BadGrade => {FormatAlone, BadPrice}
    case BadRights => {FormatAlone, BadPrice, BadGrade}
    case BadTitle => {FormatAlone, BadPrice, BadGrade, BadRights}
    case Unsubmittable => OF_VALUES
    case TemplateRefuses => OF_VALUES + {Unsubmittable}
    case BadShape => OF_VALUES + {Unsubmittable, TemplateRefuses}
    case UnheldPicture => OF_VALUES + {Unsubmittable, TemplateRefuses, BadShape}
  }

  /** Whether none of these is to be said against an edit. */
  ghost predicate Clear(form: Form, r: Resource, raw: Edit, mappings: seq<Mapping>, bar: Bar, head: Head,
                        refusals: set<Refusal>)
    requires r.product.Some?
  {
    forall e <- refusals :: !Complaint(form, r, raw, mappings, bar, head, e)
  }

  lemma JudgedHead(form: Form, stored: Product, raw: Edit, mappings: seq<Mapping>, head: Head)
    ensures Judged(form, stored, raw, mappings, head)
            <==> head == EditedHead(stored, Written(form, stored, raw), raw.price, mappings)
  {
    hide LiveOn, GradeSlugs;
    var written := Written(form, stored, raw);
    var body := if raw.body.Some? then written.body.value else stored.body;
    var format := if raw.body.None? then stored.format else if raw.format.Some? then raw.format.value else Markdown;
    assert Stands(form, stored, raw, body, format);
  }
  lemma WrittenPrice(form: Form, stored: Product, raw: Edit)
    ensures Written(form, stored, raw).price == raw.price
  {
  }

  lemma ValuesRefused(form: Form, r: Resource, raw: Edit, mappings: seq<Mapping>, bar: Bar, head: Head)
    requires r.product.Some?
    ensures var refused := ValueRefusal(Written(form, r.product.value, raw));
            if refused.None? then Clear(form, r, raw, mappings, bar, head, OF_VALUES)
            else && refused.value in OF_VALUES && Complaint(form, r, raw, mappings, bar, head, refused.value)
                 && Clear(form, r, raw, mappings, bar, head, Before(refused.value))
  {
    hide Trim, Utf16Units, StoredIsSubmittable;
  }

  lemma SidecarRefused(form: Form, r: Resource, raw: Edit, mappings: seq<Mapping>, bar: Bar, head: Head)
    requires r.product.Some?
    ensures var refused := SidecarRefusal(form, r, Written(form, r.product.value, raw), head,
                                          BarFor(form, r, mappings, bar));
            if refused.None? then Clear(form, r, raw, mappings, bar, head, OF_SIDECAR)
            else && refused.value in OF_SIDECAR && Complaint(form, r, raw, mappings, bar, head, refused.value)
                 && Clear(form, r, raw, mappings, bar, head, Before(refused.value) - OF_VALUES)
  {
    hide Trim, Utf16Units, Storable, StoredIsSubmittable, Verdict;
    WrittenTouches(form, r.product.value, raw);
  }

  /** An edit is refused with the first thing to be said against it, and accepted exactly where there is none. */
  lemma PrepareIff(form: Form, r: Resource, raw: Edit, mappings: seq<Mapping>, bar: Bar, head: Head)
    requires r.product.Some? && Judged(form, r.product.value, raw, mappings, head)
    ensures Prepare(form, r, raw, mappings, bar).Ok?
            <==> Clear(form, r, raw, mappings, bar, head, OF_VALUES + OF_SIDECAR)
    ensures Prepare(form, r, raw, mappings, bar).Err? ==>
              var e := Prepare(form, r, raw, mappings, bar).error;
              Complaint(form, r, raw, mappings, bar, head, e) && Clear(form, r, raw, mappings, bar, head, Before(e))
  {
    hide ValueRefusal, SidecarRefusal, BarFor, EditedHead, Complaint, RecordOf, Judged;
    JudgedHead(form, r.product.value, raw, mappings, head);
    WrittenPrice(form, r.product.value, raw);
    ValuesRefused(form, r, raw, mappings, bar, head);
    SidecarRefused(form, r, raw, mappings, bar, head);
  }

  // ------------------------------------------------------------ what an edit may write

  /** A product of values their own constructors would make. */
  ghost predicate WellFormed(p: Product) {
    && p.title != "" && Trimmed(p.title) && Utf16Units(p.title) <= TITLE_MAX_UTF16_UNITS
    && PriceOk(p.price)
    && (forall grade <- p.grades :: grade.segments != [])
    && (p.rights.Some? ==> p.rights.value.segments != [])
  }

  /** No prepared edit writes a value the constructors refuse. */
  lemma EditKeepsWellFormed(form: Form, r: Resource, raw: Edit, mappings: seq<Mapping>, bar: Bar)
    requires r.product.Some? && WellFormed(r.product.value) && Prepare(form, r, raw, mappings, bar).Ok?
    ensures var after := Committed(r, Prepare(form, r, raw, mappings, bar).value);
            after.product.Some? && WellFormed(after.product.value)
  {
    hide Trim, Trimmed, SidecarRefusal, EditedHead, Verdict, RecordOf, Written, Utf16Units;
    var edit := Written(form, r.product.value, raw);
    if edit.title.Some? { TrimIsTrimmed(edit.title.value); }
  }

  /** A handle of an upload: a digest in lower-case hexadecimal. */
  ghost predicate Handle(h: string) {
    |h| == 64 && forall i | 0 <= i < 64 :: h[i] in "0123456789abcdef"
  }

  ghost predicate Holds(form: Form, control: Control, id: Option<nat>) { id == None || form.member(control, id.value) }

  /** What a sidecar's columns admit: members of their vocabularies, handles of uploads, slugs that say something. */
  ghost predicate Columns(form: Form, r: Record) {
    && form.member(ThumbnailMode, r.mode) && form.member(Status, r.status)
    && Holds(form, TaxCode, r.taxCode) && Holds(form, Duration, r.duration)
    && Holds(form, AnswerKey, r.answerKey) && Holds(form, Copyright, r.copyright)
    && (forall s <- r.standards :: form.member(Framework, s.framework))
    && (forall h <- r.thumbnails :: Handle(h)) && (r.video == None || Handle(r.video.value))
    && "" !in r.subjectAreas && "" !in r.tags && "" !in r.formats
  }

  lemma HandleIff(h: string)
    ensures Upload(h) <==> Handle(h)
  {
    var digits := "0123456789abcdef";
    forall c: char ensures c in digits <==> '0' <= c <= '9' || 'a' <= c <= 'f' {
      if '0' <= c <= '9' { assert digits[c as int - '0' as int] == c; }
      if 'a' <= c <= 'f' { assert digits[10 + c as int - 'a' as int] == c; }
    }
    if Upload(h) { assert forall i | 0 <= i < 64 :: h[i] in h; }
  }

  lemma SlugsTrim(values: seq<string>)
    ensures (forall s <- values :: Slug(s)) <==> "" !in Trims(values)
  {
    hide Trim;
    if s :| s in values && !Slug(s) {
      var i :| 0 <= i < |values| && values[i] == s;
      assert Trims(values)[i] == "";
    }
    if "" in Trims(values) {
      var i :| 0 <= i < |values| && Trims(values)[i] == "";
      assert values[i] in values && !Slug(values[i]);
    }
  }

  /** A sidecar is accepted exactly where the row it would be is one its columns admit, and never stored otherwise. */
  lemma RecordIsStorable(form: Form, b: Block)
    requires form.member(ThumbnailMode, AUTO_GENERATE) && form.member(Status, STATUS_DRAFT)
    ensures RecordOf(form, b).Ok? <==> Columns(form, RowOf(b))
    ensures RecordOf(form, b).Ok? ==> RecordOf(form, b).value == RowOf(b)
  {
    hide Trims, Slug, Upload, Handle;
    SlugsTrim(b.subjectAreas);
    SlugsTrim(b.tags);
    SlugsTrim(b.formats);
    forall h: string ensures Upload(h) <==> Handle(h) { HandleIff(h); }
  }

  // ------------------------------------------------------------ runs of edits

  datatype Request = Request(edit: Edit, bar: Bar)

  /** Edits one after another; a refused one writes nothing. */
  function Run(form: Form, r: Resource, mappings: seq<Mapping>, requests: seq<Request>): Resource
    decreases |requests|
  {
    if requests == [] || r.product.None? then r
    else
      var prepared := Prepare(form, r, requests[0].edit, mappings, requests[0].bar);
      Run(form, if prepared.Ok? then Committed(r, prepared.value) else r, mappings, requests[1..])
  }

  /** A body some edit of a run sent, as it is stored. */
  ghost predicate Sent(form: Form, requests: seq<Request>, body: string, format: Format) {
    exists request <- requests ::
      && request.edit.body.Some?
      && (format.Html? <==> request.edit.format == Some(Html))
      && body == if format.Markdown? then request.edit.body.value else form.sanitise(request.edit.body.value)
  }

  lemma TookStands(form: Form, r: Resource, raw: Edit, after: Resource)
    requires r.product.Some? && after.product.Some? && Took(form, r.product.value, raw, after.product.value)
    ensures Stands(form, r.product.value, raw, after.product.value.body, after.product.value.format)
  {
  }

  /** After any run a stored body is the first one, or one sent since: an Html one through the allow-list, always. */
  lemma {:induction false} RunHoldsBodies(form: Form, r: Resource, mappings: seq<Mapping>, requests: seq<Request>)
    requires r.product.Some?
    ensures var after := Run(form, r, mappings, requests);
            && after.product.Some?
            && ((after.product.value.body == r.product.value.body
                 && after.product.value.format == r.product.value.format)
                || Sent(form, requests, after.product.value.body, after.product.value.format))
    decreases |requests|
  {
    hide Prepare, Committed, Took;
    if requests != [] {
      var prepared := Prepare(form, r, requests[0].edit, mappings, requests[0].bar);
      assert requests[0] in requests && forall request <- requests[1..] :: request in requests;
      if prepared.Ok? {
        EditStores(form, r, requests[0].edit, mappings, requests[0].bar);
        TookStands(form, r, requests[0].edit, Committed(r, prepared.value));
        RunHoldsBodies(form, Committed(r, prepared.value), mappings, requests[1..]);
      } else {
        RunHoldsBodies(form, r, mappings, requests[1..]);
      }
    }
  }

  /** With the mappings fixed, a resource once submittable is so after any run of edits under any bars. */
  lemma {:induction false} RunKeepsSubmittable(
    form: Form, r: Resource, mappings: seq<Mapping>, requests: seq<Request>)
    requires StoredIsSubmittable(form, r, mappings)
    ensures StoredIsSubmittable(form, Run(form, r, mappings, requests), mappings)
    decreases |requests|
  {
    hide StoredIsSubmittable, Prepare, Committed;
    if requests != [] && r.product.Some? {
      var prepared := Prepare(form, r, requests[0].edit, mappings, requests[0].bar);
      if prepared.Ok? {
        EditKeepsSubmittable(form, r, requests[0].edit, mappings, requests[0].bar);
        RunKeepsSubmittable(form, Committed(r, prepared.value), mappings, requests[1..]);
      } else {
        RunKeepsSubmittable(form, r, mappings, requests[1..]);
      }
    }
  }

  // ------------------------------------------------------------ a commit that stops half way

  /**
   The product and the sidecar are written one after the other, so a fault
   between them leaves the new product beside the old sidecar. That is harmless
   exactly when the old sidecar passes on the new head too.
   */
  lemma HalfCommitIff(form: Form, r: Resource, prepared: Prepared, mappings: seq<Mapping>)
    requires StoredIsSubmittable(form, r, mappings)
    ensures StoredIsSubmittable(form, ProductWritten(r, prepared), mappings)
            <==> Verdict(form, EditedHead(r.product.value, prepared.edit, prepared.edit.price, mappings),
                         InputOf(r.sidecar.value))
  {
    hide EditedHead, Updated, ReadHead, ReadBlock;
    HeadAfter(r.product.value, prepared.edit, mappings);
  }

  /** So an edit that touches none of what the rules read may stop anywhere. */
  lemma HalfCommitUntouched(form: Form, r: Resource, prepared: Prepared, mappings: seq<Mapping>)
    requires StoredIsSubmittable(form, r, mappings) && !TouchesRules(prepared.edit)
    ensures StoredIsSubmittable(form, ProductWritten(r, prepared), mappings)
  {
    hide EditedHead, Updated, Verdict;
    UntouchedHead(r.product.value, prepared.edit, mappings);
  }

  const TPT: nat := 0
  const PRICE_FLOOR: int := 95

  /**
   The form's rules a resource bound for TPT meets: named and filed, and until
   TPT holds a live listing of it categorised, attested, and, where it is
   priced, priced at the floor or above and given a tax code.
   */
  predicate TptRules(head: Head, b: Block) {
    var bound := TPT in head.targets;
    var owes := bound && TPT !in head.satisfied;
    && head.name != "" && (head.forMarketplace ==> head.payload.Some?)
    && "" !in head.grades && "" !in b.subjectAreas && "" !in b.tags && "" !in b.formats
    && (owes ==> head.grades != [] && b.subjectAreas != [] && b.tags != [] && b.copyright.Some?)
    && (!head.free && bound ==>
          && (if head.price.Some? then head.price.value >= PRICE_FLOOR else !owes)
          && (owes ==> b.taxCode.Some?))
  }

  function TptForm(): Form {
    Form((head: Head, b: Block) => TptRules(head, b), (head: Head, b: Block) => true,
         (control: Control, id: nat) => true, (s: string) => s, (hashes: seq<string>) => true)
  }

  /** Whether a resource is on its way to TPT and TPT does not hold it live already. */
  predicate OwedToTpt(mappings: seq<Mapping>) {
    && (exists m <- mappings :: m.marketplace == TPT)
    && !(exists m <- mappings :: m.marketplace == TPT && m.bound && m.live)
  }

  lemma {:induction false} LiveOnIs(mappings: seq<Mapping>)
    ensures forall at: nat :: at in LiveOn(mappings)
                              <==> exists m <- mappings :: m.marketplace == at && m.bound && m.live
  {
    if mappings != [] {
      LiveOnIs(mappings[1..]);
      assert mappings == [mappings[0]] + mappings[1..];
    }
  }

  lemma OwesIff(stored: Product, edit: Edit, price: Option<Price>, mappings: seq<Mapping>)
    ensures var head := EditedHead(stored, edit, price, mappings);
            (TPT in head.targets && TPT !in head.satisfied) <==> OwedToTpt(mappings)
  {
    hide LiveOn, GradeSlugs;
    LiveOnIs(mappings);
    var head := EditedHead(stored, edit, price, mappings);
    if m :| m in mappings && m.marketplace == TPT {
      var i :| 0 <= i < |mappings| && mappings[i] == m;
      assert head.targets[i] == TPT;
    }
    if TPT in head.targets {
      var i :| 0 <= i < |head.targets| && head.targets[i] == TPT;
      assert mappings[i] in mappings;
    }
  }

  /** A grade by its own identifier, or by the first step of its path. */
  function GradeName(grade: Path): string {
    match grade.nativeId
    case Some(name) => name
    case None => if grade.segments == [] then "" else grade.segments[0]
  }

  lemma GradesSay(grades: seq<Path>)
    ensures "" !in Trims(GradeSlugs(grades)) <==> forall grade <- grades :: Trim(GradeName(grade)) != ""
  {
    hide Trim;
    var slugs := Trims(GradeSlugs(grades));
    assert forall i | 0 <= i < |grades| :: slugs[i] == Trim(GradeName(grades[i]));
    if "" in slugs { var i :| 0 <= i < |slugs| && slugs[i] == ""; assert grades[i] in grades; }
  }

  lemma TargetsAre(p: Product, mappings: seq<Mapping>)
    ensures TPT in EditedHead(p, NOTHING, None, mappings).targets <==> exists m <- mappings :: m.marketplace == TPT
  {
    hide LiveOn, GradeSlugs;
    var targets := EditedHead(p, NOTHING, None, mappings).targets;
    if m :| m in mappings && m.marketplace == TPT {
      var i :| 0 <= i < |mappings| && mappings[i] == m;
      assert targets[i] == TPT;
    }
    if TPT in targets {
      var i :| 0 <= i < |targets| && targets[i] == TPT;
      assert mappings[i] in mappings;
    }
  }

  /** When a stored resource meets TPT's rules, in the terms of what is stored. */
  lemma TptSubmittableIff(p: Product, r: Record, mappings: seq<Mapping>)
    ensures StoredIsSubmittable(TptForm(), Resource(Some(p), Some(r)), mappings)
            <==> && Trim(p.title) != "" && (mappings != [] ==> p.payload != [])
                 && (forall grade <- p.grades :: Trim(GradeName(grade)) != "")
                 && (forall s <- r.subjectAreas + r.tags + r.formats :: Trim(s) != "")
                 && (OwedToTpt(mappings) ==>
                       p.grades != [] && r.subjectAreas != [] && r.tags != [] && r.copyright.Some?)
                 && (p.price.Paid? && (exists m <- mappings :: m.marketplace == TPT) ==>
                       p.price.minor >= 95 && (OwedToTpt(mappings) ==> r.taxCode.Some?))
  {
    hide Trim, LiveOn, OwedToTpt;
    OwesIff(p, NOTHING, None, mappings);
    var head := EditedHead(p, NOTHING, None, mappings);
    GradesSay(p.grades);
    SlugsTrim(r.subjectAreas);
    SlugsTrim(r.tags);
    SlugsTrim(r.formats);
    TargetsAre(p, mappings);
  }

  /** Where two sidecars pass on two heads, the old one passes on the new head but for the tax code. */
  lemma TaxCodeDecides(was: Head, now: Head, kept: Block, sent: Block)
    requires was.targets == now.targets && was.satisfied == now.satisfied
    requires TptRules(was, kept) && TptRules(now, sent)
    ensures TptRules(now, kept)
            <==> !(TPT in now.targets && TPT !in now.satisfied) || now.free || kept.taxCode.Some?
  {
  }

  /** An edit that passes the form on the old sidecar, or none that it reads, has nothing to lose half way. */
  lemma PassesOnOld(form: Form, r: Resource, raw: Edit, mappings: seq<Mapping>, bar: Bar)
    requires StoredIsSubmittable(form, r, mappings) && Prepare(form, r, raw, mappings, bar).Ok?
    ensures var prepared := Prepare(form, r, raw, mappings, bar).value;
            var head := EditedHead(r.product.value, prepared.edit, prepared.edit.price, mappings);
            match prepared.edit.sidecar
            case Some(b) => Verdict(form, head, b)
            case None => Verdict(form, head, InputOf(r.sidecar.value))
  {
    hide EditedHead, ValueRefusal, Storable, Verdict, ReadHead, ReadBlock;
    var prepared := Prepare(form, r, raw, mappings, bar).value;
    if !TouchesRules(prepared.edit) { UntouchedHead(r.product.value, prepared.edit, mappings); }
  }

  lemma PreparedPrice(form: Form, r: Resource, raw: Edit, mappings: seq<Mapping>, bar: Bar)
    requires r.product.Some? && Prepare(form, r, raw, mappings, bar).Ok?
    ensures Prepare(form, r, raw, mappings, bar).value.edit.price == raw.price
  {
    hide ValueRefusal, SidecarRefusal, EditedHead, RecordOf, BarFor;
  }

  /**
   Of a resource that passed the form for TPT, an edit that passes it too may
   stop between its two writes exactly unless it leaves the resource priced,
   still owed to TPT, and with no tax code in its old sidecar.
   */
  lemma TptHalfCommitIff(r: Resource, raw: Edit, mappings: seq<Mapping>, bar: Bar)
    requires StoredIsSubmittable(TptForm(), r, mappings) && Prepare(TptForm(), r, raw, mappings, bar).Ok?
    ensures var price := if raw.price.Some? then raw.price.value else r.product.value.price;
            StoredIsSubmittable(TptForm(), ProductWritten(r, Prepare(TptForm(), r, raw, mappings, bar).value), mappings)
            <==> !OwedToTpt(mappings) || price.Free? || r.sidecar.value.taxCode.Some?
  {
    hide Prepare, TptRules, Trims, Trim, OwedToTpt, LiveOn, GradeSlugs;
    var form := TptForm();
    var prepared := Prepare(form, r, raw, mappings, bar).value;
    var (stored, edit) := (r.product.value, prepared.edit);
    PreparedPrice(form, r, raw, mappings, bar);
    HalfCommitIff(form, r, prepared, mappings);
    PassesOnOld(form, r, raw, mappings, bar);
    OwesIff(stored, edit, edit.price, mappings);
    var before := EditedHead(stored, NOTHING, None, mappings);
    var after := EditedHead(stored, edit, edit.price, mappings);
    var kept := InputOf(r.sidecar.value);
    var sent := if edit.sidecar.Some? then edit.sidecar.value else kept;
    TaxCodeDecides(ReadHead(before), ReadHead(after), ReadBlock(kept), ReadBlock(sent));
  }

  function Answers(tax: Option<nat>): Block {
    Block(None, [], None, None, None, tax, ["math"], ["centers"], [], [], None, [], None, None, None, Some(1), None)
  }

  function AnswersRow(tax: Option<nat>): Record {
    Record(AUTO_GENERATE, [], None, None, None, tax, ["math"], ["centers"], [], [], None, [],
           None, None, None, Some(1), STATUS_DRAFT)
  }

  function PricedEdit(): Edit {
    Edit(None, None, None, Some(Paid(450, "USD")), None, None, None, Some(Answers(Some(1))))
  }

  /** Mapped to TPT and not live there yet. */
  const AWAITED: seq<Mapping> := [Mapping(TPT, false, false)]

  function FreeResource(): Resource {
    Resource(
      Some(Product("Fractions", "", Markdown, Free, ["bytes"], [], [Path(0, 0, ["third"], None)], None)),
      Some(AnswersRow(None)))
  }

  lemma AnswersRowIs(tax: Option<nat>)
    ensures RecordOf(TptForm(), Answers(tax)) == Ok(AnswersRow(tax))
  {
    hide Trim;
    TrimId("math");
    TrimId("centers");
    assert Trims(["math"]) == ["math"] && Trims(["centers"]) == ["centers"] && Trims(Answers(tax).formats) == [];
    assert Storable(TptForm(), Answers(tax));
  }

  lemma AnswersSay()
    ensures Trim("Fractions") == "Fractions" && Trims(["third"]) == ["third"]
    ensures Trims(["math"]) == ["math"] && Trims(["centers"]) == ["centers"]
  {
    hide Trim;
    TrimId("Fractions");
    TrimId("third");
    TrimId("math");
    TrimId("centers");
  }

  /** What the rules read of a resource on its way to TPT. */
  lemma AwaitedHead(price: Price, tax: Option<nat>)
    ensures var product := FreeResource().product.value.(price := price);
            StoredIsSubmittable(TptForm(), Resource(Some(product), Some(AnswersRow(tax))), AWAITED)
            <==> price.Free? || (price.minor >= PRICE_FLOOR && tax.Some?)
  {
    hide Trim;
    AnswersSay();
    assert LiveOn(AWAITED) == [] by { assert |AWAITED[1..]| == 0; }
    assert AWAITED[0].marketplace == TPT;
    var head := EditedHead(FreeResource().product.value.(price := price), NOTHING, None, AWAITED);
    assert head.targets[0] == TPT && |head.grades| == 1;
  }

  /** The edit itself passes the form it is held to. */
  lemma PricedPasses()
    ensures Verdict(TptForm(), EditedHead(FreeResource().product.value, PricedEdit(), PricedEdit().price, AWAITED),
                    Answers(Some(1)))
  {
    hide Trim;
    AnswersSay();
    assert LiveOn(AWAITED) == [] by { assert |AWAITED[1..]| == 0; }
    var head := EditedHead(FreeResource().product.value, PricedEdit(), PricedEdit().price, AWAITED);
    assert head.targets[0] == TPT && |head.grades| == 1;
  }

  /** An edit that does touch them may not: pricing a free resource and giving it a tax code in one edit. */
  lemma HalfCommitCanBreak()
    ensures StoredIsSubmittable(TptForm(), FreeResource(), AWAITED)
    ensures var prepared := Prepare(TptForm(), FreeResource(), PricedEdit(), AWAITED, Submitted);
            && prepared.Ok?
            && StoredIsSubmittable(TptForm(), Committed(FreeResource(), prepared.value), AWAITED)
            && !StoredIsSubmittable(TptForm(), ProductWritten(FreeResource(), prepared.value), AWAITED)
  {
    hide Trim, StoredIsSubmittable, EditedHead, Verdict, TptRules, RecordOf;
    var (form, paid) := (TptForm(), Paid(450, "USD"));
    AwaitedHead(Free, None);
    AwaitedHead(paid, None);
    AwaitedHead(paid, Some(1));
    AnswersRowIs(Some(1));
    PricedPasses();
  }
}
