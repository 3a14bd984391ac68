/**
 Deleting a product and minting the jobs that remove its listings
 (crates/tam-api/src/catalogue.rs), under request keys derived from the product
 and the platform (crates/tam-storage/src/jobs.rs).
 */
module CatalogueDelete {
  import opened Calls
  import opened Listings
  import opened Wrappers

  type Product = nat
  type Inventory = nat

  datatype Binding = Bound(listing: nat) | NotBound

  datatype Mapping = Mapping(id: nat, inventory: Inventory, binding: Binding, live: bool)

  /** A removal's request key: one product on one platform. */
  datatype Key = Key(product: Product, inventory: Inventory)

  datatype Job = Job(key: Key, mapping: nat, listing: nat, state: ListingState)

  type JobId = nat

  /** One tenant's tables; a job's identifier is its place in the ledger. */
  datatype Tables = Tables(mappings: map<Product, seq<Mapping>>, jobs: seq<Job>, live: set<Product>)

  datatype Body = Body(removeFrom: seq<Inventory>, leaveLive: bool)

  datatype Removal = Removal(inventory: Inventory, job: JobId, mapping: nat)

  datatype View = View(removals: seq<Removal>, leftLive: seq<Inventory>)

  datatype Failure = StillBound(bound: seq<Inventory>) | NeverBound(elected: seq<Inventory>)
                   | NoConsent | Lost | NotFound

  /** What befalls one request: the platforms it has no consent for, and the fate of each of its writes. */
  datatype Weather = Weather(consent: Inventory -> bool, mint: nat -> Fate, remove: Fate)

  // ------------------------------------------------------------ the ledger

  function JobFor(jobs: seq<Job>, key: Key): (found: Option<JobId>)
    ensures found.Some? ==> found.value < |jobs| && jobs[found.value].key == key
    ensures found.None? ==> forall i | 0 <= i < |jobs| :: jobs[i].key != key
  {
    if jobs == [] then None
    else if jobs[|jobs| - 1].key == key then Some(|jobs| - 1)
    else JobFor(jobs[..|jobs| - 1], key)
  }

  /** The job under a key: the one already there, untouched, or this one. */
  function Minted(jobs: seq<Job>, job: Job): (seq<Job>, JobId) {
    var found := JobFor(jobs, job.key);
    if found.Some? then (jobs, found.value) else (jobs + [job], |jobs|)
  }

  function MappingsOf(t: Tables, product: Product): seq<Mapping> {
    if product in t.mappings then t.mappings[product] else []
  }

  function BoundOf(mappings: seq<Mapping>): seq<Mapping> {
    if mappings == [] then []
    else (if mappings[0].binding.Bound? then [mappings[0]] else []) + BoundOf(mappings[1..])
  }

  /** The bound platforms a body leaves out. */
  function Unelected(bound: seq<Mapping>, body: Body): seq<Inventory> {
    if bound == [] then []
    else (if bound[0].inventory in body.removeFrom then [] else [bound[0].inventory]) + Unelected(bound[1..], body)
  }

  predicate BoundOn(bound: seq<Mapping>, inventory: Inventory) {
    exists m <- bound :: m.inventory == inventory
  }

  /** The platforms a body elects that nothing is bound on. */
  function NeverBoundOf(bound: seq<Mapping>, elected: seq<Inventory>): seq<Inventory> {
    if elected == [] then []
    else (if BoundOn(bound, elected[0]) then [] else [elected[0]]) + NeverBoundOf(bound, elected[1..])
  }

  function JobOf(product: Product, m: Mapping): Job
    requires m.binding.Bound?
  {
    Job(Key(product, m.inventory), m.id, m.binding.listing, if m.live then Live else Draft)
  }

  /** The removals of a body's elected platforms, each minted in turn until one fails. */
  function Removed(jobs: seq<Job>, product: Product, bound: seq<Mapping>, body: Body, weather: Weather)
    : (seq<Job>, Result<seq<Removal>, Failure>)
    requires forall m <- bound :: m.binding.Bound?
  {
    if bound == [] then (jobs, Ok([]))
    else
      var last := |bound| - 1;
      var (before, done) := Removed(jobs, product, bound[..last], body, weather);
      var m := bound[last];
      if done.Err? || m.inventory !in body.removeFrom then (before, done)
      else if !weather.consent(m.inventory) then (before, Err(NoConsent))
      else if weather.mint(last).Refused? then (before, Err(Lost))
      else
        var (after, job) := Minted(before, JobOf(product, m));
        if weather.mint(last).Unheard? then (after, Err(Lost))
        else (after, Ok(done.value + [Removal(m.inventory, job, m.id)]))
  }

  lemma {:induction false} BoundAreBound(mappings: seq<Mapping>)
    ensures forall m <- BoundOf(mappings) :: m.binding.Bound? && m in mappings
    ensures forall m <- mappings :: m.binding.Bound? ==> m in BoundOf(mappings)
  {
    if mappings != [] {
      BoundAreBound(mappings[1..]);
      assert forall m <- mappings :: m == mappings[0] || m in mappings[1..];
    }
  }

  function Deleted(t: Tables, product: Product, body: Body, weather: Weather): (Tables, Result<View, Failure>) {
    var bound := BoundOf(MappingsOf(t, product));
    var unelected := Unelected(bound, body);
    var unbound := NeverBoundOf(bound, body.removeFrom);
    if unelected != [] && !body.leaveLive then (t, Err(StillBound(unelected)))
    else if unbound != [] then (t, Err(NeverBound(unbound)))
    else
      BoundAreBound(MappingsOf(t, product));
      var (jobs, removed) := Removed(t.jobs, product, bound, body, weather);
      if removed.Err? then (t.(jobs := jobs), Err(removed.error))
      else if weather.remove.Refused? then (t.(jobs := jobs), Err(Lost))
      else
        var after := t.(jobs := jobs, live := t.live - {product});
        if weather.remove.Unheard? then (after, Err(Lost))
        else if product !in t.live && removed.value == [] then (after, Err(NotFound))
        else (after, Ok(View(removed.value, unelected)))
  }

  lemma {:induction false} RemovedStops(jobs: seq<Job>, product: Product, bound: seq<Mapping>, body: Body,
                                        weather: Weather, k: nat)
    requires (forall m <- bound :: m.binding.Bound?) && k <= |bound|
    requires Removed(jobs, product, bound[..k], body, weather).1.Err?
    ensures Removed(jobs, product, bound, body, weather) == Removed(jobs, product, bound[..k], body, weather)
  {
    hide Minted;
    if k == |bound| {
      assert bound[..k] == bound;
    } else {
      assert bound[..|bound| - 1][..k] == bound[..k];
      RemovedStops(jobs, product, bound[..|bound| - 1], body, weather, k);
    }
  }

  class Tenant {
    var mappings: map<Product, seq<Mapping>>
    var jobs: seq<Job>
    var live: set<Product>

    constructor (t: Tables)
      ensures Value() == t
    {
      mappings, jobs, live := t.mappings, t.jobs, t.live;
    }

    ghost function Value(): Tables
      reads this
    {
      Tables(mappings, jobs, live)
    }

    method CreateWithRequestKey(job: Job) returns (id: JobId)
      modifies this`jobs
      ensures (jobs, id) == Minted(old(jobs), job)
    {
      var existing := JobFor(jobs, job.key);
      if existing.Some? { return existing.value; }
      id := |jobs|;
      jobs := jobs + [job];
    }

    method SoftDelete(product: Product) returns (deleted: bool)
      modifies this`live
      ensures live == old(live) - {product} && deleted == (product in old(live))
    {
      deleted := product in live;
      live := live - {product};
    }

    method MintRemovals(product: Product, bound: seq<Mapping>, body: Body, weather: Weather)
      returns (removed: Result<seq<Removal>, Failure>)
      requires forall m <- bound :: m.binding.Bound?
      modifies this`jobs
      ensures (jobs, removed) == Removed(old(jobs), product, bound, body, weather)
    {
      hide Minted;
      var removals: seq<Removal> := [];
      for i := 0 to |bound|
        invariant (jobs, Ok(removals)) == Removed(old(jobs), product, bound[..i], body, weather)
      {
        assert bound[..i + 1][..i] == bound[..i];
        var m := bound[i];
        if m.inventory in body.removeFrom {
          if !weather.consent(m.inventory) {
            RemovedStops(old(jobs), product, bound, body, weather, i + 1);
            return Err(NoConsent);
          }
          if weather.mint(i).Refused? {
            RemovedStops(old(jobs), product, bound, body, weather, i + 1);
            return Err(Lost);
          }
          var job := CreateWithRequestKey(JobOf(product, m));
          if weather.mint(i).Unheard? {
            RemovedStops(old(jobs), product, bound, body, weather, i + 1);
            return Err(Lost);
          }
          removals := removals + [Removal(m.inventory, job, m.id)];
        }
      }
      assert bound[..|bound|] == bound;
      return Ok(removals);
    }

    method DeleteProduct(product: Product, body: Body, weather: Weather) returns (view: Result<View, Failure>)
      modifies this
      ensures Value() == Deleted(old(Value()), product, body, weather).0
      ensures view == Deleted(old(Value()), product, body, weather).1
    {
      hide Removed, BoundOf, Unelected, NeverBoundOf;
      var held := if product in mappings then mappings[product] else [];
      BoundAreBound(held);
      var bound := BoundOf(held);
      var unelected := Unelected(bound, body);
      if unelected != [] && !body.leaveLive { return Err(StillBound(unelected)); }
      var unbound := NeverBoundOf(bound, body.removeFrom);
      if unbound != [] { return Err(NeverBound(unbound)); }
      var removals := MintRemovals(product, bound, body, weather);
      if removals.Err? { return Err(removals.error); }
      if weather.remove.Refused? { return Err(Lost); }
      var deleted := SoftDelete(product);
      if weather.remove.Unheard? { return Err(Lost); }
      if !deleted && removals.value == [] { return Err(NotFound); }
      return Ok(View(removals.value, unelected));
    }
  }

  // ------------------------------------------------------------ one job for one listing, ever

  ghost predicate OneEach(jobs: seq<Job>) {
    forall i, j | 0 <= i < j < |jobs| :: jobs[i].key != jobs[j].key
  }

  lemma MintKeeps(jobs: seq<Job>, job: Job)
    requires OneEach(jobs)
    ensures var (after, id) := Minted(jobs, job);
            OneEach(after) && jobs <= after && id < |after| && after[id].key == job.key
  {
  }

  lemma {:induction false} RemovedKeeps(
    jobs: seq<Job>, product: Product, bound: seq<Mapping>, body: Body, weather: Weather)
    requires OneEach(jobs) && forall m <- bound :: m.binding.Bound?
    ensures var after := Removed(jobs, product, bound, body, weather).0;
            OneEach(after) && jobs <= after
  {
    hide Minted, OneEach;
    if bound != [] {
      var last := |bound| - 1;
      RemovedKeeps(jobs, product, bound[..last], body, weather);
      MintKeeps(Removed(jobs, product, bound[..last], body, weather).0, JobOf(product, bound[last]));
    }
  }

  /** What happens to a tenant: a delete, or anything else that changes mappings and products but mints no removal. */
  datatype Event = Delete(product: Product, body: Body, weather: Weather)
                 | Else(mappings: map<Product, seq<Mapping>>, live: set<Product>)

  function After(t: Tables, event: Event): Tables {
    match event
    case Delete(product, body, weather) => Deleted(t, product, body, weather).0
    case Else(mappings, live) => t.(mappings := mappings, live := live)
  }

  function Run(t: Tables, events: seq<Event>): Tables
    decreases |events|
  {
    if events == [] then t else Run(After(t, events[0]), events[1..])
  }

  lemma DeleteKeeps(t: Tables, product: Product, body: Body, weather: Weather)
    requires OneEach(t.jobs)
    ensures OneEach(Deleted(t, product, body, weather).0.jobs) && t.jobs <= Deleted(t, product, body, weather).0.jobs
  {
    hide Removed, OneEach, Unelected, NeverBoundOf, BoundOf;
    BoundAreBound(MappingsOf(t, product));
    RemovedKeeps(t.jobs, product, BoundOf(MappingsOf(t, product)), body, weather);
  }

  /**
   Over every run of deletes, whatever they elect, wherever they fail and
   whatever changes in between, no product has two removal jobs on one
   platform, and a job once minted stands as it was minted.
   */
  lemma {:induction false} OneJobEver(t: Tables, events: seq<Event>)
    requires OneEach(t.jobs)
    ensures OneEach(Run(t, events).jobs) && t.jobs <= Run(t, events).jobs
    decreases |events|
  {
    hide Deleted, OneEach;
    if events != [] {
      if events[0].Delete? { DeleteKeeps(t, events[0].product, events[0].body, events[0].weather); }
      OneJobEver(After(t, events[0]), events[1..]);
    }
  }

  // ------------------------------------------------------------ what a completed delete answers

  lemma {:induction false} UnelectedAre(bound: seq<Mapping>, body: Body)
    ensures forall inventory :: inventory in Unelected(bound, body)
                                <==> BoundOn(bound, inventory) && inventory !in body.removeFrom
  {
    if bound != [] {
      UnelectedAre(bound[1..], body);
      assert forall m <- bound :: m == bound[0] || m in bound[1..];
    }
  }

  ghost predicate JobOn(jobs: seq<Job>, product: Product, r: Removal) {
    r.job < |jobs| && jobs[r.job].key == Key(product, r.inventory)
  }

  ghost predicate RemovalOf(bound: seq<Mapping>, r: Removal) {
    exists m <- bound :: m.inventory == r.inventory && m.id == r.mapping
  }

  ghost predicate RemovalsFor(jobs: seq<Job>, product: Product, bound: seq<Mapping>, body: Body,
                              removals: seq<Removal>)
  {
    && (forall r <- removals :: JobOn(jobs, product, r) && RemovalOf(bound, r) && r.inventory in body.removeFrom)
    && (forall m <- bound :: m.inventory in body.removeFrom ==>
          exists r <- removals :: r.inventory == m.inventory && r.mapping == m.id)
  }

  lemma RemovalSkipped(
    jobs: seq<Job>, product: Product, front: seq<Mapping>, m: Mapping, body: Body, removals: seq<Removal>)
    requires RemovalsFor(jobs, product, front, body, removals) && m.inventory !in body.removeFrom
    ensures RemovalsFor(jobs, product, front + [m], body, removals)
  {
    hide JobOn;
    forall r <- removals ensures RemovalOf(front + [m], r) {
      var each :| each in front && each.inventory == r.inventory && each.id == r.mapping;
      assert each in front + [m];
    }
  }

  lemma RemovalGrown(jobs: seq<Job>, after: seq<Job>, product: Product, front: seq<Mapping>, m: Mapping, r: Removal)
    requires JobOn(jobs, product, r) && RemovalOf(front, r) && jobs <= after
    ensures JobOn(after, product, r) && RemovalOf(front + [m], r)
  {
    var mapping :| mapping in front && mapping.inventory == r.inventory && mapping.id == r.mapping;
    assert mapping in front + [m];
  }

  lemma RemovalAdded(jobs: seq<Job>, after: seq<Job>, product: Product, front: seq<Mapping>, m: Mapping, body: Body,
                     removals: seq<Removal>, r: Removal)
    requires RemovalsFor(jobs, product, front, body, removals) && m.inventory in body.removeFrom && jobs <= after
    requires r.inventory == m.inventory && r.mapping == m.id && JobOn(after, product, r)
    ensures RemovalsFor(after, product, front + [m], body, removals + [r])
  {
    assert RemovalOf(front + [m], r) by { assert m in front + [m]; }
    hide JobOn, RemovalOf;
    forall each <- removals + [r]
      ensures JobOn(after, product, each) && RemovalOf(front + [m], each) && each.inventory in body.removeFrom
    {
      if each in removals { RemovalGrown(jobs, after, product, front, m, each); }
    }
    forall each <- front + [m] | each.inventory in body.removeFrom
      ensures exists made <- removals + [r] :: made.inventory == each.inventory && made.mapping == each.id
    {
      if each in front {
        var made :| made in removals && made.inventory == each.inventory && made.mapping == each.id;
        assert made in removals + [r];
      } else {
        assert r in removals + [r];
      }
    }
  }

  lemma NoRemovals(jobs: seq<Job>, product: Product, body: Body)
    ensures RemovalsFor(jobs, product, [], body, [])
  {
  }

  /** Every elected platform has its removal, and its job is in the ledger under the platform's key. */
  lemma {:induction false} RemovalsAre(
    jobs: seq<Job>, product: Product, bound: seq<Mapping>, body: Body, weather: Weather)
    requires OneEach(jobs) && forall m <- bound :: m.binding.Bound?
    ensures var (after, removed) := Removed(jobs, product, bound, body, weather);
            removed.Ok? ==> RemovalsFor(after, product, bound, body, removed.value)
  {
    hide Minted, OneEach, RemovalsFor;
    if bound == [] {
      NoRemovals(jobs, product, body);
    } else {
      var (front, m) := (bound[..|bound| - 1], bound[|bound| - 1]);
      assert bound == front + [m];
      var (before, done) := Removed(jobs, product, front, body, weather);
      RemovalsAre(jobs, product, front, body, weather);
      RemovedKeeps(jobs, product, front, body, weather);
      var (after, removed) := Removed(jobs, product, bound, body, weather);
      if removed.Ok? {
        if m.inventory in body.removeFrom {
          MintKeeps(before, JobOf(product, m));
          var r := Removal(m.inventory, Minted(before, JobOf(product, m)).1, m.id);
          RemovalAdded(before, after, product, front, m, body, done.value, r);
        } else {
          RemovalSkipped(before, product, front, m, body, done.value);
        }
      }
    }
  }

  // ------------------------------------------------------------ which listing the job removes

  /** A product has one mapping on each platform: the table's own constraint. */
  ghost predicate OnePerInventory(mappings: seq<Mapping>) {
    forall i, j | 0 <= i < j < |mappings| :: mappings[i].inventory != mappings[j].inventory
  }

  lemma {:induction false} BoundOnePer(mappings: seq<Mapping>)
    requires OnePerInventory(mappings)
    ensures OnePerInventory(BoundOf(mappings))
  {
    if mappings != [] {
      BoundOnePer(mappings[1..]);
      BoundAreBound(mappings[1..]);
      assert forall m <- mappings[1..] :: m.inventory != mappings[0].inventory;
      assert forall i | 0 <= i < |BoundOf(mappings[1..])| :: BoundOf(mappings[1..])[i] in BoundOf(mappings[1..]);
    }
  }

  /** Whether no earlier delete of this product left a job for another listing on the mapping's platform. */
  predicate Unclaimed(jobs: seq<Job>, product: Product, m: Mapping) {
    var earlier := JobFor(jobs, Key(product, m.inventory));
    m.binding.Bound? && (earlier.None? || jobs[earlier.value].listing == m.binding.listing)
  }

  /** A removal's job: the first under its key, as it stands, or one minted for the mapping as it is now. */
  ghost predicate JobStands(jobs: seq<Job>, after: seq<Job>, product: Product, m: Mapping, job: JobId) {
    var earlier := JobFor(jobs, Key(product, m.inventory));
    && m.binding.Bound? && job < |after| && jobs <= after
    && (if earlier.Some? then job == earlier.value else after[job] == JobOf(product, m))
  }

  ghost predicate JobsStand(jobs: seq<Job>, after: seq<Job>, product: Product, bound: seq<Mapping>, body: Body,
                            removals: seq<Removal>)
  {
    && (forall r <- removals, m <- bound | r.inventory == m.inventory :: JobStands(jobs, after, product, m, r.job))
    && (forall r <- removals :: BoundOn(bound, r.inventory))
  }

  /** Minting under other keys leaves a key's job what it was. */
  lemma {:induction false} OtherKeysStay(
    jobs: seq<Job>, product: Product, bound: seq<Mapping>, body: Body, weather: Weather, key: Key)
    requires (forall m <- bound :: m.binding.Bound?) && forall m <- bound :: Key(product, m.inventory) != key
    ensures JobFor(Removed(jobs, product, bound, body, weather).0, key) == JobFor(jobs, key)
  {
    if bound != [] {
      var front := bound[..|bound| - 1];
      OtherKeysStay(jobs, product, front, body, weather, key);
      var before := Removed(jobs, product, front, body, weather).0;
      var job := JobOf(product, bound[|bound| - 1]);
      assert (before + [job])[..|before|] == before;
      assert JobFor(before + [job], key) == JobFor(before, key);
    }
  }

  /** One more mapping, removed or passed over, leaves every removal's job standing. */
  lemma StandsOn(jobs: seq<Job>, before: seq<Job>, product: Product, front: seq<Mapping>, m: Mapping, body: Body,
                 removals: seq<Removal>)
    requires JobsStand(jobs, before, product, front, body, removals) && jobs <= before && m.binding.Bound?
    requires forall each <- front :: each.inventory != m.inventory
    requires JobFor(before, Key(product, m.inventory)) == JobFor(jobs, Key(product, m.inventory))
    ensures JobsStand(jobs, before, product, front + [m], body, removals)
    ensures var (after, job) := Minted(before, JobOf(product, m));
            JobsStand(jobs, after, product, front + [m], body, removals + [Removal(m.inventory, job, m.id)])
  {
    hide JobFor;
    forall r <- removals ensures BoundOn(front + [m], r.inventory) {
      var each :| each in front && each.inventory == r.inventory;
      assert each in front + [m];
    }
    assert m in front + [m];
  }

  lemma {:induction false} RemovedJobsStand(
    jobs: seq<Job>, product: Product, bound: seq<Mapping>, body: Body, weather: Weather)
    requires (forall m <- bound :: m.binding.Bound?) && OnePerInventory(bound) && OneEach(jobs)
    requires Removed(jobs, product, bound, body, weather).1.Ok?
    ensures var (after, removed) := Removed(jobs, product, bound, body, weather);
            JobsStand(jobs, after, product, bound, body, removed.value)
  {
    hide Minted, OneEach;
    if bound != [] {
      var (front, m) := (bound[..|bound| - 1], bound[|bound| - 1]);
      assert bound == front + [m];
      var (before, done) := Removed(jobs, product, front, body, weather);
      RemovedJobsStand(jobs, product, front, body, weather);
      RemovedKeeps(jobs, product, front, body, weather);
      OtherKeysStay(jobs, product, front, body, weather, Key(product, m.inventory));
      StandsOn(jobs, before, product, front, m, body, done.value);
    }
  }

  /** Whether the mapping has a removal, and its job addresses the very listing bound now. */
  ghost predicate Removes(jobs: seq<Job>, removals: seq<Removal>, m: Mapping) {
    exists r <- removals ::
      && r.inventory == m.inventory && r.mapping == m.id && r.job < |jobs|
      && m.binding.Bound? && jobs[r.job].listing == m.binding.listing
  }

  lemma StandingRemoves(jobs: seq<Job>, after: seq<Job>, product: Product, m: Mapping, removals: seq<Removal>)
    requires forall r <- removals | r.inventory == m.inventory :: JobStands(jobs, after, product, m, r.job)
    requires exists r <- removals :: r.inventory == m.inventory && r.mapping == m.id
    ensures Removes(after, removals, m) <==> Unclaimed(jobs, product, m)
  {
    var r :| r in removals && r.inventory == m.inventory && r.mapping == m.id;
    assert JobStands(jobs, after, product, m, r.job);
    if Unclaimed(jobs, product, m) { assert after[r.job].listing == m.binding.listing; }
  }

  /**
   A delete that completes removes an elected bound listing exactly when no
   earlier delete left a job for another listing under the same key: a replay
   hands back the first job as it stands, and a new one addresses the mapping,
   its listing and the state that was last seen of it.
   */
  lemma RemovesBoundIff(t: Tables, product: Product, body: Body, weather: Weather)
    requires OneEach(t.jobs) && OnePerInventory(MappingsOf(t, product))
    requires Deleted(t, product, body, weather).1.Ok?
    ensures var (after, view) := Deleted(t, product, body, weather);
            forall m <- BoundOf(MappingsOf(t, product)) | m.inventory in body.removeFrom ::
              && (Removes(after.jobs, view.value.removals, m) <==> Unclaimed(t.jobs, product, m))
              && forall r <- view.value.removals | r.inventory == m.inventory ::
                   JobStands(t.jobs, after.jobs, product, m, r.job)
  {
    hide Removed, OneEach, Unelected, NeverBoundOf, BoundOf, OnePerInventory;
    var bound := BoundOf(MappingsOf(t, product));
    BoundAreBound(MappingsOf(t, product));
    BoundOnePer(MappingsOf(t, product));
    var (jobs, removed) := Removed(t.jobs, product, bound, body, weather);
    assert removed.Ok? && Deleted(t, product, body, weather).1.value.removals == removed.value;
    RemovalsAre(t.jobs, product, bound, body, weather);
    RemovedJobsStand(t.jobs, product, bound, body, weather);
    forall m <- bound | m.inventory in body.removeFrom
      ensures Removes(jobs, removed.value, m) <==> Unclaimed(t.jobs, product, m)
    {
      StandingRemoves(t.jobs, jobs, product, m, removed.value);
    }
  }

  /** So every elected listing goes exactly when none of their platforms holds another's job. */
  lemma RemovesAllIff(t: Tables, product: Product, body: Body, weather: Weather)
    requires OneEach(t.jobs) && OnePerInventory(MappingsOf(t, product))
    requires Deleted(t, product, body, weather).1.Ok?
    ensures var (after, view) := Deleted(t, product, body, weather);
            var bound := BoundOf(MappingsOf(t, product));
            (forall m <- bound | m.inventory in body.removeFrom :: Removes(after.jobs, view.value.removals, m))
            <==> forall m <- bound | m.inventory in body.removeFrom :: Unclaimed(t.jobs, product, m)
  {
    hide Deleted, Removes, Unclaimed, OneEach, OnePerInventory, BoundOf;
    RemovesBoundIff(t, product, body, weather);
  }

  /** The elected mappings, as they are listed. */
  function Elected(bound: seq<Mapping>, body: Body): seq<Mapping> {
    if bound == [] then []
    else Elected(bound[..|bound| - 1], body)
         + if bound[|bound| - 1].inventory in body.removeFrom then [bound[|bound| - 1]] else []
  }

  /** A completed delete answers one removal a mapping, in the order the mappings are listed. */
  lemma {:induction false} RemovalsInOrder(
    jobs: seq<Job>, product: Product, bound: seq<Mapping>, body: Body, weather: Weather)
    requires (forall m <- bound :: m.binding.Bound?) && Removed(jobs, product, bound, body, weather).1.Ok?
    ensures var (removals, elected) := (Removed(jobs, product, bound, body, weather).1.value, Elected(bound, body));
            && |removals| == |elected|
            && forall i | 0 <= i < |elected| ::
                 removals[i].inventory == elected[i].inventory && removals[i].mapping == elected[i].id
  {
    hide Minted;
    if bound != [] { RemovalsInOrder(jobs, product, bound[..|bound| - 1], body, weather); }
  }

  /**
   A delete that completes has, for every bound listing, either a removal
   naming its job or its place among those left, never both and nothing else;
   unless it was told to leave listings live it leaves none; and the job of a
   removal addresses that listing where no earlier job under its key addresses
   another.
   */
  lemma CompletedDelete(t: Tables, product: Product, body: Body, weather: Weather)
    requires OneEach(t.jobs) && Deleted(t, product, body, weather).1.Ok?
    ensures var (after, view) := Deleted(t, product, body, weather);
            var bound := BoundOf(MappingsOf(t, product));
            && product !in after.live
            && (forall r <- view.value.removals :: JobOn(after.jobs, product, r) && RemovalOf(bound, r))
            && (forall m <- bound ::
                  (exists r <- view.value.removals :: r.inventory == m.inventory && r.mapping == m.id)
                  <==> m.inventory !in view.value.leftLive)
            && (forall inventory <- view.value.leftLive :: BoundOn(bound, inventory))
            && (!body.leaveLive ==> view.value.leftLive == [])
            && |view.value.removals| == |Elected(bound, body)|
            && (forall i | 0 <= i < |view.value.removals| ::
                  view.value.removals[i].mapping == Elected(bound, body)[i].id)
            && (OnePerInventory(MappingsOf(t, product)) ==>
                  forall m <- bound | m.inventory !in view.value.leftLive ::
                    Removes(after.jobs, view.value.removals, m) <==> Unclaimed(t.jobs, product, m))
  {
    hide Removed, OneEach, Unelected, NeverBoundOf, BoundOf, JobOn, RemovalOf, OnePerInventory, Removes, Unclaimed,
      JobStands;
    if OnePerInventory(MappingsOf(t, product)) { RemovesBoundIff(t, product, body, weather); }
    var bound := BoundOf(MappingsOf(t, product));
    BoundAreBound(MappingsOf(t, product));
    RemovalsInOrder(t.jobs, product, bound, body, weather);
    UnelectedAre(bound, body);
    RemovalsAre(t.jobs, product, bound, body, weather);
    var view := Deleted(t, product, body, weather).1.value;
    var (jobs, removed) := Removed(t.jobs, product, bound, body, weather);
    assert removed.Ok? && view.removals == removed.value && view.leftLive == Unelected(bound, body);
    forall m <- bound
      ensures (exists r <- view.removals :: r.inventory == m.inventory && r.mapping == m.id)
              <==> m.inventory !in view.leftLive
    {
      assert BoundOn(bound, m.inventory);
    }
  }

  // ------------------------------------------------------------ consent, and what a minted job says

  /** A job as a delete may mint it: of a bound mapping the body elects, on a platform with consent, as last seen. */
  ghost predicate RightlyMinted(job: Job, product: Product, bound: seq<Mapping>, body: Body, weather: Weather) {
    exists m <- bound ::
      && m.binding.Bound? && m.inventory in body.removeFrom && weather.consent(m.inventory)
      && job.key.product == product && job.key.inventory == m.inventory
      && job.mapping == m.id && job.listing == m.binding.listing && (job.state.Live? <==> m.live)
  }

  lemma RightlyOnMore(job: Job, product: Product, front: seq<Mapping>, m: Mapping, body: Body, weather: Weather)
    requires RightlyMinted(job, product, front, body, weather)
    ensures RightlyMinted(job, product, front + [m], body, weather)
  {
    var each :| each in front && each.binding.Bound? && each.inventory in body.removeFrom
                && weather.consent(each.inventory) && job.key.product == product
                && job.key.inventory == each.inventory && job.mapping == each.id
                && job.listing == each.binding.listing && (job.state.Live? <==> each.live);
    assert each in front + [m];
  }

  lemma JobIsRight(product: Product, bound: seq<Mapping>, m: Mapping, body: Body, weather: Weather)
    requires m in bound && m.binding.Bound? && m.inventory in body.removeFrom && weather.consent(m.inventory)
    ensures RightlyMinted(JobOf(product, m), product, bound, body, weather)
  {
  }

  lemma {:induction false} MintedRightly(
    jobs: seq<Job>, product: Product, bound: seq<Mapping>, body: Body, weather: Weather)
    requires forall m <- bound :: m.binding.Bound?
    ensures var (after, removed) := Removed(jobs, product, bound, body, weather);
            && jobs <= after
            && (forall i | |jobs| <= i < |after| :: RightlyMinted(after[i], product, bound, body, weather))
            && (removed.Ok? ==> forall m <- bound | m.inventory in body.removeFrom :: weather.consent(m.inventory))
  {
    hide RightlyMinted;
    if bound != [] {
      var (front, m) := (bound[..|bound| - 1], bound[|bound| - 1]);
      assert bound == front + [m];
      MintedRightly(jobs, product, front, body, weather);
      var (before, done) := Removed(jobs, product, front, body, weather);
      var after := Removed(jobs, product, bound, body, weather).0;
      forall i | |jobs| <= i < |after| ensures RightlyMinted(after[i], product, bound, body, weather) {
        if i < |before| {
          RightlyOnMore(before[i], product, front, m, body, weather);
        } else {
          JobIsRight(product, bound, m, body, weather);
        }
      }
    }
  }

  lemma {:induction false} ConsentRefusesIff(
    jobs: seq<Job>, product: Product, bound: seq<Mapping>, body: Body, weather: Weather)
    requires (forall m <- bound :: m.binding.Bound?) && forall n :: weather.mint(n).Answered?
    ensures var removed := Removed(jobs, product, bound, body, weather).1;
            && (removed.Err? <==> exists m <- bound :: m.inventory in body.removeFrom && !weather.consent(m.inventory))
            && (removed.Err? ==> removed.error == NoConsent)
  {
    hide Minted;
    if bound != [] {
      var (front, m) := (bound[..|bound| - 1], bound[|bound| - 1]);
      assert bound == front + [m];
      ConsentRefusesIff(jobs, product, front, body, weather);
    }
  }

  /**
   However a delete ends, every job it adds to the ledger is for a listing it
   was asked to remove, on a platform its tenant consented to, and says of that
   listing what was last seen of it; and one that completes had consent for
   every removal.
   */
  lemma OnlyConsentedRemovals(t: Tables, product: Product, body: Body, weather: Weather)
    ensures var (after, view) := Deleted(t, product, body, weather);
            var bound := BoundOf(MappingsOf(t, product));
            && t.jobs <= after.jobs
            && (forall i | |t.jobs| <= i < |after.jobs| ::
                  RightlyMinted(after.jobs[i], product, bound, body, weather))
            && (view.Ok? ==> forall m <- bound | m.inventory in body.removeFrom :: weather.consent(m.inventory))
            && after.mappings == t.mappings && (after.live == t.live || after.live == t.live - {product})
  {
    hide Removed, Unelected, NeverBoundOf, BoundOf, RightlyMinted;
    var bound := BoundOf(MappingsOf(t, product));
    BoundAreBound(MappingsOf(t, product));
    MintedRightly(t.jobs, product, bound, body, weather);
    var (jobs, removed) := Removed(t.jobs, product, bound, body, weather);
    var after := Deleted(t, product, body, weather).0;
    assert after.jobs == t.jobs || after.jobs == jobs;
  }

  lemma UnelectedNone(bound: seq<Mapping>, body: Body)
    ensures Unelected(bound, body) == [] <==> forall m <- bound :: m.inventory in body.removeFrom
  {
    hide Unelected;
    UnelectedAre(bound, body);
    if m :| m in bound && m.inventory !in body.removeFrom { assert BoundOn(bound, m.inventory); }
    if Unelected(bound, body) != [] { assert Unelected(bound, body)[0] in Unelected(bound, body); }
  }

  lemma {:induction false} NeverBoundAre(bound: seq<Mapping>, elected: seq<Inventory>)
    ensures forall inventory ::
              inventory in NeverBoundOf(bound, elected) <==> inventory in elected && !BoundOn(bound, inventory)
    ensures NeverBoundOf(bound, elected) == [] <==> forall inventory <- elected :: BoundOn(bound, inventory)
  {
    if elected != [] {
      NeverBoundAre(bound, elected[1..]);
      assert forall inventory <- elected :: inventory == elected[0] || inventory in elected[1..];
      assert elected[0] in elected && forall inventory <- elected[1..] :: inventory in elected;
    }
  }
  lemma {:induction false} RemovedNothingIff(
    jobs: seq<Job>, product: Product, bound: seq<Mapping>, body: Body, weather: Weather)
    requires forall m <- bound :: m.binding.Bound?
    requires Removed(jobs, product, bound, body, weather).1.Ok?
    ensures Removed(jobs, product, bound, body, weather).1.value == []
            <==> forall m <- bound :: m.inventory !in body.removeFrom
  {
    hide Minted;
    if bound != [] {
      var (front, m) := (bound[..|bound| - 1], bound[|bound| - 1]);
      assert bound == front + [m];
      RemovedNothingIff(jobs, product, front, body, weather);
    }
  }

  /**
   A delete that loses no call is refused for a listing it leaves bound and
   was not told to leave, then for a platform nothing is bound on, then for one
   it has no consent for, and then only where there was nothing to delete.
   */
  lemma DeleteRefusedIff(t: Tables, product: Product, body: Body, weather: Weather)
    requires weather.remove.Answered? && forall n :: weather.mint(n).Answered?
    ensures var (after, view) := Deleted(t, product, body, weather);
            var bound := BoundOf(MappingsOf(t, product));
            var left := !body.leaveLive && exists m <- bound :: m.inventory !in body.removeFrom;
            var astray := exists inventory <- body.removeFrom :: !BoundOn(bound, inventory);
            var unasked := exists m <- bound :: m.inventory in body.removeFrom && !weather.consent(m.inventory);
            var nothing := product !in t.live && forall m <- bound :: m.inventory !in body.removeFrom;
            && ((view.Err? && view.error.StillBound?) <==> left)
            && ((view.Err? && view.error.NeverBound?) <==> !left && astray)
            && (left ==> forall inventory ::
                  inventory in view.error.bound <==> BoundOn(bound, inventory) && inventory !in body.removeFrom)
            && (!left && astray ==> forall inventory ::
                  inventory in view.error.elected <==> inventory in body.removeFrom && !BoundOn(bound, inventory))
            && (view == Err(NoConsent) <==> !left && !astray && unasked)
            && (view == Err(NotFound) <==> !left && !astray && !unasked && nothing)
            && (view.Ok? <==> !left && !astray && !unasked && !nothing)
            && (view.Ok? || view == Err(NotFound) <==> after.live == t.live - {product} && !left && !astray && !unasked)
  {
    hide Removed, BoundOf, Minted;
    var bound := BoundOf(MappingsOf(t, product));
    BoundAreBound(MappingsOf(t, product));
    UnelectedNone(bound, body);
    UnelectedAre(bound, body);
    NeverBoundAre(bound, body.removeFrom);
    ConsentRefusesIff(t.jobs, product, bound, body, weather);
    hide Unelected, NeverBoundOf;
    if Removed(t.jobs, product, bound, body, weather).1.Ok? {
      RemovedNothingIff(t.jobs, product, bound, body, weather);
    }
  }

  // ------------------------------------------------------------ a delete tried again

  ghost predicate Calm(weather: Weather) {
    && weather.remove.Answered?
    && (forall inventory :: weather.consent(inventory)) && (forall n :: weather.mint(n).Answered?)
  }

  ghost predicate Covered(jobs: seq<Job>, product: Product, bound: seq<Mapping>, body: Body) {
    forall m <- bound :: m.inventory in body.removeFrom ==> JobFor(jobs, Key(product, m.inventory)).Some?
  }

  lemma JobForPrefix(jobs: seq<Job>, more: seq<Job>, key: Key)
    requires jobs <= more && JobFor(jobs, key).Some?
    ensures JobFor(more, key).Some?
  {
    var i := JobFor(jobs, key).value;
    assert more[i].key == key;
  }

  /** A pass over platforms that all have their job already mints nothing. */
  lemma {:induction false} CoveredMintsNothing(
    jobs: seq<Job>, product: Product, bound: seq<Mapping>, body: Body, weather: Weather)
    requires (forall m <- bound :: m.binding.Bound?) && Covered(jobs, product, bound, body)
    ensures Removed(jobs, product, bound, body, weather).0 == jobs
  {
    if bound != [] {
      var last := |bound| - 1;
      CoveredMintsNothing(jobs, product, bound[..last], body, weather);
    }
  }

  lemma {:induction false} CalmRemoves(
    jobs: seq<Job>, product: Product, bound: seq<Mapping>, body: Body, weather: Weather)
    requires (forall m <- bound :: m.binding.Bound?) && Calm(weather)
    ensures Removed(jobs, product, bound, body, weather).1.Ok?
    ensures Covered(Removed(jobs, product, bound, body, weather).0, product, bound, body)
    ensures jobs <= Removed(jobs, product, bound, body, weather).0
  {
    if bound != [] {
      var last := |bound| - 1;
      CalmRemoves(jobs, product, bound[..last], body, weather);
      var before := Removed(jobs, product, bound[..last], body, weather).0;
      var after := Removed(jobs, product, bound, body, weather).0;
      forall m <- bound[..last] | m.inventory in body.removeFrom
        ensures JobFor(after, Key(product, m.inventory)).Some?
      {
        JobForPrefix(before, after, Key(product, m.inventory));
      }
      assert forall m <- bound :: m == bound[last] || m in bound[..last];
      if bound[last].inventory in body.removeFrom {
        var key := Key(product, bound[last].inventory);
        assert JobFor(after, key).Some?;
      }
    }
  }

  lemma MintGrows(jobs: seq<Job>, job: Job)
    ensures jobs <= Minted(jobs, job).0
  {
  }

  lemma MintTwice(jobs: seq<Job>, job: Job)
    ensures Minted(Minted(jobs, job).0, job).0 == Minted(jobs, job).0
  {
  }

  lemma CoveredGrown(jobs: seq<Job>, more: seq<Job>, product: Product, bound: seq<Mapping>, body: Body)
    requires Covered(jobs, product, bound, body) && jobs <= more
    ensures Covered(more, product, bound, body)
  {
    forall m <- bound | m.inventory in body.removeFrom ensures JobFor(more, Key(product, m.inventory)).Some? {
      JobForPrefix(jobs, more, Key(product, m.inventory));
    }
  }

  /** An attempt whose removals all answered minted what a calm one mints. */
  lemma {:induction false} StormyWhole(
    jobs: seq<Job>, product: Product, bound: seq<Mapping>, body: Body, stormy: Weather, calm: Weather)
    requires (forall m <- bound :: m.binding.Bound?) && Calm(calm)
    requires Removed(jobs, product, bound, body, stormy).1.Ok?
    ensures Removed(jobs, product, bound, body, stormy).0 == Removed(jobs, product, bound, body, calm).0
    ensures Covered(Removed(jobs, product, bound, body, stormy).0, product, bound, body)
  {
    hide Minted, Covered;
    CalmRemoves(jobs, product, bound, body, calm);
    if bound != [] {
      StormyWhole(jobs, product, bound[..|bound| - 1], body, stormy, calm);
      CalmRemoves(jobs, product, bound[..|bound| - 1], body, calm);
    }
  }

  /** However far an attempt got, a calm one after it ends where a calm one alone would have. */
  lemma {:induction false} RetryMintsTheSame(
    jobs: seq<Job>, product: Product, bound: seq<Mapping>, body: Body, stormy: Weather, calm: Weather)
    requires (forall m <- bound :: m.binding.Bound?) && Calm(calm)
    ensures var partly := Removed(jobs, product, bound, body, stormy).0;
            Removed(partly, product, bound, body, calm).0 == Removed(jobs, product, bound, body, calm).0
    ensures Removed(jobs, product, bound, body, stormy).0 <= Removed(jobs, product, bound, body, calm).0
  {
    hide Minted, Covered;
    if bound != [] {
      var last := |bound| - 1;
      var front := bound[..last];
      RetryMintsTheSame(jobs, product, front, body, stormy, calm);
      var (before, done) := Removed(jobs, product, front, body, stormy);
      var whole := Removed(jobs, product, front, body, calm).0;
      CalmRemoves(jobs, product, front, body, calm);
      CalmRemoves(before, product, front, body, calm);
      MintGrows(whole, JobOf(product, bound[last]));
      if done.Ok? {
        StormyWhole(jobs, product, front, body, stormy, calm);
        if bound[last].inventory in body.removeFrom && stormy.consent(bound[last].inventory)
           && !stormy.mint(last).Refused? {
          var after := Minted(before, JobOf(product, bound[last])).0;
          MintGrows(before, JobOf(product, bound[last]));
          CoveredGrown(before, after, product, front, body);
          CoveredMintsNothing(after, product, front, body, calm);
          CalmRemoves(after, product, front, body, calm);
          MintTwice(before, JobOf(product, bound[last]));
        }
      }
    }
  }

  lemma CalmAnswers(weather: Weather)
    requires Calm(weather)
    ensures weather.remove.Answered?
  {
  }

  lemma {:induction false} RemovalsEmptyIff(
    a: seq<Job>, b: seq<Job>, product: Product, bound: seq<Mapping>, body: Body, calm: Weather)
    requires (forall m <- bound :: m.binding.Bound?) && Calm(calm)
    ensures Removed(a, product, bound, body, calm).1.Ok? && Removed(b, product, bound, body, calm).1.Ok?
    ensures Removed(a, product, bound, body, calm).1.value == []
            <==> Removed(b, product, bound, body, calm).1.value == []
  {
    hide Minted;
    if bound != [] { RemovalsEmptyIff(a, b, product, bound[..|bound| - 1], body, calm); }
  }

  /**
   A delete tried again after failing anywhere completes with the ledger an
   undisturbed delete would have left, as long as there is still something to
   delete or to remove.
   */
  lemma RetryCompletes(t: Tables, product: Product, body: Body, stormy: Weather, calm: Weather)
    requires Calm(calm) && Deleted(t, product, body, calm).1.Ok?
    ensures var partly := Deleted(t, product, body, stormy).0;
            var (again, view) := Deleted(partly, product, body, calm);
            && again == Deleted(t, product, body, calm).0
            && (view.Ok? <==> product in partly.live || Deleted(t, product, body, calm).1.value.removals != [])
            && (view.Err? ==> view.error == NotFound)
  {
    hide Unelected, NeverBoundOf, BoundOf, Calm;
    var bound := BoundOf(MappingsOf(t, product));
    BoundAreBound(MappingsOf(t, product));
    RetryMintsTheSame(t.jobs, product, bound, body, stormy, calm);
    var partly := Deleted(t, product, body, stormy).0;
    assert MappingsOf(partly, product) == MappingsOf(t, product);
    CalmAnswers(calm);
    CalmRemoves(partly.jobs, product, bound, body, calm);
    CalmRemoves(t.jobs, product, bound, body, calm);
    RemovalsEmptyIff(partly.jobs, t.jobs, product, bound, body, calm);
    hide Removed;
    assert Removed(partly.jobs, product, bound, body, calm).0 == Removed(t.jobs, product, bound, body, calm).0;
  }

  // ------------------------------------------------------------ a listing bound again in between

  lemma OneBound(m: Mapping)
    requires m.binding.Bound?
    ensures BoundOf([m]) == [m]
  {
    assert [m][1..] == [];
  }

  lemma OneRemoved(jobs: seq<Job>, product: Product, m: Mapping, body: Body, weather: Weather)
    requires m.binding.Bound? && m.inventory in body.removeFrom
    requires weather.consent(m.inventory) && weather.mint(0).Answered?
    ensures var (after, job) := Minted(jobs, JobOf(product, m));
            Removed(jobs, product, [m], body, weather) == (after, Ok([Removal(m.inventory, job, m.id)]))
  {
    hide Minted;
    assert [m][..0] == [];
    var none: seq<Removal> := [];
    assert Removed(jobs, product, [], body, weather) == (jobs, Ok(none));
    assert none + [Removal(m.inventory, Minted(jobs, JobOf(product, m)).1, m.id)]
        == [Removal(m.inventory, Minted(jobs, JobOf(product, m)).1, m.id)];
  }

  /** A listing bound after an unfinished delete can outlive the delete that follows it. */
  lemma RelistedStaysUp(calm: Weather) returns (t: Tables, again: Tables)
    requires Calm(calm)
    ensures var first := calm.(remove := Refused);
            && t.jobs == [] && 0 in t.live && MappingsOf(t, 0) == [Mapping(7, 1, Bound(100), true)]
            && Deleted(t, 0, Body([1], false), first).1 == Err(Lost)
            && again == Deleted(t, 0, Body([1], false), first).0.(
                 mappings := map[0 := [Mapping(7, 1, Bound(200), true)]])
    ensures var (after, view) := Deleted(again, 0, Body([1], false), calm);
            && view.Ok? && |view.value.removals| == 1
            && after.jobs[view.value.removals[0].job].listing == 100
            && forall job <- after.jobs :: job.listing != 200
  {
    t := Tables(map[0 := [Mapping(7, 1, Bound(100), true)]], [], {0});
    var body := Body([1], false);
    var (was, now) := (Mapping(7, 1, Bound(100), true), Mapping(7, 1, Bound(200), true));
    var first := calm.(remove := Refused);
    OneBound(was);
    OneBound(now);
    OneRemoved([], 0, was, body, first);
    assert Unelected([was], body) == [] && Unelected([now], body) == [] by {
      assert [was][1..] == [] && [now][1..] == [];
    }
    assert NeverBoundOf([was], [1]) == [] && NeverBoundOf([now], [1]) == [] by {
      assert [1][1..] == [];
      assert was in [was] && now in [now];
    }
    again := Deleted(t, 0, body, first).0.(mappings := map[0 := [now]]);
    assert again.jobs == [JobOf(0, was)];
    OneRemoved(again.jobs, 0, now, body, calm);
    assert JobFor(again.jobs, Key(0, 1)) == Some(0);
  }
}
