/**
 Publishing a collection to one marketplace: its plan, its confirm and the plan
 after it (crates/tam-api/src/collections.rs), through the lowering table
 (crates/tam-storage/src/lowering.rs).
 */
module CollectionPublish {
  import opened Listings
  import opened Wrappers

  type Product = nat
  type MappingId = nat
  type Listing = nat
  type RequestKey = nat
  type JobId = nat

  datatype Inventory = Tes | Tpt | Etsy

  datatype BindingState = Unbound | Severed | Bound | InFlight

  datatype Lifecycle = IsDraft | IsLive | Unstated

  /** A mapping on the target as the plan reads it. */
  datatype Head = Head(id: MappingId, binding: BindingState, lifecycle: Lifecycle, remote: Option<Listing>)

  datatype Operation =
    | Create
    | Publish(to: ListingState)
    | Revise(subject: Listing, from: ListingState, into: ListingState)

  datatype Refusal = LifecycleUnknown | UncapturedTransition | SubjectUnnamed | CreateInFlight

  // ------------------------------------------------------------ the lowering table

  predicate Uncaptured(inventory: Inventory, from: ListingState) { inventory.Tes? && from.Live? }

  /** A stated intent against one mapping, as the writes that realise it. */
  function Lower(to: ListingState, inventory: Inventory, head: Head): (operations: Result<seq<Operation>, Refusal>)
    ensures operations.Ok? ==> operations.value != []
  {
    match head.binding
    case Unbound | Severed => Ok(if to.Draft? then [Create] else [Create, Publish(to)])
    case InFlight => Err(CreateInFlight)
    case Bound =>
      if head.lifecycle.Unstated? then Err(LifecycleUnknown)
      else
        var from := if head.lifecycle.IsLive? then Live else Draft;
        if Uncaptured(inventory, from) then Err(UncapturedTransition)
        else if head.remote.None? then Err(SubjectUnnamed)
        else Ok([Revise(head.remote.value, from, to)])
  }

  /** What one write makes of a listing's state, where it is made on the state it expects. */
  function Realised(state: Option<ListingState>, operation: Operation): Option<Option<ListingState>> {
    match operation
    case Create => if state.None? then Some(Some(Draft)) else None
    case Publish(to) => if state == Some(Draft) then Some(Some(to)) else None
    case Revise(_, from, into) => if state == Some(from) then Some(Some(into)) else None
  }

  function RealisedAll(state: Option<ListingState>, operations: seq<Operation>): Option<Option<ListingState>> {
    if operations == [] then Some(state)
    else
      var before := RealisedAll(state, operations[..|operations| - 1]);
      if before.None? then None else Realised(before.value, operations[|operations| - 1])
  }

  /** What a mapping says is on the marketplace: nothing, or its listing in the state last seen. */
  function Standing(head: Head): Option<ListingState> {
    if !head.binding.Bound? then None else if head.lifecycle.IsLive? then Some(Live) else Some(Draft)
  }

  /**
   A stated intent lowers to writes exactly where nothing is bound, or the
   listing bound is named, in a known state, and one the marketplace can leave;
   and the writes, made in order, each find the state they expect and end at
   the state asked for.
   */
  lemma LoweredReaches(to: ListingState, inventory: Inventory, head: Head)
    ensures Lower(to, inventory, head).Ok?
            <==> || head.binding.Unbound? || head.binding.Severed?
                 || (head.binding.Bound? && !head.lifecycle.Unstated? && head.remote.Some?
                     && !(inventory.Tes? && head.lifecycle.IsLive?))
    ensures Lower(to, inventory, head).Ok? ==>
              && RealisedAll(Standing(head), Lower(to, inventory, head).value) == Some(Some(to))
              && forall operation <- Lower(to, inventory, head).value ::
                   operation.Revise? ==> head.remote == Some(operation.subject)
  {
    var lowered := Lower(to, inventory, head);
    if lowered.Ok? {
      var operations := lowered.value;
      assert operations[..|operations| - 1] == if |operations| == 1 then [] else [Create];
      assert [Create][..0] == [];
    }
  }

  // ------------------------------------------------------------ the tables a plan reads

  datatype Item = Item(job: JobId, mapping: MappingId, operation: Operation, settled: bool)

  /** The target's mappings by product, the job ledger's items and the request keys its jobs were minted under. */
  datatype Tables = Tables(heads: map<Product, Head>, items: seq<Item>, keys: map<RequestKey, JobId>, next: nat)

  /** What the plan asks of the catalogue and the platform beside them. */
  datatype Facts = Facts(
    inventory: Inventory, payload: Product -> bool, blocked: Product -> Option<string>, halted: Option<string>)

  predicate Open(items: seq<Item>, mapping: MappingId) {
    exists i | 0 <= i < |items| :: items[i].mapping == mapping && !items[i].settled
  }

  datatype Verdict = WillCreate | AlreadyThere | Blocked

  datatype Row = Row(product: Product, verdict: Verdict, remote: Option<Listing>)

  datatype Counts = Counts(willCreate: nat, alreadyThere: nat, blocked: nat)

  datatype Plan = Plan(rows: seq<Row>, counts: Counts, admitted: seq<Product>)

  function HeadOf(t: Tables, product: Product): Option<Head> {
    if product in t.heads then Some(t.heads[product]) else None
  }

  predicate CreationBlocked(facts: Facts, product: Product) { !facts.payload(product) || facts.blocked(product).Some? }

  /** One member's row: the first of the plan's questions that refuses it, in the plan's order. */
  function RowOf(t: Tables, facts: Facts, to: ListingState, product: Product): Row {
    var head := HeadOf(t, product);
    if head.Some? && head.value.remote.Some? then Row(product, AlreadyThere, head.value.remote)
    else if CreationBlocked(facts, product) || facts.halted.Some? then Row(product, Blocked, None)
    else if head.Some? && Open(t.items, head.value.id) then Row(product, Blocked, None)
    else if head.Some? && Lower(to, facts.inventory, head.value).Err? then Row(product, Blocked, None)
    else Row(product, WillCreate, None)
  }

  function Tally(rows: seq<Row>, verdict: Verdict): nat {
    if rows == [] then 0 else Tally(rows[..|rows| - 1], verdict) + if rows[|rows| - 1].verdict == verdict then 1 else 0
  }

  function AdmittedOf(rows: seq<Row>): seq<Product> {
    if rows == [] then []
    else AdmittedOf(rows[..|rows| - 1])
         + if rows[|rows| - 1].verdict.WillCreate? then [rows[|rows| - 1].product] else []
  }

  ghost predicate PlanFor(t: Tables, facts: Facts, to: ListingState, members: seq<Product>, plan: Plan) {
    && |plan.rows| == |members| && (forall i | 0 <= i < |members| :: plan.rows[i] == RowOf(t, facts, to, members[i]))
    && plan.counts == Counts(Tally(plan.rows, WillCreate), Tally(plan.rows, AlreadyThere), Tally(plan.rows, Blocked))
    && plan.admitted == AdmittedOf(plan.rows)
  }

  function Counted(counts: Counts, verdict: Verdict): Counts {
    match verdict
    case WillCreate => counts.(willCreate := counts.willCreate + 1)
    case AlreadyThere => counts.(alreadyThere := counts.alreadyThere + 1)
    case Blocked => counts.(blocked := counts.blocked + 1)
  }

  lemma RowNames(t: Tables, facts: Facts, to: ListingState, members: seq<Product>)
    ensures forall i | 0 <= i < |members| :: RowOf(t, facts, to, members[i]).product == members[i]
  {
  }

  /** One member more: its row, its count, and its admission where it is a create. */
  lemma PlanGrows(t: Tables, facts: Facts, to: ListingState, members: seq<Product>, plan: Plan, member: Product)
    requires PlanFor(t, facts, to, members, plan)
    ensures var row := RowOf(t, facts, to, member);
            PlanFor(t, facts, to, members + [member],
                    Plan(plan.rows + [row], Counted(plan.counts, row.verdict),
                         if row.verdict.WillCreate? then plan.admitted + [member] else plan.admitted))
  {
    RowNames(t, facts, to, [member]);
    hide RowOf;
    var rows := plan.rows + [RowOf(t, facts, to, member)];
    assert rows[..|plan.rows|] == plan.rows;
  }

  lemma NothingPlanned(t: Tables, facts: Facts, to: ListingState, members: seq<Product>)
    ensures PlanFor(t, facts, to, members[..0], Plan([], Counts(0, 0, 0), []))
  {
  }

  /** The preview: one row per member in the members' order, and nothing written. */
  method PublishPlan(t: Tables, facts: Facts, to: ListingState, members: seq<Product>) returns (plan: Plan)
    ensures PlanFor(t, facts, to, members, plan)
  {
    hide Lower, CreationBlocked, Open, PlanFor;
    var rows: seq<Row> := [];
    var counts := Counts(0, 0, 0);
    var admitted: seq<Product> := [];
    NothingPlanned(t, facts, to, members);
    for i := 0 to |members|
      invariant PlanFor(t, facts, to, members[..i], Plan(rows, counts, admitted))
    {
      var member := members[i];
      PlanGrows(t, facts, to, members[..i], Plan(rows, counts, admitted), member);
      assert members[..i + 1] == members[..i] + [member];
      var head := HeadOf(t, member);
      var row: Row;
      if head.Some? && head.value.remote.Some? {
        row := Row(member, AlreadyThere, head.value.remote);
        counts := counts.(alreadyThere := counts.alreadyThere + 1);
      } else if CreationBlocked(facts, member) || facts.halted.Some? {
        row := Row(member, Blocked, None);
        counts := counts.(blocked := counts.blocked + 1);
      } else if head.Some? && Open(t.items, head.value.id) {
        row := Row(member, Blocked, None);
        counts := counts.(blocked := counts.blocked + 1);
      } else if head.Some? && Lower(to, facts.inventory, head.value).Err? {
        row := Row(member, Blocked, None);
        counts := counts.(blocked := counts.blocked + 1);
      } else {
        row := Row(member, WillCreate, None);
        counts := counts.(willCreate := counts.willCreate + 1);
        admitted := admitted + [member];
      }
      rows := rows + [row];
    }
    assert members[..|members|] == members;
    plan := Plan(rows, counts, admitted);
  }

  // ------------------------------------------------------------ what a plan says

  lemma {:induction false} TalliesSum(rows: seq<Row>)
    ensures Tally(rows, WillCreate) + Tally(rows, AlreadyThere) + Tally(rows, Blocked) == |rows|
    ensures |AdmittedOf(rows)| == Tally(rows, WillCreate)
  {
    if rows != [] { TalliesSum(rows[..|rows| - 1]); }
  }

  lemma {:induction false} AdmittedAre(rows: seq<Row>, product: Product)
    ensures product in AdmittedOf(rows)
            <==> exists i | 0 <= i < |rows| :: rows[i].product == product && rows[i].verdict.WillCreate?
  {
    if rows != [] {
      var front := rows[..|rows| - 1];
      AdmittedAre(front, product);
      assert forall i | 0 <= i < |front| :: front[i] == rows[i];
    }
  }

  /** What a resource needs for a create to be admitted. */
  ghost predicate Creatable(t: Tables, facts: Facts, to: ListingState, product: Product) {
    && !CreationBlocked(facts, product) && facts.halted.None?
    && (product in t.heads ==>
          && t.heads[product].remote.None? && !Open(t.items, t.heads[product].id)
          && (t.heads[product].binding.Unbound? || t.heads[product].binding.Severed?))
  }

  /** A member is admitted exactly when nothing of it is on the target, on its way there, or in its way. */
  lemma WillCreateIff(t: Tables, facts: Facts, to: ListingState, product: Product)
    ensures RowOf(t, facts, to, product).verdict.WillCreate? <==> Creatable(t, facts, to, product)
  {
  }

  /** A member is there already, under the listing its row names, exactly when its mapping on the target names one. */
  lemma AlreadyThereIff(t: Tables, facts: Facts, to: ListingState, product: Product)
    ensures var row := RowOf(t, facts, to, product);
            && row.product == product
            && (row.verdict.AlreadyThere? <==> product in t.heads && t.heads[product].remote.Some?)
            && row.remote == (if product in t.heads then t.heads[product].remote else None)
            && (row.verdict.Blocked? <==>
                  && (product in t.heads ==> t.heads[product].remote.None?)
                  && (|| !facts.payload(product) || facts.blocked(product).Some? || facts.halted.Some?
                      || (product in t.heads
                          && (Open(t.items, t.heads[product].id)
                              || t.heads[product].binding.Bound? || t.heads[product].binding.InFlight?))))
  {
  }

  /** A plan accounts for every member: three counts summing to the membership, and the admitted exactly the creates. */
  lemma PlanAccounts(t: Tables, facts: Facts, to: ListingState, members: seq<Product>, plan: Plan)
    requires PlanFor(t, facts, to, members, plan)
    ensures plan.counts.willCreate + plan.counts.alreadyThere + plan.counts.blocked == |members|
    ensures |plan.admitted| == plan.counts.willCreate
    ensures forall product :: product in plan.admitted <==> product in members && Creatable(t, facts, to, product)
  {
    hide Creatable, RowOf;
    TalliesSum(plan.rows);
    forall product ensures product in plan.admitted <==> product in members && Creatable(t, facts, to, product) {
      AdmittedAre(plan.rows, product);
      WillCreateIff(t, facts, to, product);
      RowNames(t, facts, to, members);
      if product in members {
        var i :| 0 <= i < |members| && members[i] == product;
        assert plan.rows[i] == RowOf(t, facts, to, members[i]);
      }
    }
  }

  ghost function PlacesOf(rows: seq<Row>, verdict: Verdict): set<nat> {
    set i: nat | i < |rows| && rows[i].verdict == verdict
  }

  lemma PlacesMore(rows: seq<Row>, row: Row, verdict: Verdict)
    ensures PlacesOf(rows + [row], verdict)
         == PlacesOf(rows, verdict) + if row.verdict == verdict then {|rows|} else {}
    ensures |rows| !in PlacesOf(rows, verdict)
  {
    var more := rows + [row];
    assert more[|rows|] == row && forall i: nat | i < |rows| :: more[i] == rows[i];
  }

  lemma {:induction false} TallyIs(rows: seq<Row>, verdict: Verdict)
    ensures Tally(rows, verdict) == |PlacesOf(rows, verdict)|
  {
    if rows == [] {
      assert PlacesOf(rows, verdict) == {};
    } else {
      var (front, n) := (rows[..|rows| - 1], |rows| - 1);
      TallyIs(front, verdict);
      PlacesMore(front, rows[n], verdict);
      assert rows == front + [rows[n]];
    }
  }

  /** Each count is the number of members it speaks of: those to create, those bound already, and the others. */
  lemma PlanCounts(t: Tables, facts: Facts, to: ListingState, members: seq<Product>, plan: Plan)
    requires PlanFor(t, facts, to, members, plan)
    ensures plan.counts.willCreate == |set i: nat | i < |members| && Creatable(t, facts, to, members[i])|
    ensures plan.counts.alreadyThere
         == |set i: nat | i < |members| && members[i] in t.heads && t.heads[members[i]].remote.Some?|
  {
    hide RowOf, Creatable;
    TallyIs(plan.rows, WillCreate);
    TallyIs(plan.rows, AlreadyThere);
    forall i: nat | i < |members|
      ensures plan.rows[i].verdict.WillCreate? <==> Creatable(t, facts, to, members[i])
      ensures plan.rows[i].verdict.AlreadyThere?
              <==> members[i] in t.heads && t.heads[members[i]].remote.Some?
    {
      WillCreateIff(t, facts, to, members[i]);
      AlreadyThereIff(t, facts, to, members[i]);
    }
    assert PlacesOf(plan.rows, WillCreate) == set i: nat | i < |members| && Creatable(t, facts, to, members[i]);
    assert PlacesOf(plan.rows, AlreadyThere)
        == set i: nat | i < |members| && members[i] in t.heads && t.heads[members[i]].remote.Some?;
  }

  /** Where in the plan each of these products stands, in order. */
  ghost predicate StandAt(rows: seq<Row>, products: seq<Product>, at: seq<nat>) {
    && |at| == |products|
    && (forall k | 0 <= k < |at| ::
          at[k] < |rows| && rows[at[k]].verdict.WillCreate? && products[k] == rows[at[k]].product)
    && (forall k, l | 0 <= k < l < |at| :: at[k] < at[l])
  }

  lemma StandMore(rows: seq<Row>, products: seq<Product>, at: seq<nat>, row: Row)
    requires StandAt(rows, products, at)
    ensures StandAt(rows + [row], products, at)
    ensures row.verdict.WillCreate? ==> StandAt(rows + [row], products + [row.product], at + [|rows|])
  {
    var more := rows + [row];
    assert more[|rows|] == row && forall i | 0 <= i < |rows| :: more[i] == rows[i];
  }

  /** The admitted stand in the plan in the members' own order, each at its place. */
  lemma {:induction false} AdmittedInOrder(rows: seq<Row>) returns (at: seq<nat>)
    ensures StandAt(rows, AdmittedOf(rows), at)
  {
    at := [];
    if rows != [] {
      var (front, row) := (rows[..|rows| - 1], rows[|rows| - 1]);
      assert rows == front + [row];
      at := AdmittedInOrder(front);
      StandMore(front, AdmittedOf(front), at, row);
      if row.verdict.WillCreate? { at := at + [|front|]; }
    }
  }

  // ------------------------------------------------------------ the confirm

  /** The mapping a create is written against: the one there, or one minted unbound. */
  function Minted(t: Tables, product: Product): Tables {
    if product in t.heads then t
    else t.(heads := t.heads[product := Head(t.next, Unbound, Unstated, None)], next := t.next + 1)
  }

  function MintedAll(t: Tables, products: seq<Product>): Tables {
    if products == [] then t else Minted(MintedAll(t, products[..|products| - 1]), products[|products| - 1])
  }

  function ItemsOf(job: JobId, mapping: MappingId, operations: seq<Operation>): seq<Item> {
    seq(|operations|, i requires 0 <= i < |operations| => Item(job, mapping, operations[i], false))
  }

  /** The items of a list of products, or the first refusal of the table. A product with no file yields none. */
  function Seeded(t: Tables, facts: Facts, to: ListingState, job: JobId, products: seq<Product>)
    : Result<seq<Item>, Refusal>
    requires forall product <- products :: product in t.heads
  {
    if products == [] then Ok([])
    else
      var last := products[|products| - 1];
      match Seeded(t, facts, to, job, products[..|products| - 1])
      case Err(refusal) => Err(refusal)
      case Ok(items) =>
        if !facts.payload(last) then Ok(items)
        else
          match Lower(to, facts.inventory, t.heads[last])
          case Err(refusal) => Err(refusal)
          case Ok(operations) => Ok(items + ItemsOf(job, t.heads[last].id, operations))
  }

  datatype Ack = Ack(job: Option<JobId>, queued: nat, skipped: nat)

  lemma {:induction false} AllMinted(t: Tables, products: seq<Product>)
    ensures forall product <- products :: product in MintedAll(t, products).heads
    ensures forall product <- t.heads ::
              product in MintedAll(t, products).heads && MintedAll(t, products).heads[product] == t.heads[product]
    ensures forall product | product in MintedAll(t, products).heads && product !in t.heads ::
              && t.next <= MintedAll(t, products).heads[product].id < MintedAll(t, products).next
              && MintedAll(t, products).heads[product]
                 == Head(MintedAll(t, products).heads[product].id, Unbound, Unstated, None)
    ensures t.next <= MintedAll(t, products).next
    ensures MintedAll(t, products).items == t.items && MintedAll(t, products).keys == t.keys
  {
    if products != [] {
      AllMinted(t, products[..|products| - 1]);
      assert forall product <- products :: product in products[..|products| - 1] || product == products[|products| - 1];
    }
  }

  /** The confirm, over the tables it planned on: mappings minted, items lowered, one job under the caller's key. */
  function Confirmed(t: Tables, facts: Facts, to: ListingState, members: seq<Product>, plan: Plan, key: RequestKey)
    : (Tables, Result<Ack, Refusal>)
  {
    var skipped := plan.counts.alreadyThere + plan.counts.blocked;
    if plan.admitted == [] then (t, Ok(Ack(None, 0, skipped)))
    else
      var minted := MintedAll(t, plan.admitted);
      AllMinted(t, plan.admitted);
      var job := minted.next;
      match Seeded(minted, facts, to, job, plan.admitted)
      case Err(refusal) => (minted, Err(refusal))
      case Ok(items) =>
        if items == [] then (minted, Ok(Ack(None, 0, skipped)))
        else if key in minted.keys then (minted, Ok(Ack(Some(minted.keys[key]), plan.counts.willCreate, skipped)))
        else
          (minted.(items := minted.items + items, keys := minted.keys[key := job], next := job + 1),
           Ok(Ack(Some(job), plan.counts.willCreate, skipped)))
  }

  lemma {:induction false} SeededStops(t: Tables, facts: Facts, to: ListingState, job: JobId, products: seq<Product>,
                                       k: nat)
    requires (forall product <- products :: product in t.heads) && k <= |products|
    requires Seeded(t, facts, to, job, products[..k]).Err?
    ensures Seeded(t, facts, to, job, products) == Seeded(t, facts, to, job, products[..k])
  {
    hide Lower;
    if k == |products| {
      assert products[..k] == products;
    } else {
      assert products[..|products| - 1][..k] == products[..k];
      SeededStops(t, facts, to, job, products[..|products| - 1], k);
    }
  }

  class Shop {
    var heads: map<Product, Head>
    var items: seq<Item>
    var keys: map<RequestKey, JobId>
    var next: nat

    constructor (t: Tables)
      ensures Value() == t
    {
      heads, items, keys, next := t.heads, t.items, t.keys, t.next;
    }

    function Value(): Tables
      reads this
    {
      Tables(heads, items, keys, next)
    }

    method Mint(product: Product) returns (mapping: MappingId)
      modifies this`heads, this`next
      ensures Value() == Minted(old(Value()), product)
      ensures product in heads && mapping == heads[product].id
    {
      if product !in heads {
        heads := heads[product := Head(next, Unbound, Unstated, None)];
        next := next + 1;
      }
      mapping := heads[product].id;
    }

    method CreateWithRequestKey(key: RequestKey, job: JobId, added: seq<Item>) returns (created: JobId)
      modifies this`items, this`keys
      ensures created == if key in old(keys) then old(keys)[key] else job
      ensures items == if key in old(keys) then old(items) else old(items) + added
      ensures keys == if key in old(keys) then old(keys) else old(keys)[key := job]
    {
      if key in keys { return keys[key]; }
      items, keys := items + added, keys[key := job];
      return job;
    }

    method MintAll(products: seq<Product>)
      modifies this`heads, this`next
      ensures Value() == MintedAll(old(Value()), products)
    {
      hide Minted;
      for i := 0 to |products|
        invariant Value() == MintedAll(old(Value()), products[..i])
      {
        assert products[..i + 1][..i] == products[..i];
        var mapping := Mint(products[i]);
      }
      assert products[..|products|] == products;
    }

    method SeedItems(facts: Facts, to: ListingState, job: JobId, products: seq<Product>)
      returns (items: Result<seq<Item>, Refusal>)
      requires forall product <- products :: product in heads
      ensures items == Seeded(Value(), facts, to, job, products)
    {
      hide Lower, ItemsOf;
      var added: seq<Item> := [];
      for i := 0 to |products|
        invariant Seeded(Value(), facts, to, job, products[..i]) == Ok(added)
      {
        assert products[..i + 1][..i] == products[..i];
        var product := products[i];
        if facts.payload(product) {
          var operations := Lower(to, facts.inventory, heads[product]);
          if operations.Err? {
            SeededStops(Value(), facts, to, job, products, i + 1);
            return Err(operations.error);
          }
          added := added + ItemsOf(job, heads[product].id, operations.value);
        }
      }
      assert products[..|products|] == products;
      return Ok(added);
    }

    method Confirm(facts: Facts, to: ListingState, members: seq<Product>, key: RequestKey)
      returns (ack: Result<Ack, Refusal>, ghost plan: Plan)
      modifies this
      ensures PlanFor(old(Value()), facts, to, members, plan)
      ensures Value() == Confirmed(old(Value()), facts, to, members, plan, key).0
      ensures ack == Confirmed(old(Value()), facts, to, members, plan, key).1
    {
      hide PlanFor, MintedAll, Seeded;
      var made := PublishPlan(Value(), facts, to, members);
      plan := made;
      var skipped := made.counts.alreadyThere + made.counts.blocked;
      if made.admitted == [] { return Ok(Ack(None, 0, skipped)), plan; }
      AllMinted(Value(), made.admitted);
      MintAll(made.admitted);
      var job := next;
      var added := SeedItems(facts, to, job, made.admitted);
      if added.Err? { return Err(added.error), plan; }
      if added.value == [] { return Ok(Ack(None, 0, skipped)), plan; }
      var replay := key in keys;
      var created := CreateWithRequestKey(key, job, added.value);
      if !replay { next := job + 1; }
      return Ok(Ack(Some(created), made.counts.willCreate, skipped)), plan;
    }
  }

  // ------------------------------------------------------------ what a confirm leaves

  /** Identifiers are minted once, so no item names a mapping still to be made. */
  ghost predicate Minting(t: Tables) {
    && (forall i | 0 <= i < |t.items| :: t.items[i].mapping < t.next)
    && (forall product <- t.heads :: t.heads[product].id < t.next)
  }

  lemma AdmittedLowers(t: Tables, facts: Facts, to: ListingState, products: seq<Product>, product: Product)
    requires product in products && Creatable(t, facts, to, product)
    ensures var minted := MintedAll(t, products);
            product in minted.heads && facts.payload(product) && Lower(to, facts.inventory, minted.heads[product]).Ok?
  {
    AllMinted(t, products);
  }

  /** What is queued of an admitted resource is its create, and its publication after it where that was asked. */
  lemma AdmittedIsCreated(t: Tables, facts: Facts, to: ListingState, products: seq<Product>, product: Product)
    requires product in products && Creatable(t, facts, to, product)
    ensures var minted := MintedAll(t, products);
            && product in minted.heads
            && Lower(to, facts.inventory, minted.heads[product])
               == Ok([Create] + if to.Live? then [Publish(Live)] else [])
            && (product in t.heads ==> minted.heads[product] == t.heads[product])
            && (product !in t.heads ==> minted.heads[product].id >= t.next)
  {
    AllMinted(t, products);
    hide MintedAll, CreationBlocked, Open;
    assert [Create] + [] == [Create] && [Create] + [Publish(Live)] == [Create, Publish(Live)];
  }

  /** Every product of a list that lowers gets its items, open and under its own mapping. */
  lemma {:induction false} SeededAll(t: Tables, facts: Facts, to: ListingState, job: JobId, products: seq<Product>)
    requires forall product <- products ::
               product in t.heads && facts.payload(product) && Lower(to, facts.inventory, t.heads[product]).Ok?
    ensures var seeded := Seeded(t, facts, to, job, products);
            && seeded.Ok? && (products != [] ==> seeded.value != [])
            && (forall product <- products :: Open(seeded.value, t.heads[product].id))
            && (forall i | 0 <= i < |seeded.value| ::
                  exists product <- products :: seeded.value[i].mapping == t.heads[product].id)
  {
    hide Lower;
    if products != [] {
      var (front, last) := (products[..|products| - 1], products[|products| - 1]);
      assert products == front + [last];
      SeededAll(t, facts, to, job, front);
      var before := Seeded(t, facts, to, job, front).value;
      var operations := Lower(to, facts.inventory, t.heads[last]).value;
      var added := ItemsOf(job, t.heads[last].id, operations);
      var after := before + added;
      assert operations != [];
      assert after[|before|] == added[0] && Open(after, t.heads[last].id);
      forall product <- front ensures Open(after, t.heads[product].id) {
        var i :| 0 <= i < |before| && before[i].mapping == t.heads[product].id && !before[i].settled;
        assert after[i] == before[i];
      }
      forall i | 0 <= i < |after| ensures exists product <- products :: after[i].mapping == t.heads[product].id {
        if i < |before| {
          var product :| product in front && before[i].mapping == t.heads[product].id;
          assert product in products;
        } else {
          assert last in products && after[i].mapping == t.heads[last].id;
        }
      }
    }
  }

  lemma PlanSeeds(t: Tables, facts: Facts, to: ListingState, members: seq<Product>, plan: Plan)
    requires PlanFor(t, facts, to, members, plan)
    ensures var minted := MintedAll(t, plan.admitted);
            forall product <- plan.admitted ::
              product in minted.heads && facts.payload(product) && Lower(to, facts.inventory, minted.heads[product]).Ok?
  {
    hide PlanFor, Creatable, Lower, MintedAll;
    PlanAccounts(t, facts, to, members, plan);
    forall product <- plan.admitted
      ensures var minted := MintedAll(t, plan.admitted);
              product in minted.heads && facts.payload(product) && Lower(to, facts.inventory, minted.heads[product]).Ok?
    {
      AdmittedLowers(t, facts, to, plan.admitted, product);
    }
  }

  /** What a confirm is to queue: for one resource after another, its create and, if live is asked, its publication. */
  function QueueOf(heads: map<Product, Head>, job: JobId, to: ListingState, products: seq<Product>): seq<Item>
    requires forall product <- products :: product in heads
  {
    if products == [] then []
    else
      var last := heads[products[|products| - 1]].id;
      QueueOf(heads, job, to, products[..|products| - 1])
      + [Item(job, last, Create, false)] + if to.Live? then [Item(job, last, Publish(Live), false)] else []
  }

  lemma {:induction false} SeededIsQueue(t: Tables, facts: Facts, to: ListingState, job: JobId, products: seq<Product>)
    requires forall product <- products :: product in t.heads && facts.payload(product)
    requires forall product <- products :: t.heads[product].binding.Unbound? || t.heads[product].binding.Severed?
    ensures Seeded(t, facts, to, job, products) == Ok(QueueOf(t.heads, job, to, products))
  {
    if products != [] {
      var front := products[..|products| - 1];
      assert products[|products| - 1] in products && forall product <- front :: product in products;
      SeededIsQueue(t, facts, to, job, front);
      var head := t.heads[products[|products| - 1]];
      var create := [Item(job, head.id, Create, false)];
      var publish := if to.Live? then [Item(job, head.id, Publish(Live), false)] else [];
      assert ItemsOf(job, head.id, Lower(to, facts.inventory, head).value) == create + publish;
      var before := QueueOf(t.heads, job, to, front);
      assert before + (create + publish) == before + create + publish;
    }
  }

  /** A mapping a confirm mints is of its own product, unbound, nothing being known of it. */
  lemma {:induction false} MintsUnbound(t: Tables, products: seq<Product>, product: Product)
    requires product in MintedAll(t, products).heads
    ensures if product in t.heads then MintedAll(t, products).heads[product] == t.heads[product]
            else && product in products
                 && MintedAll(t, products).heads[product].binding.Unbound?
                 && MintedAll(t, products).heads[product].lifecycle.Unstated?
                 && MintedAll(t, products).heads[product].remote.None?
  {
    if products != [] {
      var front := products[..|products| - 1];
      assert forall each <- front :: each in products;
      AllMinted(t, front);
      if product in MintedAll(t, front).heads { MintsUnbound(t, front, product); }
    }
  }

  lemma AdmittedAreFree(t: Tables, facts: Facts, to: ListingState, members: seq<Product>, plan: Plan)
    requires PlanFor(t, facts, to, members, plan)
    ensures var minted := MintedAll(t, plan.admitted);
            forall product <- plan.admitted ::
              && product in minted.heads && facts.payload(product)
              && (minted.heads[product].binding.Unbound? || minted.heads[product].binding.Severed?)
  {
    hide PlanFor, MintedAll, Open;
    PlanAccounts(t, facts, to, members, plan);
    AllMinted(t, plan.admitted);
    forall product <- plan.admitted
      ensures var head := MintedAll(t, plan.admitted).heads[product]; head.binding.Unbound? || head.binding.Severed?
    {
      MintsUnbound(t, plan.admitted, product);
    }
  }

  lemma QueueHolds(heads: map<Product, Head>, job: JobId, to: ListingState, products: seq<Product>)
    requires products != [] && forall product <- products :: product in heads
    ensures QueueOf(heads, job, to, products) != []
  {
  }

  /** Under a fresh key a confirm queues the admitted resources' writes and nothing else, resource after resource. */
  lemma QueuedInOrder(t: Tables, facts: Facts, to: ListingState, members: seq<Product>, plan: Plan, key: RequestKey)
    requires PlanFor(t, facts, to, members, plan) && key !in t.keys && plan.admitted != []
    ensures var (after, ack) := Confirmed(t, facts, to, members, plan, key);
            && ack.Ok? && ack.value.job.Some? && after.keys == t.keys[key := ack.value.job.value]
            && (forall product <- plan.admitted :: product in after.heads)
            && after.items == t.items + QueueOf(after.heads, ack.value.job.value, to, plan.admitted)
            && (forall product | product in after.heads && product !in t.heads ::
                  product in plan.admitted && after.heads[product].binding.Unbound?
                  && after.heads[product].lifecycle.Unstated? && after.heads[product].remote.None?)
  {
    hide PlanFor, MintedAll, Seeded, QueueOf;
    AdmittedAreFree(t, facts, to, members, plan);
    var minted := MintedAll(t, plan.admitted);
    AllMinted(t, plan.admitted);
    forall product | product in minted.heads && product !in t.heads
      ensures product in plan.admitted && minted.heads[product].binding.Unbound?
              && minted.heads[product].lifecycle.Unstated? && minted.heads[product].remote.None?
    {
      MintsUnbound(t, plan.admitted, product);
    }
    SeededIsQueue(minted, facts, to, minted.next, plan.admitted);
    QueueHolds(minted.heads, minted.next, to, plan.admitted);
  }

  lemma OpenGrows(items: seq<Item>, added: seq<Item>, mapping: MappingId)
    requires Open(added, mapping)
    ensures Open(items + added, mapping)
  {
    var i :| 0 <= i < |added| && added[i].mapping == mapping && !added[i].settled;
    assert (items + added)[|items| + i] == added[i];
  }

  /** The table never refuses what its own plan admitted, and under a fresh key every admitted resource is queued. */
  lemma ConfirmQueues(t: Tables, facts: Facts, to: ListingState, members: seq<Product>, plan: Plan, key: RequestKey)
    requires PlanFor(t, facts, to, members, plan)
    ensures var (after, ack) := Confirmed(t, facts, to, members, plan, key);
            && ack.Ok? && ack.value.queued == |plan.admitted|
            && ack.value.queued + ack.value.skipped == |members|
            && t.items <= after.items
            && (forall product <- t.heads :: product in after.heads && after.heads[product] == t.heads[product])
            && (key !in t.keys ==>
                  forall product <- plan.admitted ::
                    product in after.heads && Open(after.items, after.heads[product].id))
            && (key in t.keys ==> after.items == t.items)
  {
    hide PlanFor, Lower, Open, MintedAll, Seeded;
    PlanAccounts(t, facts, to, members, plan);
    PlanSeeds(t, facts, to, members, plan);
    AllMinted(t, plan.admitted);
    var minted := MintedAll(t, plan.admitted);
    SeededAll(minted, facts, to, minted.next, plan.admitted);
    var added := Seeded(minted, facts, to, minted.next, plan.admitted).value;
    forall product <- plan.admitted ensures Open(minted.items + added, minted.heads[product].id) {
      OpenGrows(minted.items, added, minted.heads[product].id);
    }
  }

  /** While an item is open on a resource's mapping, no plan admits it, whatever else changed. */
  lemma OpenIsNotAdmitted(t: Tables, facts: Facts, to: ListingState, members: seq<Product>, plan: Plan,
                          product: Product)
    requires PlanFor(t, facts, to, members, plan)
    requires product in t.heads && Open(t.items, t.heads[product].id)
    ensures product !in plan.admitted
  {
    hide PlanFor, RowOf;
    PlanAccounts(t, facts, to, members, plan);
  }

  lemma ReplayChangesNothing(t: Tables, facts: Facts, to: ListingState, members: seq<Product>, plan: Plan,
                             key: RequestKey, product: Product)
    requires Minting(t) && PlanFor(t, facts, to, members, plan) && key in t.keys
    ensures Creatable(Confirmed(t, facts, to, members, plan, key).0, facts, to, product)
            <==> Creatable(t, facts, to, product)
  {
    hide PlanFor, Lower, Seeded, MintedAll, CreationBlocked;
    AllMinted(t, plan.admitted);
  }

  /**
   Planning again after a confirm admits none of what it admitted exactly when
   its request key was fresh. A replayed key answers with its first job, so what
   it admitted is reported as queued and is not.
   */
  lemma ReplanAdmitsNoneIff(t: Tables, facts: Facts, to: ListingState, members: seq<Product>, plan: Plan,
                            key: RequestKey, again: Plan)
    requires Minting(t) && PlanFor(t, facts, to, members, plan) && plan.admitted != []
    requires PlanFor(Confirmed(t, facts, to, members, plan, key).0, facts, to, members, again)
    ensures (forall product <- plan.admitted :: product !in again.admitted) <==> key !in t.keys
    ensures key in t.keys ==> forall product :: product in again.admitted <==> product in plan.admitted
  {
    hide PlanFor, RowOf, Lower, Open, Confirmed, Creatable;
    var after := Confirmed(t, facts, to, members, plan, key).0;
    ConfirmQueues(t, facts, to, members, plan, key);
    PlanAccounts(t, facts, to, members, plan);
    PlanAccounts(after, facts, to, members, again);
    if key in t.keys {
      forall product ensures Creatable(after, facts, to, product) <==> Creatable(t, facts, to, product) {
        ReplayChangesNothing(t, facts, to, members, plan, key, product);
      }
      assert plan.admitted[0] in plan.admitted;
    } else {
      forall product <- plan.admitted ensures product !in again.admitted {
        OpenIsNotAdmitted(after, facts, to, members, again, product);
      }
    }
  }

  /** One resource confirmed under a key an earlier job was minted under is acknowledged, and queued nowhere. */
  lemma UsedKeyQueuesNothing(facts: Facts, again: Plan)
    requires facts == Facts(Etsy, (product: Product) => true, (product: Product) => None, None)
    requires var t := Tables(map[], [], map[5 := 1], 2);
             PlanFor(Confirmed(t, facts, Draft, [7], Plan([Row(7, WillCreate, None)], Counts(1, 0, 0), [7]), 5).0,
                     facts, Draft, [7], again)
    ensures var t := Tables(map[], [], map[5 := 1], 2);
            var plan := Plan([Row(7, WillCreate, None)], Counts(1, 0, 0), [7]);
            var (after, ack) := Confirmed(t, facts, Draft, [7], plan, 5);
            && PlanFor(t, facts, Draft, [7], plan)
            && ack == Ok(Ack(Some(1), 1, 0)) && after.items == [] && 7 in again.admitted
  {
    hide Seeded, MintedAll, Creatable;
    var (t, plan) := (Tables(map[], [], map[5 := 1], 2), Plan([Row(7, WillCreate, None)], Counts(1, 0, 0), [7]));
    assert plan.rows[..0] == [];
    assert PlanFor(t, facts, Draft, [7], plan);
    ConfirmQueues(t, facts, Draft, [7], plan, 5);
    PlanSeeds(t, facts, Draft, [7], plan);
    var minted := MintedAll(t, plan.admitted);
    AllMinted(t, plan.admitted);
    SeededAll(minted, facts, Draft, minted.next, plan.admitted);
    ReplanAdmitsNoneIff(t, facts, Draft, [7], plan, 5, again);
  }

  // ------------------------------------------------------------ setting the membership

  const MEMBERS_MAX: nat := 500

  function First(products: seq<Product>, product: Product): (at: nat)
    requires product in products
    ensures at < |products| && products[at] == product && product !in products[..at]
  {
    if products[0] == product then 0
    else
      assert product in products[1..];
      var rest := First(products[1..], product);
      assert products[..rest + 1] == [products[0]] + products[1..][..rest];
      rest + 1
  }

  /** The named resources the catalogue holds, each once, in the order the seller first named them. */
  ghost predicate MembersFor(products: seq<Product>, held: set<Product>, members: seq<Product>) {
    && (forall product :: product in members <==> product in products && product in held)
    && (forall i, j | 0 <= i < j < |members| :: First(products, members[i]) < First(products, members[j]))
  }

  lemma FirstGrows(products: seq<Product>, more: seq<Product>, product: Product)
    requires product in products
    ensures product in products + more && First(products + more, product) == First(products, product)
  {
    var (a, b) := (First(products, product), First(products + more, product));
    var all := products + more;
    assert all[a] == product && all[..a] == products[..a];
    assert forall k | 0 <= k < a :: products[..a][k] == all[k];
    assert forall k | 0 <= k < b :: all[..b][k] == all[k];
  }

  lemma FirstOfLast(products: seq<Product>, product: Product)
    requires product !in products
    ensures First(products + [product], product) == |products|
  {
    var more := products + [product];
    assert more[First(more, product)] == product;
  }

  lemma MembersGrow(products: seq<Product>, held: set<Product>, members: seq<Product>, product: Product)
    requires MembersFor(products, held, members)
    ensures MembersFor(products + [product], held,
                       if product in held && product !in members then members + [product] else members)
  {
    hide First;
    var more := products + [product];
    var grown := if product in held && product !in members then members + [product] else members;
    forall i | 0 <= i < |members| ensures First(more, members[i]) == First(products, members[i]) {
      assert members[i] in members;
      FirstGrows(products, [product], members[i]);
    }
    if grown != members { FirstOfLast(products, product); }
    forall i, j | 0 <= i < j < |grown| ensures First(more, grown[i]) < First(more, grown[j]) {
      assert First(products, members[i]) < |products|;
      if j < |members| { assert First(products, members[i]) < First(products, members[j]); }
    }
  }

  lemma NoMembers(products: seq<Product>, held: set<Product>)
    ensures MembersFor(products[..0], held, [])
  {
  }

  method SetMembers(products: seq<Product>, held: set<Product>) returns (members: Option<seq<Product>>)
    ensures members.None? <==> |products| > 500
    ensures members.Some? ==> MembersFor(products, held, members.value)
  {
    hide First, MembersFor;
    if |products| > MEMBERS_MAX { return None; }
    var chosen: seq<Product> := [];
    assert MembersFor(products[..0], held, chosen) by { NoMembers(products, held); }
    for i := 0 to |products|
      invariant MembersFor(products[..i], held, chosen)
    {
      assert products[..i + 1] == products[..i] + [products[i]];
      MembersGrow(products[..i], held, chosen, products[i]);
      if products[i] in held && products[i] !in chosen { chosen := chosen + [products[i]]; }
    }
    assert products[..|products|] == products;
    return Some(chosen);
  }
}
