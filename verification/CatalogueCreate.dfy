/**
 The writes that trail a created product, its mappings and its answered
 elections, and their completion after an earlier pass (crates/tam-api/src/catalogue.rs).
 */
module CatalogueCreate {
  import opened Prices
  import opened Wrappers

  type Id = nat
  type Product = nat
  type Inventory = nat

  datatype Row = Row(product: Product, inventory: Inventory, price: Price)

  datatype Kind = Supply | ElectOne | OverCap | Narrow

  datatype Key = Key(product: Product, inventory: Inventory, axis: nat, kind: Kind, trigger: string)

  datatype Answer = Answer(segments: seq<string>, nativeId: Option<string>)

  datatype Election = Election(
    inventory: Inventory, axis: nat, trigger: string, triggerKey: Option<string>, answers: seq<Answer>)

  datatype Plan = Plan(inventories: seq<Inventory>, elections: seq<Election>, ids: seq<Id>)

  /** One tenant's mappings by identifier, and its answered elections by what they answer. */
  datatype Tables = Tables(mappings: map<Id, Row>, answers: map<Key, seq<Answer>>)

  datatype Failure = TooFewIds | MappingTaken | BadTrigger | NoAnswer | NoSegment | KeyMismatch

  datatype View = View(mappings: seq<(Inventory, Id)>, recorded: nat)

  // ------------------------------------------------------------ mappings

  /** Whether the insert breaks a key: the identifier's own, or one mapping per product and inventory. */
  predicate Taken(mappings: map<Id, Row>, id: Id, product: Product, inventory: Inventory) {
    id in mappings || exists other <- mappings ::
      mappings[other].product == product && mappings[other].inventory == inventory
  }

  function Slotted(mappings: map<Id, Row>, product: Product, price: Price, existing: set<Id>,
                   inventory: Inventory, id: Id): Result<map<Id, Row>, Failure> {
    if id in existing then Ok(mappings)
    else if Taken(mappings, id, product, inventory) then Err(MappingTaken)
    else Ok(mappings[id := Row(product, inventory, price)])
  }

  /** The mappings after a plan's first slots, one identifier per inventory by position. */
  function Mapped(mappings: map<Id, Row>, product: Product, price: Price, existing: set<Id>,
                  inventories: seq<Inventory>, ids: seq<Id>): Result<map<Id, Row>, Failure> {
    if inventories == [] then Ok(mappings)
    else
      var last := |inventories| - 1;
      match Mapped(mappings, product, price, existing, inventories[..last], ids)
      case Err(failure) => Err(failure)
      case Ok(before) =>
        if last >= |ids| then Err(TooFewIds)
        else Slotted(before, product, price, existing, inventories[last], ids[last])
  }

  // ------------------------------------------------------------ elections

  function KindOf(trigger: string): Option<Kind> {
    if trigger == "supply" then Some(Supply)
    else if trigger == "elect_one" then Some(ElectOne)
    else if trigger == "over_cap" then Some(OverCap)
    else if trigger == "narrow" then Some(Narrow)
    else None
  }

  function TriggerOf(e: Election): string { if e.triggerKey.Some? then e.triggerKey.value else "" }

  function ElectionRefusal(e: Election): Option<Failure> {
    var kind := KindOf(e.trigger);
    if kind.None? then Some(BadTrigger)
    else if e.answers == [] then Some(NoAnswer)
    else if exists answer <- e.answers :: answer.segments == [] then Some(NoSegment)
    else if (kind.value.Supply? || kind.value.Narrow?) == (TriggerOf(e) == "") then Some(KeyMismatch)
    else None
  }

  function KeyOf(product: Product, e: Election): Key
    requires ElectionRefusal(e).None?
  {
    Key(product, e.inventory, e.axis, KindOf(e.trigger).value, TriggerOf(e))
  }

  /** The answers after a plan's first elections, and how many of them wrote a row. */
  function Answered(answers: map<Key, seq<Answer>>, product: Product, elections: seq<Election>)
    : Result<(map<Key, seq<Answer>>, nat), Failure>
  {
    if elections == [] then Ok((answers, 0))
    else
      var last := |elections| - 1;
      match Answered(answers, product, elections[..last])
      case Err(failure) => Err(failure)
      case Ok((before, recorded)) =>
        var e := elections[last];
        if ElectionRefusal(e).Some? then Err(ElectionRefusal(e).value)
        else if KeyOf(product, e) in before then Ok((before, recorded))
        else Ok((before[KeyOf(product, e) := e.answers], recorded + 1))
  }

  // ------------------------------------------------------------ the whole of it

  function ViewOf(plan: Plan): seq<(Inventory, Id)>
    requires |plan.ids| >= |plan.inventories|
  {
    seq(|plan.inventories|, i requires 0 <= i < |plan.inventories| => (plan.inventories[i], plan.ids[i]))
  }

  lemma {:induction false} MappedEnough(mappings: map<Id, Row>, product: Product, price: Price, existing: set<Id>,
                                        inventories: seq<Inventory>, ids: seq<Id>)
    requires Mapped(mappings, product, price, existing, inventories, ids).Ok?
    ensures |ids| >= |inventories|
  {
    if inventories != [] {
      MappedEnough(mappings, product, price, existing, inventories[..|inventories| - 1], ids);
    }
  }

  function Finished(t: Tables, product: Product, price: Price, existing: set<Id>, plan: Plan)
    : Result<(Tables, View), Failure>
  {
    match Mapped(t.mappings, product, price, existing, plan.inventories, plan.ids)
    case Err(failure) => Err(failure)
    case Ok(mappings) =>
      MappedEnough(t.mappings, product, price, existing, plan.inventories, plan.ids);
      match Answered(t.answers, product, plan.elections)
      case Err(failure) => Err(failure)
      case Ok((answers, recorded)) => Ok((Tables(mappings, answers), View(ViewOf(plan), recorded)))
  }

  /** The mappings a product holds, read before its completion writes. */
  function HeldBy(t: Tables, product: Product): set<Id> {
    set id | id in t.mappings && t.mappings[id].product == product
  }

  /** A completion in a transaction of its own: refused, it leaves everything as it stood. */
  function Completed(t: Tables, product: Product, price: Price, plan: Plan): (Tables, Result<View, Failure>) {
    match Finished(t, product, price, HeldBy(t, product), plan)
    case Err(failure) => (t, Err(failure))
    case Ok((after, view)) => (after, Ok(view))
  }

  lemma {:induction false} MappedStops(mappings: map<Id, Row>, product: Product, price: Price, existing: set<Id>,
                                       plan: Plan, k: nat)
    requires k <= |plan.inventories|
    requires Mapped(mappings, product, price, existing, plan.inventories[..k], plan.ids).Err?
    ensures Mapped(mappings, product, price, existing, plan.inventories, plan.ids)
         == Mapped(mappings, product, price, existing, plan.inventories[..k], plan.ids)
    decreases |plan.inventories|
  {
    hide Slotted;
    var last := |plan.inventories| - 1;
    if k == |plan.inventories| {
      assert plan.inventories[..k] == plan.inventories;
    } else {
      var shorter := plan.(inventories := plan.inventories[..last]);
      assert shorter.inventories[..k] == plan.inventories[..k];
      MappedStops(mappings, product, price, existing, shorter, k);
    }
  }

  lemma {:induction false} AnsweredStops(
    answers: map<Key, seq<Answer>>, product: Product, elections: seq<Election>, k: nat)
    requires k <= |elections| && Answered(answers, product, elections[..k]).Err?
    ensures Answered(answers, product, elections) == Answered(answers, product, elections[..k])
  {
    hide ElectionRefusal, KeyOf;
    if k == |elections| {
      assert elections[..k] == elections;
    } else {
      assert elections[..|elections| - 1][..k] == elections[..k];
      AnsweredStops(answers, product, elections[..|elections| - 1], k);
    }
  }

  class Tenant {
    var mappings: map<Id, Row>
    var answers: map<Key, seq<Answer>>

    constructor (t: Tables)
      ensures Value() == t
    {
      mappings, answers := t.mappings, t.answers;
    }

    ghost function Value(): Tables
      reads this
    {
      Tables(mappings, answers)
    }

    method InsertMapping(product: Product, inventory: Inventory, id: Id, price: Price) returns (ok: bool)
      modifies this`mappings
      ensures ok == !Taken(old(mappings), id, product, inventory)
      ensures mappings == if ok then old(mappings)[id := Row(product, inventory, price)] else old(mappings)
    {
      ok := !Taken(mappings, id, product, inventory);
      if ok { mappings := mappings[id := Row(product, inventory, price)]; }
    }

    method RecordAnswered(product: Product, e: Election) returns (wrote: Result<bool, Failure>)
      modifies this`answers
      ensures wrote == if ElectionRefusal(e).Some? then Err(ElectionRefusal(e).value)
                       else Ok(KeyOf(product, e) !in old(answers))
      ensures answers == if wrote == Ok(true) then old(answers)[KeyOf(product, e) := e.answers] else old(answers)
    {
      if ElectionRefusal(e).Some? { return Err(ElectionRefusal(e).value); }
      var key := KeyOf(product, e);
      if key in answers { return Ok(false); }
      answers := answers[key := e.answers];
      return Ok(true);
    }

    method InsertMissing(product: Product, price: Price, existing: set<Id>, plan: Plan)
      returns (written: Result<seq<(Inventory, Id)>, Failure>)
      modifies this`mappings
      ensures match Mapped(old(mappings), product, price, existing, plan.inventories, plan.ids)
              case Err(failure) => written == Err(failure)
              case Ok(after) => |plan.ids| >= |plan.inventories| && written == Ok(ViewOf(plan)) && mappings == after
    {
      hide Taken;
      var views: seq<(Inventory, Id)> := [];
      for i := 0 to |plan.inventories|
        invariant Mapped(old(mappings), product, price, existing, plan.inventories[..i], plan.ids) == Ok(mappings)
        invariant i <= |plan.ids|
        invariant |views| == i && forall k | 0 <= k < i :: views[k] == (plan.inventories[k], plan.ids[k])
      {
        assert plan.inventories[..i + 1][..i] == plan.inventories[..i];
        if i >= |plan.ids| {
          MappedStops(old(mappings), product, price, existing, plan, i + 1);
          return Err(TooFewIds);
        }
        var id := plan.ids[i];
        if id !in existing {
          var ok := InsertMapping(product, plan.inventories[i], id, price);
          if !ok {
            MappedStops(old(mappings), product, price, existing, plan, i + 1);
            return Err(MappingTaken);
          }
        }
        views := views + [(plan.inventories[i], id)];
      }
      assert plan.inventories[..|plan.inventories|] == plan.inventories;
      assert views == ViewOf(plan);
      return Ok(views);
    }

    method RecordAll(product: Product, elections: seq<Election>) returns (recorded: Result<nat, Failure>)
      modifies this`answers
      ensures match Answered(old(answers), product, elections)
              case Err(failure) => recorded == Err(failure)
              case Ok((after, n)) => recorded == Ok(n) && answers == after
    {
      hide ElectionRefusal, KeyOf;
      var wrote := 0;
      for i := 0 to |elections|
        invariant Answered(old(answers), product, elections[..i]) == Ok((answers, wrote))
      {
        assert elections[..i + 1][..i] == elections[..i];
        var one := RecordAnswered(product, elections[i]);
        if one.Err? {
          AnsweredStops(old(answers), product, elections, i + 1);
          return Err(one.error);
        }
        if one.value { wrote := wrote + 1; }
      }
      assert elections[..|elections|] == elections;
      return Ok(wrote);
    }

    /** Writes in the caller's transaction, which rolls back where this answers a failure. */
    method FinishIn(product: Product, price: Price, existing: set<Id>, plan: Plan)
      returns (view: Result<View, Failure>)
      modifies this
      ensures match Finished(old(Value()), product, price, existing, plan)
              case Err(failure) => view == Err(failure)
              case Ok((after, seen)) => view == Ok(seen) && Value() == after
    {
      hide Mapped, Answered;
      var written := InsertMissing(product, price, existing, plan);
      if written.Err? { return Err(written.error); }
      var recorded := RecordAll(product, plan.elections);
      if recorded.Err? { return Err(recorded.error); }
      return Ok(View(written.value, recorded.value));
    }

    method FinishExisting(product: Product, price: Price, plan: Plan) returns (view: Result<View, Failure>)
      modifies this
      ensures Value() == Completed(old(Value()), product, price, plan).0
      ensures view == Completed(old(Value()), product, price, plan).1
    {
      hide Finished;
      var held := set id | id in mappings && mappings[id].product == product;
      var (wasMapped, wasAnswered) := (mappings, answers);
      view := FinishIn(product, price, held, plan);
      if view.Err? { mappings, answers := wasMapped, wasAnswered; }
    }
  }

  // ------------------------------------------------------------ exactly what mappings a plan writes

  ghost predicate Missing(existing: set<Id>, ids: seq<Id>, i: nat) {
    i < |ids| && ids[i] !in existing
  }

  /** What a plan's slots need of the table and of each other. */
  ghost predicate Fits(mappings: map<Id, Row>, product: Product, existing: set<Id>,
                       inventories: seq<Inventory>, ids: seq<Id>) {
    && |inventories| <= |ids|
    && (forall i | 0 <= i < |inventories| && Missing(existing, ids, i) ::
          !Taken(mappings, ids[i], product, inventories[i]))
    && (forall i, j | 0 <= i < j < |inventories| && Missing(existing, ids, i) && Missing(existing, ids, j) ::
          ids[i] != ids[j] && inventories[i] != inventories[j])
  }

  /** The table with exactly the missing rows added, each under the identifier at its own position. */
  ghost predicate FilledIn(before: map<Id, Row>, after: map<Id, Row>, product: Product, price: Price,
                           existing: set<Id>, inventories: seq<Inventory>, ids: seq<Id>) {
    && |inventories| <= |ids|
    && (forall id <- before :: id in after && after[id] == before[id])
    && (forall i | 0 <= i < |inventories| && Missing(existing, ids, i) ::
          ids[i] in after && after[ids[i]] == Row(product, inventories[i], price))
    && (forall id | id in after && id !in before ::
          exists i | 0 <= i < |inventories| :: Missing(existing, ids, i) && ids[i] == id)
  }

  lemma FitsFront(mappings: map<Id, Row>, product: Product, existing: set<Id>,
                  inventories: seq<Inventory>, ids: seq<Id>)
    requires inventories != []
    ensures Fits(mappings, product, existing, inventories, ids)
            ==> Fits(mappings, product, existing, inventories[..|inventories| - 1], ids)
  {
    hide Taken;
    var front := inventories[..|inventories| - 1];
    assert forall i | 0 <= i < |front| :: front[i] == inventories[i];
  }

  /** The last slot collides with the table so far where it collides with the table before, or with an earlier slot. */
  lemma TakenIff(mappings: map<Id, Row>, before: map<Id, Row>, product: Product, price: Price, existing: set<Id>,
                 inventories: seq<Inventory>, ids: seq<Id>)
    requires inventories != [] && |inventories| <= |ids| && Missing(existing, ids, |inventories| - 1)
    requires FilledIn(mappings, before, product, price, existing, inventories[..|inventories| - 1], ids)
    ensures var last := |inventories| - 1;
            Taken(before, ids[last], product, inventories[last])
            <==> Taken(mappings, ids[last], product, inventories[last])
                 || exists i | 0 <= i < last :: Missing(existing, ids, i)
                                                && (ids[i] == ids[last] || inventories[i] == inventories[last])
  {
    var last := |inventories| - 1;
    var front := inventories[..last];
    assert forall i | 0 <= i < last :: front[i] == inventories[i];
  }

  lemma SlotIff(mappings: map<Id, Row>, before: map<Id, Row>, product: Product, price: Price, existing: set<Id>,
                inventories: seq<Inventory>, ids: seq<Id>)
    requires inventories != [] && |inventories| <= |ids|
    requires Fits(mappings, product, existing, inventories[..|inventories| - 1], ids)
    requires FilledIn(mappings, before, product, price, existing, inventories[..|inventories| - 1], ids)
    ensures var last := |inventories| - 1;
            var slotted := Slotted(before, product, price, existing, inventories[last], ids[last]);
            && (slotted.Ok? <==> Fits(mappings, product, existing, inventories, ids))
            && (slotted.Ok? ==> FilledIn(mappings, slotted.value, product, price, existing, inventories, ids))
  {
    var last := |inventories| - 1;
    var front := inventories[..last];
    assert forall i | 0 <= i < last :: front[i] == inventories[i];
    if ids[last] in existing {
      assert !Missing(existing, ids, last);
    } else {
      assert Missing(existing, ids, last);
      TakenIff(mappings, before, product, price, existing, inventories, ids);
    }
  }

  /** The mapping loop succeeds exactly on plans that fit, and then fills in exactly what is missing. */
  lemma {:induction false} MappedIff(mappings: map<Id, Row>, product: Product, price: Price, existing: set<Id>,
                                     inventories: seq<Inventory>, ids: seq<Id>)
    ensures var mapped := Mapped(mappings, product, price, existing, inventories, ids);
            && (mapped.Ok? <==> Fits(mappings, product, existing, inventories, ids))
            && (mapped.Ok? ==> FilledIn(mappings, mapped.value, product, price, existing, inventories, ids))
  {
    if inventories != [] {
      var last := |inventories| - 1;
      var front := inventories[..last];
      MappedIff(mappings, product, price, existing, front, ids);
      var before := Mapped(mappings, product, price, existing, front, ids);
      if before.Ok? && last < |ids| {
        SlotIff(mappings, before.value, product, price, existing, inventories, ids);
      } else {
        FitsFront(mappings, product, existing, inventories, ids);
      }
    }
  }

  // ------------------------------------------------------------ exactly what answers a plan records

  ghost predicate Submap<K(!new), V(!new)>(a: map<K, V>, b: map<K, V>) {
    forall k <- a :: k in b && b[k] == a[k]
  }

  ghost predicate AllValid(elections: seq<Election>) {
    forall i | 0 <= i < |elections| :: ElectionRefusal(elections[i]).None?
  }

  ghost predicate Answers(product: Product, elections: seq<Election>, i: int, key: Key) {
    0 <= i < |elections| && ElectionRefusal(elections[i]).None? && KeyOf(product, elections[i]) == key
  }

  /** The table with one row more for each question it did not hold, the first answer given to it. */
  ghost predicate Recorded(before: map<Key, seq<Answer>>, after: map<Key, seq<Answer>>, product: Product,
                           elections: seq<Election>) {
    && Submap(before, after)
    && (forall i: int, key | Answers(product, elections, i, key) :: key in after)
    && (forall key | key in after && key !in before ::
          exists i | 0 <= i < |elections| :: Answers(product, elections, i, key) && after[key] == elections[i].answers
                      && forall j | 0 <= j < i :: !Answers(product, elections, j, key))
  }

  lemma RecordedMore(answers: map<Key, seq<Answer>>, before: map<Key, seq<Answer>>, product: Product,
                     elections: seq<Election>)
    requires elections != [] && AllValid(elections)
    requires Recorded(answers, before, product, elections[..|elections| - 1])
    ensures var e := elections[|elections| - 1];
            var after := if KeyOf(product, e) in before then before else before[KeyOf(product, e) := e.answers];
            Recorded(answers, after, product, elections)
  {
    hide ElectionRefusal, KeyOf;
    var last := |elections| - 1;
    var front := elections[..last];
    var e := elections[last];
    var k := KeyOf(product, e);
    var after := if k in before then before else before[k := e.answers];
    assert forall i, key | i < last :: Answers(product, front, i, key) == Answers(product, elections, i, key);
    assert forall i, key | Answers(product, elections, i, key) && i >= last :: i == last && key == k;
    assert Answers(product, elections, last, k);
    forall key | key in after && key !in answers
      ensures exists i | 0 <= i < |elections| ::
                Answers(product, elections, i, key) && after[key] == elections[i].answers
                          && forall j | 0 <= j < i :: !Answers(product, elections, j, key)
    {
      if key in before {
        var i :| 0 <= i < last && Answers(product, front, i, key) && before[key] == front[i].answers
                 && forall j | 0 <= j < i :: !Answers(product, front, j, key);
        assert Answers(product, elections, i, key) && after[key] == elections[i].answers;
      } else {
        assert key == k;
        assert forall j | 0 <= j < last :: !Answers(product, front, j, key);
      }
    }
  }

  /** The election loop succeeds exactly where every election is well formed. */
  lemma {:induction false} AnsweredIff(answers: map<Key, seq<Answer>>, product: Product, elections: seq<Election>)
    ensures var answered := Answered(answers, product, elections);
            && (answered.Ok? <==> AllValid(elections))
            && (answered.Ok? ==>
                  && Recorded(answers, answered.value.0, product, elections)
                  && |answered.value.0| == |answers| + answered.value.1)
  {
    hide ElectionRefusal, KeyOf;
    if elections != [] {
      var last := |elections| - 1;
      var front := elections[..last];
      AnsweredIff(answers, product, front);
      assert forall i | 0 <= i < last :: front[i] == elections[i];
      assert AllValid(elections) <==> AllValid(front) && ElectionRefusal(elections[last]).None?;
      if AllValid(elections) {
        RecordedMore(answers, Answered(answers, product, front).value.0, product, elections);
      }
    }
  }

  /** Two fillings of the same questions into a table and into a part of what it became agree. */
  lemma RecordedAgree(base: map<Key, seq<Answer>>, part: map<Key, seq<Answer>>, full: map<Key, seq<Answer>>,
                      again: map<Key, seq<Answer>>, product: Product, elections: seq<Election>)
    requires Recorded(base, full, product, elections) && Recorded(part, again, product, elections)
    requires Submap(base, part) && Submap(part, full)
    ensures again == full
  {
    hide Answers;
    forall key | key in full ensures key in again && again[key] == full[key] {
      if key !in part {
        var i :| 0 <= i < |elections| && Answers(product, elections, i, key) && full[key] == elections[i].answers
                 && forall j | 0 <= j < i :: !Answers(product, elections, j, key);
        assert key in again;
        var i' :| 0 <= i' < |elections| && Answers(product, elections, i', key) && again[key] == elections[i'].answers
                  && forall j | 0 <= j < i' :: !Answers(product, elections, j, key);
        assert i == i';
      }
    }
    forall key | key in again ensures key in full {
      if key !in part {
        var i :| 0 <= i < |elections| && Answers(product, elections, i, key);
      }
    }
  }

  /** A trigger of what was left over or unknown, which names what it is; the others name nothing. */
  predicate Keyed(trigger: string) { trigger == "supply" || trigger == "narrow" }

  predicate Keyless(trigger: string) { trigger == "elect_one" || trigger == "over_cap" }

  ghost predicate WellFormed(e: Election) {
    && e.answers != [] && (forall answer <- e.answers :: answer.segments != [])
    && ((Keyed(e.trigger) && e.triggerKey.Some? && e.triggerKey != Some(""))
        || (Keyless(e.trigger) && (e.triggerKey.None? || e.triggerKey == Some(""))))
  }

  lemma TriggersApart()
    ensures "supply" != "elect_one" && "supply" != "over_cap" && "supply" != "narrow"
    ensures "elect_one" != "over_cap" && "elect_one" != "narrow" && "over_cap" != "narrow"
  {
    assert |"supply"| == 6 && |"elect_one"| == 9 && |"over_cap"| == 8 && |"narrow"| == 6 && "supply"[0] != "narrow"[0];
  }

  /**
   An election is refused exactly where it is malformed, with the first of its
   faults, and answers one question: of its product, inventory and axis, and of
   its trigger, whose spelling its kind gives back.
   */
  lemma ElectionIff(product: Product, e: Election)
    ensures ElectionRefusal(e).None? <==> WellFormed(e)
    ensures ElectionRefusal(e) == Some(BadTrigger) <==> !Keyed(e.trigger) && !Keyless(e.trigger)
    ensures ElectionRefusal(e) == Some(NoAnswer) <==> (Keyed(e.trigger) || Keyless(e.trigger)) && e.answers == []
    ensures ElectionRefusal(e) == Some(NoSegment)
            <==> (Keyed(e.trigger) || Keyless(e.trigger)) && exists answer <- e.answers :: answer.segments == []
    ensures ElectionRefusal(e).None? ==>
              var key := KeyOf(product, e);
              && key.product == product && key.inventory == e.inventory && key.axis == e.axis
              && key.trigger == (if e.triggerKey.Some? then e.triggerKey.value else "")
              && (match key.kind
                  case Supply => e.trigger == "supply"
                  case ElectOne => e.trigger == "elect_one"
                  case OverCap => e.trigger == "over_cap"
                  case Narrow => e.trigger == "narrow")
  {
    TriggersApart();
  }

  /** What stopped a completion: too few identifiers, a key already taken, or the first malformed election. */
  lemma {:induction false} FirstMalformed(answers: map<Key, seq<Answer>>, product: Product, elections: seq<Election>)
    returns (i: nat)
    requires Answered(answers, product, elections).Err?
    ensures i < |elections| && ElectionRefusal(elections[i]) == Some(Answered(answers, product, elections).error)
    ensures forall j | 0 <= j < i :: ElectionRefusal(elections[j]).None?
  {
    hide ElectionRefusal, KeyOf;
    var front := elections[..|elections| - 1];
    if Answered(answers, product, front).Err? {
      i := FirstMalformed(answers, product, front);
      assert forall j | 0 <= j < |front| :: front[j] == elections[j];
    } else {
      i := |elections| - 1;
      AnsweredIff(answers, product, front);
      forall j | 0 <= j < i ensures ElectionRefusal(elections[j]).None? { assert front[j] == elections[j]; }
    }
  }

  lemma SlottedStopsAs(mappings: map<Id, Row>, product: Product, price: Price, existing: set<Id>,
                       front: seq<Inventory>, ids: seq<Id>, inventory: Inventory)
    ensures var before := Mapped(mappings, product, price, existing, front, ids);
            before.Ok? && |front| < |ids| ==>
              var slotted := Slotted(before.value, product, price, existing, inventory, ids[|front|]);
              slotted.Err? ==> slotted.error == MappingTaken
  {
  }

  lemma {:induction false} MappedStopsAs(mappings: map<Id, Row>, product: Product, price: Price, existing: set<Id>,
                                         inventories: seq<Inventory>, ids: seq<Id>)
    ensures var mapped := Mapped(mappings, product, price, existing, inventories, ids);
            && (mapped.Err? ==> mapped.error == TooFewIds || mapped.error == MappingTaken)
            && (mapped == Err(TooFewIds) ==> |ids| < |inventories|)
            && (mapped == Err(TooFewIds)
                <==> |ids| < |inventories| && Fits(mappings, product, existing, inventories[..|ids|], ids))
    decreases |inventories|
  {
    hide Slotted, Fits;
    if inventories == [] {
    } else {
      var front := inventories[..|inventories| - 1];
      MappedStopsAs(mappings, product, price, existing, front, ids);
      MappedIff(mappings, product, price, existing, front, ids);
      if |ids| < |inventories| {
        assert inventories[..|ids|] == front[..|ids|] && front[..|front|] == front;
      }
      SlottedStopsAs(mappings, product, price, existing, front, ids, inventories[|front|]);
    }
  }

  // ------------------------------------------------------------ completing what an earlier pass began

  ghost predicate Unstarted(t: Tables, product: Product) {
    forall id <- t.mappings :: t.mappings[id].product != product
  }

  /** Any state between where a product's first completion began and where it would have ended. */
  ghost predicate Partial(begun: Tables, part: Tables, full: Tables) {
    && Submap(begun.mappings, part.mappings) && Submap(part.mappings, full.mappings)
    && Submap(begun.answers, part.answers) && Submap(part.answers, full.answers)
  }

  /** What a row of the finished table is: an old one, or a slot's own. */
  lemma FullRow(begun: Tables, full: map<Id, Row>, product: Product, price: Price, plan: Plan, id: Id) returns (i: nat)
    requires Unstarted(begun, product) && id in full && full[id].product == product
    requires FilledIn(begun.mappings, full, product, price, {}, plan.inventories, plan.ids)
    ensures i < |plan.inventories| && plan.ids[i] == id && full[id] == Row(product, plan.inventories[i], price)
  {
    assert id !in begun.mappings;
    i :| 0 <= i < |plan.inventories| && Missing({}, plan.ids, i) && plan.ids[i] == id;
  }

  lemma FitsDistinct(mappings: map<Id, Row>, product: Product, existing: set<Id>, plan: Plan)
    requires Fits(mappings, product, existing, plan.inventories, plan.ids)
    ensures |plan.inventories| <= |plan.ids|
    ensures forall i, j | 0 <= i < |plan.inventories| && 0 <= j < |plan.inventories| && i != j
                          && Missing(existing, plan.ids, i) && Missing(existing, plan.ids, j) ::
              plan.ids[i] != plan.ids[j] && plan.inventories[i] != plan.inventories[j]
  {
    hide Taken;
  }

  /** A product's row on a slot's inventory is that slot's. */
  lemma SlotHolder(begun: Tables, full: map<Id, Row>, product: Product, price: Price, plan: Plan, i: nat, other: Id)
    requires Unstarted(begun, product) && Fits(begun.mappings, product, {}, plan.inventories, plan.ids)
    requires FilledIn(begun.mappings, full, product, price, {}, plan.inventories, plan.ids)
    requires i < |plan.inventories| && other in full
    requires full[other].product == product && full[other].inventory == plan.inventories[i]
    ensures i < |plan.ids| && other == plan.ids[i]
  {
    hide Fits, FilledIn, Unstarted;
    FitsDistinct(begun.mappings, product, {}, plan);
    var j := FullRow(begun, full, product, price, plan, other);
    assert Missing({}, plan.ids, j) && Missing({}, plan.ids, i);
  }

  lemma FilledSlot(before: map<Id, Row>, full: map<Id, Row>, product: Product, price: Price, plan: Plan, i: nat)
    requires FilledIn(before, full, product, price, {}, plan.inventories, plan.ids) && i < |plan.inventories|
    ensures i < |plan.ids| && plan.ids[i] in full && full[plan.ids[i]] == Row(product, plan.inventories[i], price)
  {
    assert Missing({}, plan.ids, i);
  }

  lemma FitsOf(mappings: map<Id, Row>, product: Product, existing: set<Id>, plan: Plan)
    requires |plan.inventories| <= |plan.ids|
    requires forall i | 0 <= i < |plan.inventories| && Missing(existing, plan.ids, i) ::
               !Taken(mappings, plan.ids[i], product, plan.inventories[i])
    requires forall i, j | 0 <= i < |plan.inventories| && 0 <= j < |plan.inventories| && i != j
                           && Missing({}, plan.ids, i) && Missing({}, plan.ids, j) ::
               plan.ids[i] != plan.ids[j] && plan.inventories[i] != plan.inventories[j]
    ensures Fits(mappings, product, existing, plan.inventories, plan.ids)
  {
    hide Taken;
    assert forall i | Missing(existing, plan.ids, i) :: Missing({}, plan.ids, i);
  }

  lemma PartFits(begun: Tables, part: Tables, full: Tables, product: Product, price: Price, plan: Plan)
    requires Unstarted(begun, product) && Partial(begun, part, full)
    requires Fits(begun.mappings, product, {}, plan.inventories, plan.ids)
    requires FilledIn(begun.mappings, full.mappings, product, price, {}, plan.inventories, plan.ids)
    ensures Fits(part.mappings, product, HeldBy(part, product), plan.inventories, plan.ids)
  {
    hide Fits, FilledIn, Unstarted;
    FitsDistinct(begun.mappings, product, {}, plan);
    forall i | 0 <= i < |plan.inventories| && Missing(HeldBy(part, product), plan.ids, i)
      ensures !Taken(part.mappings, plan.ids[i], product, plan.inventories[i])
    {
      FilledSlot(begun.mappings, full.mappings, product, price, plan, i);
      forall other | other in part.mappings && part.mappings[other].product == product
                     && part.mappings[other].inventory == plan.inventories[i]
        ensures other == plan.ids[i]
      {
        SlotHolder(begun, full.mappings, product, price, plan, i, other);
      }
    }
    FitsOf(part.mappings, product, HeldBy(part, product), plan);
  }

  lemma MappingsAgree(begun: Tables, part: Tables, full: Tables, again: map<Id, Row>,
                      product: Product, price: Price, plan: Plan)
    requires Unstarted(begun, product) && Partial(begun, part, full)
    requires FilledIn(begun.mappings, full.mappings, product, price, {}, plan.inventories, plan.ids)
    requires FilledIn(part.mappings, again, product, price, HeldBy(part, product), plan.inventories, plan.ids)
    ensures again == full.mappings
  {
    var held := HeldBy(part, product);
    forall id | id in full.mappings ensures id in again && again[id] == full.mappings[id] {
      if id !in part.mappings {
        var i :| 0 <= i < |plan.inventories| && Missing({}, plan.ids, i) && plan.ids[i] == id;
        assert Missing(held, plan.ids, i);
      }
    }
    forall id | id in again ensures id in full.mappings {
      if id !in part.mappings {
        var i :| 0 <= i < |plan.inventories| && Missing(held, plan.ids, i) && plan.ids[i] == id;
        assert Missing({}, plan.ids, i);
      }
    }
  }

  lemma NoneHeld(t: Tables, product: Product)
    requires Unstarted(t, product)
    ensures HeldBy(t, product) == {}
  {
  }

  lemma PartialParts(begun: Tables, part: Tables, full: Tables)
    requires Partial(begun, part, full)
    ensures Submap(begun.answers, part.answers) && Submap(part.answers, full.answers)
  {
  }

  /**
   Completing a create from any partly finished state reaches what a fresh
   completion reaches: the same mappings, each inventory under the identifier
   at its own position, and the same answers, writing only what was missing.
   */
  lemma ResumeReachesFresh(begun: Tables, part: Tables, product: Product, price: Price, plan: Plan)
    requires Unstarted(begun, product) && Completed(begun, product, price, plan).1.Ok?
    requires Partial(begun, part, Completed(begun, product, price, plan).0)
    ensures var (full, first) := Completed(begun, product, price, plan);
            var (again, view) := Completed(part, product, price, plan);
            && again == full && view.Ok? && view.value.mappings == first.value.mappings
            && view.value.recorded == |full.answers| - |part.answers|
  {
    hide Fits, FilledIn, Recorded, AllValid, Mapped, Answered, Unstarted, Partial;
    assert HeldBy(begun, product) == {} by { NoneHeld(begun, product); }
    var (full, first) := Completed(begun, product, price, plan);
    MappedIff(begun.mappings, product, price, {}, plan.inventories, plan.ids);
    AnsweredIff(begun.answers, product, plan.elections);
    var held := HeldBy(part, product);
    PartFits(begun, part, full, product, price, plan);
    MappedIff(part.mappings, product, price, held, plan.inventories, plan.ids);
    AnsweredIff(part.answers, product, plan.elections);
    var mapped := Mapped(part.mappings, product, price, held, plan.inventories, plan.ids).value;
    var answered := Answered(part.answers, product, plan.elections).value.0;
    MappingsAgree(begun, part, full, mapped, product, price, plan);
    PartialParts(begun, part, full);
    RecordedAgree(begun.answers, part.answers, full.answers, answered, product, plan.elections);
  }

  lemma WholeIsPartial(begun: Tables, product: Product, price: Price, plan: Plan)
    requires Unstarted(begun, product) && Completed(begun, product, price, plan).1.Ok?
    ensures var full := Completed(begun, product, price, plan).0;
            Partial(begun, full, full)
  {
    hide Fits, Mapped, Answered, AllValid;
    NoneHeld(begun, product);
    MappedIff(begun.mappings, product, price, {}, plan.inventories, plan.ids);
    AnsweredIff(begun.answers, product, plan.elections);
  }

  /** A second completion writes nothing, and answers with the same mappings. */
  lemma CompletedTwice(begun: Tables, product: Product, price: Price, plan: Plan)
    requires Unstarted(begun, product) && Completed(begun, product, price, plan).1.Ok?
    ensures var (full, first) := Completed(begun, product, price, plan);
            Completed(full, product, price, plan) == (full, Ok(View(first.value.mappings, 0)))
  {
    hide Completed, Unstarted, Partial;
    WholeIsPartial(begun, product, price, plan);
    ResumeReachesFresh(begun, Completed(begun, product, price, plan).0, product, price, plan);
  }

  /** A fresh completion is refused exactly where its plan does not fit or an election is malformed. */
  lemma CompletesIff(t: Tables, product: Product, price: Price, plan: Plan)
    requires Unstarted(t, product)
    ensures Completed(t, product, price, plan).1.Ok?
            <==> Fits(t.mappings, product, {}, plan.inventories, plan.ids) && AllValid(plan.elections)
    ensures Completed(t, product, price, plan).1.Err? ==> Completed(t, product, price, plan).0 == t
    ensures var (after, view) := Completed(t, product, price, plan);
            view.Ok? ==>
              && FilledIn(t.mappings, after.mappings, product, price, {}, plan.inventories, plan.ids)
              && Recorded(t.answers, after.answers, product, plan.elections)
              && |after.answers| == |t.answers| + view.value.recorded
              && |view.value.mappings| == |plan.inventories| <= |plan.ids|
              && forall i | 0 <= i < |plan.inventories| :: view.value.mappings[i] == (plan.inventories[i], plan.ids[i])
  {
    hide Fits, FilledIn, Recorded, AllValid, Mapped, Answered;
    NoneHeld(t, product);
    MappedIff(t.mappings, product, price, {}, plan.inventories, plan.ids);
    AnsweredIff(t.answers, product, plan.elections);
  }
}
