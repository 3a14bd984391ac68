/**
 The sign-up agreement: hooks around an account's creation, joined by the
 agreements waiting in this process (auth/src/consent.ts). Sign-ups interleave
 as they like, and the clock reads what it likes.
 */
module Consent {
  import opened Wrappers

  const PENDING_TTL_MS: int := 10 * 60 * 1000

  // ------------------------------------------------------------ what a form sends

  /** A value as it arrives in a request: anything at all. */
  datatype Json = Undefined | Null | Bool(b: bool) | Str(s: string) | Num(n: int) | Obj(fields: map<string, Json>)

  function Field(value: Json, name: string): Json {
    if value.Obj? && name in value.fields then value.fields[name] else Undefined
  }

  datatype Agreement = Agreement(termsPrivacy: bool, ipOwnership: bool, age18: bool, version: string)

  predicate Digit(c: char) { '0' <= c <= '9' }

  /** `YYYY-MM-DD` by shape alone. */
  predicate Dated(version: string) {
    && |version| == 10 && version[4] == '-' && version[7] == '-'
    && forall i | 0 <= i < 10 && i != 4 && i != 7 :: Digit(version[i])
  }

  /** Every box ticked, under a dated version of the terms. */
  ghost predicate Whole(c: Agreement) {
    c.termsPrivacy && c.ipOwnership && c.age18 && Dated(c.version)
  }

  function ParseConsent(value: Json): (parsed: Option<Agreement>)
    ensures parsed.Some? ==> Whole(parsed.value)
  {
    var version := Field(value, "version");
    if Field(value, "terms_privacy") != Bool(true) || Field(value, "ip_ownership") != Bool(true)
       || Field(value, "age_18") != Bool(true) || !version.Str? || !Dated(version.s)
    then None
    else Some(Agreement(true, true, true, version.s))
  }

  function Rendered(c: Agreement): Json {
    Obj(map["terms_privacy" := Bool(c.termsPrivacy), "ip_ownership" := Bool(c.ipOwnership),
            "age_18" := Bool(c.age18), "version" := Str(c.version)])
  }

  /** Whether a value says all an agreement's own rendering says, whatever else it says. */
  ghost predicate Says(value: Json, c: Agreement) {
    && value.Obj?
    && forall name <- Rendered(c).fields :: name in value.fields && value.fields[name] == Rendered(c).fields[name]
  }

  lemma FieldsApart()
    ensures "terms_privacy" != "ip_ownership" && "terms_privacy" != "age_18" && "terms_privacy" != "version"
    ensures "ip_ownership" != "age_18" && "ip_ownership" != "version" && "age_18" != "version"
  {
    assert |"terms_privacy"| == 13 && |"ip_ownership"| == 12 && |"age_18"| == 6 && |"version"| == 7;
  }

  /** An agreement is read out of a value exactly when it is whole and the value says it. */
  lemma ParseIff(value: Json, c: Agreement)
    ensures ParseConsent(value) == Some(c) <==> Whole(c) && Says(value, c)
  {
    FieldsApart();
    var fields := Rendered(c).fields;
    assert fields["terms_privacy"] == Bool(c.termsPrivacy) && fields["ip_ownership"] == Bool(c.ipOwnership)
        && fields["age_18"] == Bool(c.age18) && fields["version"] == Str(c.version);
    assert fields.Keys == {"terms_privacy", "ip_ownership", "age_18", "version"};
    if Says(value, c) {
      assert Field(value, "terms_privacy") == fields["terms_privacy"]
          && Field(value, "ip_ownership") == fields["ip_ownership"]
          && Field(value, "age_18") == fields["age_18"] && Field(value, "version") == fields["version"];
    }
  }

  /** A form's agreement is read back exactly when it is whole, and refused otherwise. */
  lemma ParseRendered(c: Agreement)
    ensures ParseConsent(Rendered(c)) == if Whole(c) then Some(c) else None
  {
    var fields := Rendered(c).fields;
    assert |"terms_privacy"| == 13 && |"ip_ownership"| == 12 && |"age_18"| == 6 && |"version"| == 7;
    assert fields["terms_privacy"] == Bool(c.termsPrivacy) && fields["version"] == Str(c.version);
  }

  // ------------------------------------------------------------ agreements waiting

  type Id = nat

  datatype Pending = Pending(consent: Agreement, email: Option<string>, at: int)

  /** The entries a stash keeps and the one it adds. */
  function Stashed(entries: map<Id, Pending>, id: Id, pending: Pending): map<Id, Pending> {
    (map k | k in entries && pending.at - entries[k].at <= PENDING_TTL_MS :: entries[k])[id := pending]
  }

  class PendingConsents {
    var entries: map<Id, Pending>

    constructor ()
      ensures entries == map[]
    {
      entries := map[];
    }

    method Stash(id: Id, consent: Agreement, email: Option<string>, now: int)
      modifies this
      ensures entries == Stashed(old(entries), id, Pending(consent, email, now))
    {
      var keys := entries.Keys;
      while keys != {}
        invariant keys <= old(entries).Keys
        invariant forall k :: k in entries <==>
                    k in old(entries) && (k in keys || now - old(entries)[k].at <= PENDING_TTL_MS)
        invariant forall k <- entries :: entries[k] == old(entries)[k]
        decreases |keys|
      {
        var key :| key in keys;
        if now - entries[key].at > PENDING_TTL_MS { entries := entries - {key}; }
        keys := keys - {key};
      }
      entries := entries[id := Pending(consent, email, now)];
    }

    method Take(id: Id) returns (entry: Option<Pending>)
      modifies this
      ensures entry == if id in old(entries) then Some(old(entries)[id]) else None
      ensures entries == old(entries) - {id}
    {
      entry := if id in entries then Some(entries[id]) else None;
      entries := entries - {id};
    }
  }

  // ------------------------------------------------------------ the state of all sign-ups

  datatype Outcome = Recorded | Failed

  datatype Record = Record(subject: Id, email: Option<string>, consent: Agreement)

  /**
   Where each account's agreement is: waiting, being written, its account being
   removed, or answered for; beside the rows written, the removals attempted,
   the agreements signed into OAuth states and what each account let through was created on.
   */
  datatype Sys = Sys(
    pending: map<Id, Pending>, writing: map<Id, Pending>, removing: set<Id>, answered: map<Id, Outcome>,
    records: seq<Record>, removals: seq<Id>, carried: set<Agreement>, accounts: map<Id, Pending>, next: Id)

  const START: Sys := Sys(map[], map[], {}, map[], [], [], {}, map[], 0)

  datatype Request = Request(path: Option<string>, body: Json, state: Option<Agreement>, email: Option<string>)

  datatype Action =
    | Before(request: Request)
    | CreateUser(request: Request, now: int)
    | Take(id: Id)
    | Sent(id: Id, landed: bool, ok: bool)
    | RemoveUser(id: Id)

  const EMAIL_SIGN_UP: string := "/sign-up/email"
  const SOCIAL_SIGN_IN: string := "/sign-in/social"
  const CALLBACK: string := "/callback/:id"

  predicate SignUpPath(path: Option<string>) {
    path == Some(EMAIL_SIGN_UP) || path == Some(SOCIAL_SIGN_IN) || path == Some(CALLBACK)
  }

  function BodyConsent(body: Json): Option<Agreement> { ParseConsent(Field(body, "consent")) }

  function SocialConsent(body: Json): Option<Agreement> {
    ParseConsent(Field(Field(body, "additionalData"), "consent"))
  }

  /** The agreement a created account stands on, on a sign-up path. */
  function ConsentFor(request: Request): Option<Agreement> {
    if request.path == Some(EMAIL_SIGN_UP) then BodyConsent(request.body)
    else if request.path == Some(SOCIAL_SIGN_IN) then SocialConsent(request.body)
    else request.state
  }

  /** The before hook's answer: refused, let through, or let through with an agreement to carry. */
  function BeforeRefuses(request: Request): bool {
    || (request.path == Some(EMAIL_SIGN_UP) && BodyConsent(request.body).None?)
    || (request.path == Some(SOCIAL_SIGN_IN) && Field(request.body, "requestSignUp") == Bool(true)
        && SocialConsent(request.body).None?)
  }

  function Carries(request: Request): Option<Agreement> {
    if request.path == Some(SOCIAL_SIGN_IN) && Field(request.body, "requestSignUp") == Bool(true)
    then SocialConsent(request.body) else None
  }

  /** What a step needs: a state is signed, so it carries only what was carried; a reply answers its own request. */
  predicate Enabled(s: Sys, a: Action) {
    match a
    case Before(_) => true
    case CreateUser(request, _) =>
      request.path == Some(CALLBACK) && request.state.Some? ==> request.state.value in s.carried
    case Take(_) => true
    case Sent(id, landed, ok) => id in s.writing && (ok ==> landed)
    case RemoveUser(id) => id in s.removing
  }

  predicate LetsThrough(request: Request) { SignUpPath(request.path) && ConsentFor(request).Some? }

  function Created(s: Sys, request: Request, now: int): Sys
    requires LetsThrough(request)
  {
    var given := Pending(ConsentFor(request).value, request.email, now);
    s.(pending := Stashed(s.pending, s.next, given), accounts := s.accounts[s.next := given], next := s.next + 1)
  }

  function Taken(s: Sys, id: Id): Sys {
    if id !in s.pending then s else s.(pending := s.pending - {id}, writing := s.writing[id := s.pending[id]])
  }

  function Answered(s: Sys, id: Id, landed: bool, ok: bool): Sys
    requires id in s.writing
  {
    var records := if landed then s.records + [Record(id, s.writing[id].email, s.writing[id].consent)] else s.records;
    if ok then s.(writing := s.writing - {id}, records := records, answered := s.answered[id := Recorded])
    else s.(writing := s.writing - {id}, records := records, removing := s.removing + {id})
  }

  function Removed(s: Sys, id: Id): Sys {
    s.(removing := s.removing - {id}, removals := s.removals + [id], answered := s.answered[id := Failed])
  }

  function Step(s: Sys, a: Action): Sys
    requires Enabled(s, a)
  {
    match a
    case Before(request) => if Carries(request).Some? then s.(carried := s.carried + {Carries(request).value}) else s
    case CreateUser(request, now) => if LetsThrough(request) then Created(s, request, now) else s
    case Take(id) => Taken(s, id)
    case Sent(id, landed, ok) => Answered(s, id, landed, ok)
    case RemoveUser(id) => Removed(s, id)
  }

  ghost predicate Runs(s: Sys, actions: seq<Action>)
    decreases |actions|
  {
    actions == [] || (Enabled(s, actions[0]) && Runs(Step(s, actions[0]), actions[1..]))
  }

  ghost function Run(s: Sys, actions: seq<Action>): Sys
    requires Runs(s, actions)
    decreases |actions|
  {
    if actions == [] then s else Run(Step(s, actions[0]), actions[1..])
  }

  // ------------------------------------------------------------ the hooks, one request at a time

  class ConsentHooks {
    const pending: PendingConsents
    var records: seq<Record>
    var removals: seq<Id>
    var carried: set<Agreement>
    var accounts: map<Id, Pending>
    var next: Id
    ghost var answered: map<Id, Outcome>

    constructor ()
      ensures fresh(pending) && Now() == START
    {
      pending := new PendingConsents();
      records, removals, carried, accounts, next, answered := [], [], {}, map[], 0, map[];
    }

    ghost function Now(): Sys
      reads this, pending
    {
      Sys(pending.entries, map[], {}, answered, records, removals, carried, accounts, next)
    }

    method Before(request: Request) returns (refused: bool)
      modifies this
      ensures refused == BeforeRefuses(request)
      ensures Now() == Step(old(Now()), Action.Before(request))
    {
      if request.path == Some(EMAIL_SIGN_UP) { return BodyConsent(request.body).None?; }
      if request.path == Some(SOCIAL_SIGN_IN) && Field(request.body, "requestSignUp") == Bool(true) {
        var consent := SocialConsent(request.body);
        if consent.None? { return true; }
        carried := carried + {consent.value};
      }
      return false;
    }

    method CreateUser(request: Request, now: int) returns (id: Result<Option<Id>, ()>)
      requires Enabled(Now(), Action.CreateUser(request, now))
      modifies this, pending
      ensures Now() == Step(old(Now()), Action.CreateUser(request, now))
      ensures id == if !SignUpPath(request.path) then Ok(None)
                    else if ConsentFor(request).None? then Err(()) else Ok(Some(old(next)))
    {
      if !SignUpPath(request.path) { return Ok(None); }
      var consent := ConsentFor(request);
      if consent.None? { return Err(()); }
      var made := next;
      next := next + 1;
      accounts := accounts[made := Pending(consent.value, request.email, now)];
      pending.Stash(made, consent.value, request.email, now);
      return Ok(Some(made));
    }

    /** The whole of one completion, its write landing and answered as the sink would have it. */
    method Complete(user: Option<Id>, landed: bool, ok: bool) returns (answer: Option<Outcome>)
      requires ok ==> landed
      modifies this, pending
      ensures answer == if user.None? || user.value !in old(pending.entries) then None
                        else if ok then Some(Recorded) else Some(Failed)
      ensures answer.None? ==> Now() == old(Now())
      ensures answer.Some? ==>
                var entry := old(pending.entries)[user.value];
                && pending.entries == old(pending.entries) - {user.value}
                && records == (if landed then old(records) + [Record(user.value, entry.email, entry.consent)]
                               else old(records))
                && removals == (if ok then old(removals) else old(removals) + [user.value])
      ensures answer.Some? ==>
                var taken := Taken(old(Now()), user.value);
                var sent := Answered(taken, user.value, landed, ok);
                Now() == if ok then sent else Removed(sent, user.value)
    {
      hide Stashed;
      if user.None? { return None; }
      var id := user.value;
      var entry := pending.Take(id);
      if entry.None? { return None; }
      assert map[id := entry.value] - {id} == map[];
      assert {id} - {id} == {};
      if landed { records := records + [Record(id, entry.value.email, entry.value.consent)]; }
      if ok {
        answered := answered[id := Recorded];
        answer := Some(Recorded);
      } else {
        removals := removals + [id];
        answered := answered[id := Failed];
        answer := Some(Failed);
      }
    }
  }

  // ------------------------------------------------------------ where an agreement is looked for

  /** Whether a request offers an agreement, where its path has one: in the body, or in its callback's state. */
  ghost predicate Offers(request: Request, c: Agreement) {
    || (request.path == Some("/sign-up/email") && Whole(c) && Says(Field(request.body, "consent"), c))
    || (request.path == Some("/sign-in/social") && Whole(c)
        && Says(Field(Field(request.body, "additionalData"), "consent"), c))
    || (request.path == Some("/callback/:id") && request.state == Some(c))
  }

  lemma PathsApart()
    ensures EMAIL_SIGN_UP != SOCIAL_SIGN_IN && EMAIL_SIGN_UP != CALLBACK && SOCIAL_SIGN_IN != CALLBACK
  {
    assert EMAIL_SIGN_UP[1] == 's' && EMAIL_SIGN_UP[6] == 'u' && SOCIAL_SIGN_IN[1] == 's' && SOCIAL_SIGN_IN[6] == 'i';
    assert CALLBACK[1] == 'c';
  }

  /** An account is let through on a sign-up path alone, on the very agreement its request offers there. */
  lemma LetsThroughIff(request: Request, c: Agreement)
    ensures LetsThrough(request) && ConsentFor(request) == Some(c) <==> Offers(request, c)
  {
    PathsApart();
    hide Says, Whole, ParseConsent;
    ParseIff(Field(request.body, "consent"), c);
    ParseIff(Field(Field(request.body, "additionalData"), "consent"), c);
  }

  /** Whether a request is one that must bring an agreement with it. */
  predicate MustOffer(request: Request) {
    || request.path == Some("/sign-up/email")
    || (request.path == Some("/sign-in/social") && Field(request.body, "requestSignUp") == Bool(true))
  }

  /** The before hook refuses exactly the requests that must bring an agreement and bring none. */
  lemma BeforeIff(request: Request)
    ensures BeforeRefuses(request) <==> MustOffer(request) && forall c :: !Offers(request, c)
    ensures forall c :: Carries(request) == Some(c)
                        <==> MustOffer(request) && request.path == Some("/sign-in/social") && Offers(request, c)
  {
    PathsApart();
    hide Says, Whole, ParseConsent;
    forall c
      ensures ParseConsent(Field(request.body, "consent")) == Some(c)
              <==> Whole(c) && Says(Field(request.body, "consent"), c)
      ensures ParseConsent(Field(Field(request.body, "additionalData"), "consent")) == Some(c)
              <==> Whole(c) && Says(Field(Field(request.body, "additionalData"), "consent"), c)
    {
      ParseIff(Field(request.body, "consent"), c);
      ParseIff(Field(Field(request.body, "additionalData"), "consent"), c);
    }
    if BodyConsent(request.body).Some? && request.path == Some("/sign-up/email") {
      assert Offers(request, BodyConsent(request.body).value);
    }
    if SocialConsent(request.body).Some? && request.path == Some("/sign-in/social") {
      assert Offers(request, SocialConsent(request.body).value);
    }
  }

  // ------------------------------------------------------------ what every step keeps

  ghost predicate Wholes(s: Sys) {
    && (forall c <- s.carried :: Whole(c))
    && (forall id <- s.accounts :: Whole(s.accounts[id].consent) && id < s.next)
  }

  /** An account's agreement is in one place at most, and is the one the account was created on. */
  ghost predicate Placed(s: Sys) {
    && (forall id <- s.pending :: id in s.accounts && s.pending[id] == s.accounts[id]
                                  && id !in s.writing && id !in s.removing && id !in s.answered)
    && (forall id <- s.writing :: id in s.accounts && s.writing[id] == s.accounts[id]
                                  && id !in s.removing && id !in s.answered)
    && (forall id <- s.removing :: id in s.accounts && id !in s.answered)
    && (forall id <- s.answered :: id in s.accounts)
  }

  ghost predicate WriteOver(s: Sys, id: Id) { id in s.removing || id in s.answered }

  ghost predicate HasRecord(records: seq<Record>, id: Id) {
    exists i | 0 <= i < |records| :: records[i].subject == id
  }

  /** A row is written once, for an agreement whose write was answered or given up on; a removal likewise. */
  ghost predicate Written(s: Sys) {
    && (forall i | 0 <= i < |s.records| ::
          && WriteOver(s, s.records[i].subject) && s.records[i].subject in s.accounts
          && s.records[i].consent == s.accounts[s.records[i].subject].consent
          && s.records[i].email == s.accounts[s.records[i].subject].email)
    && (forall i, j | 0 <= i < j < |s.records| :: s.records[i].subject != s.records[j].subject)
    && (forall id | id in s.answered && s.answered[id].Recorded? :: HasRecord(s.records, id))
  }

  ghost predicate Dismissed(s: Sys) {
    && (forall i | 0 <= i < |s.removals| :: s.removals[i] in s.answered && s.answered[s.removals[i]].Failed?)
    && (forall i, j | 0 <= i < j < |s.removals| :: s.removals[i] != s.removals[j])
    && (forall id | id in s.answered && s.answered[id].Failed? :: id in s.removals)
  }

  ghost predicate Inv(s: Sys) { Wholes(s) && Placed(s) && Written(s) && Dismissed(s) }

  lemma CreateKeeps(s: Sys, request: Request, now: int)
    requires Inv(s) && Enabled(s, CreateUser(request, now)) && LetsThrough(request)
    ensures Inv(Created(s, request, now))
  {
    assert forall id <- s.accounts :: id < s.next;
  }

  lemma SentKeepsPlaced(s: Sys, id: Id, landed: bool, ok: bool)
    requires Wholes(s) && Placed(s) && id in s.writing
    ensures Wholes(Answered(s, id, landed, ok)) && Placed(Answered(s, id, landed, ok))
  {
  }

  lemma SentKeepsWritten(s: Sys, id: Id, landed: bool, ok: bool)
    requires Placed(s) && Written(s) && id in s.writing && (ok ==> landed)
    ensures Written(Answered(s, id, landed, ok))
  {
    var s' := Answered(s, id, landed, ok);
    if landed { assert s'.records[|s.records|].subject == id; }
    forall other | other in s'.answered && s'.answered[other].Recorded? ensures HasRecord(s'.records, other) {
      if other != id {
        var i :| 0 <= i < |s.records| && s.records[i].subject == other;
        assert s'.records[i].subject == other;
      }
    }
  }

  lemma SentKeepsDismissed(s: Sys, id: Id, landed: bool, ok: bool)
    requires Placed(s) && Dismissed(s) && id in s.writing
    ensures Dismissed(Answered(s, id, landed, ok))
  {
  }

  lemma SentKeeps(s: Sys, id: Id, landed: bool, ok: bool)
    requires Inv(s) && Enabled(s, Sent(id, landed, ok))
    ensures Inv(Answered(s, id, landed, ok))
  {
    hide Wholes, Placed, Written, Dismissed, Answered;
    SentKeepsPlaced(s, id, landed, ok);
    SentKeepsWritten(s, id, landed, ok);
    SentKeepsDismissed(s, id, landed, ok);
  }

  lemma RemoveKeeps(s: Sys, id: Id)
    requires Inv(s) && Enabled(s, RemoveUser(id))
    ensures Inv(Removed(s, id))
  {
    var s' := Removed(s, id);
    assert s'.removals[|s.removals|] == id;
    forall other | other in s'.answered && s'.answered[other].Failed? ensures other in s'.removals {
      if other != id { assert other in s.removals; }
    }
  }

  lemma BeforeKeeps(s: Sys, request: Request)
    requires Inv(s) && Carries(request).Some?
    ensures Inv(s.(carried := s.carried + {Carries(request).value}))
  {
  }

  lemma TakeKeeps(s: Sys, id: Id)
    requires Inv(s)
    ensures Inv(Taken(s, id))
  {
  }

  lemma StepKeeps(s: Sys, a: Action)
    requires Inv(s) && Enabled(s, a)
    ensures Inv(Step(s, a))
  {
    hide Inv, Created, Taken, Answered, Removed, Carries, LetsThrough;
    match a
    case Before(request) => if Carries(request).Some? { BeforeKeeps(s, request); }
    case CreateUser(request, now) => if LetsThrough(request) { CreateKeeps(s, request, now); }
    case Take(id) => TakeKeeps(s, id);
    case Sent(id, landed, ok) => SentKeeps(s, id, landed, ok);
    case RemoveUser(id) => RemoveKeeps(s, id);
  }

  lemma {:induction false} RunKeeps(s: Sys, actions: seq<Action>)
    requires Inv(s) && Runs(s, actions)
    ensures Inv(Run(s, actions))
    decreases |actions|
  {
    hide Inv, Step, Enabled;
    if actions != [] {
      StepKeeps(s, actions[0]);
      RunKeeps(Step(s, actions[0]), actions[1..]);
    }
  }

  /** In every interleaving, an account is let through only on an agreement wholly ticked and dated. */
  lemma OnlyWholeAgreements(actions: seq<Action>)
    requires Runs(START, actions)
    ensures var s := Run(START, actions);
            forall id <- s.accounts :: Whole(s.accounts[id].consent)
  {
    RunKeeps(START, actions);
  }

  /** And no agreement is ever written twice, nor for an account that did not give it. */
  lemma NeverWrittenTwice(actions: seq<Action>)
    requires Runs(START, actions)
    ensures var s := Run(START, actions);
            && (forall i, j | 0 <= i < j < |s.records| :: s.records[i].subject != s.records[j].subject)
            && (forall i | 0 <= i < |s.records| ::
                  && s.records[i].subject in s.accounts
                  && s.records[i].consent == s.accounts[s.records[i].subject].consent
                  && s.records[i].email == s.accounts[s.records[i].subject].email)
  {
    RunKeeps(START, actions);
  }

  // ------------------------------------------------------------ from taken to answered

  /** An agreement that was taken stays in hand until it is recorded, or its account's removal was attempted. */
  ghost predicate InHand(s: Sys, id: Id) {
    id in s.writing || id in s.removing || id in s.answered
  }

  lemma HandKept(s: Sys, a: Action, id: Id)
    requires Inv(s) && Enabled(s, a) && InHand(s, id)
    ensures InHand(Step(s, a), id)
    ensures id in s.answered ==> id in Step(s, a).answered && Step(s, a).answered[id] == s.answered[id]
  {
  }

  lemma {:induction false} HandKeptLong(s: Sys, actions: seq<Action>, id: Id)
    requires Inv(s) && Runs(s, actions) && InHand(s, id)
    ensures InHand(Run(s, actions), id)
    ensures id in s.answered ==> id in Run(s, actions).answered && Run(s, actions).answered[id] == s.answered[id]
    decreases |actions|
  {
    hide Inv, Step, Enabled, InHand;
    if actions != [] {
      StepKeeps(s, actions[0]);
      HandKept(s, actions[0], id);
      HandKeptLong(Step(s, actions[0]), actions[1..], id);
    }
  }

  /** A completion that finds its agreement ends one way: one row, or a removal attempted and a failure answered. */
  lemma TakenEnds(s: Sys, id: Id, actions: seq<Action>)
    requires Inv(s) && id in s.pending && Runs(Step(s, Take(id)), actions)
    ensures var s' := Run(Step(s, Take(id)), actions);
            && InHand(s', id)
            && (id in s'.answered && s'.answered[id].Recorded? ==>
                  HasRecord(s'.records, id) && id !in s'.removals)
            && (id in s'.answered && s'.answered[id].Failed? ==> id in s'.removals)
  {
    hide Placed, Wholes;
    StepKeeps(s, Take(id));
    HandKeptLong(Step(s, Take(id)), actions, id);
    RunKeeps(Step(s, Take(id)), actions);
    var s' := Run(Step(s, Take(id)), actions);
    if id in s'.removals {
      var i :| 0 <= i < |s'.removals| && s'.removals[i] == id;
    }
  }

  /** And it can always end: at most two steps from being taken it is answered for. */
  lemma HandEnds(s: Sys, id: Id) returns (actions: seq<Action>)
    requires Inv(s) && InHand(s, id)
    ensures |actions| <= 2 && Runs(s, actions) && id in Run(s, actions).answered
  {
    hide Inv;
    if id in s.answered {
      actions := [];
    } else if id in s.removing {
      actions := [RemoveUser(id)];
      assert actions[1..] == [];
      assert Run(Removed(s, id), []) == Removed(s, id);
    } else {
      var sent := Answered(s, id, true, true);
      actions := [Sent(id, true, true)];
      assert actions[1..] == [];
      assert Run(sent, []) == sent;
    }
  }

  /** Taking again finds nothing and writes nothing. */
  lemma TakenOnce(s: Sys, id: Id, actions: seq<Action>)
    requires Inv(s) && id in s.pending && Runs(Step(s, Take(id)), actions)
    ensures var s' := Run(Step(s, Take(id)), actions);
            id !in s'.pending && Step(s', Take(id)) == s'
  {
    hide Written, Wholes, Dismissed;
    StepKeeps(s, Take(id));
    HandKeptLong(Step(s, Take(id)), actions, id);
    RunKeeps(Step(s, Take(id)), actions);
  }

  // ------------------------------------------------------------ how long an agreement waits

  /** A sign-up whose clock reads more than the TTL past an agreement's own instant. */
  predicate Ages(a: Action, at: int) {
    a.CreateUser? && LetsThrough(a.request) && a.now - at > 600_000
  }

  lemma WaitStep(s: Sys, a: Action, id: Id)
    requires Inv(s) && Enabled(s, a) && id in s.pending && a != Take(id)
    ensures !Ages(a, s.pending[id].at) ==> id in Step(s, a).pending && Step(s, a).pending[id] == s.pending[id]
    ensures Ages(a, s.pending[id].at) ==> id !in Step(s, a).pending && id < Step(s, a).next
  {
    assert id in s.accounts;
    assert id < s.next;
  }

  lemma {:induction false} GoneStaysGone(s: Sys, actions: seq<Action>, id: Id)
    requires Inv(s) && Runs(s, actions) && id !in s.pending && id < s.next
    ensures id !in Run(s, actions).pending
    decreases |actions|
  {
    hide Inv, Enabled;
    if actions != [] {
      StepKeeps(s, actions[0]);
      GoneStaysGone(Step(s, actions[0]), actions[1..], id);
    }
  }

  /**
   An agreement nobody took is still waiting exactly when no sign-up since has
   read a clock more than the TTL past it, whatever order the clock ran in.
   */
  lemma {:induction false} WaitsIff(s: Sys, actions: seq<Action>, id: Id)
    requires Inv(s) && Runs(s, actions) && id in s.pending && Take(id) !in actions
    ensures id in Run(s, actions).pending <==> forall a <- actions :: !Ages(a, s.pending[id].at)
    ensures id in Run(s, actions).pending ==> Run(s, actions).pending[id] == s.pending[id]
    decreases |actions|
  {
    hide Inv, Step, Enabled, Ages;
    if actions != [] {
      assert actions[0] in actions;
      StepKeeps(s, actions[0]);
      WaitStep(s, actions[0], id);
      var at := s.pending[id].at;
      if Ages(actions[0], at) {
        GoneStaysGone(Step(s, actions[0]), actions[1..], id);
      } else {
        WaitsIff(Step(s, actions[0]), actions[1..], id);
        assert forall a <- actions :: a == actions[0] || a in actions[1..];
      }
    }
  }

  /** So a completion within the TTL of every sign-up's clock finds its agreement. */
  lemma WithinTtlIsFound(s: Sys, request: Request, now: int, actions: seq<Action>)
    requires Inv(s) && Enabled(s, CreateUser(request, now)) && LetsThrough(request)
    requires var s1 := Step(s, CreateUser(request, now));
             && Runs(s1, actions) && Take(s.next) !in actions
             && forall a <- actions :: !Ages(a, now)
    ensures var s2 := Run(Step(s, CreateUser(request, now)), actions);
            && s.next in Step(s2, Take(s.next)).writing
            && Step(s2, Take(s.next)).writing[s.next].consent == ConsentFor(request).value
  {
    StepKeeps(s, CreateUser(request, now));
    WaitsIff(Step(s, CreateUser(request, now)), actions, s.next);
    hide Inv;
  }

  /**
   One past it does not: its completion answers that nothing was created, and
   its account stands with no agreement on record.
   */
  lemma AgedOutStands(request: Request) returns (actions: seq<Action>)
    requires LetsThrough(request) && request.path == Some(EMAIL_SIGN_UP)
    ensures Runs(START, actions)
    ensures var s := Run(START, actions);
            && 0 in s.accounts && Step(s, Take(0)) == s
            && s.records == [] && s.removals == []
  {
    var late := PENDING_TTL_MS + 1;
    var (first, second) := (CreateUser(request, 0), CreateUser(request, late));
    actions := [first, second];
    var s1 := Step(START, first);
    var s2 := Step(s1, second);
    assert actions[1..] == [second] && [second][1..] == [];
    assert Runs(s2, []) && Runs(s1, [second]) && Runs(START, actions);
    assert Run(s2, []) == s2 && Run(s1, [second]) == Run(s2, []) && Run(START, actions) == Run(s1, [second]);
    assert s1.pending[0].at == 0 && 0 !in s2.pending;
  }
}
