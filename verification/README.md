# Listing Sync, modelled and proved

Listing Sync is a Rust and TypeScript platform on which teachers keep resources
and send them to marketplaces. This project models fourteen of its algorithms
and protocols in Dafny and proves what they are for. Each module names the file
it models.

| modules | what they model |
|---|---|
| `BrokerFlow`, `BrokerProtocol`, `BrokerOutcomes` | a browser's byte range relayed from a seller's device: the windows, the byte accounting, and the hand-off between the waiting request and the device's answer |
| `Billing` | a repeated and reordered stream of Stripe events against the grant table and the move ledger |
| `CatalogueEdit`, `CatalogueCreate`, `CatalogueDelete` | editing a resource under the create form's rules, finishing a create that stopped, deleting a product and minting the jobs that remove its listings |
| `GuideText`, `GuideParse`, `GuideFingerprint`, `GuideReads`, `GuideStore`, `GuideSeed`, `GuideOutcomes` | the help-guide corpus: its parser, its fingerprint, its tables and its seed |
| `Consent` | the sign-up agreement, carried by hooks around an account's creation |
| `Preloads` | reachability over the build's import graph |
| `CollectionPublish` | planning and confirming a collection's publication |
| `Analytics`, `KeyCache`, `MailName` | the statistics capture, the signing-key cache, and a display name on its way into a mail |

Where the source changes something in place (the pending registry, a body being
read, the grant rows, the guide tables, the waiting agreements, the job ledger)
the model is a class or a loop whose contract ties it to a function of values,
and the theorems are about that function. Where the source hands control to the
outside, the outside is a parameter that may do anything: a device's uploads and
silences, the order events arrive in, which calls are lost before or after they
commit, what every clock reads, what a fetch brings, what the create form's
rules decide. `hide` statements inside proofs only narrow what the verifier
looks at.

## What turned out false

These are claims a reader of the source would make and the code does not keep;
each has its failing input and the exact condition under which it holds.

- A guide accepted from a file does not always print back to itself: a body
  holding `\r\n` (from a file holding `\r\r\n`) loses one carriage return each
  time (`GuideParse.RoundTripIff`, `GuideParse.RoundTripCanFail`).
- Seeding is not idempotent for a file that names one tag twice: it is stored
  once, hashes apart, and is rewritten and republished by every pass
  (`GuideSeed.WrittenAsFiled`, `GuideSeed.SecondPassRestsIff`,
  `GuideSeed.RepeatedTagNeverSettles`, `GuideSeed.RepeatingRepeats`).
- A checkout session is credited for its first pack line only, and for none
  where a plan line fails before it (`Billing.CreditIsWholeIff`,
  `Billing.SecondPackIsLost`, `Billing.PackBehindPlanIsLost`,
  `Billing.PackBehindTakenPlanIsLost`).
- A plan switch cut off between its two writes is put right by redelivery only
  where the event may create a grant (`Billing.SwitchCutShortHealsIff`,
  `Billing.CutDeletionIsLost`).
- An edit whose second write is lost can leave a resource that no longer passes
  the form's rules (`CatalogueEdit.HalfCommitIff`, `CatalogueEdit.TptHalfCommitIff`,
  `CatalogueEdit.HalfCommitCanBreak`).
- A delete that follows an unfinished one replays its job, so a listing bound in
  between can stay up (`CatalogueDelete.RemovesBoundIff`, `CatalogueDelete.RelistedStaysUp`).
- An account whose endpoint finishes after a later sign-up has aged its agreement
  out stands with none on record (`Consent.WaitsIff`, `Consent.AgedOutStands`).
- A page whose modules fall in several chunks preloads the last chunk's needs
  only, short of what the others reach beyond the shell
  (`Preloads.LastCoversIff`, `Preloads.SplitPageLosesAChunk`).
- A collection confirmed again under a used request key reports as queued what it
  does not queue (`CollectionPublish.ReplanAdmitsNoneIff`, `CollectionPublish.UsedKeyQueuesNothing`).
- One clock reading from the future shuts key fetching out until a cooldown past
  it comes (`KeyCache.FutureStampShutsOut`, `KeyCache.OneReadingAhead`).
- The window walk would not end for a range ending at the greatest `u64`, which
  a range inside a file never does (`BrokerFlow.WalkEndsIff`).

And one refusal is never answered: the seed's vocabulary never finds a slug held
by the other kind alone, because the index is unique per kind and slug
(`GuideSeed.Word`).

## Model

| member | source | states |
|---|---|---|
| BrokerFlow.ServingIff | crates/tam-api/src/broker.rs:75-77 | a device serves exactly where it polled a minute ago or less, whatever instants a clock can read |
| BrokerFlow.ChooseIsTheLatest | crates/tam-api/src/broker.rs:327-344 | a device is named exactly when one is serving, and it is the one that polled last; else the name last seen; else nothing |
| BrokerFlow.WindowEnd | crates/tam-api/src/broker.rs:349-351 | a window stays inside the read, is at most `WINDOW_BYTES` long, and is shorter only at the read's end |
| BrokerFlow.WindowsTile | crates/tam-api/src/broker.rs:346-351 | the windows asked for are consecutive, disjoint, bounded, finite in number, and only the last is short |
| BrokerFlow.WalkEndsIff | crates/tam-api/src/broker.rs:539-547 | a walk over windows ends exactly when its end is below the greatest `u64`, and after exactly the windows that tile it; at the greatest it asks for the last byte for ever |
| BrokerFlow.Pipe | crates/tam-api/src/broker.rs:862-898 | the answering loop sends the frames the answer makes up to where the browser went away, and answers gone, refused or done accordingly |
| BrokerFlow.AnswerExact | crates/tam-api/src/broker.rs:841-898 | an answer is accepted exactly when whole and of exactly the bytes asked for; never more is passed on, and what is passed on is the upload's own beginning |
| BrokerFlow.AnswerFaults | crates/tam-api/src/broker.rs:841-898 | the first arrival that breaks or overruns, or the end that comes short, is the one reason an answer is refused for; every chunk before it has been passed on and nothing after it is |
| BrokerFlow.Flow.constructor | crates/tam-api/src/broker.rs:641-659 | a body starts owing its first window, with that window asked for |
| BrokerFlow.Flow.Next | crates/tam-api/src/broker.rs:521-562 | each item of a body is the next of what remains and takes a frame of it, an error only where it breaks off and an end only where it is clean; windows are asked for in order as the earlier ones end |
| BrokerFlow.ReadOut | crates/tam-api/src/broker.rs:521-562 | asking a body for its items until it stops always stops, with exactly the bytes that remained, and without an error exactly where they end cleanly |
| BrokerFlow.Serve | crates/tam-api/src/broker.rs:641-661 | a body is answered exactly when the first window opens, under the length of the range |
| BrokerFlow.RelayExact | crates/tam-api/src/broker.rs:502-562 | for every conduct of every device the browser receives the answers in order, never more than the declared length, and ends cleanly exactly when every window was answered whole, in time and to the byte |
| BrokerFlow.RangeServed | crates/tam-api/src/broker.rs:577-661 | a device answering with its own copy of a file delivers exactly the range asked for |
| BrokerFlow.Download | crates/tam-api/src/broker.rs:577-661 | end to end: a read opened on devices that answer faithfully is served, and read out to its end it is the range of the file and ends cleanly |
| BrokerProtocol.Registry.Take | crates/tam-api/src/broker.rs:210-212 | the waiting side takes its own entry back, or finds it gone |
| BrokerProtocol.Registry.TakeOurs | crates/tam-api/src/broker.rs:765-775 | an answer takes an entry exactly when organisation, device and capability all match |
| BrokerProtocol.StepKeeps | crates/tam-api/src/broker.rs:426-491 | every step of every party keeps the protocol's invariant |
| BrokerProtocol.DeviceMoveOk | crates/tam-api/src/broker.rs:843-898 | no move of the device breaks what both sides know of an ask |
| BrokerProtocol.DeviceMoveFrame | crates/tam-api/src/broker.rs:843-898 | a device's move touches its own side only and pipes at most one frame, the bytes that arrived or the failure that ends them |
| BrokerProtocol.OneTaker | crates/tam-api/src/broker.rs:475-485 | exactly one party takes a pending entry, once, and only the right device's answer may |
| BrokerProtocol.FailedStaysSilent | crates/tam-api/src/broker.rs:486-490 | once a wait fails, no byte of that ask is ever delivered, and after no answer none is even piped |
| BrokerProtocol.NeverStuck | crates/tam-api/src/broker.rs:475-490 | while a side waits, the entry is pending or an answerer holds or has used the start signal |
| BrokerProtocol.NoStepBack | crates/tam-api/src/broker.rs:475-490 | no step of anybody takes an open ask further from its end |
| BrokerProtocol.DueStepCloser | crates/tam-api/src/broker.rs:475-490 | one of the two sides always has a step that brings an open ask closer to its end |
| BrokerProtocol.WaitEnds | crates/tam-api/src/broker.rs:475-490 | from any reachable state at most eight steps of the two sides settle an open ask |
| BrokerProtocol.BrowserNeverMisled | crates/tam-api/src/broker.rs:502-562 | in every interleaving what a browser received is its windows' bytes in order, tiling its range, never too long, and exactly long enough when the body ended without error |
| BrokerProtocol.PipedIsUploaded | crates/tam-api/src/broker.rs:862-898 | in every interleaving what an ask has piped is the beginning of what was uploaded to it, and all of it while its answer goes on |
| BrokerProtocol.BrowserGetsUploads | crates/tam-api/src/broker.rs:502-562 | in every interleaving what a browser received is the beginning of what the devices uploaded for its windows, in order and each to its length, and all of that when the body ended without error |
| BrokerOutcomes.OutcomeIff | crates/tam-api/src/broker.rs:521-562 | in every interleaving a read is ended, broken off, left or refused exactly where some action did that to it: ended by running its last window dry with its whole range received, broken by a failure frame, a silence, a short window or a later one never opened |
| BrokerOutcomes.NextComesTo | crates/tam-api/src/broker.rs:521-562 | one action ends a read exactly under those conditions, takes nothing received back, and asks for no window twice |
| BrokerOutcomes.WholeReadEnds | crates/tam-api/src/broker.rs:539 | a read whose windows are dry with its whole range received ends without error at its next look |
| BrokerOutcomes.FailIff | crates/tam-api/src/broker.rs:475-490 | a wait fails exactly on a failed row write, a refusal, a lost signal or its timer with the entry taken back |
| BrokerOutcomes.StatusIs | crates/tam-api/src/broker.rs:841-898 | what a device is answered for each of its moves, and what the waiting side is told by it |
| BrokerOutcomes.CanBeServed | crates/tam-api/src/broker.rs:577-661 | in any reached state any range of a file can be begun and served whole |
| Billing.PackMovesExact | crates/tam-api/src/billing.rs:1132-1136 | a pack line buys its quantity, at least one, times its size, bounded once by the column, through both saturations |
| Billing.PricesSell | crates/tam-limits/src/lib.rs:564-576 | each plan is sold by the month and the year, five packs by their size, and nothing else |
| Billing.Latest | crates/tam-api/src/billing.rs:925-935 | the service period's end is the latest any line states, and absent exactly when none does |
| Billing.ProviderGrant | crates/tam-storage/src/entitlement.rs:281-297 | a subscription's live grant is one of its own, unrevoked and not an operator's, or there is none |
| Billing.Ledger.HoldPlan | crates/tam-api/src/billing.rs:1578-1648 | holding a plan over the grant rows refines the transition the theorems are about |
| Billing.Ledger.FulfilCheckout | crates/tam-api/src/billing.rs:1115-1187 | the loop over a session's lines refines crediting and starting line by line |
| Billing.Ledger.Webhook | crates/tam-api/src/billing.rs:1033-1082 | a delivery refines the transition of its event |
| Billing.ChangeGives | crates/tam-api/src/billing.rs:1459-1509 | in the event's own fields: a deleted subscription's grant ends at the instant it ended, or else with its period; an active or trialing one runs to its period's end and a day, any other to that end with no grace; only an active or trialing one, of a mapped price and not deleted, creates a grant |
| Billing.InstantsAreMillis | crates/tam-api/src/billing.rs:1459-1509 | the instants above are Stripe's seconds in milliseconds, and a grace is a day of them |
| Billing.PaymentGives | crates/tam-api/src/billing.rs:1311-1366 | a paid invoice runs the grant to the latest end its lines or its header state and a day more, or creates it |
| Billing.FailureGives | crates/tam-api/src/billing.rs:1406-1449 | a failed invoice gives a held grant a day and creates none |
| Billing.CheckoutGives | crates/tam-api/src/billing.rs:1197-1247 | a checkout grants the first plan among its lines for a day where the subscription has no grant yet |
| Billing.RefusedIff | crates/tam-api/src/billing.rs:1033-1082 | a delivery of an own subscription is refused exactly where it cannot be read, and one for nobody known or unpaid does nothing |
| Billing.HistoryKept | crates/tam-api/src/billing.rs:1604-1648 | over every run no row goes, a revoked row never changes, and every grant, revocation and credit bears the instant of some delivery |
| Billing.Ledger.EndPlanNow | crates/tam-api/src/billing.rs:594-625 | a refunded plan's grant ends at the instant of the refund, where the charge resolved to an organisation |
| Billing.OneLiveGrant | crates/tam-api/src/billing.rs:1568-1577 | over every run of deliveries and refunds a source names at most one unrevoked grant |
| Billing.NeverRefusedAsTaken | crates/tam-api/src/billing.rs:1568-1577 | and the unique index never has to refuse a delivery for it: in every run each delivery of a subscription whose rows are its organisation's own is written or needs no write |
| Billing.TableRefinesCell | crates/tam-api/src/billing.rs:1578-1648 | the grant table with all its revoked rows moves, for one subscription, as one cell holding a plan and an expiry |
| Billing.RunRefinesCell | crates/tam-api/src/billing.rs:1406-1509 | and so over every run of events |
| Billing.GrantIsLastWord | crates/tam-api/src/billing.rs:1406-1509 | the live grant names the plan of the latest mapped price since its creation and runs to the latest end given since |
| Billing.LastWordExists | crates/tam-api/src/billing.rs:1639-1646 | a grant exists exactly when some delivered event could create one; a deletion never does |
| Billing.CheckoutAndInvoiceConverge | crates/tam-api/src/billing.rs:1197-1247 | a checkout and its first paid invoice, in any order with any repeats, leave the same plan and expiry |
| Billing.StoredGrantsConverge | crates/tam-api/src/billing.rs:1311-1366 | and the same stored grant |
| Billing.RedeliveryIsNothing | crates/tam-api/src/billing.rs:1033-1082 | delivering an event twice in a row leaves the very store that delivering it once does |
| Billing.SwitchCutShortHealsIff | crates/tam-api/src/billing.rs:1616-1631 | a plan switch stopped between revoke and grant is repaired by redelivery exactly when the event may create a grant |
| Billing.CutDeletionIsLost | crates/tam-api/src/billing.rs:1616-1631 | a deletion naming another mapped price and cut off there leaves no grant, where whole it leaves one to the subscription's end |
| Billing.CreditIsWholeIff | crates/tam-api/src/billing.rs:1115-1187 | a session not yet credited gains all the packs it paid for exactly when it has no pack line, or has one and no plan line fails before it |
| Billing.SecondPackIsLost | crates/tam-api/src/billing.rs:1115-1160 | a session of packs of 20 and 50 gains 20 |
| Billing.PackBehindPlanIsLost | crates/tam-api/src/billing.rs:1161-1187 | a session whose plan line cannot be started gains nothing of the pack behind it |
| Billing.PackBehindTakenPlanIsLost | crates/tam-api/src/billing.rs:1161-1187 | and so does one whose subscription another organisation's live grant already names |
| Billing.MovesConserved | crates/tam-api/src/billing.rs:1091-1161 | pack moves credited are the sum over distinct paid sessions of what each bought |
| Billing.MovesIgnoreOrder | crates/tam-api/src/billing.rs:1091-1161 | and do not depend on the order or number of deliveries |
| CatalogueEdit.StoredBlockReadsTheSame | crates/tam-api/src/product/check.rs:36-114 | a sidecar stored and read back is judged as the block it was stored from |
| CatalogueEdit.RecordIsStorable | crates/tam-api/src/product/check.rs:31-112 | a sidecar is accepted exactly where its row is one the vocabularies and columns admit |
| CatalogueEdit.EditKeepsWellFormed | crates/tam-api/src/catalogue.rs:2157-2206 | no prepared edit writes a title, price, grade or rights grant its own constructor refuses |
| CatalogueEdit.PrepareIff | crates/tam-api/src/catalogue.rs:2117-2284 | an edit is refused with the first thing to be said against it, in the source's order, and accepted exactly where there is none |
| CatalogueEdit.EditStores | crates/tam-api/src/catalogue.rs:2146-2284 | a committed edit stores what it sent and leaves the rest: an Html body through the allow-list, a Markdown one as typed, the old pair where none or the same was sent |
| CatalogueEdit.RunHoldsBodies | crates/tam-api/src/catalogue.rs:67-72 | over every run a stored body is the first one or one sent since, and an Html one sent is what the allow-list makes of it |
| CatalogueEdit.TptSubmittableIff | crates/tam-authoring/src/lib.rs:808-866 | when a stored resource meets TPT's rules, in terms of the stored row and its mappings |
| CatalogueEdit.HeadAfter | crates/tam-api/src/catalogue.rs:1928-1966 | the product an edit was judged on is the product the rules read once it is written |
| CatalogueEdit.VerdictAfter | crates/tam-api/src/catalogue.rs:2117-2284 | a committed edit is submittable exactly when the head and sidecar it was prepared with pass |
| CatalogueEdit.UntouchedVerdict | crates/tam-api/src/catalogue.rs:1990-1992 | an edit of neither title, body, price nor grades and with no sidecar leaves every input of the verdict as it was |
| CatalogueEdit.SubmittedMeetsTheBar | crates/tam-api/src/catalogue.rs:2217-2251 | under the submission bar an edit ends submittable exactly when it sends a sidecar, touches the rules of a resource with one, or left it submittable |
| CatalogueEdit.FillIsPromoted | crates/tam-api/src/catalogue.rs:2126-2145 | a fill on a submittable resource is held to exactly what a submission is |
| CatalogueEdit.EditKeepsSubmittable | crates/tam-api/src/catalogue.rs:2055-2081 | under either bar no committed edit takes a submittable resource below the rules |
| CatalogueEdit.RunKeepsSubmittable | crates/tam-api/src/catalogue.rs:2055-2064 | nor does any run of edits with the mappings fixed |
| CatalogueEdit.Row.CommitEdit | crates/tam-api/src/catalogue.rs:2292-2313 | the two writes land together, or a missing product writes nothing, or a fault leaves the row as it was or half written |
| CatalogueEdit.HalfCommitIff | crates/tam-api/src/catalogue.rs:2299-2312 | a commit stopped between its writes leaves a submittable resource so exactly when the old sidecar passes on the new head |
| CatalogueEdit.HalfCommitUntouched | crates/tam-api/src/catalogue.rs:2299-2312 | which holds for every edit that touches none of what the rules read |
| CatalogueEdit.TptHalfCommitIff | crates/tam-authoring/src/lib.rs:808-866 | under TPT's rules as `TptRules` has them, of any resource and any edit that passes, a commit may stop half way exactly unless the resource ends priced, still owed to TPT, with no tax code in its old sidecar |
| CatalogueEdit.HalfCommitCanBreak | crates/tam-authoring/src/lib.rs:808-866 | pricing a free resource mapped to TPT and not live there, and giving it its tax code in one edit, leaves it unsubmittable between the two writes |
| CatalogueCreate.Tenant.InsertMissing | crates/tam-api/src/catalogue.rs:1505-1530 | the mapping loop writes the plan's slots in order, skipping those held, one identifier per inventory by position |
| CatalogueCreate.Tenant.RecordAll | crates/tam-api/src/catalogue.rs:1532-1588 | the election loop records each answered question once and counts the rows it wrote |
| CatalogueCreate.Tenant.RecordAnswered | crates/tam-storage/src/elections.rs:680-732 | an answer is refused where malformed, and written only where its question has none |
| CatalogueCreate.Tenant.FinishIn | crates/tam-api/src/catalogue.rs:1495-1595 | the trailing writes of a create, refined to the function the theorems are about |
| CatalogueCreate.Tenant.FinishExisting | crates/tam-api/src/catalogue.rs:1607-1636 | a completion that is refused leaves everything as it stood |
| CatalogueCreate.MappedIff | crates/tam-api/src/catalogue.rs:1505-1530 | the mappings are written exactly when the plan fits the table and itself, and then exactly the missing ones are added |
| CatalogueCreate.AnsweredIff | crates/tam-api/src/catalogue.rs:1532-1588 | the elections are recorded exactly when all are well formed, each new question with the first answer given to it |
| CatalogueCreate.CompletesIff | crates/tam-api/src/catalogue.rs:1495-1595 | a fresh completion is refused exactly where its plan does not fit or an election is malformed, and then writes nothing; accepted, it adds exactly the missing rows and answers, answers each slot with its identifier and counts the answers it wrote |
| CatalogueCreate.ElectionIff | crates/tam-api/src/catalogue.rs:1532-1588 | an election is refused exactly where it is malformed, with the first of its faults, and answers the one question its product, inventory, axis and trigger name |
| CatalogueCreate.FirstMalformed | crates/tam-api/src/catalogue.rs:1532-1588 | a stopped completion is answered with the fault of the first malformed election |
| CatalogueCreate.MappedStopsAs | crates/tam-api/src/catalogue.rs:1505-1530 | the mappings stop for want of an identifier exactly where those given fit and run out, and else for a key already taken |
| CatalogueCreate.ResumeReachesFresh | crates/tam-api/src/catalogue.rs:1474-1490 | completing from any partly finished state reaches the mappings and answers of a fresh run, writing only what is missing |
| CatalogueCreate.CompletedTwice | crates/tam-api/src/catalogue.rs:1474-1490 | a second completion writes nothing and answers with the same mappings |
| CatalogueDelete.Tenant.CreateWithRequestKey | crates/tam-storage/src/jobs.rs:3985-4039 | a request key seen before answers its first job untouched |
| CatalogueDelete.Tenant.DeleteProduct | crates/tam-api/src/catalogue.rs:2412-2555 | the whole delete, refusals, removals, soft delete and answers, refined to the function the theorems are about |
| CatalogueDelete.OneJobEver | crates/tam-api/src/catalogue.rs:2500-2528 | over every run of deletes, failures and other changes, a product has at most one removal job per platform and a job stands as minted |
| CatalogueDelete.CompletedDelete | crates/tam-api/src/catalogue.rs:2425-2555 | removals and listings left live partition what was bound, every removal's job is in the ledger and addresses the listing bound where no earlier job claims its key for another, and nothing is left live unless asked |
| CatalogueDelete.OnlyConsentedRemovals | crates/tam-api/src/catalogue.rs:2393-2528 | however a delete ends, each job it adds is of an elected bound mapping with consent, naming its listing, live exactly where the mapping was; and a completed delete had consent for every removal |
| CatalogueDelete.DeleteRefusedIff | crates/tam-api/src/catalogue.rs:2425-2552 | each refusal of a delete that loses no call, by an exact condition on what is bound, elected and consented to |
| CatalogueDelete.RemovalsInOrder | crates/tam-api/src/catalogue.rs:2485-2535 | removals are answered one a mapping in the order listed |
| CatalogueDelete.RetryMintsTheSame | crates/tam-api/src/catalogue.rs:2500-2528 | however far an attempt got, trying again mints exactly the ledger one undisturbed attempt would |
| CatalogueDelete.RetryCompletes | crates/tam-api/src/catalogue.rs:2536-2554 | and completes exactly while there is still something to delete or to remove |
| CatalogueDelete.RemovesBoundIff | crates/tam-storage/src/jobs.rs:3992-3997 | a completed delete removes an elected bound listing exactly when no earlier job under its key addresses another; a replayed job stands as it was, and a new one is of the mapping, its listing and its state |
| CatalogueDelete.RemovesAllIff | crates/tam-api/src/catalogue.rs:2470-2535 | and removes every one of them exactly when that holds of each |
| CatalogueDelete.RelistedStaysUp | crates/tam-api/src/catalogue.rs:2500-2528 | a listing bound after an unfinished delete outlives the delete that follows it |
| GuideParse.Parse | crates/tam-admin/src/guides_seed.rs:210-290 | the parser's two loops refine one function of the file's lines, with the same refusals in the same order |
| GuideParse.ParsedIsAccepted | crates/tam-admin/src/guides_seed.rs:215-290 | an accepted guide has a slug topic and tags, a trimmed one-line bounded title, and a trimmed bounded body with no comment-only line |
| GuideParse.BodyIsTheProse | crates/tam-admin/src/guides_seed.rs:215-280 | its body is exactly the lines after the first closing fence, less the first heading and the comments, and its title is that heading |
| GuideParse.RoundTripIff | crates/tam-admin/src/guides_seed.rs:210-290 | printing an accepted guide and parsing it again gives it back exactly when its body has no carriage return before a newline |
| GuideParse.RoundTrip | crates/tam-admin/src/guides_seed.rs:210-290 | and so for every accepted text without carriage returns |
| GuideParse.RoundTripCanFail | crates/tam-admin/src/guides_seed.rs:210-290 | a file holding two carriage returns before a newline is accepted and prints to another guide |
| GuideReads.ParsedIff | crates/tam-admin/src/guides_seed.rs:210-290 | a text is read as the guide its lines say, each key by its last line, or refused for the first thing wrong with it, told line by line |
| GuideFingerprint.Absorb | crates/tam-admin/src/guides_seed.rs:124-131 | one field goes into the hash as its UTF-8 bytes and the separator |
| GuideFingerprint.Fingerprint | crates/tam-admin/src/guides_seed.rs:88-120 | the fingerprint is FNV-1a over the one framed byte string of title, topic, sorted tags and body |
| GuideFingerprint.FieldEnds | crates/tam-admin/src/guides_seed.rs:122-131 | the separator never occurs in UTF-8, so it ends a field wherever it stands |
| GuideFingerprint.HashedBytesDecide | crates/tam-admin/src/guides_seed.rs:104-131 | two contents hash the same bytes exactly when title, topic, body and the bag of tags agree |
| GuideFingerprint.SameContentHashesAlike | crates/tam-admin/src/guides_seed.rs:82-92 | whichever order tags come in, equal contents hash alike |
| GuideStore.GuideRepo.Create | crates/tam-storage/src/guide.rs:912-945 | a guide is created at revision 1 as a draft, or its slug is taken |
| GuideStore.GuideRepo.Save | crates/tam-storage/src/guide.rs:958-997 | a save lands only on the guide and revision named, and moves the revision on by one |
| GuideStore.GuideRepo.Publish | crates/tam-storage/src/guide.rs:1020-1070 | a publish copies exactly the draft whose revision was named |
| GuideStore.LandsIff | crates/tam-storage/src/guide.rs:958-1070 | a conditional write lands exactly on the guide and revision it names, and otherwise says what stands there and writes nothing |
| GuideStore.RevisionSpentOnce | crates/tam-storage/src/guide.rs:958-1070 | once a write has landed on a revision no later write naming it lands, whatever is written in between |
| GuideSeed.Word | crates/tam-admin/src/guides_seed.rs:324-357 | a word is answered with the row the table holds under its kind and slug, whoever made it |
| GuideSeed.Seeder.WordFor | crates/tam-admin/src/guides_seed.rs:324-357 | the vocabulary's lookup, insert and re-read refine that |
| GuideSeed.Seeder.SeedOne | crates/tam-admin/src/guides_seed.rs:390-456 | seeding one guide refines the function the theorems are about |
| GuideSeed.SeedCorpus | crates/tam-admin/src/guides_seed.rs:375-388 | the pass seeds guides in order and stops at the first that fails |
| GuideSeed.PublishedAsWritten | crates/tam-admin/src/guides_seed.rs:418-456 | what a seed publishes is the very draft it wrote or found matching, under its revision |
| GuideSeed.WrittenAsFiled | crates/tam-admin/src/guides_seed.rs:397-412 | what is stored has the file's content exactly when the file names no tag twice |
| GuideSeed.SeedOneDone | crates/tam-admin/src/guides_seed.rs:435-442 | a guide already done is left alone and answered unchanged, whichever calls are lost |
| GuideOutcomes.SeedOneComesTo | crates/tam-admin/src/guides_seed.rs:390-456 | one guide, whichever calls are lost: created, unchanged and updated each exactly where due, the very row and revision left, and a failure only as a lost call, leaving the row before, between or after its two writes |
| GuideOutcomes.WordLearned | crates/tam-admin/src/guides_seed.rs:324-357 | a word is asked of the store once a pass, and none is added but the one named |
| GuideSeed.RunSettles | crates/tam-admin/src/guides_seed.rs:370-388 | however far a pass got, every guide it answered for is written and published as its file says |
| GuideOutcomes.PassComesTo | crates/tam-admin/src/guides_seed.rs:370-388 | over a whole pass: it completes exactly when every call was heard, each guide answered for is as its answer says, the one it stopped at is part way, and no other guide is touched |
| GuideOutcomes.SeedComesTo | crates/tam-admin/src/guides_seed.rs:370-388 | and so of the command, which writes nothing where it cannot read the vocabulary |
| GuideOutcomes.OnlyNamedWords | crates/tam-admin/src/guides_seed.rs:390-400 | a seed adds no word but those its file names |
| GuideSeed.SeedResumes | crates/tam-admin/src/guides_seed.rs:370-388 | after a pass that completed or stopped anywhere, a second pass writes nothing for every guide the first answered for, and leaves its row as it stands however far past that stop it goes |
| GuideSeed.SeedCompletes | crates/tam-admin/src/guides_seed.rs:370-388 | the first pass that loses no call leaves the whole corpus done, whatever earlier passes left |
| GuideSeed.SecondPassRestsIff | crates/tam-admin/src/guides_seed.rs:435-442 | whatever the corpus, once a guide that did not match its file has been seeded a second pass leaves it alone exactly when what is stored of the file hashes as the file does, as where no tag is named twice |
| GuideSeed.RepeatedTagNeverSettles | crates/tam-storage/src/guide.rs:1357-1378 | whatever the corpus, a file naming a tag twice that hashes apart from what is stored of it is rewritten and republished by every pass that loses no call, two revisions a pass |
| GuideSeed.RepeatingRepeats | crates/tam-admin/src/guides_seed.rs:88-120 | there is such a file |
| Consent.ParseIff | auth/src/consent.ts:39-51 | an agreement is read out of a value exactly when it is wholly ticked and dated and the value says all of it, whatever else it says |
| Consent.ParseRendered | auth/src/consent.ts:39-51 | and every such agreement is read back exactly |
| Consent.PendingConsents.Stash | auth/src/consent.ts:133-141 | a stash drops exactly the entries older than the TTL and adds its own |
| Consent.PendingConsents.Take | auth/src/consent.ts:143-147 | a take answers and removes exactly one entry |
| Consent.ConsentHooks.Before | auth/src/consent.ts:211-225 | a sign-up without a whole agreement is refused, and a social one's agreement is carried |
| Consent.ConsentHooks.CreateUser | auth/src/consent.ts:227-244 | an account on a sign-up path is let through only on an agreement, which is stashed under its new id |
| Consent.LetsThroughIff | auth/src/consent.ts:227-244 | an account is let through exactly on a sign-up path whose request offers a whole agreement there, and on that agreement |
| Consent.BeforeIff | auth/src/consent.ts:211-225 | the before hook refuses exactly the requests that must bring an agreement and bring none |
| Consent.ConsentHooks.Complete | auth/src/consent.ts:246-275 | a completion takes its agreement once, and records it or attempts the account's removal |
| Consent.OnlyWholeAgreements | auth/src/consent.ts:227-244 | in every interleaving accounts stand only on wholly ticked, dated agreements |
| Consent.NeverWrittenTwice | auth/src/consent.ts:246-275 | no agreement is written twice, nor for an account that did not give it |
| Consent.TakenEnds | auth/src/consent.ts:250-274 | a taken agreement ends in exactly one recorded row, or in a removal attempted and a failure answered |
| Consent.HandEnds | auth/src/consent.ts:246-275 | and at most two steps from being taken it is answered for |
| Consent.TakenOnce | auth/src/consent.ts:246-253 | completing again finds nothing and writes nothing |
| Consent.WaitsIff | auth/src/consent.ts:133-141 | an untaken agreement is still waiting exactly when no later sign-up read a clock more than the TTL past it |
| Consent.WithinTtlIsFound | auth/src/consent.ts:246-253 | a completion within the TTL finds the agreement its account was created on |
| Consent.AgedOutStands | auth/src/consent.ts:246-253 | one past it leaves an account with no agreement on record |
| Preloads.Reach | web/vite.config.ts:57-74 | on every graph, cyclic or with missing names, the worklist ends with each reachable chunk exactly once and nothing else |
| Preloads.PageList | web/vite.config.ts:92-95 | a list holds, without repeats, the stylesheets and then the chunks reached from the page and not from the shell |
| Preloads.StartsIff | web/vite.config.ts:75-84 | the shell starts at the build's entries and the root layout, a page at the signed-out layout beside itself |
| Preloads.AuthPreloads | web/vite.config.ts:48-97 | every page path has the list of the last chunk that draws it, and no other path has one |
| Preloads.LastCoversIff | web/vite.config.ts:75-97 | a path's list holds all that the layout and every chunk drawing the path need beyond the shell exactly when each of those chunks is reached from the shell, or from the layout and the last of them |
| Preloads.PageIsRecognised | web/src/lib/shell-preload.ts:21-24 | both modules of a signed-out page are that page's, wherever the routes stand, and neither is a layout |
| Preloads.PageIff | web/src/lib/shell-preload.ts:21-24 | a module is a page's exactly where it is a page file over the first route of the signed-out group with a path below it |
| Preloads.SegmentedIff | web/src/lib/shell-preload.ts:21-24 | the paths a page may stand under are exactly the routes of segments, none empty, without a slash or a plus |
| Preloads.LoginIsAPage | web/src/lib/shell-preload.ts:21-24 | the sign-in page is one |
| Preloads.SplitPageLosesAChunk | web/vite.config.ts:86-96 | every signed-out page whose two modules fall in two unconnected chunks loses the first |
| CollectionPublish.LoweredReaches | crates/tam-storage/src/lowering.rs:58-100 | an intent lowers exactly where nothing is bound or the bound listing is named, in a known state the marketplace can leave; its writes each find the state they expect and end at the state asked for |
| CollectionPublish.PublishPlan | crates/tam-api/src/collections.rs:775-881 | the plan's loop gives one row per member in order, the tally of each verdict, and the admitted members |
| CollectionPublish.WillCreateIff | crates/tam-api/src/collections.rs:788-870 | a member is admitted exactly when nothing of it is on the target, on its way there or in its way |
| CollectionPublish.AlreadyThereIff | crates/tam-api/src/collections.rs:788-870 | a member is already there, under the listing its row names, exactly where its mapping on the target names a remote listing |
| CollectionPublish.PlanAccounts | crates/tam-api/src/collections.rs:775-881 | the counts sum to the membership and the admitted are exactly the creates |
| CollectionPublish.PlanCounts | crates/tam-api/src/collections.rs:775-881 | each count is the number of members it speaks of: those nothing stands in the way of, and those bound already |
| CollectionPublish.AdmittedInOrder | crates/tam-api/src/collections.rs:860-881 | the admitted stand in the members' own order |
| CollectionPublish.Shop.Confirm | crates/tam-api/src/collections.rs:606-688 | the confirm re-plans, mints what is missing and queues one job |
| CollectionPublish.ConfirmQueues | crates/tam-api/src/collections.rs:606-688 | the table never refuses what its own plan admitted, and under a fresh key every admitted resource has an open item |
| CollectionPublish.QueuedInOrder | crates/tam-api/src/collections.rs:606-688 | under a fresh key exactly the admitted resources' writes are queued, resource after resource, each create before its publication |
| CollectionPublish.AdmittedIsCreated | crates/tam-storage/src/lowering.rs:63-69 | what an admitted resource is lowered to is its create, then its publication where live was asked, on the mapping it had or a new one |
| CollectionPublish.OpenIsNotAdmitted | crates/tam-api/src/collections.rs:835-846 | while an item is open on a resource's mapping no plan admits it |
| CollectionPublish.ReplanAdmitsNoneIff | crates/tam-api/src/collections.rs:670-687 | planning again admits none of what was confirmed exactly when the request key was fresh |
| CollectionPublish.UsedKeyQueuesNothing | crates/tam-api/src/collections.rs:670-687 | one resource confirmed under a used key is acknowledged as queued, queued nowhere and admitted again |
| CollectionPublish.SetMembers | crates/tam-api/src/collections.rs:445-483 | a membership is the named resources the catalogue holds, each once, in the order first named |
| Analytics.BatchesMakeUp | crates/tam-analytics/src/lib.rs:139-141 | the batches joined are the resources in order, and all but the last are as large as the marketplace admits |
| Analytics.IndexIff | crates/tam-analytics/src/lib.rs:114-126 | a resource is indexed under the mapping of the last listing that names it |
| Analytics.CaptureListings | crates/tam-analytics/src/lib.rs:202-227 | the nested loop captures the requests of every metric and batch in turn |
| Analytics.AskedOnce | crates/tam-analytics/src/lib.rs:202-227 | a resource is asked about under a metric at one place of one request exactly when it is indexed and the metric captured, and nowhere else |
| Analytics.CapturedExact | crates/tam-analytics/src/lib.rs:150-167 | each row is written as often as some answer gives it for an indexed resource, at the one instant, and answered and failed reads are all of them |
| Analytics.EveryReadCounted | crates/tam-analytics/src/lib.rs:202-227 | a pass makes one read a metric and batch, and answered and failed reads are all of them |
| KeyCache.AuthBridge.KeyFor | crates/tam-api/src/auth.rs:180-202 | a lookup answers from the cache, or fetches at most once a cooldown and stamps it whatever comes of it |
| KeyCache.KeyIsHeld | crates/tam-api/src/auth.rs:180-202 | a key is answered only out of the cached or just-fetched set, under the identifier asked for |
| KeyCache.AnsweredIff | crates/tam-api/src/auth.rs:180-202 | a key is answered exactly where it is the first under its identifier in the cached set, or, that set giving none and a fetch being due, in the fetched one; and what each lookup leaves cached |
| KeyCache.LastBrought | crates/tam-api/src/auth.rs:180-202 | after any run the cached keys are those the last fetch to bring any brought |
| KeyCache.StampsAreSpaced | crates/tam-api/src/auth.rs:105-109 | whatever the clock reads, consecutive fetches are at least the cooldown apart |
| KeyCache.FetchesAreBounded | crates/tam-api/src/auth.rs:105-109 | any interval of length T holds at most T over the cooldown, plus one, fetches |
| KeyCache.FutureStampShutsOut | crates/tam-api/src/auth.rs:105-109 | after a stamp from the future no run of lookups fetches, exactly until an uncached key is asked for a cooldown past it |
| KeyCache.OneReadingAhead | crates/tam-api/src/auth.rs:180-202 | a key the service holds goes unanswered for one earlier reading a day ahead |
| MailName.CapMarks | auth/src/template.ts:119-134 | the loop keeps everything but marks with two right before them |
| MailName.CappedHasFewMarks | auth/src/template.ts:119-134 | so no three combining marks stand in a row |
| MailName.CappedKeepsFew | auth/src/template.ts:119-134 | and a text that never stacks three is untouched |
| MailName.SanitisedIsSafe | auth/src/template.ts:145-156 | every name comes out as at most 80 code points of printable characters with single inner spaces, none at either end, and no three marks in a row |
| MailName.SafeIsKept | auth/src/template.ts:145-156 | a name that is such a line already goes through untouched |
| MailName.NameIsItsWords | auth/src/template.ts:145-156 | every name comes out as its words: what is drawn of it, marks capped, one space between words, cut at eighty points |
| MailName.DrawnPointByPoint | auth/src/template.ts:94-112 | a point that breaks a line or looks blank is drawn as a space, an unprintable one not at all, any other as itself |
| MailName.GreetingFor | auth/src/template.ts:164-167 | the greeting is put together from the name so reduced, or stands alone where nothing is left of it |
| MailName.GreetingIsSafe | auth/src/template.ts:164-167 | the greeting is one bounded printable line that never ends in a dangling comma |
| MailName.UnescapeEscape | auth/src/template.ts:59-75 | reading the five entities back recovers exactly what was escaped |
| MailName.EscapedHasNoMarkup | auth/src/template.ts:59-75 | escaped text holds no angle bracket and no quote |

## Left out

- The hard bound of `STREAMS_MAX` concurrent asks: its check and the insert take the lock separately, so it is not one.
- A browser dropped while its window is still opening: the waiting side runs to its timeout.
- `pass_on` between processes, the device's polling and leases, notification and the `Busy` answer: an answer reaches the process that holds the ask.
- A refusal's own words and the mapping of failures to HTTP statuses; range headers arrive parsed.
- Fresh UUIDs are modelled as identifiers never used before.
- Billing.Ledger.FulfilCheckout: does not write the monthly accrual and the billing row beside a plan line, whose merge rules are the repositories' own.
- Billing.Ledger.Webhook: does not write the payments ledger, a charge's card fingerprint, the billing row or the monthly accrual, for the same reason.
- Billing.Ledger.EndPlanNow: does not cancel at Stripe or write the billing row; a refunded pack's moves taken back out of the balance are not part of the ledger's runs.
- Timestamps a column cannot hold, revisions past 32 bits, and other faults the database raises beyond its keys.
- Equal fingerprints of unequal contents: a 64-bit hash can collide, so only the framed bytes are proved to decide a guide.
- Other operators editing a guide while a seed runs, beyond words they add: the stale and missing answers of a conditional write are proved of the store alone.
- What a word is displayed as, when a guide was edited and by whom.
- The derived interval of a grade declaration, the wording of refusals, and which of a template's own rules refuses a fill: the create form's rules are an open parameter.
- Concurrent edits, and a template applied from a preview taken earlier: an edit is prepared on the rows it is committed to.
- The create's own refusals and quotas before its product row, which a completion does not run again; a mapping's policies, binding and lifecycle as created.
- Collisions of the derived request key, which is a hash of the product and the platform.
- Unicode's tables and normalisation in a display name: they are parameters, of which only that a space is plain is assumed.
- The order of a page's chunks among themselves.
- The consent a marketplace needs before a job is minted, and the price a minted mapping records.
- HTTP, SQL, row-level security, Stripe and marketplace calls, signing, telemetry, the browser extension and the pages themselves: plumbing around what is modelled.
- Retention of snapshots and the parsing of digests: small enough to read.
