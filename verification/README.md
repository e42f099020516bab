# A verified model of the agent hub

The hub is a store-and-forward mailbox for agents: a message sent to an agent becomes a task in
the recipient's mailbox, and a session `principal/session` reads two mailboxes, its own and its
principal's. This project models the parts of it where state and order matter and proves what
they promise:

- **Paged reading** (`Store`, `Cursors`, `Json`, `Base64`, `Client`, `Paging`, `Drain`, `Reading`, `Places`, `Arrivals`,
  `Repeats`, `Accounts`, `Counting`, `Misses`, `Walks`, `Exactness`, `Conclusions`, `Mailboxes`): the merged, cursor-driven listing of two mailboxes
  and the client that walks it. `Places` proves that cursors and opaque tokens are places in the two mailboxes, for every
  history of them. Over mailboxes in which some tasks last while others come, change, go and come to last, `Arrivals` proves
  what is never missed, `Repeats` exactly what comes twice, `Accounts` what a finished read amounts to, `Misses` and
  `Counting` what comes in no form and what that does to the count, and `Walks` how the client's walk ends. `Exactness` is the case in which tasks only arrive. `Paging`, `Drain` and `Reading` give the whole drain
  in closed form when they arrive in front: order, page counts, exactly once at rest. `Conclusions` adds the client's own
  verdict on its read, `Mailboxes` isolation and the rows.
- **Delivery** (`Executor`, `Delivery`, `Live`, `LiveMisses`, `LiveReads`): the executor's steps; any number of sends in flight whose
  producers and consumers interleave arbitrarily over one table; and a session that reads its mailboxes in the middle of that.
- **The mailbox and marks** (`Marks`, `Hub`, `Inbox`, `Timestamps`): deliveries and marks as a state machine, with
  invariants over every run, and what the client concludes from what it reads.
- **Identity and presence** (`Identity`, `Admission`, `Registry`): who gets in, which mailboxes
  can be addressed, and a register whose writes are debounced by a cache.
- **Inputs that fail** (`Counterexamples`, `Incidents`): one for each property that the code does not meet everywhere.

`Sorting`, `Tables`, `Text`, `Arithmetic`, `Tasks` and `Wrappers` are the ground the rest stands on.
Operations that the hub performs step by step are methods, with loops or on objects, each proved
equal to a function of its inputs or of the old state; the theorems are about those functions.
`dafny verify dfyconfig.toml` checks everything.

## What the proofs bring out

- Whatever is delivered between the requests or between the two fetches of one, and in whatever order it is saved, a read
  that is neither refused nor incomplete has every delivered or rejected task its mailboxes had at the first fetch
  (`Live.ReadWhileDelivering`). No task needs to be newer than another for it.
- A read can be refused in the middle (`Incidents.ReadIsRefused`): its token may name the announcement of a send of the
  reader's own, which then moves to the recipient. That is the only way (`Live.RaisedIff`), so a session with no send to
  others under way is never refused (`Live.NotRefused`).
- A delivered or rejected task comes twice in a complete read in two cases only (`LiveReads.SettledOnceIff`). Either a page
  fetched again for its second half has lost it, or the reader goes on from a task it saw in delivery, which has settled
  since in front of it. The second is the ordinary case: every delivery
  lies undated in the recipient's mailbox until its completion dates it. If a page ends before it then, and it is completed
  before the next request, the mailbox starts over, although the reader sends nothing and nothing is refused
  (`Incidents.DeliveryStartsOver`; likewise a refused send of one's own, `Incidents.RefusalStartsOver`). No token that names
  only settled tasks does that (`LiveReads.SureRead`).
- The client's count check (`returned != total`) compares with a total that counts the tasks in delivery at the first
  request. What it is off by is exact by task ids (`LiveReads.CountCheckIff`): ids that come again and ids that were not there
  at the first request make it more; ids that were there and come in no form, and announcements counted in both mailboxes,
  make it less. What comes in no form was in delivery then, and is lost in one of three ways: it goes to its recipient, it
  settles behind the reader, or it is skipped with the first half of a batch, and it does not come up again
  (`LiveReads.MissedIff`). An ordinary incoming delivery is lost that way (`Incidents.DeliveryIsMissed`), and so is a task
  that stays where it is (`Counterexamples.SkippedUnseen`).
- So the check can fail on a whole read, with more than the total (`Counterexamples.CountCheckFails`) or less
  (`Incidents.CountIsShort`, an announcement that leaves), and it can pass on one that lacks a task
  (`Counterexamples.FalsePass`: one comes twice, another that has been delivered meanwhile does not come). Less than the
  total always means that something in delivery at the first request was lost or counted twice (`LiveReads.ShortOnlyIf`).
  With nothing in delivery then it is never less, and the same exactly if the tasks are (`LiveReads.CountCheckIsRight`).
- `incomplete` means the cap, or that the repeat guard met a place seen before (`LiveReads.IncompleteIff`). The guard can fire
  against an honest hub, on a read that has every task (`Counterexamples.GuardFires`), but only after a token that named a
  task in delivery (`LiveReads.SureRead`).
- The order is newest first within a batch and on the first page as a whole, not over a whole drain.
- The default cap reads any two mailboxes of 5000 tasks each; with 5001 on both sides it is
  certain to stop short (`Conclusions.DefaultsSuffice`, `Conclusions.DefaultsAreTight`).
- `executor.py:14-15` says the owner is pinned before any event is emitted. The code emits the SUBMITTED
  task first (`executor.py:109-110`) and pins at line 149. The model follows the code, and the outcome
  is the same in every interleaving (`Delivery.SchedulesAgree`); only the bare announcement can lie in the
  sender's mailbox for a while (`Delivery.NeverAstray`).
- The sender's own path to marks in `get_mark` never answers more than `store.get` does, in any
  reachable state (`Hub.FallbackAddsNothing`).
- `is_valid_identity` alone also accepts a readable session with one newline appended, since `$`
  matches before it (`Identity.ValidIdentityExactly`, `Counterexamples.NewlineIsValidButUnreadable`). The executor
  trims first, so what it accepts is exactly what some session can read (`Identity.AddressableIffReadable`).
- The client's text comparison with the marking cutoff errs exactly inside the cutoff's own second,
  where a fraction sorts before the bare `Z` (`Timestamps.TextTestExactly`).
- A status update does not bring a withdrawn identity back into the listing; only a declaration does (`Registry.ListedAsSaid`).
- A stored detail cut at 2000 characters can end in blanks; sent again it is not accepted as it is
  (`Marks.CleanedAgain`, `Counterexamples.CutDetailIsNotTakenAgain`).

## Model

| member | source | states |
|---|---|---|
| Cursors.DecodeEncode | src/a2a_hub/store.py:59-79 | Decoding an encoded cursor gives back its tokens, its skip and its totals (a negative skip raised to 0), through the sorted JSON text and the base64url of section 5 of RFC 4648; an encoded cursor is never empty |
| Cursors.EncodeInjective | src/a2a_hub/store.py:59-62 | Two cursors with the same token are the same cursor |
| Json.ItemsAreSorted | src/a2a_hub/store.py:59-62 | The keys of a dumped dictionary are in the order of their text |
| Cursors.DecodeExactly | src/a2a_hub/store.py:65-79 | What every token means: an unreadable one (not base64, or neither a dump nor taken by the JSON library and what follows it) is the start, like no token; any other is its cursor, with a negative skip raised to 0 |
| Cursors.NotATokenIsUnreadable | src/a2a_hub/store.py:65-79 | `not-a-token` is unreadable: its eleven letters do not make full quads |
| Mailboxes.UnreadableRestarts | src/a2a_hub/store.py:65-79 | The page for an unreadable token is the page for no token |
| Base64.RoundTrip | src/a2a_hub/store.py:62-74 | The lenient base64url decoder gives back every byte sequence that was encoded |
| Base64.EncodeIsBits | src/a2a_hub/store.py:59-62 | Three bytes are four letters of the same 24 bits, high byte first; `Base64.LetterIsInTable` gives the letters as table 2 of RFC 4648 |
| Base64.DecodeFails | src/a2a_hub/store.py:65-79 | A text without pads is refused exactly if its letters of the two alphabets do not make full quads |
| Store.HubTaskStore.GetFromMailbox | src/a2a_hub/store.py:135-152 | The loop over the caller's mailboxes finds the task if one of them holds it, most specific first |
| Store.HubTaskStore.GetAsSender | src/a2a_hub/store.py:154-194 | The sender fallback answers for a task stamped with the caller, whoever owns it, and never while an owner is pinned |
| Store.HubTaskStore.Get | src/a2a_hub/store.py:126-133 | "May I read it" is "is it mine", then the sender fallback |
| Store.HubTaskStore.List | src/a2a_hub/store.py:196-275 | One call to the listing, with its loops over the mailboxes, is the page that `Paging` reasons about; a refused SDK token refuses the call |
| Store.HubTaskStore.FetchAll | src/a2a_hub/store.py:220-232 | One SDK page per mailbox under the token the cursor holds for it, nothing fetched for an exhausted one |
| Store.HubTaskStore.MergeResponses | src/a2a_hub/store.py:234-275 | The window, the frozen totals and the next cursor: on in the same batch, forward with both tokens, or nothing left |
| Paging.DrainFollowsLegs | src/a2a_hub/store.py:196-275 | Following the tokens from the empty one serves exactly the legs of the closed-form drain and then says nothing is left, whatever arrives in front of the mailboxes meanwhile; exhausted mailboxes are never started again |
| Places.CursorsArePlaces | src/a2a_hub/store.py:196-275 | For every history of the mailboxes: the k-th cursor and page are the k-th place and turn of a reader that goes on from a task of each mailbox, or from its beginning or end, maybe half through a batch; a task that is gone refuses the request |
| Places.TotalIsFrozen | src/a2a_hub/store.py:244-252 | Every page served reports the total the read began with, whatever happens meanwhile |
| Paging.PageReads | src/a2a_hub/store.py:220-254 | A page is a window of the stable merge of the two unread suffixes its cursor names |
| Paging.BatchIsSort | src/a2a_hub/store.py:234-242 | The stable newest-first sort of the two SDK pages is their merge |
| Sorting.SortIsStable | src/a2a_hub/store.py:234-242 | What ties in the sort stays in the order it came in |
| Reading.DrainLength | src/a2a_hub/store.py:254-268 | The number of pages is the sum over batches of one or two, two exactly when a batch exceeds a page |
| Reading.PageCountBound | src/a2a_hub/store.py:254-268 | At most twice as many pages as the longer mailbox alone would fill |
| Conclusions.PageCountExactly | src/a2a_hub/store.py:254-268 | The page count in closed form: one page per batch of the longer mailbox, one more per full page of the shorter, one for the overlap |
| Reading.DrainNotEmpty | src/a2a_hub/store.py:254-268 | No page is empty unless both mailboxes are |
| Reading.ExactlyOnce | src/a2a_hub/store.py:220-268 | At rest the drain hands out both mailboxes as a multiset: nothing lost, nothing twice |
| Reading.OrderKept | src/a2a_hub/store.py:234-254 | At rest the drain keeps each mailbox's own order |
| Arrivals.AtLeastOnce | src/a2a_hub/store.py:217-268 | Tasks that last stay in their order, others come, change and go behind them: every lasting task present at the start is handed out by a read that finishes, wherever new ones arrive |
| Repeats.OnceIff | src/a2a_hub/store.py:217-268 | Tasks that last stay in their order, others come, change, go and come to last: no lasting task is handed out twice by a finished read if and only if no page fetched again has lost one and no request goes on from a task that has come to last in front of one handed out before |
| Repeats.SureOnceIff | src/a2a_hub/store.py:217-268 | If no token names a task that does not last yet, only a page fetched again that has lost a lasting task makes one come twice |
| Accounts.ExactIff | src/a2a_hub/store.py:217-268 | The lasting tasks are handed out exactly as they were at the start if and only if neither of the two happens and no request fetches, but to skip it, a lasting task that was not there |
| Misses.MissedIff | src/a2a_hub/store.py:217-268 | For every history of the mailboxes: a task that was to come is handed out in no form if and only if, after some request that had not handed it out yet, it is gone from the mailbox in which it was ahead, or is behind the mark there, or is skipped with the first half of a batch, and no later request has it before it |
| Misses.InitialMissedIff | src/a2a_hub/store.py:217-268 | Where tasks that do not last keep their order as well, what is behind the mark then has come to last since; so a task of the start comes in no form if and only if it leaves, comes to last behind the reader or is skipped, and does not come up again |
| Accounts.CountIsRight | src/a2a_hub/client.py:750-761 | If everything lasted at the start, the count is never short, and right exactly if the tasks are |
| Reading.ExactlyOnceInFrontIff | src/a2a_hub/store.py:217-268 | When tasks arrive in front of their mailboxes only: each comes exactly once if and only if nothing arrived before the second page of a split first batch |
| Exactness.NeverRefused | src/a2a_hub/store.py:220-232 | While tasks only arrive, anywhere, every request is served and both marks are found |
| Repeats.PlacesAreFresh | src/a2a_hub/store.py:254-268 | While no token names a task that does not last yet, the reader is never at the same place twice |
| Exactness.NoRepeatsIff | src/a2a_hub/store.py:217-268 | While tasks only arrive, anywhere: nothing is handed out twice if and only if no refetched first page of a split batch is other than the one handed out |
| Exactness.ExactlyOnceIff | src/a2a_hub/store.py:217-268 | While tasks only arrive, anywhere: a finished read is exactly what was there at the start if and only if no request fetched anything else |
| Exactness.CountSaysExact | src/a2a_hub/client.py:750-761 | A finished read never has fewer tasks than were there; as many, only if it is exactly those |
| Reading.HandedOut | src/a2a_hub/store.py:217-268 | When tasks arrive in front only, how many a drain hands out: those its first batch's last request saw |
| Reading.FirstPageIsNewest | src/a2a_hub/store.py:234-254 | The first page is the front of the merge of both whole mailboxes, not of a batch only |
| Mailboxes.FirstPageIsLatest | src/a2a_hub/store.py:234-254 | The first page of a session has as many tasks as fit, 50 if no size is asked for, the total is both mailboxes, and no task left out has a later instant (seconds and nanoseconds) than one that is in |
| Mailboxes.PageIsNewestFirst | src/a2a_hub/store.py:234-254 | For every token, genuine or made up, and whatever happens between the two fetches: no task of a page has a later instant than one before it |
| Conclusions.BatchIsNewestFirst | src/a2a_hub/store.py:234-242 | Each batch is the stable sort of its two pages, and no task of it has a later instant than one before it |
| Repeats.TokensAreFresh | src/a2a_hub/client.py:326-332 | Then no token before the end is empty or handed out twice, so the client's repeat guard never fires |
| Client.ListAllTasks | src/a2a_hub/client.py:313-341 | Against any server: the pages of a walk that goes on exactly while there is a new token and the cap allows |
| Client.WalkIsBounded | src/a2a_hub/client.py:313-341 | At most `max(1, max_pages)` requests, the tasks of exactly the pages read in order, and no `incomplete` only after an empty token |
| Places.WalkOverPlaces | src/a2a_hub/client.py:313-341 | Every walk against the hub, whatever happens to the mailboxes: it raises exactly when its last request is refused, and otherwise has what its places handed out, the first total, and no `incomplete` exactly when nothing was left |
| Places.TokensTellPlaces | src/a2a_hub/client.py:326-332 | Of any two requests the tokens are the same exactly if the places are, for every history |
| Walks.WalkEnds | src/a2a_hub/client.py:313-341 | Every walk, whatever happens to the mailboxes: it goes on exactly while something is left, at a place not seen before, below the cap; it is incomplete for the repeat guard at a place seen before, or for the cap |
| Walks.SureWalk | src/a2a_hub/client.py:313-341 | If no token names a task that does not last yet: never refused, never stopped by the guard, and incomplete exactly when the cap comes before the end |
| Counterexamples.GuardFires | src/a2a_hub/client.py:326-332 | Two deliveries, each seen undated first: the guard stops the walk at a place seen before, the read has every task, and is called incomplete |
| Reading.WalkOverLegs | src/a2a_hub/client.py:313-341 | Client and server composed, with tasks arriving in front: the walk reads the drain's first pages up to the cap and is incomplete exactly when there are more |
| Conclusions.QuiescentRead | src/a2a_hub/client.py:313-341 | At rest: incomplete if and only if the drain needs more pages than the cap, and then short of the total; otherwise both mailboxes exactly |
| Conclusions.GrowingWalk | src/a2a_hub/client.py:313-341 | While tasks arrive, anywhere: a read is never refused, and incomplete exactly when the cap comes before the end |
| Conclusions.GrowingRead | src/a2a_hub/client.py:313-341 | While tasks arrive, anywhere: a read that is not incomplete has every task that was there when it began |
| Conclusions.CountCheckIff | src/a2a_hub/client.py:750-761 | While tasks arrive, anywhere: a finished read has at least its total; as many exactly when no request fetched a task that was not there at the start; nothing twice exactly when no refetched first page had changed |
| Conclusions.CountCheckInFrontIff | src/a2a_hub/client.py:750-761 | When tasks arrive in front only, the count check on a finished read fails exactly when something arrived before the second page of a split first batch |
| Counterexamples.CountCheckFails | src/a2a_hub/client.py:750-761 | One task to a page and one arrival: a complete read of two tasks hands out three, and the check fails |
| Counterexamples.FalsePass | src/a2a_hub/client.py:750-761 | Two deliveries, one settling in front of the reader and then one behind it: a complete read has as many tasks as its total, one of them twice and the other delivered one not at all |
| Counterexamples.SkippedUnseen | src/a2a_hub/store.py:254-268 | A task that stays in delivery in its mailbox all the time is skipped with the first half of a batch that another has left: a complete read without it, short of its total |
| Conclusions.DefaultsSuffice | src/a2a_hub/client.py:295-301 | Pages of 100 and a cap of 100 read any two mailboxes of up to 5000 tasks each to the end |
| Conclusions.DefaultsAreTight | src/a2a_hub/client.py:295-301 | Over 5000 on both sides the read is always cut short |
| Mailboxes.MailboxHolds | src/a2a_hub/store.py:8-18 | A mailbox is exactly the tasks of the rows its owner has |
| Mailboxes.MailboxIsBox | src/a2a_hub/store.py:234-242 | Every mailbox is in the order of the listing with one task per id |
| Mailboxes.MailboxIsNewestFirst | src/a2a_hub/store.py:234-242 | In every mailbox the instants, in nanoseconds, do not go up |
| Mailboxes.UnsetSizeIsFifty | src/a2a_hub/store.py:217 | A request without a page size lists like one for 50 |
| Mailboxes.SdkPageIs | src/a2a_hub/store.py:220-232 | What is assumed of the SDK's own listing: a page begins with the task its token names, holds as many as asked for, reports the whole mailbox, and hands on the token of the task after it; any other token is refused |
| Mailboxes.EmptyPinIsNone | src/a2a_hub/store.py:104-111 | An owner pinned as the empty text pins nothing: every read is that of the caller |
| Mailboxes.PageIsOwn | src/a2a_hub/store.py:104-117 | For every token, genuine or made up, and whatever happens between the two fetches, a page holds only tasks owned by the caller's identity or its principal |
| Mailboxes.MineIsListed | src/a2a_hub/store.py:135-152 | "Is it mine" answers for exactly the tasks the listing covers |
| Mailboxes.MayReadExactly | src/a2a_hub/store.py:126-194 | "May I read it" adds exactly the tasks whose stamped sender is the caller |
| Mailboxes.PinnedReadsOne | src/a2a_hub/store.py:104-117 | While a delivery pins its owner every read reaches that mailbox alone |
| Mailboxes.SettledMailbox | src/a2a_hub/store.py:8-18 | The delivered and rejected tasks of a mailbox, in its order, are the mailbox of the delivered and rejected rows |
| Mailboxes.LogIsLasting | src/a2a_hub/store.py:8-18 | In such a store the settled tasks of two mailboxes last, in their order and before the open ones, and no task is in both |
| Mailboxes.NothingIsMissed | src/a2a_hub/store.py:196-275 | End to end over a live store, which may change at every fetch: settled rows stay, others come, move and settle. A read that is listed and not incomplete holds every settled row its two owners had when it began |
| Mailboxes.ReadIsMine | src/a2a_hub/store.py:126-275 | End to end at rest: a finished read holds exactly the tasks for which "is it mine" answers |
| Executor.ExtractedIsFirst | src/a2a_hub/executor.py:77-88 | The recipient is that of the first source whose value is text and not blank, trimmed; there is none exactly if no source has one |
| Executor.RoutedIffReadable | src/a2a_hub/executor.py:112-146 | A send is routed to `r` exactly when it has a message, names `r`, and some session can read mailbox `r` |
| Executor.Execute | src/a2a_hub/executor.py:102-162 | The executor's steps in order: announce, then refuse, or pin the owner, stamp the artifact, complete |
| Executor.EnsureTask | src/a2a_hub/executor.py:173-186 | A task is announced unless the send continues one |
| Delivery.HandleNext | src/a2a_hub/executor.py:57-67 | Consuming an event saves the task under the owner the context resolves to then, which is one move of the interleaving |
| Delivery.OutcomeExactly | src/a2a_hub/executor.py:102-162 | What a new send ends as: completed in the mailbox it names, if some session can read that, with one artifact that has the sender, the recipient and the source message; otherwise rejected in the sender's own, with none; at the time it ends |
| Delivery.DeliveredUnderEveryInterleaving | src/a2a_hub/executor.py:57-162 | However any number of sends interleave with their consumers: a consumed send is COMPLETED in the recipient's mailbox or REJECTED in the sender's, and no other row changed |
| Delivery.NeverAstray | src/a2a_hub/executor.py:57-162 | At every moment a task lies with its sender or its destination, and anything beyond the bare announcement with its destination |
| Delivery.SchedulesAgree | src/a2a_hub/executor.py:57-162 | All schedules that finish leave the same rows |
| Delivery.StuckIffLanded | src/a2a_hub/executor.py:102-162 | A schedule can go on until every send is fully consumed |
| Delivery.RunIsBounded | src/a2a_hub/executor.py:102-162 | No schedule is longer than the steps and events there are |
| Live.DeliveriesLast | src/a2a_hub/executor.py:57-162 | Along any moves of any number of new sends, whenever they start and in whatever order their events are saved, settled rows stay and keep their order |
| Live.ReadWhileDelivering | src/a2a_hub/store.py:196-275 | A session reads while sends are in flight, their steps and saves falling anywhere between its fetches: unless refused or incomplete, the read holds every delivered or rejected task its two mailboxes had at the first request |
| Live.RefusedIff | src/a2a_hub/store.py:220-232 | A request is refused if and only if its place names the announcement of a send by the reader that was in its mailbox when that was last fetched and has gone to its recipient |
| Live.RaisedIff | src/a2a_hub/client.py:313-341 | The client's read raises if and only if the token it sent last names such an announcement; the first request never raises |
| Live.NotRefused | src/a2a_hub/client.py:313-341 | A session none of whose sends to others is in flight when it begins to read is never refused |
| LiveMisses.DeliveriesKeepOrder | src/a2a_hub/executor.py:57-162 | Along any moves of any number of new sends, the tasks in delivery of a mailbox keep their order among themselves |
| LiveReads.SettledOnceIff | src/a2a_hub/store.py:217-268 | While sends are in flight: a complete read has no delivered or rejected task twice if and only if no page fetched again has lost one and no request went on from a task that has settled in front of one handed out before |
| LiveReads.SettledExactIff | src/a2a_hub/store.py:217-268 | It has exactly the settled tasks of the start if and only if, besides, no request fetched another but to skip it |
| LiveReads.MissedIff | src/a2a_hub/store.py:217-268 | While sends are in flight: a task there at the first request comes in no form in a complete read if and only if it is an announcement of the reader's own that goes to its recipient, or settles behind the reader, or is skipped with the first half of a batch, before a request hands it out, and does not come up again; it was then in delivery at the first request |
| LiveReads.CountedTwiceIff | src/a2a_hub/store.py:220-252 | The total counts an id in both mailboxes exactly if it is an announcement of the reader's own to its own agent that moved there between the two fetches of the first request |
| LiveReads.CountCheckIff | src/a2a_hub/client.py:750-761 | By ids: a complete read and the ids of the start that are lost and those counted in both mailboxes are together as many as the total and the ids that come again and those that were not there; which ones are lost and which counted twice is said as above, and the lost were in delivery at the first request |
| LiveReads.ShortOnlyIf | src/a2a_hub/client.py:750-761 | A complete read has fewer tasks than its total only if one in delivery at the first request is in it in no form, or one was counted in both mailboxes |
| LiveReads.CountCheckIsRight | src/a2a_hub/client.py:750-761 | With nothing in delivery at the first request the count is never short, and right exactly if the tasks are |
| LiveReads.IncompleteIff | src/a2a_hub/client.py:313-341 | A read among sends in flight is incomplete for the cap, or because the repeat guard met a place seen before |
| LiveReads.SureRead | src/a2a_hub/client.py:313-341 | If no token named a task in delivery: never refused, never stopped by the guard, and a settled task comes twice only if a page fetched again has lost one |
| Incidents.ReadIsRefused | src/a2a_hub/store.py:220-232 | A send by the reader to somebody else, announced before the first request and delivered before the second: every read that needs a second page of one task is refused |
| Incidents.DeliveryStartsOver | src/a2a_hub/executor.py:148-162 | An ordinary delivery to the reader, saved undated before its first request and completed before the second: a complete read has the first task twice, with nothing sent by the reader, nothing refused and no batch split |
| Incidents.RefusalStartsOver | src/a2a_hub/executor.py:112-146 | The same for a send of the reader's own that is refused between the requests |
| Incidents.CountIsShort | src/a2a_hub/client.py:750-761 | An announcement counted at the first request and gone at the second: a complete read of all there is has fewer tasks than its total |
| Incidents.DeliveryIsMissed | src/a2a_hub/executor.py:148-162 | An ordinary delivery to the reader, counted undated at the first request and completed before its page is fetched: a complete read has it in no form, and fewer tasks than its total |
| Incidents.ScenesExist | src/a2a_hub/executor.py:112-146 | There are sends of each of these kinds |
| Marks.CleanMarkExactly | src/a2a_hub/marks.py:100-114 | A mark is accepted exactly if its state is one of the three words in any case between blanks and its trimmed detail has 8 characters; stored are that state and the detail's first 2000; otherwise the error names the word or the length |
| Marks.CleanedAgain | src/a2a_hub/marks.py:100-114 | A stored mark sent again is accepted unchanged exactly when its detail does not end in a blank |
| Counterexamples.CutDetailIsNotTakenAgain | src/a2a_hub/marks.py:100-114 | A detail of 2001 characters whose cut ends in a blank is accepted, and the stored mark sent again is not taken as it is |
| Marks.WriteIsLocal | src/a2a_hub/marks.py:137-174 | A write leaves every other (message, marker) row as it was |
| Marks.MarksOnExactly | src/a2a_hub/marks.py:176-190 | All marks on one message and no others, oldest first |
| Marks.MarkedByExactly | src/a2a_hub/marks.py:192-205 | The dictionary holds a message exactly under the identity's current mark |
| Marks.MarksOfSenderExactly | src/a2a_hub/marks.py:207-223 | All marks that name a sender and no others, newest first |
| Marks.MarksOnInOrder | src/a2a_hub/marks.py:176-190 | Each mark on a message is listed once, and the times of the list do not go down |
| Marks.MarksOfSenderInOrder | src/a2a_hub/marks.py:207-223 | Each mark that names a sender is listed once, and the times of the list do not go up |
| Hub.RecordedSender | src/a2a_hub/routes_marks.py:46-60 | The loop finds the non-empty sender text of the first artifact that names one, and the empty text if none does |
| Tasks.StampIsFirst | src/a2a_hub/routes_marks.py:46-60 | What a task is stamped with is the non-empty text of the first artifact that has one, and nothing if none has |
| Hub.SetMarkRoute | src/a2a_hub/routes_marks.py:88-130 | A mark is written only if it is valid and the message is the caller's, under the caller's identity and with the message's sender; a refusal writes nothing |
| Hub.MarkingExactly | src/a2a_hub/routes_marks.py:88-125 | Accepted exactly if the request spells one of the three states, its detail has 8 characters between blanks, and the message lies in the caller's mailbox or its agent's; a valid mark on any other message is not the caller's to make |
| Hub.MarkIsStored | src/a2a_hub/marks.py:137-174 | The row of an accepted mark has the state that was spelled, the first 2000 characters of the trimmed detail, the message's sender and the time; no other row changes, and a refused request changes none |
| Hub.MarkIsRead | src/a2a_hub/routes_marks.py:132-174 | Whatever others do until then: everybody who may read the message gets that row, once, its sender gets it among the marks on what it sent, and the marker's own list holds that state |
| Hub.ClosedExactly | src/a2a_hub/routes_marks.py:176-189 | A message counts as closed exactly when the caller's current mark on it is processed or discarded |
| Hub.MarkCloses | src/a2a_hub/marks.py:48 | An accepted mark that says processed or discarded closes the message for its marker; one that says awaiting takes it out of the closed ones |
| Hub.SendsAreAtomic | src/a2a_hub/executor.py:102-162 | Any number of new sends, once handled in any interleaving, leave every row as one delivery step of the state machine for each does, one after the other |
| Hub.RunIsSound | src/a2a_hub/routes_marks.py:88-130 | Over every run: a completed task carries its stamp in a readable mailbox, a rejected one is bare in its sender's; every mark was written by a reader of the message's mailbox and names its sender |
| Hub.RowsAreDeliveries | src/a2a_hub/routes_marks.py:10-15 | The rows are the deliveries in order: nothing is removed, changed or added by marking |
| Hub.MarksHideNothing | src/a2a_hub/routes_marks.py:10-15 | Runs with the same deliveries answer every list and every get alike, whatever was marked |
| Hub.FallbackAddsNothing | src/a2a_hub/routes_marks.py:132-161 | Reading marks answers all of them to whoever may read the message and nothing to anyone else |
| Hub.SentByExactly | src/a2a_hub/marks.py:207-223 | The marks a sender sees are exactly those on messages stamped with it |
| Hub.OnlyRecipientsMark | src/a2a_hub/routes_marks.py:83-86 | Whoever has marked a message received it |
| Hub.MarkTakesEffect | src/a2a_hub/routes_marks.py:176-189 | A mark changes what is closed for its own message and marker only; parking a message reopens it |
| Hub.StampNames | src/a2a_hub/executor.py:150-158 | A delivered task names its sender, its recipient and its source message |
| Hub.ReceiptIsReadable | src/a2a_hub/store.py:154-163 | After any further run the sender still reads its send back by id, and every session of the recipient finds it its own |
| Inbox.SplitByMailbox | src/a2a_hub/client.py:376-406 | The three counts of the loop, which add up to the tasks read |
| Inbox.AddresseeIsFirst | src/a2a_hub/client.py:394-399 | A task's recipient is that of the first artifact that has one that counts, and without any that of the last |
| Inbox.SplitAgreesWithStore | src/a2a_hub/client.py:376-406 | After a whole read: broadcasts are the principal's mailbox, session and unclassified the session's own, of which session are the delivered ones |
| Inbox.CompleteExactly | src/a2a_hub/client.py:750-761 | Against any server: the completeness check passes exactly if the last page said nothing is left and as many tasks came as it counted |
| Inbox.CompleteMeansWhole | src/a2a_hub/client.py:750-761 | At rest the completeness check passes exactly when both mailboxes were read whole, which is when the cap allows the pages needed |
| Inbox.Unprocessed | src/a2a_hub/client.py:773-803 | What is kept, in order, and how many are hidden for which reason |
| Inbox.FatesPartition | src/a2a_hub/client.py:773-803 | Kept, hidden as closed and hidden as before the cutoff partition the mailbox |
| Inbox.FateExactly | src/a2a_hub/client.py:773-803 | Hidden as closed exactly if the caller's current mark is processed or discarded; hidden for its time exactly if before the cutoff or inside its second |
| Inbox.MarkMovesTask | src/a2a_hub/client.py:773-787 | Closing a task hides it from its marker and from nobody else; moving it to awaiting shows it again |
| Inbox.MarkedIsShown | src/a2a_hub/client.py:773-803 | What its marker sees after an accepted mark: processed or discarded is hidden as closed; awaiting is shown, if it is late enough |
| Inbox.UntimedIsShown | src/a2a_hub/client.py:788-796 | A task without a timestamp is hidden only if it is closed |
| Inbox.ViewOfARun | src/a2a_hub/client.py:740-803 | For every reachable state and every session: its read passes the completeness check exactly if the cap allows the pages needed, and then the split counts what the store holds and the filter shows exactly the messages that are the caller's, not closed by it, and neither before the cutoff nor inside its second |
| Timestamps.TextTestExactly | src/a2a_hub/client.py:788-796 | The string test against the cutoff, in terms of time |
| Timestamps.TextTestAgrees | src/a2a_hub/client.py:788-796 | It agrees with time order if and only if the moment is not inside the cutoff's second |
| Timestamps.TextTestFails | src/a2a_hub/client.py:788-796 | Half a second after the cutoff is taken for before it |
| Timestamps.FractionExactly | src/a2a_hub/client.py:788-796 | A fraction is written in three, six or nine digits, the fewest that tell it, and left out if there is none |
| Timestamps.CutoffText | src/a2a_hub/client.py:67 | The cutoff's literal is that UTC instant |
| Timestamps.CutoffIs | src/a2a_hub/client.py:67 | That instant is 1787918471 seconds after 1970; `Timestamps.SecondsCount` gives the count day by day |
| Identity.PrincipalInverts | src/a2a_hub/auth.py:105-107 | The principal of `agent/session` is the agent exactly when the agent's name has no separator |
| Identity.IdentityInjective | src/a2a_hub/auth.py:231-233 | For slash-free agents an identity determines agent and session |
| Identity.AddressableIffReadable | src/a2a_hub/auth.py:110-130 | A recipient is accepted if and only if some authenticable session reads its mailbox |
| Identity.ValidIdentityExactly | src/a2a_hub/auth.py:110-130 | What validation alone accepts: readable mailboxes, and readable sessions with a newline appended |
| Counterexamples.NewlineIsValidButUnreadable | src/a2a_hub/auth.py:110-130 | A known agent's session name with a newline at its end is valid, and no session reads that mailbox |
| Identity.TokenRegistry.Resolve | src/a2a_hub/auth.py:139-149 | Comparing against every entry finds the agent of the token, if there is one |
| Admission.BearerExactly | src/a2a_hub/auth.py:159-166 | A header has a token exactly if it is the word bearer in any case, a blank, and that token between blanks; any other scheme has none |
| Admission.BearerRoundTrip | src/a2a_hub/auth.py:159-166 | The credentials of a bearer header come out as they went in, whatever the case of the scheme |
| Admission.Middleware.Admit | src/a2a_hub/auth.py:207-260 | A request is admitted under `agent/session` and stamped as seen, or refused and leaves no trace |
| Admission.AdmittedExactly | src/a2a_hub/auth.py:207-249 | A request is admitted as `agent/name` exactly if its header has a token of that agent and its trimmed session header is a name of 1 to 64 letters, digits, dots, underscores and hyphens that begins with a letter or digit; unauthorized exactly without a token of any agent; an invalid session exactly with a token and no such name |
| Admission.AdmittedIsSession | src/a2a_hub/auth.py:231-249 | Whoever is admitted hangs off its own token's agent and reads that session's mailbox and the agent's |
| Registry.AgentRegistry.Touch | src/a2a_hub/registry.py:146-166 | A request within a minute of the last write changes nothing; otherwise row and cache are stamped |
| Registry.AgentRegistry.Declare | src/a2a_hub/registry.py:168-207 | A declaration overwrites the row and un-retires it; the warnings are about the register before it |
| Registry.AgentRegistry.Warn | src/a2a_hub/registry.py:209-246 | The loop over the unretired rows, in their order |
| Registry.AgentRegistry.Retire | src/a2a_hub/registry.py:248-258 | Retiring stamps a row that is not retired and says whether there was one |
| Registry.AgentRegistry.UpdateStatus | src/a2a_hub/registry.py:260-285 | Only the status and its times change, and only for an identity that has declared itself |
| Registry.AgentRegistry.ListAgents | src/a2a_hub/registry.py:287-337 | The listing loop with its ages and its quiet filter |
| Registry.FoldOfHistory | src/a2a_hub/registry.py:168-285 | Every row is the fold of its identity's history: what it last said and when, and whether it is withdrawn |
| Registry.PresenceBound | src/a2a_hub/registry.py:146-166 | The cache never leads the table, and a stored last-seen trails what was heard by less than 60 seconds, over every history and across restarts |
| Registry.TouchIsDebounced | src/a2a_hub/registry.py:153-166 | No request within the minute of the last write changes the register; the first one after it is stamped |
| Registry.LastSeenAdvances | src/a2a_hub/registry.py:146-166 | A stored last-seen never goes back |
| Registry.QuietListing | src/a2a_hub/registry.py:314-321 | Asked for `q` seconds of quiet: everyone silent that long is listed, and nobody heard within `q - 60` |
| Registry.ListedExactly | src/a2a_hub/registry.py:307-337 | Who is listed: whoever was heard, unless withdrawn and not asked for, or seen too recently |
| Registry.ListedAsSaid | src/a2a_hub/registry.py:322-336 | A listed agent is what it last said; declared if and only if it ever declared itself, retired at the time of its withdrawal, if it is withdrawn |
| Registry.ListedAsSeen | src/a2a_hub/registry.py:312-336 | A listed agent was last seen at a time it was heard, less than 60 seconds before it was last heard, and its age is the whole number of seconds from then to now |
| Registry.WithdrawnExactly | src/a2a_hub/registry.py:248-258 | The time a listed agent was retired is that of the first retirement since its last declaration that took effect |
| Registry.ListedOnce | src/a2a_hub/registry.py:307-337 | No identity is listed twice |
| Registry.ListedInOrder | src/a2a_hub/registry.py:306-309 | Most recently seen first |
| Registry.RetiredTwice | src/a2a_hub/registry.py:248-258 | Between two retirements that both took effect there is a declaration |
| Registry.SharingWarnedIff | src/a2a_hub/registry.py:221-237 | A shared session is reported exactly when the identity spoke under 15 minutes ago of another role or other projects |
| Registry.SharingSays | src/a2a_hub/registry.py:221-237 | The report has the role and the projects the identity last gave, and the whole seconds since |
| Registry.ManagerWarned | src/a2a_hub/registry.py:239-245 | A second manager is reported only if heard within the hour, and always if heard within 59 minutes |
| Registry.ManagerSays | src/a2a_hub/registry.py:239-245 | The report has the manager, and the whole seconds since it was last seen, which is less than 60 seconds before it was last heard |

## Left out

- The SDK's `DatabaseTaskStore`, event queue, request handler and protobuf types: replaced by a stated contract. A token names
  the first task of its page, can be read back, is never empty and never `-`; a page holds at most the page size; the owner is
  resolved when an event is consumed; events are consumed in the order they were emitted.
- Tasks of one mailbox with equal timestamps are ordered by arrival, newest first; the SDK breaks such ties by task id.
- Listing filters and `include_artifacts`, which stay the same over a read and do not change which tasks are mailbox tasks.
- The drain of a caller with a single mailbox: it is the SDK's own listing, and the middleware admits sessions only.
- `Exactness.NoRepeatsIff`, `Exactness.ExactlyOnceIff`, `Exactness.CountSaysExact`, `Exactness.NeverRefused`: tasks only arrive
  (`Gaining`), which excludes every history in which a fetch sees a task in delivery, since that changes or leaves. So do
  `Conclusions.GrowingWalk`, `Conclusions.GrowingRead` and `Conclusions.CountCheckIff`. Without that: `Repeats`, `Accounts`, `Walks`, `LiveReads`.
- `Paging.DrainFollowsLegs`: the closed form holds for tasks that arrive in front; `Places.CursorsArePlaces` is for every history.
- `TokenRegistry`'s rotation (`auth.py:151-153`) replaces the token set in one assignment.
- Marks in `Live`: they change no row (`Hub.MarksHideNothing`), so its reads are over rows alone. Its sends are new, by
  sessions, and end at times after the epoch.
- Two concurrent sends that continue the same task: `Delivery.DistinctSends` excludes them, so which of the two writes last is not covered.
- `Store.HubTaskStore.List`: the method reads one state of the rows; that deliveries can fall between its two fetches is
  in `Store.ListBetween`, which the theorems about live reads use.
- Sends that continue an existing task, in `Hub` and `Live`: delivered tasks are final there. `Executor` and `Delivery` do model them.
- Cancelling a task (`executor.py:164-171`) and the texts of notices, warnings and errors.
- `Cursors.DecodeExactly`: JSON texts other than those the hub itself writes are a parameter, so what a hand-made token means is not fixed; that it never fails and that its pages are the caller's own is proved for every meaning.
- HTTP and JSON-RPC framing, request bodies, `app.py`, `server.py`, `card.py`, logging, and the middlewares for body size and header redaction.
- `Admission.Middleware.Admit`: a presence stamp that fails is swallowed by the hub; here it does not fail. Public paths and non-HTTP scopes are not modelled.
- `clean_declaration`, `schema.py`, `extensions.py` and `config.py`: small validations and helpers.
- asyncio interleavings inside one register request, and a clock that goes back: register requests are atomic and the times of a history are ordered.
- `Inbox.Unprocessed`: a task is reduced to its id and the text of its timestamp; `Timestamps` relates that text to the time.
- `Text.Lower`: lower case of ASCII letters only, which is all that the words compared here depend on.
- The rest of the command line: printing, flags, configuration and transport.
