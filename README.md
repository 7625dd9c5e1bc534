# Public feedback polling UI — a Dafny model

The repository is a browser front end for an on-chain polling contract. Users
create polls, vote, and read the PollCreated and VoteCasted event histories as
two tables. This project models the page's own logic and proves properties of
it:

- **The event-to-view projector** (`PollEvents`, module `PollEvents` in
  `pollevents.dfy`). It folds the PollCreated history into an index from poll
  id (decimal text) to option list. An event is recorded only when it has
  args, a defined pollId and an options array, and a later event for the same
  poll id overwrites an earlier one. Each vote's option index is resolved to a
  label through that index, with `"Unknown"` as the fallback. Every event
  becomes a row of display cells with `"N/A"` fallbacks and a
  `<blockNumber>-<logIndex>` key. The whole view is loading, one of two error
  texts, or the two tables, in that order of precedence.
  `page.tsx` embeds its own copy of this component. Apart from the starting
  block of the history and a heading, that copy is the same code line for line
  as `_components/pollevents.tsx`. The model therefore defines the projector
  once, so the two copies compute the same result for the same histories by
  construction. The table rows below cite whichever copy they come from.
- **The create/vote form** (class `PublicFeedback.Page` in
  `publicfeedback.dfy`). Its fields are the question, the option inputs, the
  fetched poll details, and the picked poll and option. It has one method per
  handler. Contract reads are parameters (`pollCount`, the poll details), and
  each contract write is reduced to its outcome (`Confirmed` or `Rejected`), also
  a parameter. The `Valid()` invariant says there are always at least two option
  inputs and at most one poll card, that a poll and an option are picked
  together, and that a picked poll is a card on show. `Session` is a client
  scenario verified against the handlers' contracts.
- **The JavaScript semantics these rely on** (module `Js` in `js.dfy`):
  decimal `toString` of a BigInt with its inverse, `Array.join`, and `s || d`
  on strings.

The fallback label is `"Unknown"` (capitalised). A vote with
no pollId looks up the property named `"undefined"`, which is JavaScript's
conversion of an undefined key. The model keeps that lookup and proves it
always misses, because every key of the index is decimal text
(`PollEvents.SelectedOptionIsResolved`). The row key turns a block number or
log index of `0` into `"unknown"`, just as it does a missing one.

## Model

| member | source | states |
|---|---|---|
| `Js.NatToString` | packages/nextjs/app/publicfeedback/page.tsx:50 | a poll id's text form is non-empty, all digits, and starts with '0' only for 0 |
| `Js.DecimalRoundTrip` | packages/nextjs/app/publicfeedback/page.tsx:50 | reading the decimal text of n gives back n |
| `Js.NatToStringInjective` | packages/nextjs/app/publicfeedback/page.tsx:50 | two poll ids have the same text key exactly when they are equal |
| `Js.JoinLength` | packages/nextjs/app/publicfeedback/page.tsx:89 | a join holds every element plus one separator per neighbouring pair |
| `Js.JoinEmptyIff` | packages/nextjs/app/publicfeedback/page.tsx:89 | joining with ", " gives "" exactly for [] and [""] |
| `Js.Join` | packages/nextjs/app/publicfeedback/page.tsx:89 | no contract: `Array.join`, characterised by `Js.JoinLength` and `Js.JoinEmptyIff` |
| `Js.OrElse` | packages/nextjs/app/publicfeedback/page.tsx:86-88 | no contract: JavaScript's falsy fallback on an optional string (empty or undefined gives the default), characterised through `PollEvents.PollRows` and `PollEvents.PollIdCell` |
| `PollEvents.GetArgs` | packages/nextjs/app/publicfeedback/page.tsx:64-66 | no contract: `event.args` with an empty object as fallback, an all-undefined record for missing args; used by the row lemmas |
| `PollEvents.WellFormed` | packages/nextjs/app/publicfeedback/page.tsx:49 | no contract: the fold's guard (args present, pollId defined, options an array); characterised by `PollEvents.IndexKeys` |
| `PollEvents.IndexOf` | packages/nextjs/app/publicfeedback/page.tsx:45-54 | no contract: the fold over a history, specified by `PollEvents.IndexIsLastWrite`, `PollEvents.IndexKeys` and `PollEvents.IndexIgnoresMalformed` |
| `PollEvents.PollOptions` | packages/nextjs/app/publicfeedback/page.tsx:47 | no contract: `?.forEach` on a possibly absent history (empty index); the loop `PollEvents.BuildPollOptions` is proved equal to it |
| `PollEvents.BuildPollOptions` | packages/nextjs/app/publicfeedback/_components/pollevents.tsx:41-50 | the in-place loop over the PollCreated history yields the fold's index; an absent history yields the empty index |
| `PollEvents.LastWriter` | packages/nextjs/app/publicfeedback/page.tsx:47-51 | reference last-write-wins: the last event recorded under a key, with no later event recorded under it, or none at all |
| `PollEvents.IndexIsLastWrite` | packages/nextjs/app/publicfeedback/page.tsx:45-54 | a key is indexed exactly when some well-formed event has it, and it holds the options of the last such event (overwrite, no merge) |
| `PollEvents.IndexKeys` | packages/nextjs/app/publicfeedback/_components/pollevents.tsx:41-50 | the index's keys are exactly the pollId texts of the well-formed events |
| `PollEvents.IndexKeysAreDecimal` | packages/nextjs/app/publicfeedback/page.tsx:50 | every index key is non-empty decimal text |
| `PollEvents.WritesById` | packages/nextjs/app/publicfeedback/page.tsx:49-50 | an event is recorded under the text of poll id p exactly when it is well-formed with pollId p |
| `PollEvents.WellFormedOnly` | packages/nextjs/app/publicfeedback/_components/pollevents.tsx:45 | the filtered history keeps exactly the well-formed events (an event is in it iff it is in the input and well-formed), never grows, and returns a history with nothing malformed whole |
| `PollEvents.IndexIgnoresMalformed` | packages/nextjs/app/publicfeedback/_components/pollevents.tsx:43-49 | dropping every malformed event leaves the index unchanged (they are skipped) |
| `PollEvents.DuplicatePollIdExample` | packages/nextjs/app/publicfeedback/_components/pollevents.tsx:43-46 | two events for one poll id leave only the second one's options |
| `PollEvents.LookupKey` | packages/nextjs/app/publicfeedback/page.tsx:110 | no contract: the property name a vote looks up, "undefined" for a missing pollId; specified by `PollEvents.SelectedOptionIsResolved` |
| `PollEvents.SelectedOption` | packages/nextjs/app/publicfeedback/page.tsx:112-114 | no contract: the index lookup with an empty list as fallback, then the bounds-checked pick; specified by `PollEvents.SelectedOptionIsResolved` and `PollEvents.SelectedOptionCases` |
| `PollEvents.SelectedOptionIsResolved` | packages/nextjs/app/publicfeedback/page.tsx:110-114 | a vote's label is option optionIndex of the last well-formed PollCreated event for its poll id, else "Unknown" (no pollId, no optionIndex, unknown poll, out of range) |
| `PollEvents.SelectedOptionCases` | packages/nextjs/app/publicfeedback/_components/pollevents.tsx:108-112 | an in-range lookup gives the indexed option; an undefined optionIndex or an unindexed poll gives "Unknown" |
| `PollEvents.LabelExamples` | packages/nextjs/app/publicfeedback/page.tsx:110-114 | with poll 1 = ["A","B"]: option 1 is "B", option 5 is "Unknown", poll 2 is "Unknown" |
| `PollEvents.PollIdCell` | packages/nextjs/app/publicfeedback/page.tsx:86 | the poll-id cell is "N/A" exactly when pollId is missing, else its decimal text (so 0 shows as "0") |
| `PollEvents.JoinedOptions` | packages/nextjs/app/publicfeedback/page.tsx:89 | no contract: `args.options?.join(", ")`; specified through `PollEvents.OptionsCellCases` |
| `PollEvents.OptionsCell` | packages/nextjs/app/publicfeedback/page.tsx:89 | no contract: the options cell; specified by `PollEvents.OptionsCellCases` |
| `PollEvents.QuestionCell` | packages/nextjs/app/publicfeedback/page.tsx:88 | no contract: the question cell with its "N/A" fallback; specified by `PollEvents.PollRows` |
| `PollEvents.AddressCell` | packages/nextjs/app/publicfeedback/page.tsx:87 | no contract: the sender cell with its "N/A" fallback; specified by `PollEvents.PollRows` and `PollEvents.VoteRows` |
| `PollEvents.Truthy` | packages/nextjs/app/publicfeedback/page.tsx:61 | no contract: a block number or log index that the "unknown" fallback keeps (defined and non-zero) |
| `PollEvents.KeyPart` | packages/nextjs/app/publicfeedback/page.tsx:61 | no contract: one half of the row key, specified by `PollEvents.KeyPartEqualIff` |
| `PollEvents.OptionsCellCases` | packages/nextjs/app/publicfeedback/page.tsx:89 | the options cell is "N/A" for missing, [] or [""] options, else the non-empty ", " join |
| `PollEvents.KeyPartEqualIff` | packages/nextjs/app/publicfeedback/page.tsx:61 | two key parts are equal exactly when both numbers are falsy or both are the same non-zero number |
| `PollEvents.RowKey` | packages/nextjs/app/publicfeedback/page.tsx:60-62 | no contract: `getEventKey`, specified by `PollEvents.RowKeyEqualIff` and `PollEvents.FalsyZeroLogIndex` |
| `PollEvents.RowKeyEqualIff` | packages/nextjs/app/publicfeedback/page.tsx:60-62 | two events share a row key exactly when their block numbers and their log indexes agree up to falsiness |
| `PollEvents.FalsyZeroLogIndex` | packages/nextjs/app/publicfeedback/_components/pollevents.tsx:56-58 | logIndex 0 and a missing logIndex give the same row key |
| `PollEvents.PollRows` | packages/nextjs/app/publicfeedback/page.tsx:82-92 | one row per PollCreated event, in order, none for an absent history; each row shows the event's key, "N/A" exactly for a missing pollId and its decimal text otherwise, the sender and question or "N/A" when missing or empty, and "N/A" for missing, [] or [""] options, otherwise their non-empty ", " join |
| `PollEvents.VoteRows` | packages/nextjs/app/publicfeedback/page.tsx:108-123 | one row per VoteCasted event, in order, none for an absent history; each row shows the event's key, the poll-id and voter cells with their "N/A" fallbacks, and the indexed option when the poll is indexed and the option index is defined and in range, otherwise "Unknown" |
| `PollEvents.PollRowOf` | packages/nextjs/app/publicfeedback/page.tsx:85-89 | no contract: the cells of one Polls Created row; specified through `PollEvents.PollRows` |
| `PollEvents.VoteRowOf` | packages/nextjs/app/publicfeedback/page.tsx:117-120 | no contract: the cells of one Votes Casted row; specified through `PollEvents.VoteRows` |
| `PollEvents.Render` | packages/nextjs/app/publicfeedback/_components/pollevents.tsx:52-54 | loading in either history wins, then the PollCreated error, then the VoteCasted error, and only otherwise the tables |
| `PollEvents.RenderedLabel` | packages/nextjs/app/publicfeedback/_components/pollevents.tsx:106-118 | in the rendered tables, vote row i shows the resolved label of vote i |
| `PublicFeedback.LatestPollId` | packages/nextjs/app/publicfeedback/page.tsx:144 | the latest poll id is at least -1, is non-negative exactly when the count is a known positive number, and is then count - 1 |
| `PublicFeedback.Page.constructor` | packages/nextjs/app/publicfeedback/page.tsx:132-136 | the page starts with no polls, an empty question, two empty options and nothing picked |
| `PublicFeedback.Page.SetQuestion` | packages/nextjs/app/publicfeedback/page.tsx:212 | typing sets the question |
| `PublicFeedback.Page.EditOption` | packages/nextjs/app/publicfeedback/page.tsx:221-225 | editing option i changes only entry i and keeps the length |
| `PublicFeedback.Page.AddOption` | packages/nextjs/app/publicfeedback/page.tsx:228 | "Add Option" appends exactly one "" |
| `PublicFeedback.Page.FetchPollDetails` | packages/nextjs/app/publicfeedback/page.tsx:159-166 | with a latest poll id of at least 0 and details at hand the cards become exactly those details, otherwise they are unchanged |
| `PublicFeedback.Page.SelectOption` | packages/nextjs/app/publicfeedback/page.tsx:253-256 | picking a radio button sets both the poll and the option |
| `PublicFeedback.Page.CreatePoll` | packages/nextjs/app/publicfeedback/page.tsx:173-186 | submits [question, options] exactly when the question is non-empty and there are at least 2 options (always true under Valid); on success resets to "" and ["", ""], otherwise changes nothing |
| `PublicFeedback.Page.Vote` | packages/nextjs/app/publicfeedback/page.tsx:188-201 | submits exactly when both picks are set; sends [pollCount - 1, selectedOption] whatever poll was picked; on success clears both picks, otherwise changes nothing |

## Left out

- The event-history, contract-read and contract-write hooks, the wallet and the RPC client are outside the model. Their results (the histories, `pollCount`, the poll details, a write's success or failure) are parameters.
- React rendering is left out: JSX, CSS classes, table headings and the extra heading of the standalone component. The error views carry the error message; the fixed prefix in front of it is markup.
- The timing of `useMemo` and `useEffect` recomputation is left out. `FetchPollDetails` models the function the effect and the "Fetch Polls" button call, not when the effect fires.
- Asynchronous scheduling is left out: each handler is one atomic step taken after its write settles.
- The radio buttons' `checked` expression and the poll card are left out. The card shows the current `pollDetails`, not the stored entry of `polls`, and that is rendering only.
- `Number(args.optionIndex)` and `Number(pollCount)` lose precision on very large values. That is floating-point behaviour; both are modelled as exact integers.
- `fromBlock` (0 in the page, 31231 in the standalone component) changes only which events the hook fetches, so it is not modelled.
- `console.log` and `console.error` are left out.
- A pollId that is `null` rather than undefined would make `toString` throw in the fold. The model has only defined and undefined.
- `options` that are defined but not an array would make `join` throw in the options cell. The model's `None` stands for both cases and shows "N/A". Decoded ABI data always holds a string array here.
- `layout.tsx` is static markup and is not part of this model.
