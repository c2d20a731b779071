# Feed pages, group calls, locks and limits: a verified model

The system is the backend of a social network. This project models the four parts of it in which loops, state machines
and locks do the work, and proves what they promise.

**The feed page** (`FeedMerge`, `FeedMergeProofs`, `FeedLayout`, `FeedRerank`, `FeedCursor`, `FeedPaging`, and on top
of them `FeedGuard`, `FeedExplore`, `FeedPrinted` with the sample streams of `FeedSamples`; `FeedRounds` and
`FeedShown` say what each slot and each place of the page shows without the functions that compute it). A page is
merged from three ranked streams under a cap per author, reranked, and followed by a cursor that is printed and parsed
between pages. `MergeFeedStreams` is written as the loop it is and proved equal to a recursive description (`Merge`),
about which the theorems are proved: nothing is lost silently, the size of a page is exact, where each slot comes
from, paging ends, the pages partition the main stream. A stream is the fixed, strictly ordered result of its query at
the snapshot time; a fetch gives the next items behind the cursor. Scores are whole millionths, as many digits as the
cursor prints.

**The group call** (`Calls`, `CallHub`, `CallRuns`, `CallTraces`, `CallLaws`). `CallHub` has the session and the hub
as classes; every operation, the cleanup with its loops over maps in any order included, is proved to do to the table
of calls what its event in `CallRuns` does. `CallRuns` runs any sequence of events, `CallTraces` reads histories,
`CallLaws` tells field by field what every event does. Creating a call is two events, a check and an insertion,
because the code releases its lock in between.

**Locks and counters** (`ChatKeys`, `ChatKeysProofs`, `Contribution`, `ContributionTotals`, `ReadMarks`, `ReadRaces`).
Transactions are interleaved statement by statement: they take row locks, read, write, commit or are rolled back.
Every run is shown to be as good as a sequential one, and what the code promises is proved of the sequential one: both
keys of a chat come from one batch, daily limits and challenge sizes are kept, a message was seen by exactly those who
have read that far.

**The rate limiter** (`RateLimiter`). A log of hits per key, compacted in place in its own backing array, is proved to
answer as the whole history of allowed hits would. Times may come out of order, as they do when calls overlap: then
the answer lies between those for the two cutoffs, and it is exact if these agree. They need not: a late call can be
let through with more than `limit` allowed hits in its window (`RateLimiter.LateCallIsLetThrough`).

`Basics`, `Arithmetic`, `Ordering`, `Posts` and `Totals` hold what the others share. `dafny verify dfyconfig.toml`
checks everything.

Where the code and its comments differ, the code is modelled:

- `middlewares/rate_limit.go:13` calls the limiter a fixed-window one. It is a sliding log: the window ends at the hit
  itself.
- `repository/e2e.repository.go:116` promises that a writer who comes first wins both rows of a chat. That holds
  exactly when every batch that carries one of the two rows carries the other (`ChatKeysProofs.PairsStayWhole`).
- `groupws/hub.go:265` allows one call for a chat at a time. Creations for one chat that overlap can break that: a run
  is safe, whatever creations under way are completed next, exactly when no two of them overlap
  (`CallTraces.OneCallUnlessOverlap`). A run with an overlap need not come to have two open calls, for a creation may
  never be completed, or the other call may be over by then.
- `repository/chat.repository.go:700` promises that a mark never goes back. Whatever the interleaving, it does not,
  exactly when the calls for the chat and user report at most two different times (`ReadRaces.MarksNeverGoBack`): a
  mark goes back if a call has seen a row older than its own message, and a still later read is written in between.
  Calls that do not overlap are always safe (`ReadRaces.MarksAreLatest`).
- `repository/feed_rank.repository.go:41` prints any place. It is read back exactly when no score or time is negative
  and no identifier is a marker or, before another field, holds `_` (`FeedCursor.RoundTrip`). A place behind a
  negative main score is lost, and the main stream starts over. Following printed cursors ends on all streams with `n`
  main posts below zero, exactly when `n` is 0, or `n` is 1 and the cap is at least the page size
  (`FeedPrinted.PrintedPagingEnds`). With a smaller cap one such post can make the same page come for ever. It ends on
  none of these streams exactly when `n` is at least `limit + 8`, or the cap is at least the page size and `n` exceeds
  it (`FeedPrinted.NegativeScoresNeverEnd`). Where it always ends, a client gets the pages that partition the main
  stream (`FeedPrinted.PrintedPagesArePages`).
- `repository/feed_rank.repository.go:289` starts the next cursor blank. An explore stream that has started, has
  something left and is not touched by a page starts over: on plain pages the small stream exactly when the page has
  no explore slot, the general stream when it has fewer than two (`FeedExplore.PlacesOnPlainPages`), and a client can
  meet the same post again (`FeedExplore.ExplorePostComesBack`).
- The stuck guard can cut a page short. Of the pages that are fetched, all have the exact size exactly when the cap is
  at least the page size or there are no explore streams (`FeedGuard.FetchedPagesAreExact`); of all inputs of the
  merge with up to `n` items, exactly when the cap is at least the page size or `n` is at most `limit + cap + 11`
  (`FeedGuard.GuardThreshold`).

Two corollaries worth naming: a call that ends by timeout has nobody in it but its creator
(`CallRuns.TimeoutEndsOnlyLonelyCalls`, from `CallRuns.EveryRun`), and whoever has seen a message has seen it after
any further reads (`ReadMarks.SeenStaysSeen`).

## Model

| member | source | states |
|---|---|---|
| FeedMerge.MergeFeedStreams | repository/feed_rank.repository.go:492-625 | The merge loop and its flags give the page, the consumed counts and the three "more" flags of the recursive description; a limit below one gives the empty page. |
| FeedMerge.Round | repository/feed_rank.repository.go:518-619 | One iteration over the two maps and six counters is one step of the description, and a `break` is taken exactly when the step ends the run. |
| FeedMerge.SelectSource | repository/feed_rank.repository.go:531-590 | The stream that fills a slot, explore slots alternating between the two explore streams, and whether any stream can. |
| FeedMerge.SkipItem | repository/feed_rank.repository.go:592-618 | When no stream can fill a slot, one item is used up, or the loop ends because nothing is left or the guard fires. |
| FeedMerge.StepProgress | repository/feed_rank.repository.go:518-619 | Every iteration uses something up or ends the loop, and no stream moves back, so the loop ends on every input. |
| FeedMergeProofs.NoSilentLoss | repository/feed_rank.repository.go:508-614 | On every input and wherever the loop stops: each consumed item is on the page by id or its author fills the cap there, each slot shows a consumed item of its stream with the right tag, each stream keeps its order, ids are distinct, no author exceeds the cap. |
| FeedMergeProofs.MergeInvariant | repository/feed_rank.repository.go:503-619 | The loop keeps its invariant to the end, and ends full, exhausted, or given up after more than `limit + 10` skips in a row. |
| FeedRounds.EverySlot | repository/feed_rank.repository.go:531-590 | On every page and all inputs, slot by slot: an explore slot goes to the explore stream whose turn it is (small and general in turn, counting the explore slots before), to the other one if that one has no unseen next post whose author has room, and to main only if neither has; any other slot goes to main, then small, then general; the post is the next unseen one and is tagged with its stream. |
| FeedRounds.EveryRound | repository/feed_rank.repository.go:508-619 | The merge is a run of rounds from the empty page, each of which either fills its slot so or, when no stream can, uses up one item of the first stream that has any. |
| FeedRounds.LoopEnds | repository/feed_rank.repository.go:592-618 | After its first round the loop goes on if and only if the page has room, something is left, and not all of the last `limit + 11` rounds left their slot empty. |
| FeedMergeProofs.PageSize | repository/feed_rank.repository.go:503-620 | A page never exceeds the smaller of the limit and the sum of the authors' shares, and reaches it exactly when it is full or nothing that is left could still go on it. |
| FeedMergeProofs.ExactPageSize | repository/feed_rank.repository.go:503-620 | Unless the guard fires, and always with at most `limit + cap + 11` items or a limit within the cap, the page has exactly that size. |
| FeedGuard.GuardThreshold | repository/feed_rank.repository.go:608-611 | The page is exact on all inputs of at most `n` items if and only if the limit is within the cap or `n <= limit + cap + 11`. |
| FeedGuard.CrowdIsCutShort | repository/feed_rank.repository.go:608-611 | For every limit above the cap there are streams whose first page is fetched whole, `limit + cap + 12` items, and leaves a post out although it has room. |
| FeedGuard.FetchedPagesAreExact | repository/feed_rank.repository.go:245-277 | Every page fetched from any well-ordered streams behind any cursor has the exact size if and only if the limit is within the cap or the tab has no explore streams. |
| FeedLayout.PageLayout | repository/feed_rank.repository.go:518-574 | With distinct posts within the cap and long enough streams the page is full and slot `k` holds main item `k - k/N`, or, at every `N`-th slot, the next small and general items in turn. |
| FeedRerank.SpreadAuthors | repository/feed_rank.repository.go:640-668 | The swapping loop computes `Spread` of the page, which `FeedShown.SpreadIsExact` describes place by place. |
| FeedRerank.SpreadOne | repository/feed_rank.repository.go:647-666 | One position in place: it takes the nearest post within the look-ahead whose author was not just shown, if there is one. |
| FeedRerank.AuthorInWindow | repository/feed_rank.repository.go:628-635 | True exactly when the author is among those positions. |
| FeedRerank.SpreadSeparates | repository/feed_rank.repository.go:637-668 | If nobody has more than two posts, every position with a full look-ahead holds an author absent from the `window - 1` positions before it. |
| FeedShown.StepSpreadsPlace | repository/feed_rank.repository.go:648-666 | One step exchanges the place with the nearest post of the look-ahead, itself included, whose author was not just shown, or changes nothing if there is none. |
| FeedShown.SpreadIsExact | repository/feed_rank.repository.go:640-668 | Doing so for one place after the other is all that spreading does: the description holds of one page only. |
| FeedShown.LastPlacesAreSpread | repository/feed_rank.repository.go:655-666 | On any page and for any window, with no cap: where the look-ahead reaches the end of the page, the author of a place was just shown only if the authors of all posts from there on were. |
| FeedRerank.SpreadKeepsPosts | repository/feed_rank.repository.go:637-668 | Spreading neither adds nor loses a post. |
| FeedRerank.CapTwoPages | repository/feed_rank.repository.go:508-510 | A page with distinct ids and a cap of two has no author three times. |
| FeedRerank.EnsureExploreInTop | repository/feed_rank.repository.go:674-699 | The search and the shifting copy compute `Lifted`. |
| FeedRerank.PullUp | repository/feed_rank.repository.go:693-697 | The copy shifts a stretch one place down and puts the explore post in front of it. |
| FeedRerank.LiftedTop | repository/feed_rank.repository.go:670-699 | After lifting, the first `slots` places show an explore post whenever the page has one; the posts are the same, all others keep their order, a second lift changes nothing. |
| FeedShown.LiftIsExact | repository/feed_rank.repository.go:674-699 | Lifting puts the first explore post, if it stands behind the top, on the last top place and moves those between down by one; otherwise it changes nothing. |
| FeedRerank.RotateHeroTop | repository/feed_rank.repository.go:704-723 | The swap computes `Rotated`. |
| FeedRerank.EachHeroOnce | repository/feed_rank.repository.go:701-723 | Over `k` rounds in a row each of the first `k` posts comes first exactly once, by exchange with the first. |
| FeedShown.LeadIsExact | repository/feed_rank.repository.go:704-723 | A round exchanges the first post with that of place `(round - 1) % k`; round one and anything below leave the page as it is. |
| FeedRerank.RotationKeepsPosts | repository/feed_rank.repository.go:701-723 | Rotating neither adds nor loses a post. |
| FeedCursor.RoundTrip | repository/feed_rank.repository.go:41-96 | Parsing a printed cursor gives back the snapshot and the normalised cursor if and only if no rank is negative, no id is a marker, and no id before another field holds `_`. |
| FeedCursor.ParsedSurvives | repository/feed_rank.repository.go:66-96 | Whatever text is parsed, the cursor is one that survives printing and is normal. |
| FeedCursor.ParsedIsStable | repository/feed_rank.repository.go:41-96 | For texts whose scores have six decimals: a cursor that came out of a text prints to a text that parses to the same. |
| FeedCursor.EncodeIsStable | repository/feed_rank.repository.go:41-96 | Printing, parsing and printing again gives the first text. |
| FeedCursor.ParsePrintedMicros | repository/feed_rank.repository.go:60-75 | A score printed with six decimals is read back as it was. |
| FeedCursor.SplitJoined | repository/feed_rank.repository.go:60-68 | Splitting a joined text at `_` into as many parts gives the parts, when all but the last are free of `_`. |
| FeedCursor.AcceptedTexts | repository/feed_rank.repository.go:66-78 | A text is accepted if and only if it is eight fields joined by `_`, none but the last with one inside, the first `v2` and four of them numbers; a text of another version is refused. |
| FeedCursor.EncodedText | repository/feed_rank.repository.go:41-61 | The text to the letter: the order of the fields, `0` and `!` for a stream that is done, `-1` and `-` for one that has not started. |
| FeedCursor.NegativeScoreStartsOver | repository/feed_rank.repository.go:79-84 | A main score below zero is read back as a stream that has not started. |
| FeedPaging.FetchStream | repository/feed_rank.repository.go:334-338 | The query gives the first `limit` items behind the cursor key. |
| FeedPaging.BehindItem | repository/feed_rank.repository.go:334-338 | Asking for what comes behind the key of item `k` gives exactly the items from `k + 1` on. |
| FeedPaging.FetchBatches | repository/feed_rank.repository.go:245-274 | Which streams are asked for how much: done streams for nothing, explore streams not on the followed tab. |
| FeedPaging.Advance | repository/feed_rank.repository.go:289-307 | The cursor after a page, filled field by field from a blank one. |
| FeedPaging.FetchPersonalized | repository/feed_rank.repository.go:236-309 | Fetch, merge, rerank and advance: the page shows what was merged, spread, lifted off the followed tab and rotated as `FeedShown` describes it; the next cursor and `hasMore` are those of the page function; a limit below one gets an empty last page. |
| FeedPaging.PageProgress | repository/feed_rank.repository.go:289-308 | The measure (main left, small left, general left) drops lexicographically on every page even if an untouched explore stream starts over; done stays done; `hasMore` is false exactly when all three are done; an empty page is the last. |
| FeedPaging.DoneExactly | repository/feed_rank.repository.go:245-274 | Each batch is what the stream has left, up to `limit + 8` and `limit / 2 + 4` items; a stream is done if and only if the page used up all it had left and that was less than what was asked for (explore streams: or on the followed tab). |
| FeedPaging.RankedMeans | repository/feed_rank.repository.go:338-408 | Main and general have the highest score first, then the largest id; small has the oldest post first, then the smallest id. |
| FeedPaging.PagesFollowCursor | repository/feed_rank.repository.go:236-309 | Following the cursor ends: each page is fetched with the cursor before it, and only the last says that there is no more. |
| FeedPaging.MainIsPartitioned | repository/feed_rank.repository.go:249-295 | What the pages of a whole run use up of the main stream, put together, is the main stream: every item once, in order. |
| FeedPaging.EveryMainPostIsAnswered | repository/feed_rank.repository.go:233-309 | Over a whole run every main post is shown on some page, or its author fills the cap on the page that used it up. |
| FeedPaging.ExploreKeepsPlace | repository/feed_rank.repository.go:289-307 | Whatever the page: an explore stream keeps its place exactly when the page used some of it, it had not started, or nothing was left; else it starts over. |
| FeedPaging.PrintedCursorIsEnough | repository/feed_rank.repository.go:41-96 | With printable items the printed cursor leads to the same next page as the cursor itself. |
| FeedExplore.PlacesOnPlainPages | repository/feed_rank.repository.go:289-307 | Told from the page size: with distinct posts within the cap and long enough streams, the small stream keeps its place if and only if the page has an explore slot (`limit / N >= 1`), the general stream if and only if it has two, unless they had not started or had nothing left; else they start over from their first item. |
| FeedExplore.ExplorePostComesBack | repository/feed_rank.repository.go:289-307 | Pages of 10, then of any size from 5 to 9, then of 10: the first general post is on the first page and on the third. |
| FeedPrinted.NegativeScoresNeverEnd | repository/feed_rank.repository.go:79-84 | Over whole runs through printed cursors: on all streams with `n` main posts below zero there is always a next page, never an empty one, if and only if `n >= limit + 8`, or `limit <= cap` and `n > limit`. |
| FeedPrinted.PrintedPagingEnds | repository/feed_rank.repository.go:41-96 | On all streams with `n` main posts below zero, following printed cursors comes to an end, if and only if `n` is 0, or `n` is 1 and `limit <= cap`. |
| FeedPrinted.FewAreEnough | repository/feed_rank.repository.go:79-84 | For every other `n`, streams with `n` main posts below zero on which following printed cursors never ends: with `limit > cap` one such post is enough. |
| FeedPrinted.PrintedPagesArePages | repository/feed_rank.repository.go:41-96 | When paging always ends, the pages that a client gets through printed cursors are the pages of the run whose cursors are kept as values, which partition the main stream. |
| FeedPrinted.FirstBatchComesBack | repository/feed_rank.repository.go:79-84 | When all main posts are below zero and a page leaves some, the next page is made from the same main batch. |
| FeedPrinted.UsesOnlyWhatItShows | repository/feed_rank.repository.go:508-614 | When the cap is at least the page size, a page uses up no more of the main stream than it has slots. |
| FeedPaging.DisplayedIsMerged | repository/feed_rank.repository.go:279-287 | Reranking shows exactly the merged posts, so the cursor stays right. |
| FeedPaging.ShownPagesSpread | repository/feed_rank.repository.go:276-287 | The page as it is shown, with a cap of at most two, no lifting and no rotation: every place with a full look-ahead shows an author not just shown, the other places whenever any post from there on allows it. |
| FeedShown.PageOfRound | repository/feed_rank.repository.go:285-287 | In a hero round the page is that of round zero with the first post exchanged with the one of the round. |
| FeedShown.TopShowsExplore | repository/feed_rank.repository.go:282-284 | Off the followed tab, in round zero, the top shows an explore post if the page has one; the page is the one without lifting, lifted. |
| FeedShown.FollowedTabIsNotLifted | repository/feed_rank.repository.go:282-284 | On the followed tab the page is the same as with no top slots for explore posts. |
| Calls.OrderDoesNotMatter | groupws/hub.go:798-834 | In whatever order the due members come: joined loses exactly them, a dropped creator is followed by the smallest joined member who is not disconnected, unchanged if there is none, and the whole session is the same for all orders. |
| Calls.DropMore | groupws/hub.go:799-821 | Dropping one more member, creator hand-over included, continues dropping many at once. |
| CallHub.SortedIds | groupws/hub.go:956-963 | Lists a set of identifiers in ascending order, each once. |
| CallHub.GroupCallSession.constructor | groupws/hub.go:306-329 | A new session: the caller joined, microphones on, cameras on, 60 s to live. |
| CallHub.GroupCallSession.FirstJoined | groupws/hub.go:967-975 | The smallest joined member who is not disconnected, none if there is none. |
| CallHub.GroupCallSession.ExpireRequests | groupws/hub.go:790-796 | Forgets exactly the requests older than 30 s, in any order. |
| CallHub.GroupCallSession.DropLost | groupws/hub.go:798-834 | The loop with its early end drops exactly the members disconnected for at least 15 s, in any order, and says whether nobody is left. |
| CallHub.GroupCallSession.MicTarget | groupws/hub.go:612-629 | Whose microphone is meant, and exactly which of five errors it is otherwise. |
| CallHub.SelectParticipants | groupws/hub.go:278-304 | Nobody at all if and only if somebody invited is no member; otherwise exactly those invited, by a non-empty name, and the caller. |
| CallHub.Hub.CheckCall | groupws/hub.go:264-329 | Refuses a busy chat first and strangers next, and otherwise builds the session, not yet in the table: the check event of the runs, success and failure. |
| CallHub.Hub.OpenCall | groupws/hub.go:331-333 | Puts the session into the table: the insertion event of the runs. |
| CallHub.Hub.RequestJoinCall | groupws/hub.go:369-408 | A participant enters at once, anybody else waits; only that call changes; the errors and the list of joined members. |
| CallHub.Hub.ApproveJoinCall | groupws/hub.go:410-458 | Only the creator, only somebody waiting; the table after it and each error exactly. |
| CallHub.Hub.RejectJoinCall | groupws/hub.go:460-474 | Only the creator; the request is gone; each error exactly. |
| CallHub.Hub.EndCallByUser | groupws/hub.go:484-539 | The creator ends the call for all, others leave, the last one ends it; who is told; each error exactly. |
| CallHub.Hub.RelaySignalTargets | groupws/hub.go:561-601 | The recipients, the sender marked active even if the target is no good, each error exactly. |
| CallHub.Hub.SetParticipantMuted | groupws/hub.go:604-638 | Own microphone, or another's by the creator; whether anything changed; each error exactly. |
| CallHub.Hub.SetParticipantVideo | groupws/hub.go:641-659 | Own camera; whether anything changed; each error exactly. |
| CallHub.Hub.MarkDisconnected | groupws/hub.go:697-713 | Marks a joined member at this time and says so; nobody else. |
| CallHub.Hub.CleanupStaleCalls | groupws/hub.go:750-835 | One cleanup of all calls, whatever the order of the maps, does to each call what the order-free description says. |
| CallLaws.EveryEvent | groupws/hub.go:369-835 | What each event of any run does to each open call, field by field: whether it closes it, who takes part, is in, has media, waits since when, is disconnected since when, whose microphone and camera end how, who leads, whether it still expires; an event about another call changes nothing. |
| CallLaws.EveryCheck | groupws/hub.go:264-329 | A check passes if and only if the identifier is new, the chat has no open call and everybody invited is a member; the call then has those invited and the caller as participants, unmuted and with camera, only the caller in it, and a minute to last. |
| CallLaws.EveryOpening | groupws/hub.go:331-333 | The insertion opens the call under way with this identifier, as it stands, and changes no other. |
| CallRuns.EveryRun | groupws/hub.go:255-835 | In every run: active and disconnected members have joined, joined is a non-empty part of the participants, nobody waits who is a participant, the creator is a participant, a call that can expire has nobody in it but its creator. |
| CallRuns.ParticipantsOnlyGrow | groupws/hub.go:428-434 | Between any two moments of a run at which a call exists, it lost no participant. |
| CallTraces.MarksAreHistory | groupws/hub.go:387-390 | The table of disconnections says exactly what the history says: marked then, and nothing done since. |
| CallTraces.Grace | groupws/hub.go:798-814 | A cleanup that does not expire the call takes out a joined member if and only if they were marked at least 15 s earlier and have not come back, left or been marked again since. |
| CallTraces.EveryParticipantWasAdmitted | groupws/hub.go:418-430 | Every participant is the caller, was invited out of the members, or was waiting and was approved by whoever was the creator at that moment. |
| CallLaws.WhoTakesPart | groupws/hub.go:300-430 | Over whole runs: the participants of a call are exactly its caller, everybody invited when it was checked, and everybody let in out of the waiting list by the creator of that moment. |
| CallLaws.WaitingIsHistory | groupws/hub.go:369-474 | A user waits since `t` if and only if they asked then, not taking part, and have since not asked anew, been let in or turned away by the creator of that moment, nor met a cleanup more than 30 s later. |
| CallLaws.ExpiryIsHistory | groupws/hub.go:326-408 | A call expires one minute after its check if and only if two members have never been in it; otherwise it does not expire. |
| CallLaws.CleanupEnds | groupws/hub.go:750-835 | A cleanup ends a call if and only if it comes more than a minute after the check and two members have never been in it, or every member was marked disconnected at least 15 s before and nothing touched the marks since. |
| CallTraces.OneCallUnlessOverlap | groupws/hub.go:264-333 | At no moment of a run, whatever insertions come next, has a chat two open calls, if and only if no two creations for one chat overlap. |
| CallTraces.OverlapOpensTwo | groupws/hub.go:264-333 | In any run two checks for a free chat followed by the two insertions open two calls. |
| ChatKeys.UniqueSortedChatIds | repository/e2e.repository.go:102-114 | The chats of a batch, each once, ascending. |
| ChatKeys.ListsTheChats | repository/e2e.repository.go:102-114 | The list of chats ascends and names exactly the chats of the entries. |
| ChatKeys.LocksAscend | repository/e2e.repository.go:90-114 | Every transaction takes its locks in strictly ascending order. |
| ChatKeys.EveryRun | repository/e2e.repository.go:85-171 | In every interleaving the locks are in order, and every row is what the committed batches, replayed, and the pending entries of the holder of its chat make of it. |
| ChatKeysProofs.Serializable | repository/e2e.repository.go:120-171 | Every interleaving of batches and readers, rollbacks included, is a sequential run in commit order: nobody commits twice, each reader saw exactly the batches committed before it, and at rest the table is the first-writer-wins replay. |
| ChatKeysProofs.RowsAreKept | repository/e2e.repository.go:128-131 | A row that a committed batch has set keeps its value, whatever commits later. |
| ChatKeysProofs.FirstWriterWins | repository/e2e.repository.go:116-137 | In any run, whenever no batch holds the chat: a row is there if and only if a committed batch carries it, and it holds what the first of these, in commit order, has in its first entry for the row. |
| ChatKeysProofs.ReadersAgree | repository/e2e.repository.go:153-171 | A later reader of a row finds the key that an earlier one found. |
| ChatKeysProofs.PairsStayWhole | repository/e2e.repository.go:116-137 | Two rows of a chat are, whenever no batch holds the chat, both absent or both from one committed batch, in all runs, if and only if every batch carries both of them or neither. |
| ChatKeysProofs.ReadersMeetWholePairs | repository/e2e.repository.go:153-171 | A reader that is about to read under its lock finds both rows of the pair, from one committed batch, or neither, when batches carry both or neither. |
| ChatKeysProofs.HalfPair | repository/e2e.repository.go:116-137 | A batch with only one of the two rows, run alone, leaves half a pair. |
| ChatKeysProofs.SomeoneCanMove | repository/e2e.repository.go:85-114 | While a transaction is unfinished, some transaction can do its next statement. |
| ChatKeysProofs.EveryoneCanFinish | repository/e2e.repository.go:85-114 | From any point of any run all transactions can be finished by their own statements, nobody being rolled back: there is no deadlock. |
| ChatKeysProofs.RunsEnd | repository/e2e.repository.go:90-171 | No run has more steps than there are statements. |
| Contribution.Serializable | repository/contribution.repository.go:341-389 | Every interleaving of awards and joins, rollbacks included, answers and stores as the committed calls one after the other would. |
| Contribution.EveryRun | repository/contribution.repository.go:350-381 | What each transaction has read is still true while it holds its lock, and a rollback restores what was there. |
| ContributionTotals.AwardRowsCountAnswers | repository/contribution.repository.go:341-389 | An award row that nobody has locked holds one post for every call that was answered with an award, and the sum of their points. |
| ContributionTotals.AwardsAreLimited | repository/contribution.repository.go:367-369 | At no moment of any run, not even inside a transaction, is a daily limit passed. |
| ContributionTotals.FirstCallsAreAwarded | repository/contribution.repository.go:341-389 | With one limit for all, a call is awarded if and only if fewer calls than the limit leaves room for committed before it. |
| ContributionTotals.AwardsAreAnswered | repository/contribution.repository.go:341-389 | Whatever the limits of the calls: the `n`-th commit, if an award, is answered with one if and only if the posts at the start and the awards answered before are fewer than its limit. |
| ContributionTotals.ChallengesAreNeverOverfull | repository/contribution.repository.go:492-500 | At no moment of any run has a challenge more members than its limit. |
| ContributionTotals.NobodyJoinsTwice | repository/contribution.repository.go:471-512 | No two joins of one user succeed, none of a member does, and the members grow by one for each that does. |
| ContributionTotals.JoinsAreAnswered | repository/contribution.repository.go:471-512 | The `n`-th commit, if a join, is answered: no such challenge; or else already joined, if and only if its user is a member by then; or else full, if and only if there is a maximum that the members at the start and the joins before reach; or else joined. |
| ContributionTotals.MembersAtRest | repository/contribution.repository.go:503-511 | In a challenge that nobody has locked are exactly the members of the start and those whose joins were answered as joined. |
| ReadMarks.ReadStore.UpsertChatRead | repository/chat.repository.go:703-740 | The row after the call is the latest read of the history; it is raised exactly when no read was as far. |
| ReadMarks.ReadStore.GetChatReadWatermarks | repository/chat.repository.go:744-757 | For every user and time: the mark reaches it if and only if some read of the history does. |
| ReadMarks.ApplySeenBy | groupws/client.go:1264-1280 | Each message is given the list of those whose mark reaches it, without its sender, each once, in any order; a message nobody has seen is left as it was. |
| ReadMarks.SendHistory | groupws/client.go:261-264 | In the history sent to a client a user is listed for a message if and only if they are not its sender and some read of the history reaches it. |
| ReadMarks.LatestIsMaximal | repository/chat.repository.go:700-702 | The latest read is one of the history, and none is later. |
| ReadRaces.MarksAreLatest | repository/chat.repository.go:703-740 | As long as calls for one chat and user do not overlap, every mark is the latest of all completed reads and no call fails. |
| ReadRaces.MarksNeverGoBack | repository/chat.repository.go:700-740 | In all interleavings no completed read of a user in a chat is ahead of the row, if and only if the calls for them report at most two different times. |
| ReadRaces.OverlapGoesBack | repository/chat.repository.go:703-740 | In any run, two overlapping calls ahead of the row, the further one written first, leave the mark behind a read that was answered. |
| RateLimiter.Compact | middlewares/rate_limit.go:54-59 | Compacting in place keeps exactly the times after the cutoff, in order; writes never pass reads. |
| RateLimiter.RateLimiter.Append | middlewares/rate_limit.go:64-64 | Appending to a slice, in place or in a new array. |
| RateLimiter.RateLimiter.Sweep | middlewares/rate_limit.go:38-52 | The sweep, in any order, keeps for every key exactly the live times and forgets keys without any. |
| RateLimiter.RateLimiter.Allow | middlewares/rate_limit.go:31-66 | For calls in any order of time: while time has not run back, true if and only if fewer than `limit` earlier allowed hits of the key in the whole history lie within the window; otherwise never false with fewer hits in the window and never true with `limit` hits after the latest cutoff so far. The history grows by exactly that hit, the log becomes what `Answered` makes of it; a sweep leaves no other key without a live hit. |
| RateLimiter.CompactionIsFaithful | middlewares/rate_limit.go:38-59 | Compacting any keys at a cutoff changes no answer from that cutoff on. |
| RateLimiter.OtherKeys | middlewares/rate_limit.go:38-52 | A call leaves all other keys alone, unless more than 10000 are tracked: then each keeps its hits in the window, and is forgotten if and only if there are none. |
| RateLimiter.FairIsExact | middlewares/rate_limit.go:54-65 | Such an answer is exact whenever the counts after the two cutoffs are on the same side of the limit, so whenever no hit lies between the cutoffs; otherwise neither answer is excluded. |
| RateLimiter.LateCallIsLetThrough | middlewares/rate_limit.go:54-65 | With limit 2: two hits, a call one window later and a late call just after the first hits; the late call is let through with three allowed hits in its window. |
| RateLimiter.HitIsLegal | middlewares/rate_limit.go:60-65 | A hit that is let through keeps the history within the limit. |
| RateLimiter.HitsAreSpaced | middlewares/rate_limit.go:60-65 | While time does not run back, any `limit + 1` allowed hits of a key in a row span at least the window. |

## Left out

- The SQL score expressions, recall bounds and filters: a stream is given, fixed, finite and strictly ordered; posts
  that appear, vanish or change score between two pages are not modelled.
- Floating point: scores are whole millionths, so digits that the cursor does not print are not modelled, nor are
  exponents, `inf` and other spellings that only `strconv.ParseFloat` accepts.
- The followed-tab filter of the main query is part of the given stream.
- Uniqueness across pages for the two explore streams: the code does not give it (`FeedExplore` says when).
- Identifiers are compared character by character; database collations that do otherwise are not modelled.
- Errors of the database and of the network in the feed queries, and the persistence, messages and notifications of
  group calls: input and output.
- The fields of a group call that nothing reads back (kind of call, status, creation and activity times) and the check
  of the kind of call.
- Identifiers of calls are never handed out twice, as random UUIDs.
- Clocks: the time is an argument. How Go grows a slice is not modelled beyond giving it a new array.
- Rows that a transaction locks: the chat rows exist. Locks that the database adds by itself (gaps, duplicate keys)
  only make transactions wait or roll back, and rollbacks may happen at any point of the model.
- ContributionTotals.AwardsAreLimited: integers are unbounded, the width of the database columns is not modelled.
- `UpsertChatKey` and `UpsertChatKeyForce`, which take no lock; the non-atomic `JoinChallenge`, which nothing calls.
- ReadMarks.ReadStore.UpsertChatRead: states the effect of one call after another; calls at the same time are in
  `ReadRaces`.
- `RenderTemplate` in `errors/helpers.go`, controllers, routes, configuration, encryption and other wrappers.

