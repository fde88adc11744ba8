# A verified model of the eros engine's core algorithms

The engine runs companion chat personas. This project models the parts of it whose
correctness is hardest to see and proves what they promise.

| part | modules |
|---|---|
| Regex rewrite rules on a streamed reply | `Text`, `Regex`, `RegexLaws`, `Replace`, `Matches`, `Templates`, `Lengths`, `Scrubber`, `HeadLaws`, `SpanLaws`, `ScrubberLaws`, `HeadStreams`, `Promptness`, `Stability`, `Production`, `StreamScrubber` |
| Life events: a weighted draw with gates, cooldowns and follow-ons, and histories grown by it | `Weighted`, `LifeEvents`, `Draw`, `FollowOns`, `EventRuns`, `DrawLaws`, `EventStore` |
| Affinity: graded deltas, tier decay, cross-line penalty, threshold gate, tier drops | `Affinity`, `AffinityLaws`, `Grading` |
| Model slugs `id@provider` and their escape | `Slug` |
| Needs that drift with time, and when they next change | `Needs` |
| Merging a directory of config files; choosing one model of several | `ConfigMerge`, `Weighted`, `RoundRobin` |
| Gifts that linger over the turns after them | `Effects` |

**The scrubber.** Regexes are syntax trees; `Ends(r, s, i)` is the list of places a match
from `i` can end, best first, as a backtracking matcher with leftmost-first preference
finds them. Whole-text replacement is defined on it. The transforms are state machines
(`Scrubber`) and objects that update their fields (`StreamScrubber`); every method of an
object is proved against the machine. Everything rests on one fact, `Locality`: a pattern
without an end anchor sees only the text up to where it matches, so the ends found in a
prefix are the ends found in the whole that lie within it, in the same order. From it come
the exact condition under which a head rule streams correctly, whatever it replaces its match
with, and the proof that the shipped rules meet it.

**The rest** follows the same plan: pure tables and formulas are functions, loops and
objects are methods proved against those functions, and the promises are lemmas over every
run, every schedule or every history. Times are minutes or hours as integers, or reals where
the code has floats; rolls and clocks are inputs.

## Where the code and its own comments differ

The model follows the code.

- The head transform's comment says a match that ends before the buffer's end cannot change
  (`stream_scrub.rs:150-153`). It can: `^(?:abcd|a)` fed `ab` and `cd` commits to `a`, while the
  whole text matches `abcd` (`ShortSecondFails`).
- The decision bound is said to be final (`stream_scrub.rs:74-81`). It is not when a `^`
  stands in the nullable tail: `^a(?:^|bcd)` gets the bound 1, and is given up on two
  characters although a match was still to come (`AnchorInTailFails`).
- On a given text and split the head transform is right exactly when no decision falls before
  the end, or the first one is right for the text, which can be computed from the rule and the
  chunks (`AgreesExactlyWhen`). It is always right exactly when its early decisions are final,
  or hidden by the replacement (`HeadAgreesExactlyWhen`). Only a template that inserts the match
  exactly once can hide an unstable match (`UnhiddenAgreesExactlyWhen`; `InsertionHides` is one),
  and only a match replaced by itself hides a misleading bound. `Passes` is a check on the
  pattern that implies finality.
- The stream is said to equal `apply_output_regex`, and never to show what that strips
  (`stream_scrub.rs:17-19`). It does neither when the rules change a reply into white space
  only: the shipped rules stream `[a] ` as a blank, and the stored reply is empty
  (`BlankReachesTheClient`; exactly when, `StreamIsCleanedExactlyWhen`).
- A comment says a negative verdict always lowers its axis (`affinity.rs:772-774`). With a zero
  negative factor the turn's delta is negative only where the penalty bites
  (`NegativeLowersExactlyWhen`; below the penalty's start it is 0, `FreeNegative`), and the axis itself moves only when the balance reaches the
  threshold and there is room (`AxisMovesExactlyWhen`).
- The settings say the floor ratio must stay at or below 0.24 (`affinity.rs:604-605`), for the
  floor never to touch a level-2 verdict. Up to one half is enough, and one half is exact
  (`FloorIdleExactlyWhen`).
- A quoted top-level key `tasks.chat` clashes with the task `chat` although neither is
  defined twice (`DottedKeyClashes`); a key `tasks.x` with no task `x` is harmless
  (`MergesExactlyWhen`).
- An event that displaces is meant to end every foreground under way. One that started at the
  same moment is not ended, nor one that starts later and before the new one ends, and both
  stand (`TwoAtOnceBothStand`; exactly when, `OneForegroundExactlyWhen`).
- The audit form of a slug does not parse back when the bare id is empty or ends in a
  backslash, as for the empty slug and `m\` (`AuditLosesProvider`); with a provider it always does
  (`AuditParsesExactlyWhen`, `AuditOfProvider`).

## Model

| member | source | states |
|---|---|---|
| RegexLaws.Locality | crates/eros-engine-llm/src/stream_scrub.rs:104-113 | A pattern without an end anchor finds in a prefix of a text exactly the ends it finds in the whole text that lie in the prefix, in the same order: why `$` keeps a pattern out of the head shape. |
| RegexLaws.MinLenBounds | crates/eros-engine-llm/src/byok.rs:112-126 | The minimum length, in UTF-8 bytes, is a lower bound on every match at every place; a pattern without one matches nothing. |
| RegexLaws.MaxLenBounds | crates/eros-engine-llm/src/stream_scrub.rs:74-94 | The maximum length, where there is one, is an upper bound on every match. |
| Replace.NonGrowing | crates/eros-engine-llm/src/byok.rs:111-127 | A rule that passes the non-growing check never lengthens any text it is applied to. |
| Lengths.NonGrowingExactlyWhen | crates/eros-engine-llm/src/byok.rs:111-127 | For replacements without a dollar sign and patterns without look-around other than a leading `^`, the check is exact: it admits just the rules that lengthen no text. |
| Lengths.Shortest | crates/eros-engine-llm/src/byok.rs:112-126 | The minimum length is that of some text the pattern matches wherever it stands. |
| Lengths.Longest | crates/eros-engine-llm/src/stream_scrub.rs:74-94 | The maximum length, where there is one, is that of some text the pattern matches wherever it stands. |
| Matches.ReplaceAllStitches | crates/eros-engine-llm/src/model_config.rs:757-766 | Whole-text replacement keeps the text between the matches and replaces each; the matches are the one list in which each is the preferred match at the first place, from the end of the one before, where one counts, and an empty match right at that end does not. |
| Replace.AnchoredReplace | crates/eros-engine-llm/src/stream_scrub.rs:104-113 | Whole-text replacement with an anchored pattern replaces the first match at the start and nothing else. |
| Scrubber.HeadDecisionBound | crates/eros-engine-llm/src/stream_scrub.rs:82-94 | The loop that strips trailing nullable parts computes the maximum length of what precedes them. |
| Scrubber.ApplyOutputRegex | crates/eros-engine-llm/src/model_config.rs:750-782 | The cleaned text is the targeted rules' replacements one after another, except that a white-space-only result of a change becomes empty; the reported rules are exactly those that changed the text, in order. |
| HeadLaws.BoundDecides | crates/eros-engine-llm/src/stream_scrub.rs:74-94 | When every stripped trailing part matches empty after the start of the text as well, a buffer longer than the bound without a match has no match in any continuation. |
| RegexLaws.MatchesEmptyExactly | crates/eros-engine-llm/src/stream_scrub.rs:74-81 | After the start of a text, a pattern without an end anchor matches empty exactly when it passes a check on its form; a minimum length of 0 is not enough. |
| ScrubberLaws.PushOwes | crates/eros-engine-llm/src/stream_scrub.rs:138-145 | The invariant of every transform: what a push emits, followed by what the new state owes on any further text, is what the old state owed on the whole. |
| ScrubberLaws.FinishPays | crates/eros-engine-llm/src/stream_scrub.rs:199-208 | Finishing emits exactly what is still owed. |
| ScrubberLaws.StreamIsReplacement | crates/eros-engine-llm/src/stream_scrub.rs:338-358 | For every rule list whose head rules decide finally, every text and every split into chunks, all pushes and the finish together equal the rules' whole-text replacements one after another. |
| ScrubberLaws.StreamIsCleanedExactlyWhen | crates/eros-engine-llm/src/stream_scrub.rs:17-24 | The stream is the text a stored reply is cleaned to if and only if the rules do not change the reply into a non-empty text of white space only. |
| ScrubberLaws.EmittedIsFinal | crates/eros-engine-llm/src/stream_scrub.rs:338-358 | What was emitted at any moment is a prefix of the whole replacement of every possible continuation. |
| Promptness.SpanRuleReleases | crates/eros-engine-llm/src/stream_scrub.rs:231-268 | At every moment of a stream, in any split, a span rule has sent the replacement of all its input but the open span at the end, if there is one. |
| Promptness.PlainTextPasses | crates/eros-engine-llm/src/stream_scrub.rs:212-240 | Text without an opening delimiter leaves a span rule as it comes, before any flush. |
| Promptness.HeadRuleReleases | crates/eros-engine-llm/src/stream_scrub.rs:147-197 | A head rule has sent nothing while undecided, and once a decision has fallen everything held and everything since. |
| Promptness.ChainReleases | crates/eros-engine-llm/src/stream_scrub.rs:338-347 | Each transform of a chain works, chunk by chunk, on what the one before it has sent so far. |
| Promptness.OutputsJoin | crates/eros-engine-llm/src/stream_scrub.rs:338-347 | What a transform makes of the chunks one by one is what it has sent in all. |
| HeadStreams.AgreesExactlyWhen | crates/eros-engine-llm/src/stream_scrub.rs:147-210 | For any head rule, any replacement, any text and any split: the stream is the whole-text replacement if and only if no decision falls before the end, or the first decision is right for the whole text; the condition is computed from the rule and the chunks. |
| HeadStreams.RightExactlyWhen | crates/eros-engine-llm/src/stream_scrub.rs:173-197 | What is emitted at a decision, with the rest of the text after it, is the whole-text replacement if and only if the decision is right: the match committed to is the text's, or the template hides the difference; the text given up on has no match, or one replaced by itself. |
| HeadStreams.HeadAgreesExactlyWhen | crates/eros-engine-llm/src/stream_scrub.rs:147-210 | A head rule, with any replacement, streams correctly on every text and split if and only if each early decision is final: the match found is the match of every continuation, or the template hides the difference; and a text given up on has no match in any continuation, or one replaced by itself. |
| HeadStreams.UnhiddenAgreesExactlyWhen | crates/eros-engine-llm/src/stream_scrub.rs:150-153 | Unless the template inserts the match exactly once, that is: inner matches are stable, and a match the bound misses is replaced by itself. |
| HeadStreams.PlainAgreesExactlyWhen | crates/eros-engine-llm/src/byok.rs:111-127 | The same for every replacement without a dollar sign, which is what the growth check admits. |
| HeadStreams.DeletingAgreesExactlyWhen | crates/eros-engine-llm/src/stream_scrub.rs:147-160 | A head rule that deletes streams correctly if and only if its inner matches are stable and its decision bound is final. |
| Templates.ReplacedAlikeExactlyWhen | crates/eros-engine-llm/src/stream_scrub.rs:186-191 | Replacing a shorter or a longer beginning of a text comes to the same if and only if the template inserts the match once and what follows the insertion commutes with the difference. |
| HeadStreams.AgreementNeedsFinality | crates/eros-engine-llm/src/stream_scrub.rs:150-153 | From any text whose early decision is not final, two chunks whose stream differs from whole-text replacement, for any replacement. |
| HeadStreams.OtherShapesAgree | crates/eros-engine-llm/src/stream_scrub.rs:212-290 | Span and opaque rules, with any replacement, always stream correctly. |
| ScrubberLaws.StreamNeverAhead | crates/eros-engine-llm/src/byok.rs:111-117 | With non-growing rules, whether they decide finally or not: at every moment the bytes emitted plus the bytes held are at most the bytes pushed, and so is the whole stream after the flush. |
| ScrubberLaws.RulesNeverGrow | crates/eros-engine-llm/src/byok.rs:111-127 | A chain of non-growing rules never lengthens a text. |
| SpanLaws.ReplaceAllIsSpans | crates/eros-engine-llm/src/stream_scrub.rs:118-133 | For a pattern classified as a span, whole-text replacement is the left-to-right replacement of `open`, anything but `close`, `close`; nested opens belong to the span, an unterminated one stays. |
| Stability.SettledIsStable | crates/eros-engine-llm/src/stream_scrub.rs:150-153 | Patterns that pass a decidable check on their form, greedy runs and lazy repetitions among them, are stable: a match strictly inside a buffer is the match of every extension. |
| Stability.PassingRulesStream | crates/eros-engine-llm/src/stream_scrub.rs:338-358 | Rule lists whose targeted patterns pass the check stream exactly. |
| Production.HumPasses | crates/eros-engine-llm/src/stream_scrub.rs:376-384 | The shipped leading-hum pattern is a head rule and passes. |
| Production.OpeningPasses | crates/eros-engine-llm/src/stream_scrub.rs:376-384 | The shipped opening pattern, with its asides and marks, is a head rule and passes. |
| Production.BracketIsSpan | crates/eros-engine-llm/src/stream_scrub.rs:376-400 | The shipped bracket pattern is a span. |
| Production.ShippedBounds | crates/eros-engine-llm/src/stream_scrub.rs:376-384 | The leading hum is decided after nine bytes, the white space after it not counting; an opening aside has no bound. |
| Production.ShippedRulesStream | crates/eros-engine-llm/src/stream_scrub.rs:376-384 | The shipped rules stream exactly, whatever the text and the split. |
| Production.BlankReachesTheClient | crates/eros-engine-llm/src/stream_scrub.rs:17-24 | On any bracketed artifact followed by white space the shipped rules stream that white space, in every split, while the stored reply is empty. |
| Production.LazyRunPasses | crates/eros-engine-llm/src/stream_scrub.rs:150-153 | `^a+?` is a head rule and passes the check. |
| Production.OptionalAnchorPasses | crates/eros-engine-llm/src/stream_scrub.rs:82-94 | `^a(?:^)?`, whose tail holds a `^` but matches empty everywhere, passes the check. |
| Production.InsertionHides | crates/eros-engine-llm/src/stream_scrub.rs:150-153 | `^(?:abcd\|a)` replaced by `X$0` streams correctly although its matches are not stable. |
| Production.ShortSecondFails | crates/eros-engine-llm/src/stream_scrub.rs:147-160 | `^(?:abcd\|a)` is a head rule, and fed `ab`, `cd` its stream is not the whole-text replacement. |
| Production.AnchorInTailFails | crates/eros-engine-llm/src/stream_scrub.rs:82-94 | `^a(?:^\|bcd)` streams wrongly on every text that begins with `abcd` and whose first chunk holds two or three characters. |
| StreamScrubber.HeadTransform.Push | crates/eros-engine-llm/src/stream_scrub.rs:173-197 | The object's buffer and flag move as the head state machine does, and the same text is emitted. |
| StreamScrubber.SpanTransform.Push | crates/eros-engine-llm/src/stream_scrub.rs:231-262 | The character loop over the held text moves as the span state machine does. |
| StreamScrubber.StreamScrubber.Push | crates/eros-engine-llm/src/stream_scrub.rs:338-347 | Pushing through the list of transform objects, in place, is pushing through the chain of state machines. |
| StreamScrubber.StreamScrubber.Finish | crates/eros-engine-llm/src/stream_scrub.rs:349-358 | Finishing flushes each transform through those after it. |
| StreamScrubber.ScrubStream | crates/eros-engine-llm/src/stream_scrub.rs:302-358 | Building the scrubber's objects, pushing every chunk and finishing yields the whole-text replacement when the head rules decide finally. |
| LifeEvents.LookbackIs | crates/eros-engine-core/src/events.rs:789-800 | The longest of all cooldowns and durations is 90 days. |
| LifeEvents.LongestIsAWeek | crates/eros-engine-core/src/events.rs:329-392 | Every kind lasts more than no time and at most a week. |
| LifeEvents.DrawableExactlyWhen | crates/eros-engine-core/src/events.rs:118-177 | A kind is among those drawn if and only if it is not one of the two written directly. |
| EventRuns.OldIsSpent | crates/eros-engine-core/src/events.rs:789-800 | A well-timed event that started at or before the look back is over, and has been for longer than the follow-on window. |
| Weighted.PickBySubtracting | crates/eros-engine-core/src/events.rs:756-769 | The subtracting loop picks the entry whose cumulative band the clamped roll's share of the total falls on, or nothing without weight. |
| Weighted.PickByAdding | crates/eros-engine-llm/src/model_config.rs:138-150 | The adding loop picks the first entry whose running sum passes the position, or else the last. |
| Weighted.LoopsAgree | crates/eros-engine-llm/src/model_config.rs:135-150 | For rolls in [0, 1) both loops pick the entry whose band holds `roll * total`; no other band holds it, and its weight is not zero. |
| Weighted.PickedExactlyWhen | crates/eros-engine-core/src/events.rs:754-769 | Among distinct entries, one is picked on exactly the rolls whose share of the total falls on its own stretch, as long as its weight: it is drawn in proportion. |
| Weighted.RollFor | crates/eros-engine-core/src/events.rs:754-769 | Every entry with weight is picked by some roll in [0, 1). |
| FollowOns.FollowFactorCounts | crates/eros-engine-core/src/events.rs:548-560 | Listing the live priors, sorting by a name that tells kinds apart and dropping adjacent repeats raises the factor once for every distinct live prior. |
| FollowOns.FollowOnTriples | crates/eros-engine-core/src/events.rs:402-406 | One more live prior, of a kind not yet among them, triples the weight of what follows on it, whatever the other factors are. |
| FollowOns.PriorCountsExactlyWhen | crates/eros-engine-core/src/events.rs:548-560 | One more event triples the weight of what follows on it exactly when it is under way or ended within 48 hours and no other of its kind is or did; otherwise it changes no weight. |
| Draw.DrawnIsEligible | crates/eros-engine-core/src/events.rs:675-752 | What is drawn passes every filter, with no foreground under way, and has its kind's length. |
| Draw.EmptyExactlyWhen | crates/eros-engine-core/src/events.rs:675-752 | Nothing is drawn exactly when a foreground is under way or no kind is eligible, whatever the rolls. |
| Draw.EveryEligibleKindDrawn | crates/eros-engine-core/src/events.rs:675-769 | Every eligible kind is drawn for some rolls in [0, 1), with any duration roll. |
| Draw.LengthInRange | crates/eros-engine-core/src/events.rs:771-780 | For every roll, the length lies in the kind's range. |
| Draw.EveryLengthReached | crates/eros-engine-core/src/events.rs:771-780 | Every whole hour of the range is reached by some roll in [0, 1). |
| DrawLaws.CanBeDrawnExactlyWhen | crates/eros-engine-core/src/events.rs:675-752 | A kind can be drawn on some rolls in [0, 1) exactly when draws make it, the caller allows it, gender and rung befit it, its own, its category's and the offline cooldowns have run out, no foreground is under way, and the first background under way, if any, lets it in. |
| DrawLaws.DrawnBefits | crates/eros-engine-core/src/events.rs:459-467 | Whatever the rolls, what is drawn meets those conditions, said kind by kind: who must be female, and from which rung. |
| DrawLaws.HospitalKeepsHerIn | crates/eros-engine-core/src/events.rs:602-634 | In every run, nothing outside, strenuous or in company begins during a hospital stay or recovery from surgery, and no scare during a period. |
| DrawLaws.DrawnOncePicked | crates/eros-engine-core/src/events.rs:720-752 | The first roll picks the category, the second the kind within it, the third the length. |
| DrawLaws.EligibleInOrder | crates/eros-engine-core/src/events.rs:692-719 | The eligible kinds stand in draw order. |
| DrawLaws.OfCategoryInOrder | crates/eros-engine-core/src/events.rs:732-734 | So do those of one category. |
| DrawLaws.PresentInOrder | crates/eros-engine-core/src/events.rs:720-730 | The categories that take part keep their order too. |
| DrawLaws.PickInBand | crates/eros-engine-core/src/events.rs:754-769 | With every weight positive, a roll in [0, 1) picks the entry whose cumulative band holds its share of the total. |
| DrawLaws.LengthExactlyWhen | crates/eros-engine-core/src/events.rs:771-780 | Each whole hour of a range is the length on its own stretch of the rolls, in order, all stretches alike. |
| DrawLaws.LengthOfIs | crates/eros-engine-core/src/events.rs:771-780 | A kind's length is the one its rule's range gives, and every range holds a length. |
| DrawLaws.PreferredTriples | crates/eros-engine-core/src/events.rs:516-524 | A preferred mid kind weighs three times as much, whatever else weighs on it. |
| DrawLaws.FirstTimesAreRare | crates/eros-engine-core/src/events.rs:562-570 | What has never happened to her weighs a fifth. |
| DrawLaws.HomeSteersTrips | crates/eros-engine-core/src/events.rs:572-584 | Love of home triples visits home and cuts leisure trips to a third; roaming cuts visits home to a third. |
| DrawLaws.DesireIsSteered | crates/eros-engine-core/src/events.rs:586-594 | The setting scales sudden desire by three or a third. |
| DrawLaws.NeedsSteer | crates/eros-engine-core/src/events.rs:470-489 | How each need, high or low, scales the kinds it bears on. |
| DrawLaws.UrgeDoubles | crates/eros-engine-core/src/events.rs:491-502 | The urge to let loose doubles going out and irritability, on top of the other needs. |
| DrawLaws.PlainWeight | crates/eros-engine-core/src/events.rs:329-392 | Without any cause a kind weighs what its rule says. |
| DrawLaws.PersonaSteersCategories | crates/eros-engine-core/src/events.rs:504-514 | Weak health doubles the body category and strong health halves it, love of travel triples trips, and nothing else moves a category. |
| EventRuns.RunConsistent | crates/eros-engine-core/src/events.rs:674-752 | The invariant of every run from an empty history: all pairs of events are compatible, and each is well timed. |
| EventRuns.RunGrows | crates/eros-engine-core/src/events.rs:644-669 | A moment adds to a run the event drawn on the run so far, from that moment on for its length, or nothing. |
| EventRuns.OneOfEach | crates/eros-engine-core/src/events.rs:676-697 | At every instant of every run at most one foreground and one background is under way, and the background allows the foreground. |
| EventRuns.BackgroundStartsAlone | crates/eros-engine-core/src/events.rs:722-726 | No background starts while another event is under way. |
| EventRuns.CooldownsHold | crates/eros-engine-core/src/events.rs:693-721 | In every run, starts of one kind, of one category, and of any two offline kinds are at least their cooldowns apart. |
| EventRuns.DrawsAlike | crates/eros-engine-core/src/events.rs:644-658 | A draw depends on its history only through the background under way and which recent events there are, not on their order, repeats or anything older. |
| EventRuns.LookbackSuffices | crates/eros-engine-core/src/events.rs:789-800 | Dropping every event that started at or before the look back never changes a draw. |
| EventRuns.ReadBackSuffices | crates/eros-engine-store/src/events.rs:283-299 | A draw on what the store returns, the boundary included and in whatever order, is the draw on the whole history. |
| EventRuns.ReadBackReads | crates/eros-engine-store/src/events.rs:283-299 | Reading the window newest first is such a reading. |
| EventRuns.ServedRunIsRun | crates/eros-engine-server/src/routes/session_events.rs:643-649 | For every way of ordering what is read, a life whose every draw reads only the store's window is the life whose draws read everything. |
| EventStore.OneForegroundExactlyWhen | crates/eros-engine-store/src/events.rs:199-252 | In any run that mixes draws, late inserts and displacing events, in any order of time: at every point at most one foreground is under way at every instant, if and only if every displacing foreground finds none that starts between its own start and end. |
| EventStore.DisplacedKeepsExactlyWhen | crates/eros-engine-store/src/events.rs:216-252 | Displacing leaves foregrounds one at a time if and only if none starts at or after the new one's start and before its end. |
| EventStore.DisplacedCutsExactly | crates/eros-engine-store/src/events.rs:227-238 | Displacing changes no instant of the past: the same events are under way as before, but for foregrounds begun earlier, which are over from the new start on; kinds and starts stay. |
| EventStore.FreeExactlyWhen | crates/eros-engine-store/src/events.rs:150-165 | The guarded insert appends the event exactly when everything in its way is over by its start, and otherwise changes nothing. |
| EventStore.InsertedKeeps | crates/eros-engine-store/src/events.rs:112-180 | The guarded insert keeps foregrounds, and backgrounds, one at a time, whatever was read when the event was drawn. |
| EventStore.DrawnIsFree | crates/eros-engine-store/src/events.rs:112-180 | What is drawn on the store as it is passes the insert's guard. |
| EventStore.OneBackgroundAlways | crates/eros-engine-store/src/events.rs:199-252 | However the two kinds written directly displace, backgrounds stay one at a time. |
| EventStore.CooldownsSurvive | crates/eros-engine-core/src/events.rs:693-721 | In runs of draws and of displacing events of the two kinds written directly, every drawn event keeps the kind, category and offline cooldowns from all that was written before it. |
| EventStore.TwoAtOnceBothStand | crates/eros-engine-store/src/events.rs:231-238 | Two foregrounds that displace at one instant both stand at full length. |
| EventStore.MeetExactlyWhen | crates/eros-engine-store/src/events.rs:231-238 | Two events share an instant exactly when each starts before the other ends. |
| AffinityLaws.TurnDirection | crates/eros-engine-core/src/affinity.rs:725-830 | Without nudges, each axis's real delta, before gate and clamp, has the sign its own grade and the two pre-turn line scores give it: that of the position's net, none on grade 0, never positive on a negative grade. |
| Grading.AssessedOn | crates/eros-engine-core/src/affinity.rs:733-830 | Each axis is assessed on its own grade and nudge, its own line's unit and tier, and the other line's score. |
| Grading.GradeFactors | crates/eros-engine-core/src/affinity.rs:759-771 | Each step of a positive grade earns the unit times the damped boost less the penalty, each step of a negative one costs the unit times the negative factor plus the penalty; grades past four count as four. |
| Grading.RampIsQuadratic | crates/eros-engine-core/src/affinity.rs:742-746 | The penalty's ramp is nothing up to its start and then the square of the way from there to full. |
| Grading.NudgeAlone | crates/eros-engine-core/src/affinity.rs:747-757 | On an axis without a grade a nudge up counts damped by the line's tier, and a nudge down in full. |
| Grading.NudgeAdds | crates/eros-engine-core/src/affinity.rs:747-789 | Beside a grade of the same direction a nudge adds just what it would alone. |
| Grading.NudgeMonotone | crates/eros-engine-core/src/affinity.rs:747-789 | A better nudge is never worse, whatever the grade. |
| Grading.AxisLandsAt | crates/eros-engine-store/src/affinity.rs:652-657 | A turn that refuses nothing moves an axis by what the threshold releases, growth scaled, within [0, 1]; what is not released stays pending. |
| Grading.DeltasMove | crates/eros-engine-core/src/affinity.rs:46-57 | Applying deltas moves each of the six values by its own delta as far as [0, 1] reaches. |
| Grading.DaysAddUp | crates/eros-engine-core/src/affinity.rs:58-71 | Days without a turn add up, take a hundredth a day from intrigue and half of that from tension until they are empty, and leave the rest alone. |
| Grading.EndpointsFollowLines | crates/eros-engine-store/src/affinity.rs:667-677 | After a turn warmth is read off chemistry and patience off bond at the levels then stored, which are the judge's clamped to three, or kept. |
| Grading.EndpointShape | crates/eros-engine-core/src/affinity.rs:215-222 | A cold verdict reads the floor, the next two a third and two thirds of the boost. |
| Grading.RefreshCools | crates/eros-engine-core/src/affinity.rs:73-90 | Read after days away, both endpoints are what they were times the cooling, and nothing else changes. |
| Grading.CoolingIs | crates/eros-engine-core/src/affinity.rs:209-213 | Absence cools by the rate a day, no further than the floor. |
| AffinityLaws.AxisMovesExactlyWhen | crates/eros-engine-store/src/affinity.rs:652-657 | A turn that refuses nothing lowers or raises an axis exactly when pending balance and real delta add up to the threshold or more on that side, and the axis has room; growth also needs a positive growth scale. |
| AffinityLaws.SignIsPositional | crates/eros-engine-core/src/affinity.rs:759-771 | The sign of a positive grade's real delta is that of an expression in which neither grade nor unit occurs. |
| AffinityLaws.LossPersists | crates/eros-engine-core/src/affinity.rs:775-777 | Once a positive grade loses at a counterpart score, every grade, on every unit, loses there and at every higher score. |
| AffinityLaws.NegativeLowersExactlyWhen | crates/eros-engine-core/src/affinity.rs:759-774 | A negative grade's real delta, before gate and clamp, is negative exactly when the unit is positive and the negative factor is positive or the penalty applies; it is never positive. |
| AffinityLaws.FreeNegative | crates/eros-engine-core/src/affinity.rs:759-774 | With a zero negative factor and the counterpart at or below the penalty's start, a negative grade's real delta is 0. |
| AffinityLaws.PersistTurn | crates/eros-engine-store/src/affinity.rs:640-677 | One persisted turn on the stored row and its pending balances is the model's step: time decay, endpoints cooled, grading, damped commit, a refused line dropped and cleared, the judge's levels taken over and the endpoints read anew. |
| AffinityLaws.NothingLost | crates/eros-engine-core/src/affinity.rs:790-798 | Over any run of turns, per axis: committed deltas, the final pending balance and what refusals forfeit add up to the initial balance and all real deltas. |
| AffinityLaws.BoundsHold | crates/eros-engine-core/src/affinity.rs:49-57 | After any run of at least one turn every axis lies in [0, 1] and every pending balance is 0 or below the threshold in magnitude. |
| AffinityLaws.TargetOneTierDown | crates/eros-engine-core/src/affinity.rs:268-290 | From tier 2 up, the drop target lies strictly below the score, in exactly the tier below, clear of its edges. |
| Grading.TargetKeepsPlace | crates/eros-engine-core/src/affinity.rs:286-290 | The drop target lies at the score's own relative place in the tier below, to within the margin at the tier's edges, and exactly there away from them. |
| AffinityLaws.TargetMonotone | crates/eros-engine-core/src/affinity.rs:280-290 | A higher score never has a lower drop target. |
| AffinityLaws.RefusalLands | crates/eros-engine-core/src/affinity.rs:501-527 | A drop brings the line exactly to the target of the pre-turn score, both axes times one factor, without its clamps acting, and leaves the other line and the endpoints alone. |
| AffinityLaws.RefusalKeepsRatio | crates/eros-engine-core/src/affinity.rs:501-527 | A drop keeps the ratio of the line's two axes. |
| AffinityLaws.StepRefuses | crates/eros-engine-store/src/affinity.rs:640-665 | A refusing turn, whatever else it brings, lands the line on the drop target of its score after time decay; its balances are cleared, and the other line and its balances fare as without the refusal. |
| AffinityLaws.RefusalCostsOneTierExactlyWhen | crates/eros-engine-core/src/affinity.rs:276-290 | A refusal costs a line above tier 1 exactly one tier, and leaves it above 0, if and only if time decay has not cost it a tier already. |
| AffinityLaws.RefusalsWalkDown | crates/eros-engine-core/src/affinity.rs:276-290 | For any run of turns that all refuse a line of tier `k`, whatever grades, nudges, balances, growth and days they bring: fewer than `k`, say `n`, leave at most tier `k - n`, and `k` or more leave 0; where no time passes, exactly tier `k - n` and above 0. |
| AffinityLaws.DaysCostATier | crates/eros-engine-core/src/affinity.rs:64-71 | Thirty days and one refusal take a chemistry line of tier 2 to 0. |
| AffinityLaws.FloorIdleExactlyWhen | crates/eros-engine-core/src/affinity.rs:215-222 | The floor leaves level-2 verdicts alone at every counterpart score exactly when the ratio is at most one half. |
| Affinity.AffinityRow.DropLineTier | crates/eros-engine-core/src/affinity.rs:505-527 | The row's six values become those of the pure drop, the stored levels stay. |
| Affinity.PendingDeltas.ClearLine | crates/eros-engine-core/src/affinity.rs:667-680 | The line's two balances become 0, the others stay. |
| Slug.SplitModelSlug | crates/eros-engine-llm/src/provider.rs:96-128 | The scan that collects unescaped `@`s returns the specified split or the specified error. |
| Slug.RejectedExactlyWhen | crates/eros-engine-llm/src/provider.rs:100-126 | Two unescaped `@`s or more are rejected as too many, a single one at the start for want of an id, a single one at the end for want of a provider, and nothing else is; a rejected slug is its own bare id. |
| Slug.PrintSplit | crates/eros-engine-llm/src/provider.rs:92-128 | Reprinting the parse of any accepted slug gives the slug back. |
| Slug.SplitPrintExactlyWhen | crates/eros-engine-llm/src/provider.rs:130-135 | A written `id@provider` parses back to the same pair exactly when the id is not empty and does not end in a backslash, and the provider is not empty and holds no `@` that splits. |
| Slug.UnescapeEscape | crates/eros-engine-llm/src/provider.rs:130-135 | Unescaping undoes escaping, for every id. |
| Slug.EscapeUnescape | crates/eros-engine-llm/src/provider.rs:130-135 | Escaping undoes unescaping wherever every `@` is escaped. |
| Slug.AuditParsesExactlyWhen | crates/eros-engine-llm/src/byok.rs:18-23 | The audit form of any slug parses to the bare id with the audit label exactly when that id is not empty and does not end in a backslash. |
| Slug.AuditOfProvider | crates/eros-engine-llm/src/byok.rs:18-23 | For an accepted slug with a provider the audit form parses to the same id, and is its own audit form. |
| Slug.AuditSettlesExactlyWhen | crates/eros-engine-llm/src/byok.rs:18-23 | The audit form of any slug is its own audit form if and only if the bare id is not empty and does not end in a backslash. |
| Slug.AuditLosesProvider | crates/eros-engine-llm/src/byok.rs:18-23 | The audit form of the empty slug is rejected, and that of `m\` parses without a provider. |
| Needs.NextChangeExact | crates/eros-engine-core/src/needs.rs:145-159 | The next change is exactly the first later time at which the carried levels differ; without one they never differ again. |
| Needs.DriftNears | crates/eros-engine-core/src/needs.rs:106-121 | Drift moves a level one nearer to rest for every full period, never past it. |
| Needs.EveryHabitCounts | crates/eros-engine-core/src/needs.rs:49-57 | Each habit held counts once, and the count alone sets how the urge drifts. |
| Needs.HabitsHasten | crates/eros-engine-core/src/needs.rs:77-87 | With any habit the urge rests high, the sooner the more habits up to three. |
| Needs.ChainIsShort | crates/eros-engine-core/src/needs.rs:145-159 | Going from change to change ends within five steps. |
| Needs.ChainOfFive | crates/eros-engine-core/src/needs.rs:145-159 | Five steps are reached: at 4, 8, 12, 16 and 24 hours. |
| Needs.CarriedTwice | crates/eros-engine-core/src/needs.rs:123-133 | Carrying over whole days and then further is carrying over the sum at once. |
| ConfigMerge.MergeDir | crates/eros-engine-llm/src/model_config.rs:1470-1523 | The loops merge exactly when there is a file, every `tasks` is a table and every owner is defined once, and then hold the union of the definitions. A failure is about the first file that stops the merge and is true of it: its `tasks` is no table, or it defines what the earlier file it names, or it itself, defines already. |
| ConfigMerge.UnionSaysWhatFilesSay | crates/eros-engine-llm/src/model_config.rs:1492-1519 | The merged table holds a key or a task with a value exactly when some file holds it with that value. |
| ConfigMerge.OrderIrrelevant | crates/eros-engine-llm/src/model_config.rs:1477-1522 | Any order of the files gives the same outcome: the same merged table, or failure. |
| ConfigMerge.MergesExactlyWhen | crates/eros-engine-llm/src/model_config.rs:1477-1522 | Parsed files merge exactly when there is one, every `tasks` is a table, no top-level key and no task is defined by two of them, and no key `tasks.x` stands beside a task `x`. |
| ConfigMerge.DistinctExactlyWhen | crates/eros-engine-llm/src/model_config.rs:1500-1517 | Every owner is defined once if and only if no key and no task is defined twice and no key reads like the owner of a task. |
| ConfigMerge.DottedKeyClashes | crates/eros-engine-llm/src/model_config.rs:1500-1517 | Two files that define nothing twice and still do not merge. |
| RoundRobin.ModelSpec.Select | crates/eros-engine-llm/src/model_config.rs:105-118 | Which model is chosen in each of the three forms, when none is, and how the cursor moves, with its wrap. |
| RoundRobin.IdsInOrder | crates/eros-engine-llm/src/model_config.rs:78-81 | Reading a rotation keeps the non-empty ids in order. |
| RoundRobin.OneId | crates/eros-engine-llm/src/model_config.rs:78-81 | A single id is kept exactly when it is not empty. |
| RoundRobin.EntriesInOrder | crates/eros-engine-llm/src/model_config.rs:89-97 | Reading a weighted table keeps the entries of positive weight in order. |
| RoundRobin.OneEntry | crates/eros-engine-llm/src/model_config.rs:89-97 | A single entry is kept exactly when its weight is positive. |
| RoundRobin.EveryWindowFair | crates/eros-engine-llm/src/model_config.rs:108-111 | Before the wrap, any `n` consecutive tickets choose each of `n` models once. |
| RoundRobin.WrapsFairlyExactlyWhen | crates/eros-engine-llm/src/model_config.rs:108-111 | Windows across the counter's wrap are fair too exactly when `n` divides the counter's range. |
| RoundRobin.TicketsConserved | crates/eros-engine-llm/src/model_config.rs:108-111 | Under every schedule of callers, for every model, calls served and tickets held add up to the tickets issued for it. |
| RoundRobin.FairUnderInterleaving | crates/eros-engine-llm/src/model_config.rs:108-111 | Under every schedule, each model's served and pending calls are its even share; with none pending, counts differ by at most one. |
| Effects.TurnStepsTheWorld | crates/eros-engine-core/src/effects.rs:113-142 | One turn more is the new gift at step one, if it lingers, then every earlier effect one step on without those that ended. |
| Effects.GiftBegins | crates/eros-engine-core/src/effects.rs:113-142 | A gift the turn before is at step one of `min(quantity, 5)`, with its own item, name and quantity; a valuable or an empty gift has no effect. |
| Effects.SteppedIsActive | crates/eros-engine-core/src/effects.rs:113-142 | Effects kept from turn to turn are the effects read off the whole history. |
| Effects.OlderTurnsDoNotMatter | crates/eros-engine-core/src/effects.rs:10-11 | Turns more than five back have no say. |
| Effects.EffectsRiseAndFade | crates/eros-engine-core/src/effects.rs:99-111 | Every row is one hill: the phase is rising before it, peak on it, fading after it, and the levels move with the phase. |
| Effects.ShapesPeakWhere | crates/eros-engine-core/src/effects.rs:21-31 | Front curves peak at the first step, back curves at the last, and middle curves of three steps or more at neither. |
| Effects.StrongestExactlyWhen | crates/eros-engine-core/src/effects.rs:17-20 | Level four is reached by exactly the lingering gifts of more than five. |

## Left out

- Parsing of regexes, TOML and JSON: the model starts from syntax trees and tables. The regex and regex-syntax crates are not part of this model; matching, minimum and maximum length and look sets are modelled as those crates document them.
- RegexLaws.MinLenBounds: the regex-syntax crate may report no minimum length for a repetition of a pattern that matches nothing, or for an alternation with such a branch, as in `[a&&b]*` and `[a&&b]|abc`; the growth check would then admit any replacement, where the model goes by the shortest match.
- Regex features that none of the rules use: word boundaries, captures other than the whole match, lookups of named groups, flags, and the simplifications of the parser, which may merge literals or classes and so classify a pattern the model calls opaque.
- Byte positions inside a character: texts are sequences of characters, and lengths in bytes are sums of UTF-8 lengths.
- Saturation of lengths at the integer width in the regex parser's maximum length.
- Production.ShippedRulesStream: `\s` is the Unicode White_Space list written out; the regex crate's own table is not part of this model.
- Scrubber.ApplyOutputRegex: the set of characters that `trim` drops is written out likewise.
- Affinity: the raw delta and the penalty that a turn records beside the committed one, labels, rungs, streaks, and the feeling clause.
- AffinityLaws.PersistTurn: the event row, the label moves and the transaction are left out; the clock is an input, and the second reading of the endpoints counts as no time after the update.
- Draw: offline and background listings, and what is told, are left out.
- EventStore.OneForegroundExactlyWhen: the messages, keys and sessions of stored events, and the refusal of inserts while an ask waits, are left out; the writers take turns, as the instance's lock makes them.
- FollowOns.FollowFactorCounts: sorting is the library's; the lemma holds for whatever sorted arrangement it returns.
- Needs: the effect of a gift on needs.
- ConfigMerge.MergeDir: listing and reading files, the wording of the messages and the deserialization of the merged table are left out.
- RoundRobin.ModelSpec.Select: the random position is an input, as a roll times the total; sorting a weighted table by id when it is read is left out.
- Float rounding, NaN and infinities: floats are reals. The saturating cast of elapsed steps has no effect on a level, since at most two steps count.
- Boot checks and bundles of settings, built-in prompts, HTTP, headers, redaction, audit records, and the stream clean-up: I/O, long lists of single checks, or wrappers.
