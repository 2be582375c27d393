# Poll store model

A Dafny model of the core of a small Django poll application: the store of
questions, choices with vote counters and per-question voter records, the
two queries that list and show questions, the two views that change the
store (casting a vote and creating a question with up to ten choices), and
the test suite's own helpers and scenarios.

- `wrappers.dfy` (`Wrappers`): `Option`.
- `models.dfy` (`PollModels`): the records `Question`, `Choice`, `Voter`
  (the application's `User` model), `WasPublishedRecently`, and the `Store`
  class. It holds the three tables as sequences in insertion order, plus
  the two auto-increment key counters. Its invariant `WellFormed` says
  that keys are unique and fresh, and that every choice and voter record
  refers to a stored question.
- `queries.dfy` (`PollQueries`): `IndexView.get_queryset` as `Index`, and
  `DetailView.get_queryset` with the primary-key lookup as `Detail`. Both
  are pure functions over the tables.
- `views.dfy` (`PollViews`): the `vote` view as `Vote`, and the `poll_new`
  view as `PollNew`. Both are methods that change the `Store`. `PollNew`
  keeps the source's loop over the choice forms, with its counter `i` and
  its `flag`.
- `tests.dfy` (`PollTests`): the test helpers `create_question` and
  `vote`. Each test case is a method that starts from a new empty store,
  replays the test's steps, and ensures what the test asserts.

Time is an integer number of seconds. `Day` is 86400. The clock is a
parameter (`now`). The client IP is an `Option<string>` input. The test
client's IP is `127.0.0.1`.

Notes on the source's behaviour, which the model follows:
- The `vote` view never refuses a repeat vote from the same IP.
  `TestViewCountsRepeatedVote` shows that a second vote is counted. The
  once-only rule exists only in the test helper (`HelperVote`), and that
  helper refuses once anyone at all has voted on the question, whatever
  their IP.
- The `poll_new` view does not check for 1 to 10 choice texts. Only the
  test helper does. The view walks every posted form; the page renders ten.
- For a client whose IP is unknown, the index view has no fallback policy.
  It reaches `return` with its result never bound, which the model gives as
  the outcome `UnboundResult`.
- The `vote` view looks the question up without the publication filter, so
  a question that is not yet published can be voted on.

## Model

| member | source | states |
|---|---|---|
| `PollModels.WasPublishedRecentlyCases` | mysite/polls/tests.py:12-37 | a question dated 30 days ahead, or 1 day and 1 second back, is not recent; one dated 23:59:59 back is |
| `PollQueries.Listables` | mysite/polls/views.py:23-24 | the candidates are exactly the stored questions with `pub_date <= now` that have no voter record for the requester's IP, and each appears no more often than in the store |
| `PollQueries.OrderByNewest` | mysite/polls/views.py:25 | `order_by('-pub_date')` yields a permutation of its input, sorted by publication date, newest first |
| `PollQueries.TakeNewest` | mysite/polls/views.py:25 | the first five of the newest-first order are newest first, are drawn from the candidates, and no candidate left out is newer than any of them |
| `PollQueries.Index` | mysite/polls/views.py:16-26 | no IP gives the unbound-result outcome. With an IP, the listing holds min(5, candidates) questions, newest first, drawn from the candidates, and no candidate left out is newer than any listed one |
| `PollQueries.IndexShowsOnlyListable` | mysite/polls/views.py:23-25 | every listed question is stored, published by `now` and not voted on from the requester's IP, and at most 5 are listed |
| `PollQueries.IndexShowsAllWhenFew` | mysite/polls/views.py:23-25 | when at most 5 questions qualify, the listing is a permutation of all of them |
| `PollQueries.Published` | mysite/polls/views.py:37 | `filter(pub_date__lte=now)` keeps exactly the questions published by `now` |
| `PollQueries.Lookup` | mysite/polls/views.py:84 | the lookup by primary key finds a stored question with that id, or reports that none exists |
| `PollQueries.Detail` | mysite/polls/views.py:33-37 | the detail lookup finds a stored, published question with the id; it fails (404) exactly when every question with that id is in the future or none exists |
| `PollViews.ChoiceIndex` | mysite/polls/views.py:86 | `question.choice_set.get(pk=choice)` finds a choice with that key that belongs to the question, or reports that none does |
| `PollViews.AddVoteCountsOnce` | mysite/polls/views.py:95-96 | one more vote for a choice raises its question's vote total by exactly 1 and leaves every other question's total unchanged |
| `PollViews.AddVoteKeepsWellFormed` | mysite/polls/views.py:95-99 | a counter update, plus voter records for stored questions, keeps the store invariant |
| `PollViews.Vote` | mysite/polls/views.py:81-103 | unknown question: 404. Missing choice, or one not of this question: error, store unchanged. Otherwise that choice's counter rises by 1 and every other choice is unchanged, and a voter record (question, IP) is added if and only if the IP is known. The invariant is kept |
| `PollViews.VotedQuestionLeavesIndex` | mysite/polls/views.py:98-99 | once a voter record for (question, IP) exists, the index listing for that IP no longer shows the question |
| `PollViews.WalkStopsAtKeyError` | mysite/polls/views.py:63 | once a valid form's text key is missing, the walk over the forms ends there: later forms change nothing |
| `PollViews.WalkSavesFilledForms` | mysite/polls/views.py:60-68 | the loop ends on a missing key exactly when some valid form lacks its text key; otherwise it saves the text of every valid, non-empty form, each once, in form order |
| `PollViews.WalkSavesUpToFirstMissingKey` | mysite/polls/views.py:62-68 | when form `j` is the first valid form whose text key is missing, the loop ends there with a key error, having saved exactly the texts of the valid, non-empty forms before `j`, in order |
| `PollViews.DeleteQuestion` | mysite/polls/views.py:70 | deleting by primary key leaves exactly the questions with other ids |
| `PollViews.DeleteFreshQuestion` | mysite/polls/views.py:69-70 | deleting the question just saved under a fresh key restores the question table as it was |
| `PollViews.AddQuestionKeepsWellFormed` | mysite/polls/views.py:56-59 | saving a question under the next key keeps the store invariant |
| `PollViews.AddChoiceKeepsWellFormed` | mysite/polls/views.py:64-66 | saving a choice of a stored question under the next key keeps the store invariant |
| `PollViews.SaveQuestion` | mysite/polls/views.py:56-59 | `question.save()` stores the question with the posted text, `pub_date = now` and the client IP under the next key, which no stored question has; nothing else changes and the invariant is kept |
| `PollViews.SaveChoice` | mysite/polls/views.py:64-66 | `choice.save()` appends a choice of the given question with the posted text and no votes, under the next key; the invariant is kept |
| `PollViews.SaveChoiceForms` | mysite/polls/views.py:60-68 | the loop over the forms appends exactly the choices the form walk saves, in order and under consecutive keys; `flag` is 1 exactly when one was saved, and a missing text key is reported |
| `PollViews.DeleteSavedQuestion` | mysite/polls/views.py:69-70 | deleting the question just saved restores the question table and leaves the other tables and key counters alone; the invariant is kept |
| `PollViews.PollNew` | mysite/polls/views.py:45-78 | not a POST with a valid question form: no change. No IP: "IP is not tracked", no change. Otherwise one question (text, `pub_date = now`, creator IP) and one choice per valid non-empty form, in order. If no choice was saved, the question is deleted again. A missing text key ends the walk with "Question not saved" and keeps what was saved so far. The invariant is kept |
| `PollTests.NoFilledFormNoTexts` | mysite/polls/views.py:62-69 | forms of which none is valid and non-empty give no choice texts |
| `PollTests.CreateQuestionAsWritten` | mysite/polls/tests.py:55-68 | no texts: "At least one choice_text required."; more than 10: "Max ten choice_text can be added."; both create nothing. Otherwise a question dated `now + days` with IP 127.0.0.1 and one choice whose text is the list's string form |
| `PollTests.CreateQuestion` | mysite/polls/tests.py:55-68 | the same checks and messages. With 1 to 10 texts: a question dated `now + days` with IP 127.0.0.1, and one choice per text, in order |
| `PollTests.HelperVote` | mysite/polls/tests.py:184-193 | returns False with no change when any voter record exists for the question. Otherwise it raises the counter of the question's choice keyed by the question's own id by 1, adds one voter record and returns True. It fails if no such choice exists |
| `PollTests.CreateWithGoodChoice` | mysite/polls/tests.py:55-68 | `create_question(["good choice"], text, days)`, as written, stores one question dated `now + days` with IP 127.0.0.1 under the next key, and one unvoted choice of it whose text is `['good choice']` |
| `PollTests.TestCreateWithoutChoiceText` | mysite/polls/tests.py:39-44 | an empty text list is refused with "At least one choice_text required." and nothing is stored |
| `PollTests.TestCreateWithElevenChoiceTexts` | mysite/polls/tests.py:46-52 | eleven texts are refused with "Max ten choice_text can be added." and nothing is stored |
| `PollTests.TestNoQuestions` | mysite/polls/tests.py:72-79 | an empty store lists nothing |
| `PollTests.TestPastQuestion` | mysite/polls/tests.py:81-91 | a question 30 days old is listed |
| `PollTests.TestFutureQuestion` | mysite/polls/tests.py:93-101 | a question 30 days ahead is not listed |
| `PollTests.TestFutureQuestionAndPastQuestion` | mysite/polls/tests.py:103-114 | with a past and a future question, only the past one is listed |
| `PollTests.OneListable` | mysite/polls/views.py:23-25 | when exactly one question qualifies, the index lists that question alone |
| `PollTests.PastBeforeFutureListed` | mysite/polls/views.py:23-25 | of a past and a future question, the index lists only the past one |
| `PollTests.PairNewestFirst` | mysite/polls/views.py:25 | the only newest-first order of two questions with different dates puts the newer one first |
| `PollTests.TwoListableNewestFirst` | mysite/polls/views.py:25 | two published, unvoted questions are listed with the newer one first |
| `PollTests.TestTwoPastQuestions` | mysite/polls/tests.py:116-126 | two past questions are listed newest first |
| `PollTests.TestDetailFutureQuestion` | mysite/polls/tests.py:130-148 | the detail of a question 5 days ahead is a 404 |
| `PollTests.TestDetailPastQuestion` | mysite/polls/tests.py:150-158 | the detail of a question 5 days old is found, with its text |
| `PollTests.TestSuccessVote` | mysite/polls/tests.py:163-169 | a first helper vote returns True and the question has one vote |
| `PollTests.TestVoteQuestionUserAlreadyVoted` | mysite/polls/tests.py:171-181 | a second helper vote from the same IP returns False and the count stays at one |
| `PollTests.OneChoiceVotedOnce` | mysite/polls/views.py:86-96 | in a question with a single choice, the choice is found by its key, and one vote for it brings the question's total to one more than before |
| `PollTests.TestViewCountsRepeatedVote` | mysite/polls/views.py:81-103 | two votes from the same IP through the view both succeed and the choice has two votes |
| `PollTests.TestPollNewWithEmptyChoicesRollsBack` | mysite/polls/views.py:69-71 | a creation request whose ten forms are all empty reports success but leaves no question: nothing is listed and the detail lookup is a 404 |
| `PollTests.TestCreateAsWrittenMergesTexts` | mysite/polls/tests.py:67 | the helper as written gives the texts "yes" and "no" a single choice, with text `['yes', 'no']` |
| `PollTests.TestCreateGivesEachTextAChoice` | mysite/polls/tests.py:67 | the corrected helper gives "yes" and "no" one choice each, in order |

## Findings

| source | as written | input that shows it | evidently intended | confidence | as-written member | corrected member |
|---|---|---|---|---|---|---|
| mysite/polls/tests.py:67 | `create_question` passes the whole list of texts as one `choice_text`, so the question gets one choice whose text is the list's string form | `["yes", "no"]` gives one choice with text `['yes', 'no']` | one choice per given text, as the 1-to-10 limit on the list implies | medium; not executed | `PollTests.CreateQuestionAsWritten`, shown by `PollTests.TestCreateAsWrittenMergesTexts` | `PollTests.CreateQuestion`, shown by `PollTests.TestCreateGivesEachTextAChoice` |

The scenarios use the helper as written (`PollTests.CreateQuestionAsWritten`,
through `PollTests.CreateWithGoodChoice`), as the test suite does. None
of them reads a choice's text.

## Left out

- Templates, `render`, redirects, `reverse` and URL routing: outcomes are datatypes (`IndexOutcome`, `VoteOutcome`, the message string of `PollNew`).
- The `print` audit lines in `poll_new` and `vote`: they only write to the console.
- IP resolution by the `ipware` library: its result is an `Option<string>` input.
- `ResultsView`: a plain fetch with no logic of its own.
- The Django ORM and the database: they are replaced by the `Store` tables. A voter record's own primary key is not modelled because nothing reads it.
- Cascading deletes on the rollback in `poll_new`: at that point no choice or voter record refers to the new question, so the model deletes only the question.
- Form validation (`QuestionForm`, `ChoiceForm`): each form's validity is a boolean input. A saved choice's text is the raw posted text, so Django's whitespace stripping of cleaned data is not modelled.
- The formset's management form: `PollNew` takes the posted forms as a sequence of any length, the forms the management form declares. The page renders ten (`FormsetSize`, `extra=10`), and the model does not check the posted count against it.
- A non-numeric posted `choice`, which raises an uncaught error in the ORM: the posted choice is an `Option<nat>`.
- The exception tuple in `poll_new`: every caught error is the single "Question not saved" outcome. Only a missing choice-text key can raise it there.
- `PollQueries.Index`: the order among questions with equal `pub_date` is left open, as the database leaves it. The function breaks ties by store order, and its contract does not say so.
- `WasPublishedRecently`: the model's definition file is not part of this model. The predicate is `now - 1 day <= pub_date <= now`, which agrees with the three boundary tests.
- `PollTests.ListRepr`: Python's quoting of strings that contain quotes or backslashes is not modelled.
- Concurrency: the race between the check and the insert under concurrent requests is out of scope.
