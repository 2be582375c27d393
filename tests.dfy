/**
 * The test suite's own helpers, `create_question` and `vote`, which work
 * on the store directly, and its scenarios, each a method that starts
 * from an empty store, replays the test's steps and states what the test
 * asserts about the outcome.
 *
 * The test client's requests come from 127.0.0.1, which the IP-resolution
 * library reports as the client IP.
 */
module PollTests {
  import opened Wrappers
  import opened PollModels
  import opened PollQueries
  import opened PollViews

  /** `create_question` accepts at most this many choice texts. */
  const MaxChoiceTexts: nat := 10

  const MsgNoChoiceText := "At least one choice_text required."
  const MsgTooManyChoiceTexts := "Max ten choice_text can be added."

  /** The creator IP `create_question` records, and the test client's IP. */
  const LocalIp: Ip := "127.0.0.1"

  datatype Creation = Refused(message: string) | Created(question: Question)

  /** What Python's `str()` makes of a list of strings (no quote escaping). */
  function ListRepr(texts: seq<string>): string {
    "[" + QuotedItems(texts) + "]"
  }

  function QuotedItems(texts: seq<string>): string {
    if texts == [] then ""
    else if |texts| == 1 then "'" + texts[0] + "'"
    else "'" + texts[0] + "', " + QuotedItems(texts[1..])
  }

  /** The refusal `create_question` gives for `n` choice texts, if any. */
  function CreationRefusal(n: nat): Option<string> {
    if n == 0 then Some(MsgNoChoiceText)
    else if n > MaxChoiceTexts then Some(MsgTooManyChoiceTexts)
    else None
  }

  /**
   * `create_question` as the test suite has it: the whole list of texts
   * is passed as one `choice_text`, so the question gets a single choice
   * whose text is the list's string form.
   */
  method CreateQuestionAsWritten(store: Store, choiceTexts: seq<string>, questionText: string, days: int, now: Time)
    returns (r: Creation)
    requires store.Valid()
    modifies store
    ensures store.Valid()
    ensures store.voters == old(store.voters)
    ensures CreationRefusal(|choiceTexts|).Some? ==>
      && r == Refused(CreationRefusal(|choiceTexts|).value)
      && store.questions == old(store.questions) && store.choices == old(store.choices)
      && store.nextQuestionId == old(store.nextQuestionId) && store.nextChoiceId == old(store.nextChoiceId)
    ensures CreationRefusal(|choiceTexts|).None? ==>
      var qid := old(store.nextQuestionId);
      && r == Created(Question(qid, questionText, now + days * Day, LocalIp))
      && store.questions == old(store.questions) + [r.question]
      && store.nextQuestionId == qid + 1
      && store.choices == old(store.choices) + [Choice(old(store.nextChoiceId), qid, ListRepr(choiceTexts), 0)]
      && store.nextChoiceId == old(store.nextChoiceId) + 1
  {
    if |choiceTexts| == 0 {
      return Refused(MsgNoChoiceText);
    } else if |choiceTexts| > MaxChoiceTexts {
      return Refused(MsgTooManyChoiceTexts);
    }
    var q := SaveQuestion(store, questionText, now + days * Day, LocalIp);
    SaveChoice(store, q, ListRepr(choiceTexts));
    r := Created(q);
  }

  /**
   * `create_question` as its tests mean it: after the same checks, one
   * choice for each of the given texts, in order.
   */
  method CreateQuestion(store: Store, choiceTexts: seq<string>, questionText: string, days: int, now: Time)
    returns (r: Creation)
    requires store.Valid()
    modifies store
    ensures store.Valid()
    ensures store.voters == old(store.voters)
    ensures CreationRefusal(|choiceTexts|).Some? ==>
      && r == Refused(CreationRefusal(|choiceTexts|).value)
      && store.questions == old(store.questions) && store.choices == old(store.choices)
      && store.nextQuestionId == old(store.nextQuestionId) && store.nextChoiceId == old(store.nextChoiceId)
    ensures CreationRefusal(|choiceTexts|).None? ==>
      var qid := old(store.nextQuestionId);
      && r == Created(Question(qid, questionText, now + days * Day, LocalIp))
      && store.questions == old(store.questions) + [r.question]
      && store.nextQuestionId == qid + 1
      && store.choices == old(store.choices) + NewChoices(choiceTexts, qid, old(store.nextChoiceId))
      && store.nextChoiceId == old(store.nextChoiceId) + |choiceTexts|
  {
    if |choiceTexts| == 0 {
      return Refused(MsgNoChoiceText);
    } else if |choiceTexts| > MaxChoiceTexts {
      return Refused(MsgTooManyChoiceTexts);
    }
    var q := SaveQuestion(store, questionText, now + days * Day, LocalIp);
    for i := 0 to |choiceTexts|
      invariant store.questions == old(store.questions) + [q] && store.nextQuestionId == q.id + 1
      invariant store.voters == old(store.voters)
      invariant store.Valid()
      invariant store.choices == old(store.choices) + NewChoices(choiceTexts[..i], q.id, old(store.nextChoiceId))
      invariant store.nextChoiceId == old(store.nextChoiceId) + i
    {
      NewChoicesAppend(choiceTexts[..i], choiceTexts[i], q.id, old(store.nextChoiceId));
      assert choiceTexts[..i + 1] == choiceTexts[..i] + [choiceTexts[i]];
      SaveChoice(store, q, choiceTexts[i]);
    }
    assert choiceTexts[..|choiceTexts|] == choiceTexts;
    r := Created(q);
  }

  /** Some voter record exists for question `questionId`, from any IP. */
  predicate AnyVoter(voters: seq<Voter>, questionId: nat) {
    exists v :: v in voters && v.questionId == questionId
  }

  datatype HelperVoteOutcome = Returned(ok: bool) | ChoiceDoesNotExist

  /**
   * The test suite's `vote`: refuses (False) once anyone at all has voted
   * on the question; otherwise votes for the question's choice whose key
   * equals the question's own key, records `ip`, and returns True. When
   * no such choice exists the ORM raises, shown as `ChoiceDoesNotExist`.
   */
  method HelperVote(store: Store, ip: Ip, question: Question) returns (r: HelperVoteOutcome)
    requires store.Valid()
    modifies store
    ensures store.Valid()
    ensures store.questions == old(store.questions)
    ensures store.nextQuestionId == old(store.nextQuestionId) && store.nextChoiceId == old(store.nextChoiceId)
    ensures r == Returned(false) <==> AnyVoter(old(store.voters), question.id)
    ensures r == ChoiceDoesNotExist <==>
      !AnyVoter(old(store.voters), question.id) && ChoiceIndex(old(store.choices), question.id, question.id).None?
    ensures r != Returned(true) ==> store.choices == old(store.choices) && store.voters == old(store.voters)
    ensures r == Returned(true) ==>
      var k := ChoiceIndex(old(store.choices), question.id, question.id).value;
      && store.choices == AddVote(old(store.choices), k)
      && store.voters == old(store.voters) + [Voter(question.id, ip)]
    ensures r == Returned(true) ==> TotalVotes(store.choices, question.id) == TotalVotes(old(store.choices), question.id) + 1
  {
    if AnyVoter(store.voters, question.id) {
      return Returned(false);
    }
    var k := ChoiceIndex(store.choices, question.id, question.id);
    if k.None? {
      return ChoiceDoesNotExist;
    }
    var owner := store.choices[k.value];
    assert owner in store.choices;
    assert HasQuestion(store.questions, question.id);
    AddVoteCountsOnce(store.choices, k.value, question.id);
    AddVoteKeepsWellFormed(store.questions, store.choices, store.voters, store.nextQuestionId, store.nextChoiceId,
                           k.value, [Voter(question.id, ip)]);
    store.choices := AddVote(store.choices, k.value);
    store.voters := store.voters + [Voter(question.id, ip)];
    r := Returned(true);
  }

  /**
   * The tests' usual call `create_question(["good choice"], text, days)`:
   * a question with a single choice, whose text is the list's string form
   * `['good choice']`.
   */
  method CreateWithGoodChoice(store: Store, text: string, days: int, now: Time) returns (q: Question)
    requires store.Valid()
    modifies store
    ensures store.Valid()
    ensures q == Question(old(store.nextQuestionId), text, now + days * Day, LocalIp)
    ensures store.questions == old(store.questions) + [q] && store.voters == old(store.voters)
    ensures store.choices == old(store.choices) + [Choice(old(store.nextChoiceId), q.id, GoodChoiceText, 0)]
    ensures store.nextQuestionId == q.id + 1 && store.nextChoiceId == old(store.nextChoiceId) + 1
  {
    var created := CreateQuestionAsWritten(store, ["good choice"], text, days, now);
    q := created.question;
  }

  /** The text the helper as written stores for `["good choice"]`. */
  const GoodChoiceText: string := ListRepr(["good choice"])

  lemma GoodChoiceTextIsListRepr()
    ensures GoodChoiceText == "['good choice']"
  {
  }

  /** The question texts of a listing, in order. */
  function Texts(questions: seq<Question>): seq<string> {
    seq(|questions|, i requires 0 <= i < |questions| => questions[i].text)
  }

  // ---------------------------------------------------------------------
  // Model tests
  // ---------------------------------------------------------------------

  method TestCreateWithoutChoiceText(now: Time) returns (r: Creation, questionCount: nat)
    ensures r == Refused(MsgNoChoiceText) && questionCount == 0
  {
    var store := new Store();
    r := CreateQuestionAsWritten(store, [], "Current question.", 1, now);
    questionCount := |store.questions|;
  }

  method TestCreateWithElevenChoiceTexts(now: Time) returns (r: Creation, questionCount: nat)
    ensures r == Refused(MsgTooManyChoiceTexts) && questionCount == 0
  {
    var store := new Store();
    var texts := ["1", "2", "3", "4", "5", "6", "7", "8", "9", "10", "11"];
    r := CreateQuestionAsWritten(store, texts, "Current question.", 1, now);
    questionCount := |store.questions|;
  }

  // ---------------------------------------------------------------------
  // Index view tests
  // ---------------------------------------------------------------------

  method TestNoQuestions(now: Time) returns (listing: IndexOutcome)
    ensures listing == Listed([])
  {
    var store := new Store();
    listing := Index(store.questions, store.voters, Some(LocalIp), now);
  }

  method TestPastQuestion(now: Time) returns (shown: seq<string>)
    ensures shown == ["Past question."]
  {
    var store := new Store();
    var past := CreateWithGoodChoice(store, "Past question.", -30, now);
    var questions, voters := store.questions, store.voters;
    assert questions == [past];
    assert voters == [];
    assert Listables(questions, voters, LocalIp, now) == [past];
    OneListable(questions, voters, LocalIp, now, past);
    var listing := Index(questions, voters, Some(LocalIp), now);
    shown := Texts(listing.questions);
  }

  method TestFutureQuestion(now: Time) returns (listing: IndexOutcome)
    ensures listing == Listed([])
  {
    var store := new Store();
    var future := CreateWithGoodChoice(store, "Future question.", 30, now);
    var questions, voters := store.questions, store.voters;
    assert questions == [future];
    assert Listables(questions, voters, LocalIp, now) == [];
    listing := Index(questions, voters, Some(LocalIp), now);
  }

  method TestFutureQuestionAndPastQuestion(now: Time) returns (shown: seq<string>)
    ensures shown == ["Past question."]
  {
    var store := new Store();
    var past := CreateWithGoodChoice(store, "Past question.", -30, now);
    var future := CreateWithGoodChoice(store, "Future question.", 30, now);
    var questions, voters := store.questions, store.voters;
    assert questions == [past, future];
    assert voters == [];
    assert past.pubDate <= now < future.pubDate;
    PastBeforeFutureListed(past, future, LocalIp, now);
    var listing := Index(questions, voters, Some(LocalIp), now);
    shown := Texts(listing.questions);
  }

  method TestTwoPastQuestions(now: Time) returns (shown: seq<string>)
    ensures shown == ["Past question 2.", "Past question 1."]
  {
    var store := new Store();
    var first := CreateWithGoodChoice(store, "Past question 1.", -30, now);
    var second := CreateWithGoodChoice(store, "Past question 2.", -5, now);
    var questions, voters := store.questions, store.voters;
    assert questions == [first, second];
    assert voters == [];
    TwoListableNewestFirst(first, second, LocalIp, now);
    var listing := Index(questions, voters, Some(LocalIp), now);
    shown := Texts(listing.questions);
  }

  /** Two published, unvoted questions are listed newer one first. */
  lemma TwoListableNewestFirst(q1: Question, q2: Question, ip: Ip, now: Time)
    requires q1.pubDate < q2.pubDate <= now
    ensures Index([q1, q2], [], Some(ip), now) == Listed([q2, q1])
  {
    assert [q1, q2][1..] == [q2];
    assert Listables([q1, q2], [], ip, now) == [q1, q2];
    IndexShowsAllWhenFew([q1, q2], [], ip, now);
    PairNewestFirst(Index([q1, q2], [], Some(ip), now).questions, q1, q2);
  }

  lemma PairNewestFirst(s: seq<Question>, older: Question, newer: Question)
    requires older.pubDate < newer.pubDate
    requires NewestFirst(s) && multiset(s) == multiset{older, newer}
    ensures s == [newer, older]
  {
    assert |s| == 2;
    assert s[0] in multiset(s) && s[1] in multiset(s);
    assert s[0].pubDate >= s[1].pubDate;
  }

  /** Of a past and a future question, only the past one is listed. */
  lemma PastBeforeFutureListed(past: Question, future: Question, ip: Ip, now: Time)
    requires past.pubDate <= now < future.pubDate
    ensures Index([past, future], [], Some(ip), now) == Listed([past])
  {
    assert [past, future][1..] == [future];
    assert Listables([past, future], [], ip, now) == [past];
    OneListable([past, future], [], ip, now, past);
  }

  /** When exactly one question qualifies, the listing is that question. */
  lemma OneListable(questions: seq<Question>, voters: seq<Voter>, ip: Ip, now: Time, q: Question)
    requires Listables(questions, voters, ip, now) == [q]
    ensures Index(questions, voters, Some(ip), now) == Listed([q])
  {
    IndexShowsAllWhenFew(questions, voters, ip, now);
    var s := Index(questions, voters, Some(ip), now).questions;
    assert |s| == 1 && s[0] in multiset(s);
  }

  // ---------------------------------------------------------------------
  // Detail view tests
  // ---------------------------------------------------------------------

  method TestDetailFutureQuestion(now: Time) returns (detail: Option<Question>)
    ensures detail == None
  {
    var store := new Store();
    var future := CreateWithGoodChoice(store, "Future question.", 5, now);
    detail := Detail(store.questions, future.id, now);
  }

  method TestDetailPastQuestion(now: Time) returns (detail: Option<Question>)
    ensures detail.Some? && detail.value.text == "Past Question."
  {
    var store := new Store();
    var past := CreateWithGoodChoice(store, "Past Question.", -5, now);
    detail := Detail(store.questions, past.id, now);
  }

  // ---------------------------------------------------------------------
  // Vote tests
  // ---------------------------------------------------------------------

  method TestSuccessVote(now: Time) returns (r: HelperVoteOutcome, votes: nat)
    ensures r == Returned(true) && votes == 1
  {
    var store := new Store();
    var question := CreateWithGoodChoice(store, "Current Question.", -1, now);
    var choice := Choice(1, 1, GoodChoiceText, 0);
    OneChoiceVotedOnce(choice);
    r := HelperVote(store, LocalIp, question);
    votes := TotalVotes(store.choices, question.id);
  }

  method TestVoteQuestionUserAlreadyVoted(now: Time) returns (r: HelperVoteOutcome, votes: nat)
    ensures r == Returned(false) && votes == 1
  {
    var store := new Store();
    var question := CreateWithGoodChoice(store, "Current Question.", -1, now);
    var choice := Choice(1, 1, GoodChoiceText, 0);
    OneChoiceVotedOnce(choice);
    r := HelperVote(store, LocalIp, question);
    assert store.voters[0].questionId == question.id;
    r := HelperVote(store, LocalIp, question);
    votes := TotalVotes(store.choices, question.id);
  }

  /** The production view counts a second vote from the same IP. */
  method TestViewCountsRepeatedVote(now: Time) returns (first: VoteOutcome, second: VoteOutcome, votes: nat)
    ensures first == Voted && second == Voted && votes == 2
  {
    var store := new Store();
    var question := CreateWithGoodChoice(store, "Current Question.", -1, now);
    assert store.questions[0] == question;
    var choice := Choice(1, 1, GoodChoiceText, 0);
    OneChoiceVotedOnce(choice);
    first := Vote(store, 1, Some(1), Some(LocalIp));
    OneChoiceVotedOnce(choice.(votes := 1));
    second := Vote(store, 1, Some(1), Some(LocalIp));
    votes := TotalVotes(store.choices, question.id);
  }

  /** A question with the single choice `c`: one vote for it, found by key. */
  lemma OneChoiceVotedOnce(c: Choice)
    ensures ChoiceIndex([c], c.questionId, c.id) == Some(0)
    ensures AddVote([c], 0) == [c.(votes := c.votes + 1)]
    ensures TotalVotes([c.(votes := c.votes + 1)], c.questionId) == c.votes + 1
  {
    assert [c.(votes := c.votes + 1)][..0] == [];
  }

  // ---------------------------------------------------------------------
  // Question creation through the view, and the helper's choice texts
  // ---------------------------------------------------------------------

  lemma {:induction false} NoFilledFormNoTexts(forms: seq<ChoiceForm>)
    requires forall i :: 0 <= i < |forms| ==> !Filled(forms[i])
    ensures FilledTexts(forms) == []
  {
    if forms != [] {
      NoFilledFormNoTexts(forms[1..]);
    }
  }

  /**
   * A creation request whose ten choice forms are all empty leaves no
   * question behind: the index lists nothing and the detail page is a 404.
   */
  method TestPollNewWithEmptyChoicesRollsBack(now: Time) returns (msg: string, listing: IndexOutcome, detail: Option<Question>)
    ensures msg == MsgSaved && listing == Listed([]) && detail == None
  {
    var store := new Store();
    var forms := seq(FormsetSize, _ => ChoiceForm(true, Some("")));
    NoFilledFormNoTexts(forms);
    assert !MissingKey(forms);
    msg := PollNew(store, true, true, "Empty question.", forms, Some(LocalIp), now);
    listing := Index(store.questions, store.voters, Some(LocalIp), now);
    detail := Detail(store.questions, 1, now);
  }

  /** The helper as written gives two texts a single, merged choice. */
  method TestCreateAsWrittenMergesTexts(now: Time) returns (choiceCount: nat, text: string)
    ensures choiceCount == 1 && text == "['yes', 'no']"
  {
    var store := new Store();
    var created := CreateQuestionAsWritten(store, ["yes", "no"], "Agree?", -1, now);
    choiceCount := |store.choices|;
    text := store.choices[0].text;
    assert ["yes", "no"][1..] == ["no"];
  }

  /** The corrected helper gives each text its own choice. */
  method TestCreateGivesEachTextAChoice(now: Time) returns (texts: seq<string>)
    ensures texts == ["yes", "no"]
  {
    var store := new Store();
    var created := CreateQuestion(store, ["yes", "no"], "Agree?", -1, now);
    var choices := store.choices;
    texts := seq(|choices|, i requires 0 <= i < |choices| => choices[i].text);
  }
}
