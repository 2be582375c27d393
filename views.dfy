/**
 * The write side of the poll views: casting a vote and creating a
 * question with its choices. Both change the store in place.
 */
module PollViews {
  import opened Wrappers
  import opened PollModels
  import opened PollQueries

  // ---------------------------------------------------------------------
  // Voting
  // ---------------------------------------------------------------------

  /**
   * Where choice `choiceId` of question `questionId` sits in the choice
   * table (`question.choice_set.get(pk=choiceId)`), if it exists.
   */
  function ChoiceIndex(choices: seq<Choice>, questionId: nat, choiceId: nat): (k: Option<nat>)
    ensures k.Some? ==> k.value < |choices| && choices[k.value].id == choiceId && choices[k.value].questionId == questionId
    ensures k.None? <==> forall c :: c in choices ==> !(c.id == choiceId && c.questionId == questionId)
  {
    if choices == [] then None
    else
      var last := choices[|choices| - 1];
      if last.id == choiceId && last.questionId == questionId then Some(|choices| - 1)
      else
        assert choices == choices[..|choices| - 1] + [last];
        ChoiceIndex(choices[..|choices| - 1], questionId, choiceId)
  }

  /** The choice table after one more vote for the choice at `k`. */
  function AddVote(choices: seq<Choice>, k: nat): seq<Choice>
    requires k < |choices|
  {
    choices[k := choices[k].(votes := choices[k].votes + 1)]
  }

  /** The votes cast on question `questionId`, over all of its choices. */
  function TotalVotes(choices: seq<Choice>, questionId: nat): nat {
    if choices == [] then 0
    else
      var last := choices[|choices| - 1];
      TotalVotes(choices[..|choices| - 1], questionId) + (if last.questionId == questionId then last.votes else 0)
  }

  /**
   * One more vote for the choice at `k` raises its question's total by
   * one and leaves every other question's total as it was.
   */
  lemma {:induction false} AddVoteCountsOnce(choices: seq<Choice>, k: nat, questionId: nat)
    requires k < |choices|
    ensures TotalVotes(AddVote(choices, k), questionId)
         == TotalVotes(choices, questionId) + (if choices[k].questionId == questionId then 1 else 0)
  {
    var n := |choices|;
    var after := AddVote(choices, k);
    if k == n - 1 {
      assert after[..n - 1] == choices[..n - 1];
    } else {
      assert after[..n - 1] == AddVote(choices[..n - 1], k);
      AddVoteCountsOnce(choices[..n - 1], k, questionId);
    }
  }

  datatype VoteOutcome =
    | QuestionNotFound   // the 404 from `get_object_or_404`
    | NoChoiceSelected   // detail page again, "You didn't select a choice."
    | Voted              // redirect to the results page

  /**
   * The `vote` view: a vote for the posted choice of question
   * `questionId`, from `ip` when the client IP is known. The view does not
   * look for an earlier vote from the same IP.
   */
  method Vote(store: Store, questionId: nat, posted: Option<nat>, ip: Option<Ip>) returns (r: VoteOutcome)
    requires store.Valid()
    modifies store
    ensures store.Valid()
    ensures store.questions == old(store.questions)
    ensures store.nextQuestionId == old(store.nextQuestionId) && store.nextChoiceId == old(store.nextChoiceId)
    ensures r == QuestionNotFound <==> !HasQuestion(old(store.questions), questionId)
    ensures r == NoChoiceSelected <==>
      HasQuestion(old(store.questions), questionId) &&
      (posted.None? || ChoiceIndex(old(store.choices), questionId, posted.value).None?)
    ensures r != Voted ==> store.choices == old(store.choices) && store.voters == old(store.voters)
    ensures r == Voted ==>
      var k := ChoiceIndex(old(store.choices), questionId, posted.value).value;
      && store.choices == AddVote(old(store.choices), k)
      && store.voters == old(store.voters) + (if ip.Some? then [Voter(questionId, ip.value)] else [])
    ensures r == Voted ==> TotalVotes(store.choices, questionId) == TotalVotes(old(store.choices), questionId) + 1
  {
    var question := Lookup(store.questions, questionId);
    if question.None? {
      return QuestionNotFound;
    }
    assert HasQuestion(store.questions, questionId) by {
      assert question.value in store.questions;
    }
    if posted.None? {
      return NoChoiceSelected;
    }
    var k := ChoiceIndex(store.choices, questionId, posted.value);
    if k.None? {
      return NoChoiceSelected;
    }
    AddVoteCountsOnce(store.choices, k.value, questionId);
    AddVoteKeepsWellFormed(store.questions, store.choices, store.voters, store.nextQuestionId, store.nextChoiceId,
                           k.value, if ip.Some? then [Voter(questionId, ip.value)] else []);
    store.choices := AddVote(store.choices, k.value);
    if ip.Some? {
      store.voters := store.voters + [Voter(questionId, ip.value)];
    }
    r := Voted;
  }

  /** A vote, and the voter records it adds for stored questions, keep the store invariant. */
  lemma AddVoteKeepsWellFormed(questions: seq<Question>, choices: seq<Choice>, voters: seq<Voter>,
                               nextQuestionId: nat, nextChoiceId: nat, k: nat, added: seq<Voter>)
    requires WellFormed(questions, choices, voters, nextQuestionId, nextChoiceId)
    requires k < |choices|
    requires forall v :: v in added ==> HasQuestion(questions, v.questionId)
    ensures WellFormed(questions, AddVote(choices, k), voters + added, nextQuestionId, nextChoiceId)
  {
    var after := AddVote(choices, k);
    forall c | c in after ensures 0 < c.id < nextChoiceId && HasQuestion(questions, c.questionId) {
      var j :| 0 <= j < |after| && after[j] == c;
      assert choices[j] in choices;
    }
  }

  /**
   * Once a vote from `ip` on question `questionId` is recorded, that
   * question is gone from the index listing `ip` sees.
   */
  lemma VotedQuestionLeavesIndex(questions: seq<Question>, voters: seq<Voter>, questionId: nat, ip: Ip, now: Time)
    ensures var shown := Index(questions, voters + [Voter(questionId, ip)], Some(ip), now).questions;
      forall q :: q in shown ==> q.id != questionId
  {
    IndexShowsOnlyListable(questions, voters + [Voter(questionId, ip)], ip, now);
  }

  // ---------------------------------------------------------------------
  // Question creation
  // ---------------------------------------------------------------------

  /** The creation page's formset holds this many choice forms (`extra=10`). */
  const FormsetSize: nat := 10

  const MsgSaved := "Question successfully saved"
  const MsgIpNotTracked := "IP is not tracked"
  const MsgNotSaved := "Question not saved"

  /**
   * One posted choice form: whether it validates, and the raw value of its
   * `form-<i>-choice_text` key, `None` when the key is missing.
   */
  datatype ChoiceForm = ChoiceForm(valid: bool, text: Option<string>)

  /** A form that gets a choice: it validates and its text is non-empty. */
  predicate Filled(f: ChoiceForm) {
    f.valid && f.text.Some? && f.text.value != ""
  }

  /** The texts of the filled forms, in form order. */
  function FilledTexts(forms: seq<ChoiceForm>): seq<string> {
    if forms == [] then []
    else (if Filled(forms[0]) then [forms[0].text.value] else []) + FilledTexts(forms[1..])
  }

  /** Some form validates but its text key is missing from the request. */
  predicate MissingKey(forms: seq<ChoiceForm>) {
    exists i :: 0 <= i < |forms| && forms[i].valid && forms[i].text.None?
  }

  /**
   * Where the walk over the forms stands: the texts saved so far, and
   * whether a missing text key has ended it.
   */
  datatype FormWalk = FormWalk(saved: seq<string>, keyError: bool)

  /** The walk over `forms`, one form at a time, as the creation loop does it. */
  function Walk(forms: seq<ChoiceForm>): FormWalk {
    if forms == [] then FormWalk([], false)
    else
      var w := Walk(forms[..|forms| - 1]);
      var f := forms[|forms| - 1];
      if w.keyError || !f.valid then w
      else if f.text.None? then FormWalk(w.saved, true)
      else if f.text.value == "" then w
      else FormWalk(w.saved + [f.text.value], false)
  }

  lemma {:induction false} FilledTextsAppend(forms: seq<ChoiceForm>, f: ChoiceForm)
    ensures FilledTexts(forms + [f]) == FilledTexts(forms) + (if Filled(f) then [f.text.value] else [])
  {
    if forms != [] {
      assert (forms + [f])[1..] == forms[1..] + [f];
      FilledTextsAppend(forms[1..], f);
    }
  }

  /** Once the walk has hit a missing key, later forms change nothing. */
  lemma {:induction false} WalkStopsAtKeyError(a: seq<ChoiceForm>, b: seq<ChoiceForm>)
    requires Walk(a).keyError
    ensures Walk(a + b) == Walk(a)
  {
    if b == [] {
      assert a + b == a;
    } else {
      var front := b[..|b| - 1];
      assert (a + b)[..|a + b| - 1] == a + front;
      WalkStopsAtKeyError(a, front);
    }
  }

  /**
   * The walk stops on a missing key exactly when some form has one, and
   * otherwise saves the text of every filled form, each once, in order.
   */
  lemma {:induction false} WalkSavesFilledForms(forms: seq<ChoiceForm>)
    ensures Walk(forms).keyError <==> MissingKey(forms)
    ensures !Walk(forms).keyError ==> Walk(forms).saved == FilledTexts(forms)
  {
    if forms != [] {
      var n := |forms|;
      var front := forms[..n - 1];
      var f := forms[n - 1];
      assert forms == front + [f];
      WalkSavesFilledForms(front);
      FilledTextsAppend(front, f);
      if MissingKey(front) {
        var i :| 0 <= i < n - 1 && front[i].valid && front[i].text.None?;
        assert forms[i] == front[i];
      }
      if !MissingKey(front) {
        forall i | 0 <= i < n - 1 ensures !(forms[i].valid && forms[i].text.None?) {
          assert forms[i] == front[i];
        }
      }
    }
  }

  /**
   * The walk ends at the first valid form whose text key is missing,
   * having saved the texts of the filled forms before it, in order.
   */
  lemma WalkSavesUpToFirstMissingKey(forms: seq<ChoiceForm>, j: nat)
    requires j < |forms| && forms[j].valid && forms[j].text.None?
    requires forall i :: 0 <= i < j ==> !(forms[i].valid && forms[i].text.None?)
    ensures Walk(forms).keyError
    ensures Walk(forms).saved == FilledTexts(forms[..j])
  {
    var before := forms[..j];
    forall i | 0 <= i < |before| ensures !(before[i].valid && before[i].text.None?) {
      assert before[i] == forms[i];
    }
    WalkSavesFilledForms(before);
    WalkNext(forms, j);
    WalkStopsAtKeyError(forms[..j + 1], forms[j + 1..]);
  }

  /** `Question.objects.get(pk=id).delete()`: the question table without `id`. */
  function DeleteQuestion(questions: seq<Question>, id: nat): (r: seq<Question>)
    ensures forall q :: q in r <==> q in questions && q.id != id
  {
    if questions == [] then []
    else
      var n := |questions|;
      assert questions == questions[..n - 1] + [questions[n - 1]];
      DeleteQuestion(questions[..n - 1], id) + (if questions[n - 1].id == id then [] else [questions[n - 1]])
  }

  /** Deleting a question just added under a fresh key restores the table. */
  lemma {:induction false} DeleteFreshQuestion(questions: seq<Question>, q: Question)
    requires forall p :: p in questions ==> p.id != q.id
    ensures DeleteQuestion(questions + [q], q.id) == questions
  {
    assert (questions + [q])[..|questions|] == questions;
    DeleteUntouched(questions, q.id);
  }

  lemma {:induction false} DeleteUntouched(questions: seq<Question>, id: nat)
    requires forall p :: p in questions ==> p.id != id
    ensures DeleteQuestion(questions, id) == questions
  {
    if questions != [] {
      var n := |questions|;
      assert questions == questions[..n - 1] + [questions[n - 1]];
      DeleteUntouched(questions[..n - 1], id);
    }
  }

  /**
   * The `poll_new` view on a request: `isPost` and `questionFormValid`
   * say whether it is a POST whose question form validates; `forms` are
   * the posted choice forms; `ip` is the client IP, if known. Returns the
   * message shown on the page.
   */
  method PollNew(store: Store, isPost: bool, questionFormValid: bool, questionText: string,
                 forms: seq<ChoiceForm>, ip: Option<Ip>, now: Time) returns (msg: string)
    requires store.Valid()
    modifies store
    ensures store.Valid()
    ensures store.voters == old(store.voters)
    ensures !(isPost && questionFormValid) || ip.None? ==>
      && msg == (if isPost && questionFormValid then MsgIpNotTracked else "")
      && store.questions == old(store.questions) && store.choices == old(store.choices)
      && store.nextQuestionId == old(store.nextQuestionId) && store.nextChoiceId == old(store.nextChoiceId)
    ensures isPost && questionFormValid && ip.Some? ==>
      var qid := old(store.nextQuestionId);
      var created := Question(qid, questionText, now, ip.value);
      && store.nextQuestionId == qid + 1
      && store.nextChoiceId == old(store.nextChoiceId) + |Walk(forms).saved|
      && (!MissingKey(forms) ==>
            && msg == MsgSaved
            && store.choices == old(store.choices) + NewChoices(FilledTexts(forms), qid, old(store.nextChoiceId))
            && store.questions == if FilledTexts(forms) == [] then old(store.questions) else old(store.questions) + [created])
      && (MissingKey(forms) ==>
            && msg == MsgNotSaved
            && store.choices == old(store.choices) + NewChoices(Walk(forms).saved, qid, old(store.nextChoiceId))
            && store.questions == old(store.questions) + [created])
  {
    msg := "";
    if !(isPost && questionFormValid) {
      return;
    }
    if ip.None? {
      msg := MsgIpNotTracked;
      return;
    }
    var created := SaveQuestion(store, questionText, now, ip.value);
    var keyError, flag := SaveChoiceForms(store, created, forms);
    WalkSavesFilledForms(forms);
    if keyError {
      msg := MsgNotSaved;
      return;
    }
    if flag == 0 {
      assert store.choices == old(store.choices);
      DeleteSavedQuestion(store, created, old(store.questions));
    }
    msg := MsgSaved;
  }

  /**
   * `question.delete()` for the question just saved, when no choice was
   * saved for it: the question table is as it was before the save.
   */
  method DeleteSavedQuestion(store: Store, created: Question, ghost before: seq<Question>)
    requires store.questions == before + [created]
    requires forall p :: p in before ==> p.id != created.id
    requires WellFormed(before, store.choices, store.voters, store.nextQuestionId, store.nextChoiceId)
    modifies store
    ensures store.Valid()
    ensures store.questions == before
    ensures store.choices == old(store.choices) && store.voters == old(store.voters)
    ensures store.nextQuestionId == old(store.nextQuestionId) && store.nextChoiceId == old(store.nextChoiceId)
  {
    DeleteFreshQuestion(before, created);
    store.questions := DeleteQuestion(store.questions, created.id);
  }

  /**
   * The loop of `poll_new` over the choice forms: each valid form with a
   * non-empty text becomes a choice of `created`; a valid form whose text
   * key is missing stops the loop with a key error. `flag` becomes 1 once
   * a choice is saved.
   */
  method SaveChoiceForms(store: Store, created: Question, forms: seq<ChoiceForm>) returns (keyError: bool, flag: int)
    requires store.Valid()
    requires created in store.questions
    modifies store
    ensures store.Valid()
    ensures store.questions == old(store.questions) && store.voters == old(store.voters)
    ensures store.nextQuestionId == old(store.nextQuestionId)
    ensures keyError == Walk(forms).keyError
    ensures flag == (if Walk(forms).saved == [] then 0 else 1)
    ensures store.choices == old(store.choices) + NewChoices(Walk(forms).saved, created.id, old(store.nextChoiceId))
    ensures store.nextChoiceId == old(store.nextChoiceId) + |Walk(forms).saved|
  {
    var i := 0;
    flag := 0;
    while i < |forms|
      invariant 0 <= i <= |forms|
      invariant store.questions == old(store.questions) && store.nextQuestionId == old(store.nextQuestionId)
      invariant store.voters == old(store.voters)
      invariant store.Valid()
      invariant !Walk(forms[..i]).keyError
      invariant flag == (if Walk(forms[..i]).saved == [] then 0 else 1)
      invariant store.choices == old(store.choices) + NewChoices(Walk(forms[..i]).saved, created.id, old(store.nextChoiceId))
      invariant store.nextChoiceId == old(store.nextChoiceId) + |Walk(forms[..i]).saved|
    {
      var form := forms[i];
      WalkNext(forms, i);
      if form.valid {
        if form.text.None? {
          WalkStopsAtKeyError(forms[..i + 1], forms[i + 1..]);
          return true, flag;
        }
        if form.text.value != "" {
          NewChoicesAppend(Walk(forms[..i]).saved, form.text.value, created.id, old(store.nextChoiceId));
          SaveChoice(store, created, form.text.value);
          flag := 1;
        }
      }
      i := i + 1;
    }
    assert forms[..i] == forms;
    keyError := false;
  }

  /** `question.save()` for a new question, under the next key. */
  method SaveQuestion(store: Store, text: string, pubDate: Time, ip: Ip) returns (q: Question)
    requires store.Valid()
    modifies store
    ensures store.Valid()
    ensures q == Question(old(store.nextQuestionId), text, pubDate, ip)
    ensures forall p :: p in old(store.questions) ==> p.id != q.id
    ensures store.questions == old(store.questions) + [q] && store.nextQuestionId == q.id + 1
    ensures store.choices == old(store.choices) && store.voters == old(store.voters)
    ensures store.nextChoiceId == old(store.nextChoiceId)
    ensures WellFormed(old(store.questions), store.choices, store.voters, store.nextQuestionId, store.nextChoiceId)
  {
    q := Question(store.nextQuestionId, text, pubDate, ip);
    AddQuestionKeepsWellFormed(store.questions, store.choices, store.voters, store.nextQuestionId, store.nextChoiceId, q);
    store.questions := store.questions + [q];
    store.nextQuestionId := store.nextQuestionId + 1;
  }

  /** `choice.save()` for a new choice of the stored question `owner`. */
  method SaveChoice(store: Store, owner: Question, text: string)
    requires store.Valid()
    requires owner in store.questions
    modifies store
    ensures store.Valid()
    ensures store.questions == old(store.questions) && store.voters == old(store.voters)
    ensures store.nextQuestionId == old(store.nextQuestionId)
    ensures store.choices == old(store.choices) + [Choice(old(store.nextChoiceId), owner.id, text, 0)]
    ensures store.nextChoiceId == old(store.nextChoiceId) + 1
  {
    var choice := Choice(store.nextChoiceId, owner.id, text, 0);
    AddChoiceKeepsWellFormed(store.questions, store.choices, store.voters, store.nextQuestionId, owner, choice);
    store.choices := store.choices + [choice];
    store.nextChoiceId := store.nextChoiceId + 1;
  }

  /** The walk over one more form, unfolded. */
  lemma WalkNext(forms: seq<ChoiceForm>, i: nat)
    requires i < |forms|
    ensures var w := Walk(forms[..i]);
      Walk(forms[..i + 1]) ==
        if w.keyError || !forms[i].valid then w
        else if forms[i].text.None? then FormWalk(w.saved, true)
        else if forms[i].text.value == "" then w
        else FormWalk(w.saved + [forms[i].text.value], false)
    ensures forms[..i + 1] + forms[i + 1..] == forms
  {
    assert forms[..i + 1][..i] == forms[..i];
  }

  lemma NewChoicesAppend(texts: seq<string>, text: string, questionId: nat, firstId: nat)
    ensures NewChoices(texts + [text], questionId, firstId)
         == NewChoices(texts, questionId, firstId) + [Choice(firstId + |texts|, questionId, text, 0)]
  {
  }

  lemma AddQuestionKeepsWellFormed(questions: seq<Question>, choices: seq<Choice>, voters: seq<Voter>,
                                   nextQuestionId: nat, nextChoiceId: nat, q: Question)
    requires WellFormed(questions, choices, voters, nextQuestionId, nextChoiceId)
    requires q.id == nextQuestionId
    ensures WellFormed(questions + [q], choices, voters, nextQuestionId + 1, nextChoiceId)
    ensures WellFormed(questions, choices, voters, nextQuestionId + 1, nextChoiceId)
    ensures forall p :: p in questions ==> p.id != q.id
  {
    var qs := questions + [q];
    forall c | c in choices ensures HasQuestion(qs, c.questionId) {
      var p :| p in questions && p.id == c.questionId;
      assert p in qs;
    }
    forall v | v in voters ensures HasQuestion(qs, v.questionId) {
      var p :| p in questions && p.id == v.questionId;
      assert p in qs;
    }
    forall i, j | 0 <= i < j < |qs| ensures qs[i].id != qs[j].id {
      if j < |questions| {
        assert qs[i] == questions[i] && qs[j] == questions[j];
      } else {
        assert qs[i] in questions;
      }
    }
  }

  lemma AddChoiceKeepsWellFormed(questions: seq<Question>, choices: seq<Choice>, voters: seq<Voter>,
                                 nextQuestionId: nat, owner: Question, c: Choice)
    requires WellFormed(questions, choices, voters, nextQuestionId, c.id)
    requires owner in questions && c.questionId == owner.id
    ensures WellFormed(questions, choices + [c], voters, nextQuestionId, c.id + 1)
  {
    var cs := choices + [c];
    forall i, j | 0 <= i < j < |cs| ensures cs[i].id != cs[j].id {
      if j < |choices| {
        assert cs[i] == choices[i] && cs[j] == choices[j];
      } else {
        assert cs[i] in choices;
      }
    }
  }
}
