/**
 * The poll store: questions, their choices with vote counters, and the
 * voter records (the application's `User` model, one row per vote cast
 * from a known IP). The relational database behind the Django ORM becomes
 * one object holding three tables as sequences, in insertion order, and
 * the two auto-increment counters that hand out primary keys.
 */
module PollModels {
  import opened Wrappers

  /** A client IP address, as the IP-resolution library reports it. */
  type Ip = string

  /** An instant, in whole seconds. */
  type Time = int

  /** One day, in seconds. */
  const Day: int := 86400

  datatype Question = Question(id: nat, text: string, pubDate: Time, ip: Ip)

  datatype Choice = Choice(id: nat, questionId: nat, text: string, votes: nat)

  /** Evidence that `ip` has voted on question `questionId`. */
  datatype Voter = Voter(questionId: nat, ip: Ip)

  /**
   * A question is recent when it was published within the last day and
   * not in the future.
   */
  predicate WasPublishedRecently(q: Question, now: Time) {
    now - Day <= q.pubDate <= now
  }

  /** The three cases the model tests check, at their boundaries. */
  lemma WasPublishedRecentlyCases(text: string, now: Time)
    ensures !WasPublishedRecently(Question(1, text, now + 30 * Day, ""), now)
    ensures !WasPublishedRecently(Question(1, text, now - (Day + 1), ""), now)
    ensures WasPublishedRecently(Question(1, text, now - (Day - 1), ""), now)
  {
  }

  predicate HasQuestion(questions: seq<Question>, id: nat) {
    exists q :: q in questions && q.id == id
  }

  /**
   * The invariant the store keeps: primary keys are unique and below the
   * next key to hand out, and every choice and every voter record refers
   * to a stored question.
   */
  predicate WellFormed(questions: seq<Question>, choices: seq<Choice>, voters: seq<Voter>,
                       nextQuestionId: nat, nextChoiceId: nat)
  {
    1 <= nextQuestionId && 1 <= nextChoiceId &&
    (forall i, j :: 0 <= i < j < |questions| ==> questions[i].id != questions[j].id) &&
    (forall q :: q in questions ==> 0 < q.id < nextQuestionId) &&
    (forall i, j :: 0 <= i < j < |choices| ==> choices[i].id != choices[j].id) &&
    (forall c :: c in choices ==> 0 < c.id < nextChoiceId && HasQuestion(questions, c.questionId)) &&
    (forall v :: v in voters ==> HasQuestion(questions, v.questionId))
  }

  /**
   * The choices created for `texts`, in order, under question `questionId`,
   * with consecutive keys from `firstId` and no votes.
   */
  function NewChoices(texts: seq<string>, questionId: nat, firstId: nat): (r: seq<Choice>)
    ensures |r| == |texts|
    ensures forall k :: 0 <= k < |r| ==> r[k] == Choice(firstId + k, questionId, texts[k], 0)
  {
    seq(|texts|, k requires 0 <= k < |texts| => Choice(firstId + k, questionId, texts[k], 0))
  }

  class Store {
    var questions: seq<Question>
    var choices: seq<Choice>
    var voters: seq<Voter>
    var nextQuestionId: nat
    var nextChoiceId: nat

    ghost predicate Valid()
      reads this
    {
      WellFormed(questions, choices, voters, nextQuestionId, nextChoiceId)
    }

    /** An empty database; keys start at 1. */
    constructor ()
      ensures Valid()
      ensures questions == [] && choices == [] && voters == []
      ensures nextQuestionId == 1 && nextChoiceId == 1
    {
      questions, choices, voters := [], [], [];
      nextQuestionId, nextChoiceId := 1, 1;
    }
  }
}
