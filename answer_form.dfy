/** The answer box under each question: shown to staff only; an admin's
    answer is published at once, a contributor's waits for review. */
module Answering {
  import opened Common
  import opened Text
  import opened QaRecords

  /** `canAnswer`: the role is admin or contributor. */
  predicate CanAnswer(role: Option<Role>) {
    role == Some(Admin) || role == Some(Contributor)
  }

  /** The row `handleSubmit` inserts for `text` typed by `user`. */
  function AnswerRow(questionId: Id, user: Account, text: string, role: Option<Role>, now: Timestamp): NewAnswer {
    var isAdmin := role == Some(Admin);
    NewAnswer(questionId, user.id, Trim(text),
              if isAdmin then Approved else Pending,
              if isAdmin then Some(now) else None)
  }

  /** An admin's answer is stored approved and stamped with the time; any
      other author's is pending with no approval time; the text is the
      trimmed input, empty only for blank input; the new row satisfies the
      approval-time invariant. */
  lemma AnswerRowSpec(questionId: Id, user: Account, text: string, role: Option<Role>, now: Timestamp, id: Id)
    ensures var r := AnswerRow(questionId, user, text, role, now);
      && r.questionId == questionId && r.answeredBy == user.id
      && (role == Some(Admin) ==> r.status == Approved && r.approvedAt == Some(now))
      && (role != Some(Admin) ==> r.status == Pending && r.approvedAt == None)
      && IsTrimmed(r.answer) && (r.answer == "" <==> IsBlank(text))
      && AnswerConsistent(InsertedAnswer(id, r))
  {
    TrimIsSlice(text);
  }

  class AnswerForm {
    const questionId: Id
    var answer: string
    var isSubmitting: bool
    /** How many times `onAnswerAdded` has fired. */
    var added: nat

    constructor (questionId: Id)
      ensures this.questionId == questionId
      ensures answer == "" && !isSubmitting && added == 0
    {
      this.questionId := questionId;
      answer := "";
      isSubmitting := false;
      added := 0;
    }

    /** The submit button is enabled. */
    predicate SubmitEnabled()
      reads this
    {
      !isSubmitting && !IsBlank(answer)
    }

    /** `handleSubmit` up to the insert: with no user or a blank answer
        nothing is sent and nothing changes; otherwise the row is sent and
        `isSubmitting` is set. */
    method BeginSubmit(user: Option<Account>, role: Option<Role>, now: Timestamp) returns (row: Option<NewAnswer>)
      modifies this`isSubmitting
      ensures user.None? || IsBlank(answer) ==> row == None && isSubmitting == old(isSubmitting)
      ensures user.Some? && !IsBlank(answer) ==>
        row == Some(AnswerRow(questionId, user.value, answer, role, now)) && isSubmitting
    {
      if user.None? || IsBlank(answer) {
        return None;
      }
      isSubmitting := true;
      row := Some(AnswerRow(questionId, user.value, answer, role, now));
    }

    /** The rest of `handleSubmit`: on success the box is emptied and the
        callback fires; on failure the text is kept; `isSubmitting` is
        cleared either way. */
    method FinishSubmit(ok: bool)
      modifies this`answer, this`isSubmitting, this`added
      ensures ok ==> answer == "" && added == old(added) + 1
      ensures !ok ==> answer == old(answer) && added == old(added)
      ensures !isSubmitting
    {
      if ok {
        answer := "";
        added := added + 1;
      }
      isSubmitting := false;
    }
  }
}
