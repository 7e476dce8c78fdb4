/** The dialog in which an author rewrites a question that has no answers
    yet. */
module QuestionEdit {
  import opened Common
  import opened Text

  /** The update the dialog sends: only the question text, for one id. */
  datatype QuestionUpdate = QuestionUpdate(id: Id, question: string)

  class QuestionEditDialog {
    const questionId: Id
    var question: string
    var isSubmitting: bool
    /** The visibility the parent controls through `onOpenChange`. */
    var open: bool
    /** How many times `onQuestionUpdated` has fired. */
    var updated: nat

    /** The dialog opened on a question, with its current text. */
    constructor (questionId: Id, currentQuestion: string)
      ensures this.questionId == questionId && question == currentQuestion
      ensures open && !isSubmitting && updated == 0
    {
      this.questionId := questionId;
      question := currentQuestion;
      isSubmitting := false;
      open := true;
      updated := 0;
    }

    /** Save is enabled. */
    predicate SaveEnabled()
      reads this
    {
      !isSubmitting && !IsBlank(question)
    }

    /** `handleSubmit` up to the update: a blank text sends nothing (and
        Save is disabled then); otherwise the trimmed text is written for
        the dialog's question. */
    method BeginSubmit() returns (req: Option<QuestionUpdate>)
      modifies this`isSubmitting
      ensures IsBlank(question) ==> req == None && isSubmitting == old(isSubmitting) && !SaveEnabled()
      ensures !IsBlank(question) ==>
        req == Some(QuestionUpdate(questionId, Trim(question))) && isSubmitting
        && req.value.question != "" && IsTrimmed(req.value.question)
    {
      if IsBlank(question) {
        return None;
      }
      TrimIsSlice(question);
      isSubmitting := true;
      req := Some(QuestionUpdate(questionId, Trim(question)));
    }

    /** The rest of `handleSubmit`: on success the list is refreshed and
        the dialog closes; on failure it stays open; `isSubmitting` is
        cleared either way. */
    method FinishSubmit(ok: bool)
      modifies this`isSubmitting, this`open, this`updated
      ensures ok ==> !open && updated == old(updated) + 1
      ensures !ok ==> open == old(open) && updated == old(updated)
      ensures !isSubmitting
    {
      if ok {
        updated := updated + 1;
        open := false;
      }
      isSubmitting := false;
    }
  }
}
