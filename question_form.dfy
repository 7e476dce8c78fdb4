/** The box under a content section in which a signed-in visitor asks a
    question. */
module Asking {
  import opened Common
  import opened Text

  /** The columns of a new `questions` row. */
  datatype NewQuestion = NewQuestion(userId: Id, contentType: ContentType, question: string)

  /** The row `handleSubmit` inserts. */
  function QuestionRow(user: Account, contentType: ContentType, text: string): NewQuestion {
    NewQuestion(user.id, contentType, Trim(text))
  }

  /** The row carries the asker, the section's type and the trimmed text,
      which is empty only for blank input. */
  lemma QuestionRowSpec(user: Account, contentType: ContentType, text: string)
    ensures var r := QuestionRow(user, contentType, text);
      && r.userId == user.id && r.contentType == contentType
      && IsTrimmed(r.question) && |r.question| <= |text|
      && (r.question == "" <==> IsBlank(text))
  {
    TrimIsSlice(text);
  }

  /** Without a user the login prompt replaces the form. */
  predicate ShowsLoginPrompt(user: Option<Account>) {
    user.None?
  }

  class QuestionForm {
    const contentType: ContentType
    var question: string
    var isSubmitting: bool
    /** How many times `onQuestionAdded` has fired. */
    var added: nat

    constructor (contentType: ContentType)
      ensures this.contentType == contentType
      ensures question == "" && !isSubmitting && added == 0
    {
      this.contentType := contentType;
      question := "";
      isSubmitting := false;
      added := 0;
    }

    /** The submit button is enabled. */
    predicate SubmitEnabled()
      reads this
    {
      !isSubmitting && !IsBlank(question)
    }

    /** `handleSubmit` up to the insert: with no user or a blank question
        nothing is sent and nothing changes. */
    method BeginSubmit(user: Option<Account>) returns (row: Option<NewQuestion>)
      modifies this`isSubmitting
      ensures user.None? || IsBlank(question) ==> row == None && isSubmitting == old(isSubmitting)
      ensures user.Some? && !IsBlank(question) ==>
        row == Some(QuestionRow(user.value, contentType, question)) && isSubmitting
    {
      if user.None? || IsBlank(question) {
        return None;
      }
      isSubmitting := true;
      row := Some(QuestionRow(user.value, contentType, question));
    }

    /** The rest of `handleSubmit`: on success the text is cleared and the
        callback fires; on failure the text is kept. */
    method FinishSubmit(ok: bool)
      modifies this`question, this`isSubmitting, this`added
      ensures ok ==> question == "" && added == old(added) + 1
      ensures !ok ==> question == old(question) && added == old(added)
      ensures !isSubmitting
    {
      if ok {
        question := "";
        added := added + 1;
      }
      isSubmitting := false;
    }
  }
}
