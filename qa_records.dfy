/** The question-and-answer tables: questions asked about one content type,
    and answers that go through the same pending/approved/rejected
    moderation as content, with an approval time. */
module QaRecords {
  import opened Common

  /** A `questions` row. */
  datatype Question = Question(id: Id, userId: Id, contentType: ContentType, question: string)

  /** An `answers` row. */
  datatype Answer = Answer(id: Id, questionId: Id, answeredBy: Id, answer: string,
                           status: Status, approvedAt: Option<Timestamp>)

  /** The columns of a new `answers` row; the database adds the id. */
  datatype NewAnswer = NewAnswer(questionId: Id, answeredBy: Id, answer: string,
                                 status: Status, approvedAt: Option<Timestamp>)

  /** The row the database stores for an insert. */
  function InsertedAnswer(id: Id, n: NewAnswer): (r: Answer)
    ensures r.id == id && r.questionId == n.questionId && r.answeredBy == n.answeredBy
    ensures r.answer == n.answer && r.status == n.status && r.approvedAt == n.approvedAt
  {
    Answer(id, n.questionId, n.answeredBy, n.answer, n.status, n.approvedAt)
  }

  /** An update of `answers`: the status is always written, the approval
      time only when present. */
  datatype AnswerPatch = AnswerPatch(status: Status, approvedAt: Option<Timestamp>)

  function ApplyAnswer(a: Answer, p: AnswerPatch): (r: Answer)
    ensures r.id == a.id && r.questionId == a.questionId
    ensures r.answeredBy == a.answeredBy && r.answer == a.answer
    ensures r.status == p.status
    ensures r.approvedAt == if p.approvedAt.Some? then p.approvedAt else a.approvedAt
  {
    a.(status := p.status, approvedAt := if p.approvedAt.Some? then p.approvedAt else a.approvedAt)
  }

  /** Every approved answer carries the time it was approved. */
  predicate AnswerConsistent(a: Answer) {
    a.status == Approved ==> a.approvedAt.Some?
  }

  /** The approval an admin sends for a pending answer. */
  function ApproveAnswerPatch(now: Timestamp): AnswerPatch {
    AnswerPatch(Approved, Some(now))
  }

  /** The rejection: only the status is written. */
  function RejectAnswerPatch(): AnswerPatch {
    AnswerPatch(Rejected, None)
  }

  /** Approving stamps the answer with the approval time; rejecting leaves
      the approval time as it was; both keep every approved answer
      stamped. */
  lemma AnswerModerationEffect(a: Answer, now: Timestamp)
    ensures var r := ApplyAnswer(a, ApproveAnswerPatch(now));
      r.status == Approved && r.approvedAt == Some(now) && AnswerConsistent(r)
    ensures var r := ApplyAnswer(a, RejectAnswerPatch());
      r.status == Rejected && r.approvedAt == a.approvedAt && AnswerConsistent(r)
  {
  }
}
