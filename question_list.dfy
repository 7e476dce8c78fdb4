/** The question list of a Q&A section: answers grouped under their
    questions, the freeze rule (an author may edit or delete a question
    only while it has no answers), the search filter and question
    deletion. */
module Questions {
  import opened Common
  import opened Text
  import opened Lists
  import opened QaRecords
  import opened Answering

  /** The fetched answers of one question, in fetched order. */
  function AnswersFor(answers: seq<Answer>, q: Id): seq<Answer> {
    Filter(answers, (a: Answer) => a.questionId == q)
  }

  /** `g` is the grouping of `answers`: a key for each question with at
      least one answer and no other, holding exactly that question's
      answers in order. */
  ghost predicate Grouping(g: map<Id, seq<Answer>>, answers: seq<Answer>) {
    && (forall k :: k in g <==> AnswersFor(answers, k) != [])
    && (forall k :: k in g ==> g[k] == AnswersFor(answers, k))
  }

  /** The `forEach` in `fetchData` that pushes each answer onto the list
      of its question, creating the list on first use. */
  method GroupAnswers(answers: seq<Answer>) returns (g: map<Id, seq<Answer>>)
    ensures Grouping(g, answers)
  {
    g := map[];
    var i := 0;
    while i < |answers|
      invariant 0 <= i <= |answers|
      invariant Grouping(g, answers[..i])
    {
      var a := answers[i];
      var prev := answers[..i];
      assert answers[..i + 1] == prev + [a];
      forall k ensures AnswersFor(prev + [a], k) == AnswersFor(prev, k) + (if a.questionId == k then [a] else []) {
        FilterAppend(prev, a, (x: Answer) => x.questionId == k);
      }
      if a.questionId !in g {
        g := g[a.questionId := []];
      }
      g := g[a.questionId := g[a.questionId] + [a]];
      i := i + 1;
    }
    assert answers[..i] == answers;
  }

  /** Every answer is placed under its own question id, each group holds
      only answers of its question, and in fetched order. */
  lemma GroupingSpec(g: map<Id, seq<Answer>>, answers: seq<Answer>, k: Id)
    requires Grouping(g, answers)
    ensures forall i :: 0 <= i < |answers| ==> answers[i].questionId in g && answers[i] in g[answers[i].questionId]
    ensures k in g ==> IsSubsequence(g[k], answers) && forall j :: 0 <= j < |g[k]| ==> g[k][j].questionId == k
  {
    forall i | 0 <= i < |answers| ensures answers[i].questionId in g && answers[i] in g[answers[i].questionId] {
      var q := answers[i].questionId;
      FilterMembership(answers, (a: Answer) => a.questionId == q, answers[i]);
    }
    FilterIsSubsequence(answers, (a: Answer) => a.questionId == k);
  }

  /** `canEditDelete`: the signed-in user asked the question and it has no
      answers. */
  predicate CanEditDelete(user: Option<Account>, q: Question, g: map<Id, seq<Answer>>) {
    user.Some? && user.value.id == q.userId && (q.id !in g || |g[q.id]| == 0)
  }

  /** The freeze rule: with the grouping of the fetched answers, a question
      is editable exactly when the user asked it and no fetched answer
      belongs to it. */
  lemma FreezeRule(user: Option<Account>, q: Question, g: map<Id, seq<Answer>>, answers: seq<Answer>)
    requires Grouping(g, answers)
    ensures CanEditDelete(user, q, g) <==>
      user.Some? && user.value.id == q.userId
      && forall i :: 0 <= i < |answers| ==> answers[i].questionId != q.id
  {
    GroupingSpec(g, answers, q.id);
    if forall i :: 0 <= i < |answers| ==> answers[i].questionId != q.id {
      FilterNone(answers, (a: Answer) => a.questionId == q.id);
    }
  }

  /** `filteredQuestions`. */
  function FilteredQuestions(qs: seq<Question>, query: string): seq<Question> {
    Filter(qs, (q: Question) => IncludesIgnoringCase(q.question, query))
  }

  /** The filter keeps, in order, the questions whose text contains the
      query ignoring case; an empty query keeps them all. */
  lemma FilteredQuestionsSpec(qs: seq<Question>, query: string, q: Question)
    ensures IsSubsequence(FilteredQuestions(qs, query), qs)
    ensures q in FilteredQuestions(qs, query) <==> q in qs && IncludesIgnoringCase(q.question, query)
    ensures FilteredQuestions(qs, "") == qs
  {
    FilterIsSubsequence(qs, (q: Question) => IncludesIgnoringCase(q.question, query));
    FilterMembership(qs, (q: Question) => IncludesIgnoringCase(q.question, query), q);
    forall i | 0 <= i < |qs| ensures IncludesIgnoringCase(qs[i].question, "") {
      EmptyQueryIncluded(qs[i].question);
    }
    FilterAll(qs, (q: Question) => IncludesIgnoringCase(q.question, ""));
  }

  /** The badge on an answer. */
  function Badge(a: Answer): (text: string)
    ensures text == "Answer" <==> a.status == Approved
    ensures text != "Answer" ==> text == "Pending"
  {
    if a.status == Approved then "Answer" else "Pending"
  }

  /** The badge over an answer's life: an admin's answer reads "Answer"
      from the moment it is posted and anyone else's reads "Pending"; an
      approval turns any answer into "Answer"; a rejected answer still
      appears under its question, labelled "Pending". */
  lemma BadgeLifecycle(questionId: Id, user: Account, text: string, role: Option<Role>, now: Timestamp,
                       id: Id, a: Answer, later: Timestamp)
    ensures Badge(InsertedAnswer(id, AnswerRow(questionId, user, text, role, now))) == "Answer"
      <==> role == Some(Admin)
    ensures Badge(ApplyAnswer(a, ApproveAnswerPatch(later))) == "Answer"
    ensures Badge(ApplyAnswer(a, RejectAnswerPatch())) == "Pending"
  {
    AnswerRowSpec(questionId, user, text, role, now, id);
  }

  /** The answer box is rendered under a question for staff only, the same
      rule by which the box renders itself. */
  predicate ShowsAnswerForm(role: Option<Role>) {
    role == Some(Admin) || role == Some(Contributor)
  }

  lemma AnswerFormGates(role: Option<Role>)
    ensures ShowsAnswerForm(role) <==> CanAnswer(role)
    ensures ShowsAnswerForm(role) <==> role.Some? && role.value != User
  {
  }

  class QuestionList {
    var questions: seq<Question>
    var answers: map<Id, seq<Answer>>
    var deletingQuestionId: Option<Id>
    var searchQuery: string

    constructor ()
      ensures questions == [] && answers == map[] && deletingQuestionId == None && searchQuery == ""
    {
      questions := [];
      answers := map[];
      deletingQuestionId := None;
      searchQuery := "";
    }

    /** The questions as rendered. */
    function Shown(): seq<Question>
      reads this
    {
      FilteredQuestions(questions, searchQuery)
    }

    /** `fetchData` with the outcomes of its two queries: a failed question
        query changes nothing; otherwise the questions are replaced, and
        when there are some and the answer query succeeds the answers are
        regrouped. Otherwise the previous grouping stays. */
    method Fetched(questionsOk: bool, qs: seq<Question>, answersOk: bool, fetched: seq<Answer>)
      modifies this`questions, this`answers
      ensures questions == if questionsOk then qs else old(questions)
      ensures questionsOk && |qs| > 0 && answersOk ==> Grouping(answers, fetched)
      ensures !(questionsOk && |qs| > 0 && answersOk) ==> answers == old(answers)
    {
      if !questionsOk {
        return;
      }
      questions := qs;
      if |qs| > 0 && answersOk {
        answers := GroupAnswers(fetched);
      }
    }

    /** The delete button of a question marks it as the deletion target. */
    method AskDelete(q: Question)
      modifies this`deletingQuestionId
      ensures deletingQuestionId == Some(q.id)
    {
      deletingQuestionId := Some(q.id);
    }

    /** `handleDeleteQuestion` up to the delete: the delete is sent for a
        truthy target, and nothing is sent when the target is null or
        empty. */
    method BeginDelete() returns (req: Option<Id>)
      ensures req.Some? <==> Truthy(deletingQuestionId)
      ensures req.Some? ==> req == deletingQuestionId
    {
      if Truthy(deletingQuestionId) {
        req := deletingQuestionId;
      } else {
        req := None;
      }
    }

    /** The rest of `handleDeleteQuestion`: the data is fetched again on
        success and the target is cleared whatever the outcome. */
    method FinishDelete(ok: bool) returns (refetch: bool)
      modifies this`deletingQuestionId
      ensures refetch == ok && deletingQuestionId == None
    {
      refetch := ok;
      deletingQuestionId := None;
    }
  }
}
