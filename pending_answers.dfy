/** The admin's queue of pending answers, each shown with the question it
    answers; approving or rejecting one updates it and fetches the queue
    again. */
module PendingAnswers {
  import opened Common
  import opened Lists
  import opened QaRecords

  /** The columns of a question the queue selects. */
  datatype QuestionRef = QuestionRef(id: Id, question: string, contentType: ContentType)

  /** A pending answer with its question, `undefined` when the question was
      not returned. */
  datatype PendingAnswer = PendingAnswer(answer: Answer, question: Option<QuestionRef>)

  /** `data.map(a => a.question_id)`. */
  function QuestionIdsOf(data: seq<Answer>): (r: seq<Id>)
    ensures |r| == |data|
    ensures forall i :: 0 <= i < |data| ==> r[i] == data[i].questionId
  {
    seq(|data|, i requires 0 <= i < |data| => data[i].questionId)
  }

  /** The ids the question query asks for, `[...new Set(ids)]`; no query is
      made when there are no pending answers. */
  function QuestionQuery(data: seq<Answer>): Option<seq<Id>> {
    if |data| == 0 then None else Some(Dedup(QuestionIdsOf(data)))
  }

  /** The query names every answered question exactly once and nothing
      else. */
  lemma QuestionQuerySpec(data: seq<Answer>)
    ensures QuestionQuery(data).None? <==> data == []
    ensures QuestionQuery(data).Some? ==>
      var ids := QuestionQuery(data).value;
      && Distinct(ids)
      && (forall i :: 0 <= i < |data| ==> data[i].questionId in ids)
      && (forall j :: 0 <= j < |ids| ==> exists i :: 0 <= i < |data| && data[i].questionId == ids[j])
  {
    if data != [] {
      var ids := Dedup(QuestionIdsOf(data));
      var all := QuestionIdsOf(data);
      forall j | 0 <= j < |ids| ensures exists i :: 0 <= i < |data| && data[i].questionId == ids[j] {
        var i :| 0 <= i < |all| && all[i] == ids[j];
        assert data[i].questionId == ids[j];
      }
      forall i | 0 <= i < |data| ensures data[i].questionId in ids {
        assert all[i] == data[i].questionId;
      }
    }
  }

  /** `new Map(rows.map(q => [q.id, q]))`: a later row with the same id
      replaces an earlier one. */
  function ById(qs: seq<QuestionRef>): map<Id, QuestionRef>
    decreases |qs|
  {
    if qs == [] then map[]
    else
      var last := qs[|qs| - 1];
      ById(qs[..|qs| - 1])[last.id := last]
  }

  /** The map has a key for every id among the rows and no other; its entry
      is the last row with that id. */
  lemma {:induction false} ByIdSpec(qs: seq<QuestionRef>, k: Id)
    ensures k in ById(qs) <==> exists i :: 0 <= i < |qs| && qs[i].id == k
    ensures k in ById(qs) ==>
      exists i :: 0 <= i < |qs| && qs[i] == ById(qs)[k] && qs[i].id == k
        && forall j :: i < j < |qs| ==> qs[j].id != k
    decreases |qs|
  {
    if qs != [] {
      var init := qs[..|qs| - 1];
      var last := qs[|qs| - 1];
      ByIdSpec(init, k);
      if last.id != k {
        if k in ById(init) {
          var i :| 0 <= i < |init| && init[i] == ById(init)[k] && init[i].id == k
            && forall j :: i < j < |init| ==> init[j].id != k;
          assert qs[i] == init[i];
          assert forall j :: i < j < |qs| ==> qs[j].id != k by {
            forall j | i < j < |qs| ensures qs[j].id != k {
              if j < |init| { assert qs[j] == init[j]; }
            }
          }
        }
        assert (exists i :: 0 <= i < |qs| && qs[i].id == k) ==> exists i :: 0 <= i < |init| && init[i].id == k by {
          if exists i :: 0 <= i < |qs| && qs[i].id == k {
            var i :| 0 <= i < |qs| && qs[i].id == k;
            assert i < |init| && init[i] == qs[i];
          }
        }
        assert (exists i :: 0 <= i < |init| && init[i].id == k) ==> exists i :: 0 <= i < |qs| && qs[i].id == k by {
          if exists i :: 0 <= i < |init| && init[i].id == k {
            var i :| 0 <= i < |init| && init[i].id == k;
            assert qs[i] == init[i];
          }
        }
      }
    }
  }

  /** `questionsMap.get(id)`. */
  function Lookup(m: map<Id, QuestionRef>, k: Id): Option<QuestionRef> {
    if k in m then Some(m[k]) else None
  }

  /** `data.map(answer => ({ ...answer, question: questionsMap.get(...) }))`. */
  function Annotate(data: seq<Answer>, qs: seq<QuestionRef>): (r: seq<PendingAnswer>)
    ensures |r| == |data|
    ensures forall i :: 0 <= i < |data| ==>
      r[i] == PendingAnswer(data[i], Lookup(ById(qs), data[i].questionId))
  {
    var m := ById(qs);
    seq(|data|, i requires 0 <= i < |data| => PendingAnswer(data[i], Lookup(m, data[i].questionId)))
  }

  /** The queue `fetchPendingAnswers` sets: empty without pending answers,
      otherwise the answers joined with the returned questions. */
  function FetchedQueue(data: seq<Answer>, qs: seq<QuestionRef>): seq<PendingAnswer> {
    if |data| > 0 then Annotate(data, qs) else []
  }

  /** The queue has the answers in their fetched order, each with a
      question of its own question id when one was returned and with none
      exactly when none was. */
  lemma FetchedQueueSpec(data: seq<Answer>, qs: seq<QuestionRef>, i: nat)
    requires i < |data|
    ensures var r := FetchedQueue(data, qs);
      && |r| == |data|
      && r[i].answer == data[i]
      && (r[i].question.None? <==> forall j :: 0 <= j < |qs| ==> qs[j].id != data[i].questionId)
      && (r[i].question.Some? ==> r[i].question.value.id == data[i].questionId && r[i].question.value in qs)
  {
    ByIdSpec(qs, data[i].questionId);
  }

  /** No pending answers gives an empty queue and no question query. */
  lemma EmptyQueue(qs: seq<QuestionRef>)
    ensures FetchedQueue([], qs) == [] && QuestionQuery([]) == None
  {
  }

  /** An update of one answer. */
  datatype AnswerUpdate = AnswerUpdate(id: Id, patch: AnswerPatch)

  class PendingAnswersList {
    var answers: seq<PendingAnswer>
    var loading: bool

    constructor ()
      ensures answers == [] && loading
    {
      answers := [];
      loading := true;
    }

    /** The start of `fetchPendingAnswers`: the spinner is shown again. */
    method BeginFetch()
      modifies this`loading
      ensures loading
    {
      loading := true;
    }

    /** The end of `fetchPendingAnswers`; `questions` is what the question
        query returned (empty when it failed, since only its data is
        read). A failed answer query leaves the queue as it was. */
    method FinishFetch(ok: bool, data: seq<Answer>, questions: seq<QuestionRef>)
      modifies this`answers, this`loading
      ensures answers == if ok then FetchedQueue(data, questions) else old(answers)
      ensures !loading
    {
      if ok {
        answers := FetchedQueue(data, questions);
      }
      loading := false;
    }

    /** `handleApprove`: the answer is set approved with the current time,
        and when that succeeded the queue is fetched again, which starts by
        showing the spinner; `FinishFetch` ends that fetch. */
    method Approve(id: Id, now: Timestamp, ok: bool) returns (req: AnswerUpdate, refetch: bool)
      modifies this`loading
      ensures req.id == id && req.patch.status == Approved && req.patch.approvedAt == Some(now)
      ensures refetch == ok
      ensures loading == (ok || old(loading))
    {
      req := AnswerUpdate(id, ApproveAnswerPatch(now));
      refetch := ok;
      if ok {
        BeginFetch();
      }
    }

    /** `handleReject`: only the status is written, then, when that
        succeeded, the queue is fetched again, showing the spinner. */
    method Reject(id: Id, ok: bool) returns (req: AnswerUpdate, refetch: bool)
      modifies this`loading
      ensures req.id == id && req.patch.status == Rejected && req.patch.approvedAt == None
      ensures refetch == ok
      ensures loading == (ok || old(loading))
    {
      req := AnswerUpdate(id, RejectAnswerPatch());
      refetch := ok;
      if ok {
        BeginFetch();
      }
    }
  }
}
