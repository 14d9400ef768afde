/**
 * The question-and-answer service of a listing: buyers ask, the property's
 * owner answers and publishes, and what a viewer is shown depends on who the
 * viewer is. A question's status follows the answer operations: answering
 * sets `answered`, publishing an answer sets `published`, and deleting the
 * last answer resets it to `pending`.
 */
module QA {
  import opened Wrappers
  import opened Schema
  import opened Tables
  import opened Text
  import opened Requests

  // ----- Validation -----

  const MaxQuestionLength: int := 1000
  const MaxAnswerLength: int := 2000

  /**
   * The shape both validators share: a blank text, then a text over the
   * limit, then a reference id that is zero or negative, each pushing its
   * message in that order.
   */
  function FieldErrors(text: string, limit: int, reference: int, required: string, tooLong: string, badReference: string): seq<string> {
    (if text == "" || Trim(text) == "" then [required] else [])
    + (if |text| > limit then [tooLong] else [])
    + (if reference <= 0 then [badReference] else [])
  }

  /**
   * The list is empty exactly when the text is not blank, fits the limit and
   * the reference is positive; otherwise each failing check contributes its
   * message once, in the fixed order.
   */
  lemma FieldErrorsSpec(text: string, limit: int, reference: int, required: string, tooLong: string, badReference: string)
    ensures var e := FieldErrors(text, limit, reference, required, tooLong, badReference);
      && (e == [] <==> !IsBlank(text) && |text| <= limit && reference > 0)
      && |e| == (if IsBlank(text) then 1 else 0) + (if |text| > limit then 1 else 0) + (if reference <= 0 then 1 else 0)
      && (IsBlank(text) ==> e[0] == required)
      && (|text| > limit ==> e[if IsBlank(text) then 1 else 0] == tooLong)
      && (reference <= 0 ==> e[|e| - 1] == badReference)
  {
    TrimSpec(text);
  }

  /** `validateQuestionData`. */
  function ValidateQuestionData(question: string, propertyId: int): (errors: seq<string>)
    ensures errors == [] <==> !IsBlank(question) && |question| <= MaxQuestionLength && propertyId > 0
  {
    FieldErrorsSpec(question, MaxQuestionLength, propertyId, "Question is required", "Question must be less than 1000 characters", "Valid property ID is required");
    FieldErrors(question, MaxQuestionLength, propertyId,
      "Question is required", "Question must be less than 1000 characters", "Valid property ID is required")
  }

  /** `validateAnswerData`. */
  function ValidateAnswerData(answer: string, questionId: int): (errors: seq<string>)
    ensures errors == [] <==> !IsBlank(answer) && |answer| <= MaxAnswerLength && questionId > 0
  {
    FieldErrorsSpec(answer, MaxAnswerLength, questionId, "Answer is required", "Answer must be less than 2000 characters", "Valid question ID is required");
    FieldErrors(answer, MaxAnswerLength, questionId,
      "Answer is required", "Answer must be less than 2000 characters", "Valid question ID is required")
  }

  /** The limits are inclusive: 1000 (2000) characters pass, one more fails with the length message alone. */
  lemma LengthLimitsInclusive(q: string, extra: char)
    requires !IsBlank(q)
    ensures |q| == MaxQuestionLength ==> ValidateQuestionData(q, 1) == []
    ensures |q| == MaxQuestionLength ==> ValidateQuestionData(q + [extra], 1) == ["Question must be less than 1000 characters"]
    ensures |q| == MaxAnswerLength ==> ValidateAnswerData(q, 1) == []
    ensures |q| == MaxAnswerLength ==> ValidateAnswerData(q + [extra], 1) == ["Answer must be less than 2000 characters"]
  {
    assert !IsBlank(q + [extra]) by {
      var i :| 0 <= i < |q| && !IsJsWhitespace(q[i]);
      assert (q + [extra])[i] == q[i];
    }
    FieldErrorsSpec(q + [extra], MaxQuestionLength, 1, "Question is required", "Question must be less than 1000 characters", "Valid property ID is required");
    FieldErrorsSpec(q + [extra], MaxAnswerLength, 1, "Answer is required", "Answer must be less than 2000 characters", "Valid question ID is required");
  }

  // ----- Reading questions -----

  /** A question with its answers, as the listing queries return it. */
  datatype QuestionThread = QuestionThread(question: Question, answers: seq<Answer>)

  /** The answers of a question, newest first. */
  function AnswersOf(answers: map<int, Answer>, questionId: int): (r: seq<Answer>)
    ensures forall a :: a in r <==> a in answers.Values && a.questionId == questionId
    ensures forall i, j :: 0 <= i < j < |r| ==> r[i].createdAt >= r[j].createdAt
    ensures forall a :: multiset(r)[a] == if a.questionId == questionId then Copies(answers, a) else 0
  {
    var ofQuestion := (a: Answer) => a.questionId == questionId;
    var rows := Filter(Rows(answers), ofQuestion);
    var r := SortByInt(rows, (a: Answer) => -a.createdAt);
    SameMembers(r, rows);
    SelectPermutation(answers, ofQuestion, r);
    r
  }

  /** The property's questions, newest first. */
  function QuestionsOf(questions: map<int, Question>, propertyId: int): (r: seq<Question>)
    ensures forall q :: q in r <==> q in questions.Values && q.propertyId == propertyId
    ensures forall i, j :: 0 <= i < j < |r| ==> -r[i].createdAt <= -r[j].createdAt
    ensures forall q :: multiset(r)[q] == if q.propertyId == propertyId then Copies(questions, q) else 0
  {
    var ofProperty := (q: Question) => q.propertyId == propertyId;
    var rows := Filter(Rows(questions), ofProperty);
    var r := SortByInt(rows, (q: Question) => -q.createdAt);
    SameMembers(r, rows);
    SelectPermutation(questions, ofProperty, r);
    r
  }

  function Threads(qs: seq<Question>, answers: map<int, Answer>): (r: seq<QuestionThread>)
    ensures |r| == |qs|
    ensures forall i :: 0 <= i < |qs| ==> r[i] == QuestionThread(qs[i], AnswersOf(answers, qs[i].id))
  {
    seq(|qs|, i requires 0 <= i < |qs| => QuestionThread(qs[i], AnswersOf(answers, qs[i].id)))
  }

  /** Who is looking: nobody signed in, the property's owner or an admin, or another signed-in user. */
  datatype Viewer = Anonymous | Privileged | Member(id: UserId)

  /**
   * The viewer of `getPropertyQuestions`: a session without a user id counts as nobody signed in,
   * the role defaults to buyer, and owning means the property exists and is the viewer's.
   */
  function ViewerOf(session: Option<User>, properties: map<int, Property>, propertyId: int): (v: Viewer)
    ensures v == Anonymous <==> !SignedIn(session)
    ensures v == Privileged <==>
      (SignedIn(session) &&
       ((propertyId in properties && properties[propertyId].ownerId == session.value.id) || session.value.role == Some(Admin)))
    ensures v.Member? ==> SignedIn(session) && v.id == session.value.id
  {
    if !SignedIn(session) then Anonymous
    else
      var isOwner := propertyId in properties && properties[propertyId].ownerId == session.value.id;
      var isAdmin := session.value.role.GetOr(Buyer) == Admin;
      if isOwner || isAdmin then Privileged else Member(session.value.id)
  }

  predicate HasPublishedAnswer(answers: map<int, Answer>, questionId: int) {
    exists a :: a in answers.Values && a.questionId == questionId && a.isPublished
  }

  /** A published question with at least one published answer is public. */
  predicate IsPublic(q: Question, answers: map<int, Answer>) {
    q.status == Published && HasPublishedAnswer(answers, q.id)
  }

  predicate VisibleTo(q: Question, answers: map<int, Answer>, viewer: Viewer) {
    match viewer
    case Anonymous => IsPublic(q, answers)
    case Privileged => true
    case Member(id) => IsPublic(q, answers) || q.askedBy == id
  }

  /** The property's questions the viewer may see, newest first. */
  function VisibleQuestions(questions: map<int, Question>, answers: map<int, Answer>, propertyId: int, viewer: Viewer): (r: seq<Question>)
    ensures forall q :: q in r <==> q in questions.Values && q.propertyId == propertyId && VisibleTo(q, answers, viewer)
    ensures forall i, j :: 0 <= i < j < |r| ==> r[i].createdAt >= r[j].createdAt
    ensures forall q :: multiset(r)[q] == if q.propertyId == propertyId && VisibleTo(q, answers, viewer) then Copies(questions, q) else 0
  {
    var all := QuestionsOf(questions, propertyId);
    var shown := (q: Question) => VisibleTo(q, answers, viewer);
    FilterSorted(all, shown, (q: Question) => -q.createdAt);
    FilterKeepsCopies(questions, all, (q: Question) => q.propertyId == propertyId, shown);
    Filter(all, shown)
  }

  /** `getPropertyQuestions`: the visible questions, each with all of its answers. */
  function PropertyQuestions(questions: map<int, Question>, answers: map<int, Answer>, propertyId: int, viewer: Viewer): seq<QuestionThread>
  {
    Threads(VisibleQuestions(questions, answers, propertyId, viewer), answers)
  }

  /** A thread list holds a thread for exactly the listed questions, in their order. */
  lemma ThreadsOf(qs: seq<Question>, answers: map<int, Answer>)
    ensures var r := Threads(qs, answers);
      && (forall t :: t in r ==> t.answers == AnswersOf(answers, t.question.id))
      && (forall q :: (exists t :: t in r && t.question == q) <==> q in qs)
      && (forall i, j :: 0 <= i < j < |r| ==> r[i].question == qs[i] && r[j].question == qs[j])
  {
    var r := Threads(qs, answers);
    forall q | q in qs ensures exists t :: t in r && t.question == q {
      var i :| 0 <= i < |qs| && qs[i] == q;
      assert r[i] in r;
    }
  }

  /**
   * The threads shown are exactly the property's questions the viewer may
   * see, newest first: anonymous viewers only public ones, the owner and
   * admins all, other users the public ones and their own. Each thread
   * carries every answer of its question.
   */
  lemma PropertyQuestionsSpec(questions: map<int, Question>, answers: map<int, Answer>, propertyId: int, viewer: Viewer)
    ensures var r := PropertyQuestions(questions, answers, propertyId, viewer);
      && (forall t :: t in r ==> t.answers == AnswersOf(answers, t.question.id))
      && (forall q :: (exists t :: t in r && t.question == q) <==>
            q in questions.Values && q.propertyId == propertyId && VisibleTo(q, answers, viewer))
      && (forall i, j :: 0 <= i < j < |r| ==> r[i].question.createdAt >= r[j].question.createdAt)
  {
    ThreadsOf(VisibleQuestions(questions, answers, propertyId, viewer), answers);
  }

  /** What an anonymous viewer sees a signed-in user sees too, and what a signed-in user sees the owner sees. */
  lemma VisibilityWidens(q: Question, answers: map<int, Answer>, id: UserId)
    ensures VisibleTo(q, answers, Anonymous) ==> VisibleTo(q, answers, Member(id))
    ensures VisibleTo(q, answers, Member(id)) ==> VisibleTo(q, answers, Privileged)
    ensures VisibleTo(q, answers, Member(q.askedBy))
  {
  }

  /** An anonymous viewer of a public question is also shown its unpublished answers: the thread is not filtered. */
  lemma AnonymousSeesUnpublishedAnswers(questions: map<int, Question>, answers: map<int, Answer>, propertyId: int, q: Question, a: Answer)
    requires q in questions.Values && q.propertyId == propertyId && IsPublic(q, answers)
    requires a in answers.Values && a.questionId == q.id && !a.isPublished
    ensures exists t :: t in PropertyQuestions(questions, answers, propertyId, Anonymous) && t.question == q && a in t.answers
  {
    PropertyQuestionsSpec(questions, answers, propertyId, Anonymous);
  }

  // ----- The tables after each write -----

  /** The two tables the service writes. */
  datatype Store = Store(questions: map<int, Question>, answers: map<int, Answer>)

  /** Every answer belongs to a stored question, and every row sits under its own id. */
  ghost predicate Consistent(t: Store) {
    && (forall k :: k in t.answers ==> t.answers[k].questionId in t.questions && t.answers[k].id == k)
    && (forall k :: k in t.questions ==> t.questions[k].id == k)
  }

  function WithStatus(q: Question, status: QuestionStatus, now: int): Question {
    q.(status := status, updatedAt := now)
  }

  /** `createAnswer`'s writes: the unpublished answer, then the question marked answered. */
  function AnswerAdded(t: Store, a: Answer, now: int): Store
    requires a.questionId in t.questions
  {
    Store(t.questions[a.questionId := WithStatus(t.questions[a.questionId], Answered, now)], t.answers[a.id := a])
  }

  /** `updateAnswerPublication`'s writes: the flag, and when publishing, the question marked published. */
  function PublicationSet(t: Store, answerId: int, isPublished: bool, now: int): Store
    requires answerId in t.answers && t.answers[answerId].questionId in t.questions
  {
    var a := t.answers[answerId];
    var answers := t.answers[answerId := a.(isPublished := isPublished, updatedAt := now)];
    if isPublished then Store(t.questions[a.questionId := WithStatus(t.questions[a.questionId], Published, now)], answers)
    else Store(t.questions, answers)
  }

  /** `deleteQuestion`'s write: the question goes, and the foreign key's cascade takes its answers along. */
  function QuestionDeleted(t: Store, questionId: int): Store {
    Store(t.questions - {questionId}, map k | k in t.answers && t.answers[k].questionId != questionId :: t.answers[k])
  }

  /** `deleteAnswer`'s writes: the answer goes, and a question left without answers is reset to pending. */
  function AnswerDeleted(t: Store, answerId: int, now: int): Store
    requires answerId in t.answers && t.answers[answerId].questionId in t.questions
  {
    var qid := t.answers[answerId].questionId;
    var answers := t.answers - {answerId};
    if forall k :: k in answers ==> answers[k].questionId != qid then
      Store(t.questions[qid := WithStatus(t.questions[qid], Pending, now)], answers)
    else Store(t.questions, answers)
  }

  /** Answering keeps the tables consistent and leaves the question answered, whatever its status was. */
  lemma AnswerAddedSpec(t: Store, a: Answer, now: int)
    requires Consistent(t) && a.questionId in t.questions && a.id !in t.answers
    ensures var t' := AnswerAdded(t, a, now);
      && Consistent(t')
      && t'.questions[a.questionId].status == Answered
      && t'.questions.Keys == t.questions.Keys
  {
  }

  /** Publishing an answer publishes its question; withdrawing one leaves the question's status alone. */
  lemma PublicationSetSpec(t: Store, answerId: int, isPublished: bool, now: int)
    requires Consistent(t) && answerId in t.answers
    ensures t.answers[answerId].questionId in t.questions
    ensures var t' := PublicationSet(t, answerId, isPublished, now);
      var qid := t.answers[answerId].questionId;
      && Consistent(t')
      && (isPublished ==> t'.questions[qid].status == Published && HasPublishedAnswer(t'.answers, qid) && IsPublic(t'.questions[qid], t'.answers))
      && (!isPublished ==> t'.questions == t.questions)
  {
    var t' := PublicationSet(t, answerId, isPublished, now);
    if isPublished {
      assert t'.answers[answerId] in t'.answers.Values;
    }
  }

  /** Deleting a question removes exactly it and its answers; every other answer stays and still has its question. */
  lemma QuestionDeletedSpec(t: Store, questionId: int)
    requires Consistent(t)
    ensures var t' := QuestionDeleted(t, questionId);
      && Consistent(t')
      && questionId !in t'.questions
      && (forall k :: k in t'.answers <==> k in t.answers && t.answers[k].questionId != questionId)
      && (forall k :: k in t'.answers ==> t'.answers[k] == t.answers[k])
  {
  }

  /** After deleting an answer the question is pending exactly when none of its answers remains; otherwise its status is kept. */
  lemma AnswerDeletedSpec(t: Store, answerId: int, now: int)
    requires Consistent(t) && answerId in t.answers
    ensures t.answers[answerId].questionId in t.questions
    ensures var t' := AnswerDeleted(t, answerId, now);
      var qid := t.answers[answerId].questionId;
      && Consistent(t')
      && t'.answers.Keys == t.answers.Keys - {answerId}
      && ((forall k :: k in t'.answers ==> t'.answers[k].questionId != qid) ==> t'.questions[qid].status == Pending)
      && ((exists k :: k in t'.answers && t'.answers[k].questionId == qid) ==> t'.questions == t.questions)
  {
  }

  // ----- The service -----

  /** The owner of a question's property, when the property row is there. */
  function OwnerOf(properties: map<int, Property>, q: Question): Option<UserId> {
    if q.propertyId in properties then Some(properties[q.propertyId].ownerId) else None
  }

  class QAService {
    /** The `property_questions` table by primary key. */
    var questions: map<int, Question>
    /** The `property_answers` table by primary key. */
    var answers: map<int, Answer>
    var nextQuestionId: int
    var nextAnswerId: int

    ghost predicate Valid()
      reads this
    {
      && Consistent(Store(questions, answers))
      && nextQuestionId > 0 && nextAnswerId > 0
      && (forall k :: k in questions ==> k < nextQuestionId)
      && (forall k :: k in answers ==> k < nextAnswerId)
    }

    constructor()
      ensures Valid() && questions == map[] && answers == map[]
    {
      questions := map[];
      answers := map[];
      nextQuestionId := 1;
      nextAnswerId := 1;
    }

    /**
     * `createQuestion`: needs a signed-in user and valid data (the messages
     * joined with ", "); stores the trimmed text as a pending question asked
     * by the session user.
     */
    method CreateQuestion(propertyId: int, question: string, session: Option<User>, now: int) returns (r: Result<Question, string>)
      requires Valid()
      modifies this
      ensures Valid() && answers == old(answers)
      ensures session.None? ==> r == Failure("Unauthorized")
      ensures session.Some? && ValidateQuestionData(question, propertyId) != [] ==>
        r == Failure(Join(ValidateQuestionData(question, propertyId), ", "))
      ensures r.Failure? ==> questions == old(questions)
      ensures r.Success? <==> session.Some? && ValidateQuestionData(question, propertyId) == []
      ensures r.Success? ==>
        && r.value == Question(old(nextQuestionId), propertyId, session.value.id, Trim(question), Pending, now, now)
        && questions == old(questions)[old(nextQuestionId) := r.value]
    {
      if session.None? {
        return Failure("Unauthorized");
      }
      var errors := ValidateQuestionData(question, propertyId);
      if |errors| > 0 {
        return Failure(Join(errors, ", "));
      }
      var q := Question(nextQuestionId, propertyId, session.value.id, Trim(question), Pending, now, now);
      questions := questions[nextQuestionId := q];
      nextQuestionId := nextQuestionId + 1;
      r := Success(q);
    }

    /** `getPropertyQuestions`. */
    method GetPropertyQuestions(propertyId: int, session: Option<User>, properties: map<int, Property>) returns (r: seq<QuestionThread>)
      ensures r == PropertyQuestions(questions, answers, propertyId, ViewerOf(session, properties, propertyId))
      ensures !SignedIn(session) ==> r == PropertyQuestions(questions, answers, propertyId, Anonymous)
    {
      r := PropertyQuestions(questions, answers, propertyId, ViewerOf(session, properties, propertyId));
    }

    /** `getOwnerQuestions`: only the property's owner gets its threads, all of them, newest first. */
    method GetOwnerQuestions(propertyId: int, session: Option<User>, properties: map<int, Property>) returns (r: Result<seq<QuestionThread>, string>)
      ensures session.None? ==> r == Failure("Unauthorized")
      ensures session.Some? && (propertyId !in properties || properties[propertyId].ownerId != session.value.id) ==>
        r == Failure("Forbidden: You can only view questions for your own properties")
      ensures r.Success? ==> r.value == Threads(QuestionsOf(questions, propertyId), answers)
      ensures r.Success? <==> session.Some? && propertyId in properties && properties[propertyId].ownerId == session.value.id
    {
      if session.None? {
        return Failure("Unauthorized");
      }
      if propertyId !in properties || properties[propertyId].ownerId != session.value.id {
        return Failure("Forbidden: You can only view questions for your own properties");
      }
      r := Success(Threads(QuestionsOf(questions, propertyId), answers));
    }

    /** `createAnswer`: the property's owner answers; the answer starts unpublished and the question becomes answered. */
    method CreateAnswer(questionId: int, answer: string, session: Option<User>, properties: map<int, Property>, now: int) returns (r: Result<Answer, string>)
      requires Valid()
      modifies this
      ensures Valid()
      ensures session.None? ==> r == Failure("Unauthorized")
      ensures session.Some? && ValidateAnswerData(answer, questionId) != [] ==>
        r == Failure(Join(ValidateAnswerData(answer, questionId), ", "))
      ensures session.Some? && ValidateAnswerData(answer, questionId) == [] && questionId !in old(questions) ==>
        r == Failure("Question not found")
      ensures r.Success? <==>
        session.Some? && ValidateAnswerData(answer, questionId) == [] && questionId in old(questions) &&
        OwnerOf(properties, old(questions)[questionId]) == Some(session.value.id)
      ensures r.Failure? ==> questions == old(questions) && answers == old(answers)
      ensures r.Success? ==>
        && r.value == Answer(old(nextAnswerId), questionId, session.value.id, Trim(answer), false, now, now)
        && Store(questions, answers) == AnswerAdded(old(Store(questions, answers)), r.value, now)
    {
      if session.None? {
        return Failure("Unauthorized");
      }
      var errors := ValidateAnswerData(answer, questionId);
      if |errors| > 0 {
        return Failure(Join(errors, ", "));
      }
      if questionId !in questions {
        return Failure("Question not found");
      }
      if OwnerOf(properties, questions[questionId]) != Some(session.value.id) {
        return Failure("Forbidden: Only property owners can answer questions");
      }
      var a := Answer(nextAnswerId, questionId, session.value.id, Trim(answer), false, now, now);
      AnswerAddedSpec(Store(questions, answers), a, now);
      answers := answers[nextAnswerId := a];
      questions := questions[questionId := WithStatus(questions[questionId], Answered, now)];
      nextAnswerId := nextAnswerId + 1;
      r := Success(a);
    }

    /** `updateQuestionStatus`: the property's owner sets any status. */
    method UpdateQuestionStatus(questionId: int, status: QuestionStatus, session: Option<User>, properties: map<int, Property>, now: int) returns (r: Result<Question, string>)
      requires Valid()
      modifies this
      ensures Valid() && answers == old(answers)
      ensures session.None? ==> r == Failure("Unauthorized")
      ensures session.Some? && questionId !in old(questions) ==> r == Failure("Question not found")
      ensures r.Success? <==> session.Some? && questionId in old(questions) && OwnerOf(properties, old(questions)[questionId]) == Some(session.value.id)
      ensures r.Failure? ==> questions == old(questions)
      ensures r.Success? ==> r.value == WithStatus(old(questions)[questionId], status, now) && questions == old(questions)[questionId := r.value]
    {
      if session.None? {
        return Failure("Unauthorized");
      }
      if questionId !in questions {
        return Failure("Question not found");
      }
      if OwnerOf(properties, questions[questionId]) != Some(session.value.id) {
        return Failure("Forbidden: Only property owners can update question status");
      }
      var q := WithStatus(questions[questionId], status, now);
      questions := questions[questionId := q];
      r := Success(q);
    }

    /** `updateAnswerPublication`: the property's owner sets the flag; publishing also publishes the question. */
    method UpdateAnswerPublication(answerId: int, isPublished: bool, session: Option<User>, properties: map<int, Property>, now: int) returns (r: Result<Answer, string>)
      requires Valid()
      modifies this
      ensures Valid()
      ensures session.None? ==> r == Failure("Unauthorized")
      ensures session.Some? && answerId !in old(answers) ==> r == Failure("Answer not found")
      ensures r.Success? <==>
        session.Some? && answerId in old(answers) &&
        OwnerOf(properties, old(questions)[old(answers)[answerId].questionId]) == Some(session.value.id)
      ensures r.Failure? ==> questions == old(questions) && answers == old(answers)
      ensures r.Success? ==>
        && r.value == old(answers)[answerId].(isPublished := isPublished, updatedAt := now)
        && Store(questions, answers) == PublicationSet(old(Store(questions, answers)), answerId, isPublished, now)
    {
      if session.None? {
        return Failure("Unauthorized");
      }
      if answerId !in answers {
        return Failure("Answer not found");
      }
      var a := answers[answerId];
      if OwnerOf(properties, questions[a.questionId]) != Some(session.value.id) {
        return Failure("Forbidden: Only property owners can update answer publication status");
      }
      PublicationSetSpec(Store(questions, answers), answerId, isPublished, now);
      var updated := a.(isPublished := isPublished, updatedAt := now);
      answers := answers[answerId := updated];
      if isPublished {
        questions := questions[a.questionId := WithStatus(questions[a.questionId], Published, now)];
      }
      r := Success(updated);
    }

    /** `deleteQuestion`: only the asker deletes, and the question's answers go with it. */
    method DeleteQuestion(questionId: int, session: Option<User>) returns (r: Result<string, string>)
      requires Valid()
      modifies this
      ensures Valid()
      ensures session.None? ==> r == Failure("Unauthorized")
      ensures session.Some? && questionId !in old(questions) ==> r == Failure("Question not found")
      ensures r.Success? <==> session.Some? && questionId in old(questions) && old(questions)[questionId].askedBy == session.value.id
      ensures r.Failure? ==> questions == old(questions) && answers == old(answers)
      ensures r.Success? ==> Store(questions, answers) == QuestionDeleted(old(Store(questions, answers)), questionId)
    {
      if session.None? {
        return Failure("Unauthorized");
      }
      if questionId !in questions {
        return Failure("Question not found");
      }
      if questions[questionId].askedBy != session.value.id {
        return Failure("Forbidden: You can only delete your own questions");
      }
      QuestionDeletedSpec(Store(questions, answers), questionId);
      var t := QuestionDeleted(Store(questions, answers), questionId);
      questions := t.questions;
      answers := t.answers;
      r := Success("Question deleted successfully");
    }

    /** `deleteAnswer`: the property's owner deletes; a question left without answers goes back to pending. */
    method DeleteAnswer(answerId: int, session: Option<User>, properties: map<int, Property>, now: int) returns (r: Result<string, string>)
      requires Valid()
      modifies this
      ensures Valid()
      ensures session.None? ==> r == Failure("Unauthorized")
      ensures session.Some? && answerId !in old(answers) ==> r == Failure("Answer not found")
      ensures r.Success? <==>
        session.Some? && answerId in old(answers) &&
        OwnerOf(properties, old(questions)[old(answers)[answerId].questionId]) == Some(session.value.id)
      ensures r.Failure? ==> questions == old(questions) && answers == old(answers)
      ensures r.Success? ==> Store(questions, answers) == AnswerDeleted(old(Store(questions, answers)), answerId, now)
    {
      if session.None? {
        return Failure("Unauthorized");
      }
      if answerId !in answers {
        return Failure("Answer not found");
      }
      var qid := answers[answerId].questionId;
      if OwnerOf(properties, questions[qid]) != Some(session.value.id) {
        return Failure("Forbidden: Only property owners can delete answers");
      }
      AnswerDeletedSpec(Store(questions, answers), answerId, now);
      var t := AnswerDeleted(Store(questions, answers), answerId, now);
      questions := t.questions;
      answers := t.answers;
      r := Success("Answer deleted successfully");
    }
  }
}
