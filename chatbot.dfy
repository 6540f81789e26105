/**
 * The chat dialogue that gathers the participant profile: a fixed script of
 * six questions asked one at a time, each answer validated, recorded and
 * echoed into the transcript before the next question (or the closing
 * message) is posted by a delayed timer.
 *
 * The delayed timers are an explicit queue: `HandleAnswer` schedules one and
 * `Tick` fires the oldest. Every answer schedules the same delay, so timers
 * fire in the order they were scheduled. The typing indicator, which only
 * toggles a presentation flag, is not modelled.
 */
module Chatbot {
  import opened ExperimentTypes
  import opened Validators

  datatype InputKind = EmailInput | TextInput | RadioInput | SelectInput

  datatype Choice = Choice(caption: string, value: string)  // an option's label and value

  datatype Question = Question(id: Field, prompt: string, kind: InputKind, options: seq<Choice>)

  /** The question script, in the order it is asked. */
  const Questions: seq<Question> := [
    Question(Email,
      "First, could you confirm your email address? We'll use this to send you personalized job recommendations.",
      EmailInput, []),
    Question(Name, "Great! And what's your name?", TextInput, []),
    Question(ZipCode, "What's your ZIP code? This helps us find jobs in your area.", TextInput, []),
    Question(Position,
      "What type of position are you looking for? (e.g., Software Engineer, Marketing Manager)",
      TextInput, []),
    Question(WorkPreference, "Do you have a preference for where you work?", RadioInput,
      [Choice("Remote", "Remote"), Choice("Hybrid", "Hybrid"), Choice("In-person", "In-person"),
       Choice("No preference", "No strong preference")]),
    Question(SalaryRange, "Finally, what's your desired salary range?", SelectInput,
      [Choice("Below $50,000", "Below $50,000"), Choice("$50,000 - $75,000", "$50,000 - $75,000"),
       Choice("$75,000 - $100,000", "$75,000 - $100,000"), Choice("$100,000 - $150,000", "$100,000 - $150,000"),
       Choice("$150,000+", "$150,000+"), Choice("I'm flexible", "I'm flexible")])
  ]

  const Greeting: string :=
    "Hi! I’m [Assistant Name], the AI assistant for [Company Name]. I’ll ask you a few quick questions about the kind of roles and employers you’re looking for, which should take about three minutes. Based on your answers, I’ll be able to help identify roles that will be well suited to what you are looking for. Let’s get started. "

  const Closing: string :=
    "Perfect! Now let's show you some job opportunities. I'll present pairs of jobs - just pick the one you prefer!"

  predicate IsTyped(k: InputKind) {
    k == EmailInput || k == TextInput
  }

  function OptionValues(q: Question): seq<string> {
    seq(|q.options|, k requires 0 <= k < |q.options| => q.options[k].value)
  }

  /** Where a field's question stands in the script. */
  function QuestionIndex(f: Field): (i: nat)
    ensures i < |Questions| && Questions[i].id == f
  {
    match f
    case Email => 0
    case Name => 1
    case ZipCode => 2
    case Position => 3
    case WorkPreference => 4
    case SalaryRange => 5
  }

  /** Every question's field sits at that question's index, so the ids in the script are distinct. */
  lemma QuestionIndexOf(i: nat)
    requires i < |Questions|
    ensures QuestionIndex(Questions[i].id) == i
  {
    if i == 0 {} else if i == 1 {} else if i == 2 {} else if i == 3 {} else if i == 4 {} else {}
  }

  /**
   * The script covers every profile field, the choice questions carry exactly
   * the enumeration values and the typed questions carry no options.
   */
  lemma ScriptMatchesProfile()
    ensures (set i | 0 <= i < |Questions| :: Questions[i].id) == AllFields
    ensures forall i :: 0 <= i < |Questions| ==> (Questions[i].options == [] <==> IsTyped(Questions[i].kind))
    ensures OptionValues(Questions[QuestionIndex(WorkPreference)]) == WorkPreferenceValues
    ensures OptionValues(Questions[QuestionIndex(SalaryRange)]) == SalaryRangeValues
  {
    var ids := set i | 0 <= i < |Questions| :: Questions[i].id;
    forall f | f in AllFields ensures f in ids {
      assert Questions[QuestionIndex(f)].id == f;
    }
  }

  /** The fields of the first `n` questions. */
  ghost function FieldsBefore(n: nat): set<Field> {
    set f | f in AllFields && QuestionIndex(f) < n
  }

  datatype Speaker = Bot | User

  datatype Message = Message(speaker: Speaker, content: string)

  /** The transcript shown on mount: the greeting, then the first question. */
  const InitialMessages: seq<Message> := [Message(Bot, Greeting), Message(Bot, Questions[0].prompt)]

  /**
   * A pending delayed step. `Advance(from)` remembers the question index at
   * the time of the answer; `Finish(data)` remembers the profile as updated by
   * the last answer.
   */
  datatype Timer = Advance(from: nat) | Finish(data: Draft)

  /** The timer an accepted answer to question `index` schedules. */
  function ScheduledAfter(index: nat, data: Draft): Timer {
    if index < |Questions| - 1 then Advance(index) else Finish(data)
  }

  datatype DialogueState = DialogueState(
    currentQuestion: nat,
    messages: seq<Message>,
    formData: Draft,
    currentInput: string,
    error: string,
    showInput: bool,
    isComplete: bool,
    completedFormData: Option<Draft>,
    timers: seq<Timer>)

  const InitialState: DialogueState :=
    DialogueState(0, InitialMessages, map[], "", "", true, false, None, [])

  /** The index is inside the script and every pending advance has a next question to post. */
  ghost predicate WellFormed(s: DialogueState) {
    s.currentQuestion < |Questions| &&
    forall k :: 0 <= k < |s.timers| ==> s.timers[k].Advance? ==> s.timers[k].from + 1 < |Questions|
  }

  function CurrentField(s: DialogueState): Field
    requires WellFormed(s)
  {
    Questions[s.currentQuestion].id
  }

  /** The input area is rendered: a question is active, no step is pending and the dialogue is not complete. */
  predicate InputVisible(s: DialogueState) {
    s.currentQuestion < |Questions| && s.showInput && !s.isComplete
  }

  /** Submitting an answer for the current question. */
  function AnswerStep(s: DialogueState, value: string): (r: DialogueState)
    requires WellFormed(s)
    ensures WellFormed(r)
    ensures r.currentQuestion == s.currentQuestion && r.isComplete == s.isComplete
    ensures r.completedFormData == s.completedFormData
    // a rejected answer only shows the message
    ensures Validate(CurrentField(s), value).Some? ==>
      r.error == Validate(CurrentField(s), value).value && r.formData == s.formData &&
      r.messages == s.messages && r.timers == s.timers && r.showInput == s.showInput &&
      r.currentInput == s.currentInput
    // an accepted answer records that field alone and appends one respondent message
    ensures Validate(CurrentField(s), value) == None ==>
      r.error == "" && !r.showInput && r.currentInput == "" &&
      r.formData.Keys == s.formData.Keys + {CurrentField(s)} && r.formData[CurrentField(s)] == value &&
      (forall f :: f in s.formData && f != CurrentField(s) ==> r.formData[f] == s.formData[f]) &&
      |r.messages| == |s.messages| + 1 && r.messages[..|s.messages|] == s.messages &&
      r.messages[|s.messages|] == Message(User, value) &&
      r.timers == s.timers + [ScheduledAfter(s.currentQuestion, r.formData)]
  {
    var question := Questions[s.currentQuestion];
    match Validate(question.id, value)
    case Some(e) => s.(error := e)
    case None =>
      var updated := s.formData[question.id := value];
      s.(error := "", showInput := false, formData := updated, currentInput := "",
         messages := s.messages + [Message(User, value)],
         timers := s.timers + [ScheduledAfter(s.currentQuestion, updated)])
  }

  /** The oldest pending timer fires; with none pending nothing happens. */
  function TickStep(s: DialogueState): (r: DialogueState)
    requires WellFormed(s)
    ensures WellFormed(r)
    ensures s.timers == [] ==> r == s
    ensures s.timers != [] ==> r.timers == s.timers[1..] && r.formData == s.formData && |r.messages| == |s.messages| + 1 && r.messages[..|s.messages|] == s.messages
    ensures s.timers != [] ==> r.error == s.error && r.currentInput == s.currentInput
    // advancing posts the next question and moves to it
    ensures s.timers != [] && s.timers[0].Advance? ==>
      var next := s.timers[0].from + 1;
      r.currentQuestion == next && r.messages[|s.messages|] == Message(Bot, Questions[next].prompt) &&
      r.showInput && r.isComplete == s.isComplete && r.completedFormData == s.completedFormData
    // finishing posts the closing message and exposes the profile; the index stays
    ensures s.timers != [] && s.timers[0].Finish? ==>
      r.currentQuestion == s.currentQuestion && r.messages[|s.messages|] == Message(Bot, Closing) &&
      r.isComplete && r.completedFormData == Some(s.timers[0].data) && r.showInput == s.showInput
  {
    if s.timers == [] then s
    else
      var rest := s.timers[1..];
      assert forall k :: 0 <= k < |rest| ==> rest[k] == s.timers[k + 1];
      match s.timers[0]
      case Advance(from) =>
        s.(timers := rest, messages := s.messages + [Message(Bot, Questions[from + 1].prompt)],
           currentQuestion := from + 1, showInput := true)
      case Finish(data) =>
        s.(timers := rest, messages := s.messages + [Message(Bot, Closing)],
           isComplete := true, completedFormData := Some(data))
  }

  /** Submitting the text box: its trimmed content is answered unless it is blank. */
  function SubmitTextStep(s: DialogueState): (r: DialogueState)
    requires WellFormed(s)
    ensures AllWhitespace(s.currentInput) ==> r == s
    ensures !AllWhitespace(s.currentInput) ==> r == AnswerStep(s, Trim(s.currentInput))
  {
    TrimEmptyIff(s.currentInput);
    var trimmed := Trim(s.currentInput);
    if trimmed != "" then AnswerStep(s, trimmed) else s
  }

  // ---------------------------------------------------------------------------
  // The states reachable through the rendered controls
  // ---------------------------------------------------------------------------

  /** An answer as the controls can produce it: a trimmed, validated text, or one of the question's option values. */
  ghost predicate ControlAnswer(q: Question, v: string) {
    if IsTyped(q.kind) then Validate(q.id, v) == None && Trim(v) == v
    else v in OptionValues(q)
  }

  /** The transcript after the first `n` questions were answered and the next one posted. */
  ghost function Transcript(d: Draft, n: nat): seq<Message>
    requires n < |Questions|
    requires FieldsBefore(n) <= d.Keys
  {
    if n == 0 then InitialMessages
    else
      assert QuestionIndex(Questions[n - 1].id) == n - 1 by { QuestionIndexOf(n - 1); }
      Transcript(d, n - 1) + [Message(User, d[Questions[n - 1].id]), Message(Bot, Questions[n].prompt)]
  }

  /** How many questions have an accepted answer. */
  function Answered(s: DialogueState): nat {
    if s.timers != [] || s.isComplete then s.currentQuestion + 1 else s.currentQuestion
  }

  /** The profile holds answers to exactly the answered questions. */
  ghost predicate ProfileKeys(s: DialogueState) {
    s.formData.Keys == FieldsBefore(Answered(s))
  }

  /** Every recorded answer is one its question's control can produce. */
  ghost predicate AnswersInvariant(d: Draft) {
    forall f :: f in d ==> ControlAnswer(Questions[QuestionIndex(f)], d[f])
  }

  /**
   * At most one step is pending, and it is the one the last answer scheduled;
   * the input is shown exactly when nothing is pending and the dialogue is not
   * complete; a complete dialogue sits on the last question and exposes the profile.
   */
  ghost predicate TimersInvariant(s: DialogueState) {
    |s.timers| <= 1 &&
    s.showInput == (s.timers == [] && !s.isComplete) &&
    (s.timers != [] ==> s.timers[0] == ScheduledAfter(s.currentQuestion, s.formData)) &&
    (s.isComplete ==> s.timers == [] && s.currentQuestion == |Questions| - 1 && s.completedFormData == Some(s.formData)) &&
    (!s.isComplete ==> s.completedFormData == None)
  }

  /** The greeting, each answered question with its answer, and the closing message once complete. */
  ghost function ExpectedTranscript(s: DialogueState): seq<Message>
    requires s.currentQuestion < |Questions| && ProfileKeys(s)
  {
    Transcript(s.formData, s.currentQuestion) +
    (if Answered(s) > s.currentQuestion then [Message(User, s.formData[Questions[s.currentQuestion].id])] else []) +
    (if s.isComplete then [Message(Bot, Closing)] else [])
  }

  /** Index, pending steps, profile keys and transcript agree with one another. */
  ghost predicate Consistent(s: DialogueState) {
    s.currentQuestion < |Questions| && TimersInvariant(s) && ProfileKeys(s) &&
    s.messages == ExpectedTranscript(s)
  }

  /** The invariant of every state the rendered controls can lead to. */
  ghost predicate Reachable(s: DialogueState) {
    Consistent(s) && AnswersInvariant(s.formData)
  }

  lemma ConsistentIsWellFormed(s: DialogueState)
    requires Consistent(s)
    ensures WellFormed(s)
  {
  }

  lemma InitialReachable()
    ensures Reachable(InitialState)
  {
    assert FieldsBefore(0) == {};
  }

  lemma FieldsBeforeNext(n: nat)
    requires n < |Questions|
    ensures FieldsBefore(n + 1) == FieldsBefore(n) + {Questions[n].id}
    ensures Questions[n].id !in FieldsBefore(n)
  {
    QuestionIndexOf(n);
  }

  /** The first `n` answers determine the transcript. */
  lemma {:induction false} TranscriptFrame(d: Draft, d': Draft, n: nat)
    requires n < |Questions|
    requires FieldsBefore(n) <= d.Keys && FieldsBefore(n) <= d'.Keys
    requires forall f :: f in FieldsBefore(n) ==> d[f] == d'[f]
    ensures Transcript(d, n) == Transcript(d', n)
  {
    if n > 0 {
      FieldsBeforeNext(n - 1);
      TranscriptFrame(d, d', n - 1);
    }
  }

  /** Recording an answer to question `i` extends the profile by exactly that field and keeps the earlier transcript. */
  lemma KeysGrow(d: Draft, i: nat, v: string)
    requires i < |Questions| && d.Keys == FieldsBefore(i)
    ensures Questions[i].id !in d
    ensures d[Questions[i].id := v].Keys == FieldsBefore(i + 1)
    ensures Transcript(d[Questions[i].id := v], i) == Transcript(d, i)
  {
    FieldsBeforeNext(i);
    TranscriptFrame(d, d[Questions[i].id := v], i);
  }

  /** Recording an answer a control produced keeps every answer one a control produced. */
  lemma AnswersGrow(d: Draft, i: nat, v: string)
    requires i < |Questions| && AnswersInvariant(d)
    requires ControlAnswer(Questions[i], v)
    ensures AnswersInvariant(d[Questions[i].id := v])
  {
    var d' := d[Questions[i].id := v];
    QuestionIndexOf(i);
    forall g | g in d' ensures ControlAnswer(Questions[QuestionIndex(g)], d'[g]) {
      if g != Questions[i].id {
        assert d'[g] == d[g];
      }
    }
  }

  /** Recording an answer to the current question and scheduling its timer keeps the dialogue consistent. */
  lemma RecordKeepsConsistent(s: DialogueState, value: string)
    requires Consistent(s) && s.timers == [] && !s.isComplete
    ensures
      var d' := s.formData[Questions[s.currentQuestion].id := value];
      Consistent(s.(error := "", showInput := false, formData := d', currentInput := "",
                    messages := s.messages + [Message(User, value)],
                    timers := s.timers + [ScheduledAfter(s.currentQuestion, d')]))
  {
    var i := s.currentQuestion;
    var d' := s.formData[Questions[i].id := value];
    var r := s.(error := "", showInput := false, formData := d', currentInput := "",
                messages := s.messages + [Message(User, value)], timers := s.timers + [ScheduledAfter(i, d')]);
    assert r.timers == [ScheduledAfter(i, d')];
    KeysGrow(s.formData, i, value);
    assert Answered(r) == i + 1;
    assert TimersInvariant(r);
    assert r.messages == ExpectedTranscript(r);
  }

  /** Any answer, accepted or rejected, keeps the dialogue consistent. */
  lemma AnswerKeepsConsistent(s: DialogueState, value: string)
    requires Consistent(s) && InputVisible(s)
    ensures WellFormed(s) && Consistent(AnswerStep(s, value))
  {
    if Validate(Questions[s.currentQuestion].id, value) == None {
      RecordKeepsConsistent(s, value);
    }
  }

  /** Answering through a rendered control keeps the dialogue reachable. */
  lemma AnswerKeepsReachable(s: DialogueState, value: string)
    requires Reachable(s) && InputVisible(s)
    requires ControlAnswer(Questions[s.currentQuestion], value) || Validate(Questions[s.currentQuestion].id, value).Some?
    ensures WellFormed(s) && Reachable(AnswerStep(s, value))
  {
    AnswerKeepsConsistent(s, value);
    var f := Questions[s.currentQuestion].id;
    if Validate(f, value) == None {
      assert ControlAnswer(Questions[s.currentQuestion], value);
      AnswersGrow(s.formData, s.currentQuestion, value);
      assert AnswerStep(s, value).formData == s.formData[f := value];
    } else {
      assert AnswerStep(s, value).formData == s.formData;
    }
  }

  /** Submitting the text box of a typed question keeps the dialogue reachable. */
  lemma SubmitKeepsReachable(s: DialogueState)
    requires Reachable(s) && InputVisible(s) && IsTyped(Questions[s.currentQuestion].kind)
    ensures WellFormed(s) && Reachable(SubmitTextStep(s))
  {
    ConsistentIsWellFormed(s);
    var t := Trim(s.currentInput);
    TrimEmptyIff(s.currentInput);
    if t != "" {
      TrimIdempotent(s.currentInput);
      AnswerKeepsReachable(s, t);
    }
  }

  /** Clicking one of the option buttons of a choice question keeps the dialogue reachable. */
  lemma ChooseKeepsReachable(s: DialogueState, k: nat)
    requires Reachable(s) && InputVisible(s) && !IsTyped(Questions[s.currentQuestion].kind)
    requires k < |Questions[s.currentQuestion].options|
    ensures WellFormed(s) && Reachable(AnswerStep(s, Questions[s.currentQuestion].options[k].value))
  {
    var q := Questions[s.currentQuestion];
    assert OptionValues(q)[k] == q.options[k].value;
    AnswerKeepsReachable(s, q.options[k].value);
  }

  /** A pending advance posts the next question; the dialogue stays consistent. */
  lemma AdvanceKeepsConsistent(s: DialogueState)
    requires Consistent(s) && s.timers != [] && s.timers[0].Advance?
    ensures WellFormed(s) && Consistent(TickStep(s)) && TickStep(s).formData == s.formData
  {
    var i := s.currentQuestion;
    assert i + 1 < |Questions| && Answered(s) == i + 1;
    var r := s.(timers := [], messages := s.messages + [Message(Bot, Questions[i + 1].prompt)],
                currentQuestion := i + 1, showInput := true);
    assert TickStep(s) == r;
    FieldsBeforeNext(i);
    assert Answered(r) == i + 1;
    assert TimersInvariant(r);
    assert r.messages == ExpectedTranscript(r);
  }

  /** A pending finish posts the closing message; the dialogue stays consistent. */
  lemma FinishKeepsConsistent(s: DialogueState)
    requires Consistent(s) && s.timers != [] && s.timers[0].Finish?
    ensures WellFormed(s) && Consistent(TickStep(s)) && TickStep(s).formData == s.formData
  {
    var r := s.(timers := [], messages := s.messages + [Message(Bot, Closing)],
                isComplete := true, completedFormData := Some(s.formData));
    assert TickStep(s) == r;
    assert Answered(r) == s.currentQuestion + 1;
    assert TimersInvariant(r);
    assert r.messages == ExpectedTranscript(r);
  }

  /** A timer firing keeps the dialogue consistent. */
  lemma TickKeepsConsistent(s: DialogueState)
    requires Consistent(s)
    ensures WellFormed(s) && Consistent(TickStep(s)) && TickStep(s).formData == s.formData
  {
    if s.timers != [] {
      if s.timers[0].Advance? {
        AdvanceKeepsConsistent(s);
      } else {
        FinishKeepsConsistent(s);
      }
    }
  }

  /** A timer firing keeps the dialogue reachable. */
  lemma TickKeepsReachable(s: DialogueState)
    requires Reachable(s)
    ensures WellFormed(s) && Reachable(TickStep(s))
  {
    TickKeepsConsistent(s);
  }

  /** The profile is full exactly when the last question has an accepted answer. */
  lemma ProfileFullIff(s: DialogueState)
    requires s.currentQuestion < |Questions| && ProfileKeys(s)
    ensures s.formData.Keys == AllFields <==> Answered(s) == |Questions|
  {
    var n := Answered(s);
    if n < |Questions| {
      QuestionIndexOf(n);
      assert Questions[n].id in AllFields && Questions[n].id !in FieldsBefore(n);
    } else {
      assert FieldsBefore(n) == AllFields;
    }
  }

  /** The profile is full exactly when the last answer was accepted, whether its finish is pending or has fired. */
  lemma FullIffFinishing(s: DialogueState)
    requires s.currentQuestion < |Questions| && TimersInvariant(s) && ProfileKeys(s)
    ensures s.formData.Keys == AllFields <==> (s.isComplete || s.timers == [Finish(s.formData)])
  {
    ProfileFullIff(s);
  }

  /**
   * In a reachable dialogue the whole profile is present exactly when the last
   * answer was accepted; the dialogue is then complete or about to be, and a
   * complete dialogue exposes the whole profile, every answer as its control
   * produced it.
   */
  lemma CompleteIffProfileFull(s: DialogueState)
    requires Reachable(s)
    ensures s.formData.Keys == AllFields <==> (s.isComplete || s.timers == [Finish(s.formData)])
    ensures s.isComplete ==>
      && s.completedFormData == Some(s.formData) && s.formData.Keys == AllFields
      && forall f :: f in AllFields ==> ControlAnswer(Questions[QuestionIndex(f)], s.formData[f])
  {
    FullIffFinishing(s);
  }

  /** In a reachable dialogue the input area is hidden exactly while a step is pending or once the dialogue is complete. */
  lemma InputHiddenWhilePending(s: DialogueState)
    requires Reachable(s)
    ensures InputVisible(s) <==> s.timers == [] && !s.isComplete
  {
  }

  /** Every transcript of answered questions opens with the greeting and the first question. */
  lemma {:induction false} TranscriptOpens(d: Draft, n: nat)
    requires n < |Questions| && FieldsBefore(n) <= d.Keys
    ensures |Transcript(d, n)| == 2 * n + 2 && Transcript(d, n)[..2] == InitialMessages
  {
    if n > 0 {
      FieldsBeforeNext(n - 1);
      TranscriptOpens(d, n - 1);
      var t := Transcript(d, n - 1);
      assert Transcript(d, n)[..2] == t[..2];
    }
  }

  /** A reachable dialogue's transcript opens with the greeting and the first question, whatever happened since. */
  lemma TranscriptStartsWithGreeting(s: DialogueState)
    requires Reachable(s)
    ensures |s.messages| >= 2 && s.messages[..2] == InitialMessages
  {
    TranscriptOpens(s.formData, s.currentQuestion);
    var t := Transcript(s.formData, s.currentQuestion);
    assert s.messages[..|t|] == t;
  }

  // ---------------------------------------------------------------------------
  // The component state
  // ---------------------------------------------------------------------------

  class ChatDialogue {
    var currentQuestion: nat
    var messages: seq<Message>
    var formData: Draft
    var currentInput: string
    var error: string
    var showInput: bool
    var isComplete: bool
    var completedFormData: Option<Draft>
    var timers: seq<Timer>

    function State(): DialogueState
      reads this
    {
      DialogueState(currentQuestion, messages, formData, currentInput, error, showInput,
                    isComplete, completedFormData, timers)
    }

    constructor ()
      ensures State() == InitialState && Reachable(State())
    {
      currentQuestion := 0;
      messages := InitialMessages;
      formData := map[];
      currentInput := "";
      error := "";
      showInput := true;
      isComplete := false;
      completedFormData := None;
      timers := [];
      InitialReachable();
    }

    /** Validates `value` against the current question; on success records it, echoes it and schedules the next step. */
    method HandleAnswer(value: string)
      requires WellFormed(State())
      modifies this
      ensures State() == AnswerStep(old(State()), value)
    {
      var question := Questions[currentQuestion];
      var validationError := Validate(question.id, value);
      if validationError.Some? {
        error := validationError.value;
        return;
      }
      error := "";
      showInput := false;
      var updatedFormData := formData[question.id := value];
      formData := updatedFormData;
      currentInput := "";
      messages := messages + [Message(User, value)];
      if currentQuestion < |Questions| - 1 {
        timers := timers + [Advance(currentQuestion)];
      } else {
        timers := timers + [Finish(updatedFormData)];
      }
    }

    /** The oldest pending timer fires. */
    method Tick() returns (fired: bool)
      requires WellFormed(State())
      modifies this
      ensures fired == (old(timers) != [])
      ensures State() == TickStep(old(State()))
      ensures Reachable(old(State())) ==> Reachable(State())
    {
      if Reachable(State()) {
        TickKeepsReachable(State());
      }
      fired := timers != [];
      if !fired {
        return;
      }
      var timer := timers[0];
      timers := timers[1..];
      match timer
      case Advance(from) =>
        messages := messages + [Message(Bot, Questions[from + 1].prompt)];
        currentQuestion := from + 1;
        showInput := true;
      case Finish(data) =>
        messages := messages + [Message(Bot, Closing)];
        isComplete := true;
        completedFormData := Some(data);
    }

    /** Typing into the text box. */
    method SetInput(text: string)
      modifies this
      ensures State() == old(State()).(currentInput := text)
    {
      currentInput := text;
    }

    /** The send button of a typed question. */
    method SubmitText()
      requires WellFormed(State())
      modifies this
      ensures State() == SubmitTextStep(old(State()))
      ensures old(Reachable(State()) && InputVisible(State()) && IsTyped(Questions[currentQuestion].kind)) ==>
              Reachable(State())
    {
      if Reachable(State()) && InputVisible(State()) && IsTyped(Questions[currentQuestion].kind) {
        SubmitKeepsReachable(State());
      }
      var trimmed := Trim(currentInput);
      if trimmed != "" {
        HandleAnswer(trimmed);
      }
    }

    /** The button of option `k` of a choice question. */
    method ChooseOption(k: nat)
      requires WellFormed(State()) && k < |Questions[currentQuestion].options|
      modifies this
      ensures State() == AnswerStep(old(State()), Questions[old(currentQuestion)].options[k].value)
      ensures old(Reachable(State()) && InputVisible(State()) && !IsTyped(Questions[currentQuestion].kind)) ==>
              Reachable(State())
    {
      if Reachable(State()) && InputVisible(State()) && !IsTyped(Questions[currentQuestion].kind) {
        ChooseKeepsReachable(State(), k);
      }
      HandleAnswer(Questions[currentQuestion].options[k].value);
    }

    /** The "Next Step" button: hands the completed profile to the caller, if there is one. */
    method HandleNextStep() returns (submitted: Option<Draft>)
      ensures submitted == completedFormData
      ensures Reachable(State()) ==> (submitted.Some? <==> isComplete)
      ensures Reachable(State()) && submitted.Some? ==> submitted.value.Keys == AllFields
    {
      if Reachable(State()) {
        CompleteIffProfileFull(State());
      }
      submitted := completedFormData;
    }
  }
}
