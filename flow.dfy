/**
 * The experiment page: it resets the store on mount, turns the completed
 * profile into a participant and a list of comparisons, and records one
 * choice per comparison until the last one sends the respondent to the
 * completion page.
 *
 * Each service operation is a parameter giving its outcome (success with a
 * value, or failure with or without a service error message); each handler
 * returns the service calls it issued, in order.
 */
module ExperimentFlow {
  import opened ExperimentTypes
  import opened ExperimentStore

  datatype Failure = ApiFailure(message: string) | OtherFailure

  datatype Outcome<T> = Success(value: T) | Failed(failure: Failure)

  const UnexpectedError: string := "An unexpected error occurred. Please try again."
  const SubmitError: string := "Failed to submit response. Please try again."
  const CompletePath: string := "/experiment/complete"

  /** How many comparisons the page asks for. */
  const ComparisonCount: int := 5

  /** The message shown for a failure: the service's own message, or the handler's fallback. */
  function ErrorText(f: Failure, fallback: string): string {
    match f
    case ApiFailure(m) => m
    case OtherFailure => fallback
  }

  datatype ResponseSubmission = ResponseSubmission(
    participantId: string,
    comparisonId: int,
    selectedJob: JobNumber,
    job1: JobListing,
    job2: JobListing)

  datatype ServiceCall =
    | CreateParticipant(data: Draft)
    | GetComparisons(participantId: string, count: int)
    | SubmitResponse(response: ResponseSubmission)

  datatype PageState = PageState(store: StoreState, isLoading: bool, error: Option<string>, navigatedTo: Option<string>)

  /** A handler's effect: the page afterwards and the service calls it made. */
  datatype Transition = Transition(page: PageState, calls: seq<ServiceCall>)

  /** The page right after mounting: the store reset, nothing loading, no error, still on this page. */
  const MountedPage: PageState := PageState(InitialStoreState, false, None, None)

  /** The completed profile is submitted: create the participant, then fetch its comparisons. */
  function QuestionnaireStep(p: PageState, data: Draft, created: Outcome<string>,
                             fetched: Outcome<seq<JobComparison>>): (t: Transition)
    ensures !t.page.isLoading && t.page.navigatedTo == p.navigatedTo
    // the step becomes 3 exactly when both calls succeed, and an error shows exactly when one fails
    ensures t.page.store.currentStep == if created.Success? && fetched.Success? then 3 else p.store.currentStep
    ensures t.page.error == None <==> created.Success? && fetched.Success?
    ensures created.Failed? ==>
      t.page.store == p.store && t.calls == [CreateParticipant(data)] &&
      t.page.error == Some(ErrorText(created.failure, UnexpectedError))
    // once the participant exists its profile and id stay stored, whatever the fetch does
    ensures created.Success? ==>
      t.page.store.participantData == Some(Merged(p.store.participantData, data)) &&
      t.page.store.participantId == Some(created.value) &&
      t.calls == [CreateParticipant(data), GetComparisons(created.value, ComparisonCount)] &&
      t.page.store.currentComparisonIndex == p.store.currentComparisonIndex &&
      t.page.store.responses == p.store.responses
    ensures created.Success? && fetched.Failed? ==>
      t.page.store.comparisons == p.store.comparisons &&
      t.page.error == Some(ErrorText(fetched.failure, UnexpectedError))
    ensures created.Success? && fetched.Success? ==> t.page.store.comparisons == fetched.value
  {
    var start := p.(isLoading := false, error := None);
    match created
    case Failed(f) =>
      Transition(start.(error := Some(ErrorText(f, UnexpectedError))), [CreateParticipant(data)])
    case Success(id) =>
      var stored := p.store.(participantData := Some(Merged(p.store.participantData, data)), participantId := Some(id));
      var calls := [CreateParticipant(data), GetComparisons(id, ComparisonCount)];
      match fetched
      case Failed(f) =>
        Transition(start.(store := stored, error := Some(ErrorText(f, UnexpectedError))), calls)
      case Success(cs) =>
        Transition(start.(store := stored.(comparisons := cs, currentStep := 3)), calls)
  }

  /** JavaScript truthiness of a stored id: present and not the empty string. */
  predicate Truthy(id: Option<string>) {
    id.Some? && id.value != ""
  }

  /** The respondent chose `selected` on the current comparison: submit it, then record it and move on. */
  function SelectionStep(p: PageState, selected: JobNumber, submitted: Outcome<()>): (t: Transition)
    // without a truthy participant id, the empty string included, nothing happens
    ensures !Truthy(p.store.participantId) ==> t == Transition(p, [])
    // a missing comparison stops the handler before anything is submitted
    ensures !(0 <= p.store.currentComparisonIndex < |p.store.comparisons|) ==> t == Transition(p, [])
    ensures Truthy(p.store.participantId) && 0 <= p.store.currentComparisonIndex < |p.store.comparisons| ==>
      var c := p.store.comparisons[p.store.currentComparisonIndex];
      && t.calls == [SubmitResponse(ResponseSubmission(p.store.participantId.value, c.id, selected, c.job1, c.job2))]
      // a failed submission only shows an error
      && (submitted.Failed? ==> t.page == p.(error := Some(ErrorText(submitted.failure, SubmitError))))
      // a successful one records the choice, then advances or leaves for the completion page
      && (submitted.Success? ==>
           && t.page.store.responses == p.store.responses[c.id := selected]
           && t.page.error == p.error && t.page.isLoading == p.isLoading
           && t.page.store.comparisons == p.store.comparisons
           && t.page.store.currentStep == p.store.currentStep
           && t.page.store.participantId == p.store.participantId
           && t.page.store.participantData == p.store.participantData
           && (p.store.currentComparisonIndex < |p.store.comparisons| - 1 ==>
                t.page.store.currentComparisonIndex == p.store.currentComparisonIndex + 1 &&
                t.page.navigatedTo == p.navigatedTo)
           && (p.store.currentComparisonIndex == |p.store.comparisons| - 1 ==>
                t.page.store.currentComparisonIndex == p.store.currentComparisonIndex &&
                t.page.navigatedTo == Some(CompletePath)))
  {
    var index := p.store.currentComparisonIndex;
    var cs := p.store.comparisons;
    if !Truthy(p.store.participantId) || !(0 <= index < |cs|) then Transition(p, [])
    else
      var c := cs[index];
      var calls := [SubmitResponse(ResponseSubmission(p.store.participantId.value, c.id, selected, c.job1, c.job2))];
      match submitted
      case Failed(f) => Transition(p.(error := Some(ErrorText(f, SubmitError))), calls)
      case Success(_) =>
        var recorded := p.store.(responses := p.store.responses[c.id := selected]);
        if index < |cs| - 1 then Transition(p.(store := recorded.(currentComparisonIndex := index + 1)), calls)
        else Transition(p.(store := recorded, navigatedTo := Some(CompletePath)), calls)
  }

  /** The comparison view is rendered: the comparison step with at least one comparison. */
  predicate ComparisonViewShown(p: PageState) {
    p.store.currentStep == 3 && |p.store.comparisons| > 0
  }

  // ---------------------------------------------------------------------------
  // The invariant of the page's lifetime
  // ---------------------------------------------------------------------------

  function IdsOf(cs: seq<JobComparison>): set<int> {
    set c | c in cs :: c.id
  }

  /** How many comparisons have a recorded choice: those before the current one, or all once the page has left. */
  function Done(p: PageState): int {
    if p.navigatedTo.Some? then |p.store.comparisons| else p.store.currentComparisonIndex
  }

  /**
   * The questionnaire step holds no comparisons or choices yet; the comparison
   * step has a participant and an index inside the list; the recorded choices
   * are exactly those of the comparisons already answered; the page leaves
   * only for the completion page, from the last comparison.
   */
  ghost predicate FlowInvariant(p: PageState) {
    var st := p.store;
    !p.isLoading &&
    (st.currentStep == 2 || st.currentStep == 3) &&
    (st.currentStep == 2 ==> st.comparisons == [] && st.currentComparisonIndex == 0 && p.navigatedTo == None) &&
    (st.currentStep == 3 ==> st.participantId.Some?) &&
    (st.comparisons == [] ==> st.currentComparisonIndex == 0 && p.navigatedTo == None) &&
    (st.comparisons != [] ==> 0 <= st.currentComparisonIndex < |st.comparisons|) &&
    (p.navigatedTo.Some? ==> p.navigatedTo == Some(CompletePath) && st.currentComparisonIndex == |st.comparisons| - 1) &&
    0 <= Done(p) <= |st.comparisons| &&
    st.responses.Keys == IdsOf(st.comparisons[..Done(p)])
  }

  lemma MountedFlowInvariant()
    ensures FlowInvariant(MountedPage)
  {
    assert IdsOf([]) == {};
  }

  /** Submitting the questionnaire, which is rendered only in the questionnaire step, keeps the invariant. */
  lemma QuestionnaireKeepsInvariant(p: PageState, data: Draft, created: Outcome<string>,
                                    fetched: Outcome<seq<JobComparison>>)
    requires FlowInvariant(p) && p.store.currentStep == 2
    ensures FlowInvariant(QuestionnaireStep(p, data, created, fetched).page)
  {
    var q := QuestionnaireStep(p, data, created, fetched).page;
    assert q.store.currentComparisonIndex == 0 && q.navigatedTo == None;
    assert q.store.comparisons[..0] == [];
    assert IdsOf([]) == {};
  }

  lemma IdsOfExtend(cs: seq<JobComparison>, n: nat)
    requires n < |cs|
    ensures IdsOf(cs[..n + 1]) == IdsOf(cs[..n]) + {cs[n].id}
  {
    assert cs[..n + 1] == cs[..n] + [cs[n]];
  }

  /** Choosing on the current comparison, with any outcome, keeps the invariant. */
  lemma SelectionKeepsInvariant(p: PageState, selected: JobNumber, submitted: Outcome<()>)
    requires FlowInvariant(p)
    ensures FlowInvariant(SelectionStep(p, selected, submitted).page)
  {
    var st := p.store;
    var index := st.currentComparisonIndex;
    if Truthy(st.participantId) && 0 <= index < |st.comparisons| && submitted.Success? {
      var c := st.comparisons[index];
      var q := SelectionStep(p, selected, submitted).page;
      if p.navigatedTo.Some? {
        assert st.comparisons[..Done(p)] == st.comparisons;
        assert c in st.comparisons;
        assert q.store.responses.Keys == st.responses.Keys;
      } else {
        IdsOfExtend(st.comparisons, index);
        if index < |st.comparisons| - 1 {
          assert Done(q) == index + 1;
        } else {
          assert Done(q) == |st.comparisons| && st.comparisons[..index + 1] == st.comparisons;
        }
      }
    }
  }

  /** The rendered comparison view always shows a comparison that exists. */
  lemma ViewShowsExistingComparison(p: PageState)
    requires FlowInvariant(p) && ComparisonViewShown(p)
    ensures 0 <= p.store.currentComparisonIndex < |p.store.comparisons|
    ensures p.store.participantId.Some?
  {
  }

  predicate DistinctIds(cs: seq<JobComparison>) {
    forall i, j :: 0 <= i < j < |cs| ==> cs[i].id != cs[j].id
  }

  lemma {:induction false} DistinctIdsCount(cs: seq<JobComparison>, n: nat)
    requires DistinctIds(cs) && n <= |cs|
    ensures |IdsOf(cs[..n])| == n
  {
    if n > 0 {
      DistinctIdsCount(cs, n - 1);
      IdsOfExtend(cs, n - 1);
    }
  }

  /**
   * With comparisons whose ids differ, exactly one choice is recorded per
   * answered comparison; once the page has left, one for every comparison.
   */
  lemma OneResponsePerAnsweredComparison(p: PageState)
    requires FlowInvariant(p) && DistinctIds(p.store.comparisons)
    ensures |p.store.responses| == Done(p)
    ensures p.navigatedTo.Some? ==> |p.store.responses| == |p.store.comparisons| &&
                                    p.store.responses.Keys == IdsOf(p.store.comparisons)
  {
    DistinctIdsCount(p.store.comparisons, Done(p));
    assert p.store.comparisons[..|p.store.comparisons|] == p.store.comparisons;
  }

  // ---------------------------------------------------------------------------
  // The page component
  // ---------------------------------------------------------------------------

  class ExperimentPage {
    const store: Store
    var isLoading: bool
    var error: Option<string>
    var navigatedTo: Option<string>

    function Page(): PageState
      reads this, store
    {
      PageState(store.State(), isLoading, error, navigatedTo)
    }

    /** Mounting the page resets the shared store. */
    constructor (shared: Store)
      modifies shared
      ensures store == shared && Page() == MountedPage && FlowInvariant(Page())
    {
      store := shared;
      isLoading := false;
      error := None;
      navigatedTo := None;
      new;
      shared.Reset();
      MountedFlowInvariant();
    }

    method HandleQuestionnaireSubmit(data: Draft, created: Outcome<string>, fetched: Outcome<seq<JobComparison>>)
      returns (calls: seq<ServiceCall>)
      modifies this, store
      ensures Transition(Page(), calls) == QuestionnaireStep(old(Page()), data, created, fetched)
    {
      isLoading := true;
      error := None;
      calls := [CreateParticipant(data)];
      match created {
        case Failed(f) =>
          error := Some(ErrorText(f, UnexpectedError));
        case Success(id) =>
          store.SetParticipantData(data);
          store.SetParticipantId(id);
          calls := calls + [GetComparisons(id, ComparisonCount)];
          match fetched {
            case Failed(f) =>
              error := Some(ErrorText(f, UnexpectedError));
            case Success(cs) =>
              store.SetComparisons(cs);
              store.SetCurrentStep(3);
          }
      }
      isLoading := false;
    }

    method HandleJobSelection(selected: JobNumber, submitted: Outcome<()>) returns (calls: seq<ServiceCall>)
      modifies this, store
      ensures Transition(Page(), calls) == SelectionStep(old(Page()), selected, submitted)
    {
      calls := [];
      if !Truthy(store.participantId) {
        return;
      }
      var index := store.currentComparisonIndex;
      if !(0 <= index < |store.comparisons|) {
        return;
      }
      var comparison := store.comparisons[index];
      calls := [SubmitResponse(ResponseSubmission(store.participantId.value, comparison.id, selected,
                                                  comparison.job1, comparison.job2))];
      match submitted {
        case Failed(f) =>
          error := Some(ErrorText(f, SubmitError));
        case Success(_) =>
          store.AddResponse(comparison.id, selected);
          if index < |store.comparisons| - 1 {
            store.SetCurrentComparisonIndex(index + 1);
          } else {
            navigatedTo := Some(CompletePath);
          }
      }
    }
  }
}
