/**
 * The session store shared by the experiment pages: the current step, the
 * participant profile and id, the comparison list, the position in it and the
 * recorded choices. Each setter replaces one entry; the profile setter merges.
 */
module ExperimentStore {
  import opened ExperimentTypes

  datatype StoreState = StoreState(
    currentStep: int,
    participantData: Option<Draft>,
    participantId: Option<string>,
    comparisons: seq<JobComparison>,
    currentComparisonIndex: int,
    responses: map<int, JobNumber>)

  /** The state a fresh or reset store holds: the questionnaire step, nothing recorded. */
  const InitialStoreState: StoreState := StoreState(2, None, None, [], 0, map[])

  /**
   * The profile after merging `data` into `prev`: every field of `data`
   * overrides, every earlier field `data` does not mention is kept, and no
   * other field appears.
   */
  function Merged(prev: Option<Draft>, data: Draft): (r: Draft)
    ensures r.Keys == data.Keys + (if prev.Some? then prev.value.Keys else {})
    ensures forall f :: f in data ==> r[f] == data[f]
    ensures forall f :: prev.Some? && f in prev.value && f !in data ==> r[f] == prev.value[f]
  {
    match prev
    case None => data
    case Some(p) => p + data
  }

  /** Merging the same data twice changes nothing more: the merge is idempotent. */
  lemma MergeIdempotent(prev: Option<Draft>, data: Draft)
    ensures Merged(Some(Merged(prev, data)), data) == Merged(prev, data)
  {
    var once := Merged(prev, data);
    var twice := Merged(Some(once), data);
    assert twice.Keys == once.Keys;
    forall f | f in twice ensures twice[f] == once[f] {
    }
  }

  /** Merging into an empty profile, or into none, gives back the data itself. */
  lemma MergeIntoNothing(data: Draft)
    ensures Merged(None, data) == data && Merged(Some(map[]), data) == data
  {
    var r := Merged(Some(map[]), data);
    assert r.Keys == data.Keys;
    forall f | f in r ensures r[f] == data[f] {
    }
  }

  /** Recording a choice for comparison `id`: the latest choice wins, every other choice stays. */
  lemma AddResponseOverwrites(rs: map<int, JobNumber>, id: int, first: JobNumber, second: JobNumber)
    ensures rs[id := first][id := second] == rs[id := second]
    ensures (rs[id := second]).Keys == rs.Keys + {id}
    ensures forall other :: other in rs && other != id ==> rs[id := second][other] == rs[other]
  {
    var a := rs[id := first][id := second];
    var b := rs[id := second];
    assert a.Keys == b.Keys;
    forall k | k in a ensures a[k] == b[k] {
    }
  }

  class Store {
    var currentStep: int
    var participantData: Option<Draft>
    var participantId: Option<string>
    var comparisons: seq<JobComparison>
    var currentComparisonIndex: int
    var responses: map<int, JobNumber>

    function State(): StoreState
      reads this
    {
      StoreState(currentStep, participantData, participantId, comparisons, currentComparisonIndex, responses)
    }

    constructor ()
      ensures State() == InitialStoreState
    {
      currentStep := 2;
      participantData := None;
      participantId := None;
      comparisons := [];
      currentComparisonIndex := 0;
      responses := map[];
    }

    method SetCurrentStep(step: int)
      modifies this
      ensures State() == old(State()).(currentStep := step)
    {
      currentStep := step;
    }

    method SetParticipantData(data: Draft)
      modifies this
      ensures State() == old(State()).(participantData := Some(Merged(old(participantData), data)))
    {
      participantData := Some(Merged(participantData, data));
    }

    method SetParticipantId(id: string)
      modifies this
      ensures State() == old(State()).(participantId := Some(id))
    {
      participantId := Some(id);
    }

    method SetComparisons(cs: seq<JobComparison>)
      modifies this
      ensures State() == old(State()).(comparisons := cs)
    {
      comparisons := cs;
    }

    method SetCurrentComparisonIndex(index: int)
      modifies this
      ensures State() == old(State()).(currentComparisonIndex := index)
    {
      currentComparisonIndex := index;
    }

    method AddResponse(comparisonId: int, selectedJob: JobNumber)
      modifies this
      ensures State() == old(State()).(responses := old(responses)[comparisonId := selectedJob])
    {
      responses := responses[comparisonId := selectedJob];
    }

    /** Overwrites every entry with the initial state, from whatever state the store was in. */
    method Reset()
      modifies this
      ensures State() == InitialStoreState
    {
      currentStep := 2;
      participantData := None;
      participantId := None;
      comparisons := [];
      currentComparisonIndex := 0;
      responses := map[];
    }
  }
}
