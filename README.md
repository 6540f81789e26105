# Experiment flow of ZipRecruiter-Proto, in Dafny

This project models the respondent-facing experiment of ZipRecruiter-Proto, and proves properties of that model.

- **The chat dialogue** gathers a six-field participant profile. It validates each answer, records it, echoes it into the transcript and posts the next question from a delayed timer.
- **The questionnaire form** is the record-at-once alternative, with an aggregate validator.
- **The comparison card** offers two job listings. A selection runs three nested timers: fade, then move, then the callback.
- **The session store** is shared by the pages.
- **The experiment page** sequences the store writes around the participant, comparison and response services.
- **The service-side generator** draws the list of comparisons for a participant.

Modules and files:

| file | module | models |
|---|---|---|
| types.dfy | ExperimentTypes | profile fields, job listings, comparisons, the `1 \| 2` choice |
| validators.dfy | Validators | JavaScript `\s` and `trim`, the email and ZIP patterns, the per-field validators |
| chatbot.dfy | Chatbot | the question script, the dialogue steps and class `ChatDialogue` |
| comparison_card.dfy | ComparisonCard | the card's flags and timers and class `Card` |
| store.dfy | ExperimentStore | class `Store` |
| flow.dfy | ExperimentFlow | the two page handlers and class `ExperimentPage` |
| questionnaire.dfy | Questionnaire | class `QuestionnaireForm` |
| job_generator.dfy | JobGenerator | listing and comparison-list generation |

Conventions:

- The dialogue, the card, the store and the page each have a snapshot of their fields as a datatype value: `State()`, or `Page()` for the page. Each of their methods is proved to produce the state a pure step function computes from the old snapshot, and the lemmas are proved about those step functions. The questionnaire form has no snapshot; its methods state the new `formData` and `errors` directly, in terms of `FormErrors` and `ClearedErrors`.
- Delayed timers are explicit pending lists:
  - In the dialogue, every answer schedules the same delay, so the oldest timer always fires first (`Tick`).
  - In the card, the delays differ and a pair change can interleave, so any pending timer may fire (`Fire(k)`). Only the causal order of the stages is kept.
- Service calls are parameters of type `Outcome<T>`: a success with a value, a service error with its message, or some other failure. Each handler also returns the list of calls it issued.
- The seeded random generator is a parameter `draw(seed, k, n)`: the index the `k`-th choice among `n` items makes after seeding with `seed`. The hash of the participant id is an integer parameter.

## Model

| member | source | states |
|---|---|---|
| Validators.TrimEmptyIff | components/experiment/ChatbotInterface.tsx:205-210 | the trim of a string is empty exactly when every character is JavaScript whitespace |
| Validators.Trim | components/experiment/ChatbotInterface.tsx:207-208 | `String.prototype.trim`, cutting JavaScript whitespace from both ends; its meaning is stated by `TrimIsInnerSlice`, `TrimEmptyIff` and `TrimIdempotent` |
| Validators.TrimIsInnerSlice | components/experiment/ChatbotInterface.tsx:207-208 | the trim is a slice of the input with only whitespace cut from both ends, and it neither starts nor ends with whitespace |
| Validators.TrimIdempotent | components/experiment/ChatbotInterface.tsx:207-208 | trimming the trimmed answer changes nothing, so a submitted text answer is already trimmed |
| Validators.EmailShapeMatchesPattern | components/experiment/ChatbotInterface.tsx:35 | the search-free shape check (one `@` not first, then a `.` neither first after it nor last, no whitespace) holds exactly when some split of the string matches `^[^\s@]+@[^\s@]+\.[^\s@]+$` |
| Validators.ValidateEmail | components/experiment/ChatbotInterface.tsx:33-37 | empty gives "Email is required"; otherwise the value is accepted exactly when it matches the pattern, and rejected with "Please enter a valid email address" when it does not |
| Validators.ValidateRequiredText | components/experiment/ChatbotInterface.tsx:43-46 | name and position are accepted exactly when not all whitespace; the only error is the given message |
| Validators.ValidateZip | components/experiment/ChatbotInterface.tsx:52-56 | empty gives "ZIP code is required"; otherwise the value is accepted exactly when it is five ASCII digits, and rejected with the 5-digit message when it is not |
| Validators.ValidateSelection | components/experiment/ChatbotInterface.tsx:77-80 | a choice answer is accepted exactly when it is non-empty, with no check of membership in the options |
| Validators.ZipIsPaddedNumber | components/experiment/ChatbotInterface.tsx:54 | the accepted ZIP codes are exactly the zero-padded five-digit renderings of 0..99999 |
| Validators.ZipRoundTrip | components/experiment/ChatbotInterface.tsx:54 | rendering a number below 100000 gives an accepted code that reads back as that number |
| Validators.Validate | components/experiment/ChatbotInterface.tsx:130 | the validator of the current question, chosen by its field; `ValidateAccepts` states that it accepts exactly the acceptable answers and rejects with a non-empty message |
| Validators.ValidateAccepts | components/experiment/ChatbotInterface.tsx:28-98 | each question's validator returns no error exactly when the answer is acceptable for its field, and otherwise a non-empty message |
| Chatbot.QuestionIndex | components/experiment/ChatbotInterface.tsx:28-99 | each field has a question in the script, at the returned position |
| Chatbot.QuestionIndexOf | components/experiment/ChatbotInterface.tsx:28-99 | every question sits at its field's position, so the question ids are distinct |
| Chatbot.ScriptMatchesProfile | components/experiment/ChatbotInterface.tsx:67-98 | the script asks every profile field; the choice questions carry exactly the enumeration values, and only the typed questions have no options |
| Chatbot.AnswerStep | components/experiment/ChatbotInterface.tsx:127-197 | rejected: only the error changes, and the text box keeps its content. Accepted: the error is cleared, the text box emptied, the input hidden, the field alone recorded, one respondent message appended and one timer scheduled; the index and completion are untouched |
| Chatbot.TickStep | components/experiment/ChatbotInterface.tsx:159-195 | a firing timer appends one bot message and leaves the profile, the error and the text box alone; a pending advance appends the next question and moves to it, showing the input, with completion untouched; a pending finish appends the closing message, marks the dialogue complete and exposes the stored profile, with the index kept; with nothing pending nothing changes |
| Chatbot.SubmitTextStep | components/experiment/ChatbotInterface.tsx:205-210 | an all-whitespace text box is ignored; otherwise its trim is answered |
| Chatbot.TranscriptFrame | components/experiment/ChatbotInterface.tsx:151-154 | the transcript of the first `n` questions depends only on the answers to them |
| Chatbot.InitialReachable | components/experiment/ChatbotInterface.tsx:101-119 | the initial dialogue (question 0, greeting and first question, empty profile, input shown) satisfies the dialogue invariant |
| Chatbot.AnswerKeepsConsistent | components/experiment/ChatbotInterface.tsx:127-197 | any answer, accepted or not, keeps index, pending steps, profile keys and transcript in agreement |
| Chatbot.AnswerKeepsReachable | components/experiment/ChatbotInterface.tsx:127-197 | an answer a control can produce, or one the validator rejects, keeps the invariant |
| Chatbot.SubmitKeepsReachable | components/experiment/ChatbotInterface.tsx:205-210 | submitting the text box of a typed question keeps the invariant |
| Chatbot.ChooseKeepsReachable | components/experiment/ChatbotInterface.tsx:306-309 | clicking one of the option buttons keeps the invariant |
| Chatbot.TickKeepsConsistent | components/experiment/ChatbotInterface.tsx:163-195 | a firing timer keeps the invariant and leaves the profile unchanged |
| Chatbot.TickKeepsReachable | components/experiment/ChatbotInterface.tsx:163-195 | a firing timer keeps every recorded answer one a control produced |
| Chatbot.ProfileFullIff | components/experiment/ChatbotInterface.tsx:143-147 | the profile holds all six fields exactly when the last question has an accepted answer |
| Chatbot.CompleteIffProfileFull | components/experiment/ChatbotInterface.tsx:176-195 | in a reachable dialogue the profile is full exactly when the dialogue is complete or its finish is pending; a complete dialogue exposes the whole profile, every answer as its control produced it |
| Chatbot.InputHiddenWhilePending | components/experiment/ChatbotInterface.tsx:278 | in a reachable dialogue the input area shows exactly when no step is pending and the dialogue is not complete |
| Chatbot.TranscriptOpens | components/experiment/ChatbotInterface.tsx:102-111 | a transcript of `n` answered questions has `2n+2` messages and opens with the greeting and the first question |
| Chatbot.TranscriptStartsWithGreeting | components/experiment/ChatbotInterface.tsx:102-111 | every reachable transcript opens with the greeting and the first question |
| Chatbot.ChatDialogue.constructor | components/experiment/ChatbotInterface.tsx:101-119 | the dialogue starts in the initial state, which is reachable |
| Chatbot.ChatDialogue.HandleAnswer | components/experiment/ChatbotInterface.tsx:127-197 | the new state is the answer step of the old one |
| Chatbot.ChatDialogue.Tick | components/experiment/ChatbotInterface.tsx:159-195 | fires exactly when a timer is pending; the new state is the timer step of the old one, and the invariant is kept |
| Chatbot.ChatDialogue.SetInput | components/experiment/ChatbotInterface.tsx:291 | only the text box changes |
| Chatbot.ChatDialogue.SubmitText | components/experiment/ChatbotInterface.tsx:205-210 | the new state is the text-submit step of the old one, and the invariant is kept |
| Chatbot.ChatDialogue.ChooseOption | components/experiment/ChatbotInterface.tsx:306-321 | a radio or select button answers with its option's value, and the invariant is kept |
| Chatbot.ChatDialogue.HandleNextStep | components/experiment/ChatbotInterface.tsx:199-203 | the profile handed on is the completed one; in a reachable dialogue there is one exactly when complete, and it holds all six fields |
| ComparisonCard.StagesConcat | components/experiment/JobComparisonCard.tsx:46-59 | the selection stages of two pending lists are the stages of each, in order |
| ComparisonCard.CleanupKeepsStages | components/experiment/JobComparisonCard.tsx:38 | the effect cleanup keeps every selection stage in order |
| ComparisonCard.RemoveAtMultiset | components/experiment/JobComparisonCard.tsx:37 | a fired timer is removed exactly once from the pending timers |
| ComparisonCard.RemoveAtStages | components/experiment/JobComparisonCard.tsx:46-59 | firing a timer removes it from the stages and keeps the order of the others |
| ComparisonCard.PairChangeStep | components/experiment/JobComparisonCard.tsx:29-39 | a pair change sets the new pair, clears the selection and the three stage flags, sets entering, and replaces the pending entering timer by one new one |
| ComparisonCard.PairChangeTimers | components/experiment/JobComparisonCard.tsx:29-39 | after a pair change exactly one entering timer is pending, and every selection stage is still pending |
| ComparisonCard.PropsStep | components/experiment/JobComparisonCard.tsx:29-39 | new props change the disabled flag; the reset runs exactly when a listing of the pair differs: then the selection and the stage flags are cleared, entering is set and the entering timer replaced, and otherwise nothing else changes |
| ComparisonCard.SelectStep | components/experiment/JobComparisonCard.tsx:41-46 | a selection records the job, marks submitting and schedules the fade stage; the pair, the disabled flag and the animation flags are unchanged |
| ComparisonCard.FireStep | components/experiment/JobComparisonCard.tsx:37-59 | a firing timer is removed and leaves selection, submitting, pair and disabled unchanged. The entering timer clears `isEntering`. The fade stage sets `rejectedFaded` and schedules the move. The move stage sets `selectedMoving` and schedules the callback. The callback stage changes no flag, and it alone reports, with its job |
| ComparisonCard.MountedInvariant | components/experiment/JobComparisonCard.tsx:22-39 | the mounted card satisfies the card invariant |
| ComparisonCard.PairChangeKeepsInvariant | components/experiment/JobComparisonCard.tsx:29-39 | a pair change with no selection stage pending keeps the invariant |
| ComparisonCard.PropsKeepInvariant | components/experiment/JobComparisonCard.tsx:29-39 | new props keep the invariant when no stage is pending or the pair is the same |
| ComparisonCard.SelectKeepsInvariant | components/experiment/JobComparisonCard.tsx:139 | a click the enabled buttons allow starts the only selection, whose fade is then the only stage |
| ComparisonCard.FireEnterKeepsInvariant | components/experiment/JobComparisonCard.tsx:37 | the entering timer clears the entering flag, keeps the pending stages and keeps the invariant |
| ComparisonCard.OnlyStage | components/experiment/JobComparisonCard.tsx:46-59 | when at most one stage is pending and a stage fires, it was the only one and none remains |
| ComparisonCard.ReplaceStage | components/experiment/JobComparisonCard.tsx:46-59 | firing the only stage and scheduling the next leaves the next as the only stage and the entering timer untouched |
| ComparisonCard.FireEarlyStageKeepsInvariant | components/experiment/JobComparisonCard.tsx:46-58 | the fade and move stages fire with the flags their predecessors set, and leave their successor as the only pending stage |
| ComparisonCard.FireCommitKeepsInvariant | components/experiment/JobComparisonCard.tsx:55-57 | the callback stage fires after fade and move and leaves no stage pending |
| ComparisonCard.FireKeepsInvariant | components/experiment/JobComparisonCard.tsx:41-60 | every timer keeps the invariant; the move fires only after the fade, the callback only after both, with the selected job; afterwards nothing is pending and the buttons stay disabled |
| ComparisonCard.SelectedOrOther | components/experiment/JobComparisonCard.tsx:63-64 | a card is never both selected and the other one; it is neither exactly when nothing is selected; with a selection, card 1 is selected exactly when card 2 is the other |
| ComparisonCard.AnimationOf | components/experiment/JobComparisonCard.tsx:66-80 | entering wins and slides each card in from its own side; otherwise the selected moving card moves to centre; otherwise the other faded card fades out |
| ComparisonCard.CardsAnimateTogether | components/experiment/JobComparisonCard.tsx:62-80 | both cards slide in together; at most one moves, it is the selected one, and the other card is fading out; with no selection nothing moves or fades |
| ComparisonCard.NoRetryAfterFailedSubmit | components/experiment/JobComparisonCard.tsx:41-60 | once the callback stage has fired, new props for the same pair leave the card submitting with its buttons disabled, no stage pending and the invariant kept; so after a failed submission, which keeps the same comparison, the respondent cannot choose again |
| ComparisonCard.SelectAndFade | components/experiment/JobComparisonCard.tsx:37-51 | the entering timer fires, then a selection runs its fade stage, leaving the move stage as the only pending timer |
| ComparisonCard.StalePairChangeStep | components/experiment/JobComparisonCard.tsx:29-39 | a pair change resets the flags but leaves a pending move stage in place |
| ComparisonCard.StaleMoveAndCommit | components/experiment/JobComparisonCard.tsx:51-57 | the surviving stages move a card of the new pair and report job 1 |
| ComparisonCard.StaleSelectionReportsOnNewPair | components/experiment/JobComparisonCard.tsx:29-59 | a selection's timers survive a pair change and report the old choice for the new pair, while its buttons are enabled and nothing is selected on it |
| ComparisonCard.Card.constructor | components/experiment/JobComparisonCard.tsx:22-39 | the card starts mounted, with its entering timer pending and the invariant holding |
| ComparisonCard.Card.SetProps | components/experiment/JobComparisonCard.tsx:29-39 | the new state is the props step of the old one |
| ComparisonCard.Card.HandleSelect | components/experiment/JobComparisonCard.tsx:41-60 | the new state is the select step of the old one, and an enabled click keeps the invariant |
| ComparisonCard.Card.Fire | components/experiment/JobComparisonCard.tsx:37-59 | the new state and the callback's job are the fire step of the old state, with its per-timer effects, and the invariant is kept |
| ExperimentStore.Merged | lib/experimentStore.ts:47-50 | the merged profile has the keys of both; every field of the new data overrides, and every earlier field it does not mention is kept |
| ExperimentStore.MergeIdempotent | lib/experimentStore.ts:47-50 | merging the same data twice equals merging it once |
| ExperimentStore.MergeIntoNothing | lib/experimentStore.ts:47-50 | merging into no profile or into an empty one gives the data itself |
| ExperimentStore.AddResponseOverwrites | lib/experimentStore.ts:59-62 | recording a choice twice keeps the later one; the keys grow by that id only; every other choice stays |
| ExperimentStore.Store.constructor | lib/experimentStore.ts:33-43 | a fresh store holds step 2, no profile or id, no comparisons, index 0 and no choices |
| ExperimentStore.Store.SetCurrentStep | lib/experimentStore.ts:45 | only the step changes |
| ExperimentStore.Store.SetParticipantData | lib/experimentStore.ts:47-50 | only the profile changes, to the merge of the old profile and the data |
| ExperimentStore.Store.SetParticipantId | lib/experimentStore.ts:52 | only the id changes |
| ExperimentStore.Store.SetComparisons | lib/experimentStore.ts:54 | only the comparison list changes |
| ExperimentStore.Store.SetCurrentComparisonIndex | lib/experimentStore.ts:56-57 | only the index changes |
| ExperimentStore.Store.AddResponse | lib/experimentStore.ts:59-62 | only the choices change, by recording this one |
| ExperimentStore.Store.Reset | lib/experimentStore.ts:64 | from any state the store holds exactly the initial state, so resetting twice is resetting once |
| ExperimentFlow.QuestionnaireStep | app/experiment/page.tsx:49-74 | the step becomes 3 exactly when both calls succeed, and an error shows exactly when one fails; a failed creation changes nothing in the store and makes no second call; once the participant exists its profile and id stay stored even when the fetch fails; loading ends in every case |
| ExperimentFlow.SelectionStep | app/experiment/page.tsx:77-118 | without a truthy participant id (none, or the empty string), or without a current comparison, nothing happens and nothing is called. Otherwise the current comparison's id and listings are submitted. A failure only sets the error. A success records the choice, then moves to the next comparison, or from the last one leaves for the completion page with the index unchanged |
| ExperimentFlow.MountedFlowInvariant | app/experiment/page.tsx:33-36 | the page right after the mount-time reset satisfies the flow invariant |
| ExperimentFlow.QuestionnaireKeepsInvariant | app/experiment/page.tsx:49-74 | submitting the profile in the questionnaire step keeps the invariant, whatever the services answer |
| ExperimentFlow.SelectionKeepsInvariant | app/experiment/page.tsx:77-118 | a choice keeps the invariant whatever the service answers: the index stays inside the list, and the recorded choices are exactly those of the answered comparisons |
| ExperimentFlow.ViewShowsExistingComparison | app/experiment/page.tsx:144-160 | whenever the comparison view renders, the current index is inside the list and a participant exists |
| ExperimentFlow.OneResponsePerAnsweredComparison | app/experiment/page.tsx:99-110 | with distinct comparison ids, one choice is recorded per answered comparison, and one per comparison once the page has left |
| ExperimentFlow.ExperimentPage.constructor | app/experiment/page.tsx:33-36 | mounting resets the shared store, and the mounted page satisfies the invariant |
| ExperimentFlow.ExperimentPage.HandleQuestionnaireSubmit | app/experiment/page.tsx:49-74 | the new page and the calls made are the questionnaire step of the old page |
| ExperimentFlow.ExperimentPage.HandleJobSelection | app/experiment/page.tsx:77-118 | the new page and the calls made are the selection step of the old page |
| Questionnaire.FormErrors | components/experiment/QuestionnaireForm.tsx:28-45 | only text fields get errors; a text field has one exactly when its rule rejects its value, with that rule's message |
| Questionnaire.FormErrorsMeaning | components/experiment/QuestionnaireForm.tsx:31-45 | email errs exactly when the pattern does not match, ZIP exactly when not five digits, name and position exactly when all whitespace; the work preference and salary range never err |
| Questionnaire.FormAgreesWithDialogue | components/experiment/QuestionnaireForm.tsx:31-45 | a text field has a form error exactly when the dialogue's validator rejects the same value, so the form has no error exactly when all four dialogue validators accept |
| Questionnaire.InitialFormErrors | components/experiment/QuestionnaireForm.tsx:17-24 | the initial form errs on exactly the four text fields |
| Questionnaire.ClearedErrors | components/experiment/QuestionnaireForm.tsx:61-67 | editing a field drops that field's non-empty error and no other entry, and adds none |
| Questionnaire.EditsOnlyClear | components/experiment/QuestionnaireForm.tsx:58-68 | a shown error survives an edit exactly when another field was edited |
| Questionnaire.QuestionnaireForm.constructor | components/experiment/QuestionnaireForm.tsx:17-26 | the form starts with empty text fields, no strong preference, a flexible salary and no errors |
| Questionnaire.QuestionnaireForm.Validate | components/experiment/QuestionnaireForm.tsx:28-49 | the error map becomes the form's errors for the record, and the result is true exactly when it is empty |
| Questionnaire.QuestionnaireForm.HandleSubmit | components/experiment/QuestionnaireForm.tsx:51-56 | the record is handed on, unchanged, exactly when it has no errors |
| Questionnaire.QuestionnaireForm.UpdateField | components/experiment/QuestionnaireForm.tsx:58-68 | the field is set and only its error cleared; a complete record stays complete |
| JobGenerator.ChooseInPool | api/job_generator.py:41-45 | every random choice is an item of its pool |
| JobGenerator.GenerateJobListing | api/job_generator.py:33-46 | a listing is five choices, one per field; every field of a generated listing comes from its own pool |
| JobGenerator.EveryPoolListingIsGenerated | api/job_generator.py:5-46 | every combination of pool items is the listing some generator draws for the seed |
| JobGenerator.BaseSeed | api/job_generator.py:55 | the base seed lies in [0, 1000000) and differs from the hash by a multiple of 1000000 |
| JobGenerator.SeedOwner | api/job_generator.py:59-60 | every seed from the base upward is the seed of one comparison position and slot |
| JobGenerator.SeedsDistinct | api/job_generator.py:58-60 | the `2 * count` seeds of a list are pairwise distinct and fill exactly [base, base + 2 * count) |
| JobGenerator.ComparisonsContents | api/job_generator.py:57-68 | the list of `n` comparisons has exactly `n` entries, and entry `i` has id `i` and the listings of seeds `base + 2i` and `base + 2i + 1` |
| JobGenerator.ComparisonsPrefix | api/job_generator.py:57-68 | asking for fewer comparisons gives a prefix of the longer list |
| JobGenerator.ComparisonsFromPools | api/job_generator.py:57-68 | every comparison generated offers two listings drawn from the pools |
| JobGenerator.GenerateFrom | api/job_generator.py:49-68 | the loop builds the list of `count` comparisons from the base seed, and none for a count below one |
| JobGenerator.GenerateJobComparisons | api/job_generator.py:49-68 | the list is the one of `count` comparisons, with each listing drawn by the seeded generator |

## Left out

- The typing indicator, the auto-scroll and all markup and styling: presentation only.
- Real millisecond delays. Timers are discrete events: the dialogue fires its oldest timer, and the card lets any pending timer fire.
- The page's `isLoading` during the awaited calls, and the interleaving of other events with them. Each handler is one atomic step from its start to its end, so the transient `isLoading == true` is not observable in the model.
- The React closures read by the handlers. Each handler sees the state at the moment it runs; stale closures over an earlier render are not modelled.
- Effect dependencies compare listings by reference in React. The model compares them by value, so a re-render with an equal but newly built pair does not rerun the reset.
- The HTTP services, the database, and the `APIError` construction are not part of this model. Each call is an `Outcome` parameter.
- ProgressIndicator and its floating-point percentage are not part of this model.
- Python's `random` and salted `hash`. `draw` stands for the seeded generator and `hash` is an integer parameter; equal hashes give equal lists, but no claim is made across processes. The reduction of a drawn index into its pool is written as `%` on the pool size.
- JavaScript strings are modelled as sequences of characters: no UTF-16 surrogates and no normalisation.
- The pydantic models and the TypeScript types serve only as the source of the datatypes. E-mail validation on the service side is not modelled.
- ExperimentFlow.OneResponsePerAnsweredComparison: assumes the comparison ids are distinct. The generator guarantees this (`JobGenerator.ComparisonsContents` gives id `i` to entry `i`), but the page does not check it.
- ComparisonCard.PropsKeepInvariant: holds only when no selection stage is pending at a pair change. `ComparisonCard.StaleSelectionReportsOnNewPair` shows what happens otherwise.

Where the intended behaviour and the code differ, the model follows the code:
- The choice validators check only that an answer is non-empty; membership in the options comes from the buttons alone.
- The card's selection timers are never cancelled, and only the entering timer is cleared on a pair change.
- A failed comparison fetch leaves the participant profile and id stored.
- A choice is recorded only after its submission succeeds.
- After the last choice the page navigates, and the index stays at the last position.
- A successful choice leaves an earlier error message on screen.
- An out-of-range index aborts the handler before anything is submitted. The page only renders comparisons that exist, so this does not happen through the UI.
- A failed submission leaves the card locked. The callback stage never clears `isSubmitting`, and the page keeps the same comparison after a failure, so the card is not reset and its buttons stay disabled, although the error message asks the respondent to try again (`ComparisonCard.NoRetryAfterFailedSubmit`, with the failure clause of `ExperimentFlow.SelectionStep`).
