/**
 * Shared data model of the experiment flow: the participant profile fields,
 * the job listings shown in a comparison and the respondent's choice.
 */
module ExperimentTypes {

  datatype Option<T> = None | Some(value: T)

  /** The six profile fields of a participant, in the order the dialogue asks for them. */
  datatype Field = Email | Name | ZipCode | Position | WorkPreference | SalaryRange

  const AllFields: set<Field> := {Email, Name, ZipCode, Position, WorkPreference, SalaryRange}

  /** The fields a respondent types in; the other two are picked from fixed options. */
  const TextFields: set<Field> := {Email, Name, ZipCode, Position}

  /** A partial profile: the answers recorded so far, keyed by field. */
  type Draft = map<Field, string>

  /** Values of the work-preference enumeration. */
  const WorkPreferenceValues: seq<string> :=
    ["Remote", "Hybrid", "In-person", "No strong preference"]

  /** Values of the salary-range enumeration. */
  const SalaryRangeValues: seq<string> :=
    ["Below $50,000", "$50,000 - $75,000", "$75,000 - $100,000",
     "$100,000 - $150,000", "$150,000+", "I'm flexible"]

  /** Which of the two jobs of a comparison was chosen: the literal type `1 | 2`. */
  datatype JobNumber = Job1 | Job2

  /** A job listing; the flow passes it through and never inspects it. */
  datatype JobListing = JobListing(
    companyDescription: string,
    companySize: string,
    compensation: string,
    location: string,
    deiStatement: string)

  /** One pair of listings offered for a single forced choice. */
  datatype JobComparison = JobComparison(id: int, job1: JobListing, job2: JobListing)
}
