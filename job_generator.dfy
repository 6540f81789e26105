/**
 * The service-side generator of comparison lists. A listing is drawn, field by
 * field, from fixed pools by a random generator seeded with the listing's
 * seed; a participant's list uses two consecutive seeds per comparison,
 * counted from a base seed derived from the participant id.
 *
 * The seeded generator is a parameter: `draw(seed, k, n)` is the index the
 * `k`-th choice among `n` items makes after seeding with `seed`. Because it is
 * a function, the same seed always gives the same listing.
 */
module JobGenerator {
  import opened ExperimentTypes

  /** The company descriptions, in the order the pool lists them. */
  const CompanyDescriptions: seq<string> := [
    "A technology company that develops software solutions to help organizations manage processes more efficiently and scale their operations.",
    "A business services firm that provides operational and advisory solutions to help organizations improve performance and manage complex projects."
  ]

  const CompanySizes: seq<string> := ["50-100 employees", "100-500 employees", "500+ employees"]

  const CompensationLevels: seq<string> := ["Market aligned", "Competitive for the market"]

  const Locations: seq<string> := ["Remote", "Mostly in-office"]

  /** The diversity statements: a current one, a removed one, and none. */
  const DeiStatements: seq<string> := [
    "In the company's most recent annual public filing (10-K), it states: We are committed to fostering a diverse and inclusive workplace where all employees feel valued and respected.",
    "In prior annual public filings (10-K), the company stated: We are committed to fostering a diverse and inclusive workplace. This language does not appear in the company's most recent filing.",
    "No additional information provided."
  ]

  /** The seeded generator: the index drawn by the `k`-th choice among `n` items after seeding with `seed`. */
  type Draw = (int, nat, nat) -> nat

  /** The `k`-th choice from `pool`; the drawn index is reduced into the pool. */
  function Choose(draw: Draw, seed: int, k: nat, pool: seq<string>): string
    requires |pool| > 0
  {
    pool[draw(seed, k, |pool|) % |pool|]
  }

  /** A choice is an item of its pool. */
  lemma ChooseInPool(draw: Draw, seed: int, k: nat, pool: seq<string>)
    requires |pool| > 0
    ensures Choose(draw, seed, k, pool) in pool
  {
  }

  /** A draw that lands inside the pool chooses the item it names. */
  lemma ChooseDrawn(draw: Draw, seed: int, k: nat, pool: seq<string>, a: nat)
    requires a < |pool| && draw(seed, k, |pool|) == a
    ensures Choose(draw, seed, k, pool) == pool[a]
  {
  }

  /** A listing whose every field comes from its own pool. */
  predicate FromPools(l: JobListing) {
    l.companyDescription in CompanyDescriptions &&
    l.companySize in CompanySizes &&
    l.compensation in CompensationLevels &&
    l.location in Locations &&
    l.deiStatement in DeiStatements
  }

  /** The listing of one seed: five successive choices, one per field, in field order, each from its own pool. */
  function GenerateJobListing(draw: Draw, seed: int): (r: JobListing)
    ensures FromPools(r)
  {
    ChooseInPool(draw, seed, 0, CompanyDescriptions);
    ChooseInPool(draw, seed, 1, CompanySizes);
    ChooseInPool(draw, seed, 2, CompensationLevels);
    ChooseInPool(draw, seed, 3, Locations);
    ChooseInPool(draw, seed, 4, DeiStatements);
    JobListing(
      Choose(draw, seed, 0, CompanyDescriptions),
      Choose(draw, seed, 1, CompanySizes),
      Choose(draw, seed, 2, CompensationLevels),
      Choose(draw, seed, 3, Locations),
      Choose(draw, seed, 4, DeiStatements))
  }

  /** Every listing of the pools can be produced, by a generator that draws its indices. */
  lemma EveryPoolListingIsGenerated(l: JobListing, seed: int)
    requires FromPools(l)
    ensures exists draw: Draw :: GenerateJobListing(draw, seed) == l
  {
    var a :| 0 <= a < |CompanyDescriptions| && CompanyDescriptions[a] == l.companyDescription;
    var b :| 0 <= b < |CompanySizes| && CompanySizes[b] == l.companySize;
    var c :| 0 <= c < |CompensationLevels| && CompensationLevels[c] == l.compensation;
    var d :| 0 <= d < |Locations| && Locations[d] == l.location;
    var e :| 0 <= e < |DeiStatements| && DeiStatements[e] == l.deiStatement;
    var draw: Draw := (s: int, k: nat, n: nat) =>
      if k == 0 then a else if k == 1 then b else if k == 2 then c else if k == 3 then d else e;
    ChooseDrawn(draw, seed, 0, CompanyDescriptions, a);
    ChooseDrawn(draw, seed, 1, CompanySizes, b);
    ChooseDrawn(draw, seed, 2, CompensationLevels, c);
    ChooseDrawn(draw, seed, 3, Locations, d);
    ChooseDrawn(draw, seed, 4, DeiStatements, e);
    assert GenerateJobListing(draw, seed) == l;
  }

  /** The listing of every seed, as the seeded generator `draw` produces them. */
  function Listings(draw: Draw): int -> JobListing {
    seed => GenerateJobListing(draw, seed)
  }

  /** The base seed of a participant: the id's hash reduced, as a floored remainder, into [0, 1000000). */
  function BaseSeed(hash: int): (r: int)
    ensures 0 <= r < 1000000
    ensures (hash - r) % 1000000 == 0
  {
    hash % 1000000
  }

  /** The seed of job `slot` (0 or 1) of comparison `i`. */
  function JobSeed(base: int, i: nat, slot: nat): int {
    base + 2 * i + slot
  }

  /** The comparison a seed at or above `base` belongs to, and its slot in it. */
  function SeedOwner(base: int, s: int): (r: (nat, nat))
    requires base <= s
    ensures r.1 < 2 && JobSeed(base, r.0, r.1) == s
  {
    ((s - base) / 2, (s - base) % 2)
  }

  /**
   * The seeds a list of `count` comparisons uses are pairwise distinct and
   * fill exactly the range [base, base + 2 * count).
   */
  lemma SeedsDistinct(base: int, count: nat)
    ensures forall i, j, a, b :: 0 <= i < count && 0 <= j < count && 0 <= a < 2 && 0 <= b < 2 ==>
              (JobSeed(base, i, a) == JobSeed(base, j, b) ==> i == j && a == b)
    ensures forall i, a :: 0 <= i < count && 0 <= a < 2 ==> base <= JobSeed(base, i, a) < base + 2 * count
    ensures forall s :: base <= s < base + 2 * count ==> SeedOwner(base, s).0 < count
  {
  }

  /** Comparison `i` of the list for base seed `base`, with `listing` giving the listing of each seed. */
  function ComparisonAt(listing: int -> JobListing, base: int, i: nat): JobComparison {
    JobComparison(i, listing(JobSeed(base, i, 0)), listing(JobSeed(base, i, 1)))
  }

  /** The first `n` comparisons of the list for base seed `base`. */
  function Comparisons(listing: int -> JobListing, base: int, n: nat): seq<JobComparison> {
    if n == 0 then [] else Comparisons(listing, base, n - 1) + [ComparisonAt(listing, base, n - 1)]
  }

  /** The list holds `n` comparisons, comparison `i` with id `i` and drawn with the seeds of its position. */
  lemma {:induction false} ComparisonsContents(listing: int -> JobListing, base: int, n: nat)
    ensures |Comparisons(listing, base, n)| == n
    ensures forall i :: 0 <= i < n ==> Comparisons(listing, base, n)[i] == ComparisonAt(listing, base, i)
    ensures forall i :: 0 <= i < n ==> Comparisons(listing, base, n)[i].id == i
  {
    if n > 0 {
      ComparisonsContents(listing, base, n - 1);
    }
  }

  /** A longer list extends a shorter one: asking for fewer comparisons gives a prefix. */
  lemma ComparisonsPrefix(listing: int -> JobListing, base: int, m: nat, n: nat)
    requires m <= n
    ensures |Comparisons(listing, base, n)| == n
    ensures Comparisons(listing, base, n)[..m] == Comparisons(listing, base, m)
  {
    ComparisonsContents(listing, base, n);
    ComparisonsContents(listing, base, m);
  }

  /** Every comparison of a generated list offers two listings drawn from the pools. */
  lemma ComparisonsFromPools(draw: Draw, base: int, n: nat)
    ensures forall c :: c in Comparisons(Listings(draw), base, n) ==> FromPools(c.job1) && FromPools(c.job2)
  {
    ComparisonsContents(Listings(draw), base, n);
    forall c | c in Comparisons(Listings(draw), base, n) ensures FromPools(c.job1) && FromPools(c.job2) {
      var i :| 0 <= i < n && Comparisons(Listings(draw), base, n)[i] == c;
      assert c.job1 == GenerateJobListing(draw, JobSeed(base, i, 0));
      assert c.job2 == GenerateJobListing(draw, JobSeed(base, i, 1));
    }
  }

  /**
   * The list for a participant whose id hashes to `hash`: `count` comparisons,
   * none for a count below one; `listing` gives the listing of each seed.
   */
  method GenerateFrom(listing: int -> JobListing, hash: int, count: int) returns (comparisons: seq<JobComparison>)
    ensures comparisons == Comparisons(listing, BaseSeed(hash), if count > 0 then count else 0)
  {
    var baseSeed := BaseSeed(hash);
    comparisons := [];
    var i := 0;
    while i < count
      invariant 0 <= i <= (if count > 0 then count else 0)
      invariant comparisons == Comparisons(listing, baseSeed, i)
    {
      var job1 := listing(baseSeed + i * 2);
      var job2 := listing(baseSeed + i * 2 + 1);
      comparisons := comparisons + [JobComparison(i, job1, job2)];
      i := i + 1;
    }
  }

  /** The list for a participant, with every listing drawn by the seeded generator `draw`. */
  method GenerateJobComparisons(draw: Draw, hash: int, count: int) returns (comparisons: seq<JobComparison>)
    ensures comparisons == Comparisons(Listings(draw), BaseSeed(hash), if count > 0 then count else 0)
  {
    comparisons := GenerateFrom(Listings(draw), hash, count);
  }
}
