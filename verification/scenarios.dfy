/** Concrete datasets on which the service's answers are computed outright. */
module ElectionScenarios {
  import opened Wrappers
  import opened Models
  import opened Linq
  import opened ElectionDataService

  /** A two-candidate, two-state election in 2020. */
  function Dataset2020(): seq<Election> {
    [Election(2020, true,
              [Candidate(1, "A", "Democrat"), Candidate(2, "B", "Republican")],
              [State("CA", [StateResult(1, 55, 11000000), StateResult(2, 0, 6000000)]),
               State("TX", [StateResult(1, 0, 5200000), StateResult(2, 38, 5900000)])])]
  }

  /** The same election with a third-party row (candidate ID 99, unknown to
      the election) added to Texas. */
  function DatasetWithThirdParty(): seq<Election> {
    [Election(2020, true,
              [Candidate(1, "A", "Democrat"), Candidate(2, "B", "Republican")],
              [State("CA", [StateResult(1, 55, 11000000), StateResult(2, 0, 6000000)]),
               State("TX", [StateResult(1, 0, 5200000), StateResult(2, 38, 5900000), StateResult(99, 7, 400000)])])]
  }

  /** The Democratic and Republican candidates of the 2020 election. */
  lemma Candidates2020()
    ensures GetElectionByYear(Dataset2020(), 2020) == Some(Dataset2020()[0])
    ensures GetCandidateByParty(Dataset2020()[0], "Democrat") == Some(Candidate(1, "A", "Democrat"))
    ensures GetCandidateByParty(Dataset2020()[0], "Republican") == Some(Candidate(2, "B", "Republican"))
  {
    assert GetCandidateByParty(Dataset2020()[0], "Republican").Some?;
  }

  /** The electoral total is 93: 55 for the Democrat, 38 for the Republican,
      nothing for Other. */
  lemma ElectoralBuckets2020()
    ensures var states := Dataset2020()[0].states;
            var democrat, republican := Some(Candidate(1, "A", "Democrat")), Some(Candidate(2, "B", "Republican"));
            ElectionTotal(states, Electoral) == 93 &&
            BucketTotal(states, democrat, republican, DemocraticBucket, Electoral) == 55 &&
            BucketTotal(states, democrat, republican, RepublicanBucket, Electoral) == 38 &&
            BucketTotal(states, democrat, republican, OtherBucket, Electoral) == 0
  {
    var states := Dataset2020()[0].states;
    var democrat, republican := Some(Candidate(1, "A", "Democrat")), Some(Candidate(2, "B", "Republican"));
    var ca, tx := states[0], states[1];
    assert ca.results[..1][..0] == [] && tx.results[..1][..0] == [];
    assert states[..1] == [ca] && [ca][..0] == [];
    assert RowsTotal(ca.results, Electoral) == 55;
    assert RowsTotal(tx.results, Electoral) == 38;
    assert RowsBucketTotal(ca.results, democrat, republican, DemocraticBucket, Electoral) == 55;
    assert RowsBucketTotal(tx.results, democrat, republican, DemocraticBucket, Electoral) == 0;
    assert RowsBucketTotal(ca.results, democrat, republican, RepublicanBucket, Electoral) == 0;
    assert RowsBucketTotal(tx.results, democrat, republican, RepublicanBucket, Electoral) == 38;
    assert RowsBucketTotal(ca.results, democrat, republican, OtherBucket, Electoral) == 0;
    assert RowsBucketTotal(tx.results, democrat, republican, OtherBucket, Electoral) == 0;
  }

  /** Electoral shares are 55/93 and 38/93 of 100, and nothing for Other. */
  lemma ElectoralShares2020()
    ensures ExpectedShares(Dataset2020(), 2020, Electoral) == Shares(5500.0 / 93.0, 3800.0 / 93.0, 0.0)
  {
    Candidates2020();
    ElectoralBuckets2020();
  }

  /** The Republican electoral sum is 38. */
  lemma RepublicanElectoralVotes2020()
    ensures GetVotesByYearAndParty(Dataset2020(), 2020, "Republican", Electoral) == 38
  {
    Candidates2020();
    ElectoralBuckets2020();
    BucketIsMatchingTotal(Dataset2020()[0].states, Some(Candidate(1, "A", "Democrat")),
                          Some(Candidate(2, "B", "Republican")), Electoral);
  }

  /** An unknown year finds no election and yields no shares and no
      per-party votes. */
  lemma UnknownYear1776(kind: VoteKind)
    ensures GetElectionByYear(Dataset2020(), 1776) == None
    ensures ExpectedShares(Dataset2020(), 1776, kind) == NoShares
    ensures GetVotesByYearAndParty(Dataset2020(), 1776, "Democrat", kind) == 0
  {
    assert GetAllYears(Dataset2020()) == [2020];
  }

  /** The per-state entries of 2020: the popular votes of each party's row. */
  lemma StateEntries2020(abbreviationToName: string -> string)
    ensures var states := Dataset2020()[0].states;
            var democrat, republican := Some(Candidate(1, "A", "Democrat")), Some(Candidate(2, "B", "Republican"));
            StateEntry(states[0], democrat, republican, abbreviationToName) ==
              StateVoteResult(abbreviationToName("CA"), 11000000, 6000000) &&
            StateEntry(states[1], democrat, republican, abbreviationToName) ==
              StateVoteResult(abbreviationToName("TX"), 5200000, 5900000)
  {
    var states := Dataset2020()[0].states;
    var democrat, republican := Some(Candidate(1, "A", "Democrat")), Some(Candidate(2, "B", "Republican"));
    assert FirstIndex(states[0].results, RowOf(republican)) == 1;
    assert FirstIndex(states[1].results, RowOf(republican)) == 1;
  }

  /** The row of candidate 99, who is no candidate of the election, is counted
      in the total and entirely in Other. */
  lemma ThirdPartyCountsAsOther()
    ensures var states := DatasetWithThirdParty()[0].states;
            var democrat, republican := Some(Candidate(1, "A", "Democrat")), Some(Candidate(2, "B", "Republican"));
            ElectionTotal(states, Electoral) == 100 &&
            BucketTotal(states, democrat, republican, OtherBucket, Electoral) == 7
  {
    var states := DatasetWithThirdParty()[0].states;
    var democrat, republican := Some(Candidate(1, "A", "Democrat")), Some(Candidate(2, "B", "Republican"));
    var ca, tx := states[0], states[1];
    assert ca.results[..1][..0] == [] && tx.results[..2][..1][..0] == [] && tx.results[..2][..1] == tx.results[..1];
    assert states[..1] == [ca] && [ca][..0] == [];
    assert RowsTotal(ca.results, Electoral) == 55;
    assert RowsTotal(tx.results, Electoral) == 45;
    assert RowsBucketTotal(ca.results, democrat, republican, OtherBucket, Electoral) == 0;
    assert RowsBucketTotal(tx.results, democrat, republican, OtherBucket, Electoral) == 7;
  }
}
